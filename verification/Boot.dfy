/** One container boot (render, heal, list origins, apply overrides) and the doctor's template check, end to end. */
module Boot {
  import opened Json
  import opened OpenclawTemplate
  import opened TemplateLaws
  import opened TemplateRendering
  import opened JsonPaths
  import opened ModelOverrides
  import opened OverlayApply
  import opened BootSteps
  import opened BootOrigins
  import opened BootRest
  import opened BootWrites

  /**
   * The configuration file before the overlay step: healed towards the rendered template, unless that
   * makes no difference to Python, and with the origins of the published port listed.
   */
  function Healed(template: J, env: map<string, string>, live: J, wanted: seq<string>): Option<J>
    requires Render(template, env).Some?
  {
    ExtendOrigins(Kept(Reconcile(Render(template, env).value, live), live), wanted)
  }

  /**
   * The configuration a boot leaves; a missing or corrupt persisted file counts as `Null`. The boot dies
   * when validating the overlay raises.
   */
  ghost function BootConfig(template: J, env: map<string, string>, live: J, wanted: seq<string>, o: Overlay): Option<J>
    requires Render(template, env).Some?
  {
    var healed := Healed(template, env, live, wanted);
    if healed.None? || OverlayOverflows(o) then None
    else
      var overlaid := Apply(healed.value, ValidPart(o));
      if overlaid.None? then None else Some(Kept(overlaid.value, healed.value))
  }

  /** The overlay file afterwards: the boot moves invalid entries out of it, unless the move fails. */
  function OverlayFile(o: Overlay, moved: bool): Overlay {
    if moved then ValidPart(o) else o
  }

  /** The baseline of the doctor's check: the raw template under everything in the overlay file. */
  ghost function DoctorBaseline(template: J, o: Overlay): Option<J> {
    Apply(template, o)
  }

  /** A template like the shipped one: placeholders as values only, and the allow-list declared. */
  predicate Golden(template: J, env: map<string, string>) {
    && WellFormed(template) && template.Obj? && PlaceholdersAreValues(template) && Render(template, env).Some?
    && var origins := Get(template, ORIGINS_PATH); origins.Some? && origins.value.Arr?
  }

  /** Dictionaries on the ways of the overrides that are applied, wherever the template is silent. */
  predicate LiveBootable(rendered: J, live: J, o: Overlay) {
    forall ref | ref in ValidPart(o) :: LiveReady(rendered, live, ref, o[ref])
  }

  predicate Bootable(template: J, env: map<string, string>, live: J, o: Overlay) {
    Golden(template, env) && OverlayReady(template, o) && LiveBootable(Render(template, env).value, live, o)
  }

  /** The doctor finds nothing to complain about. */
  ghost predicate Passes(template: J, o: Overlay, boot: Option<J>) {
    && DoctorBaseline(template, o).Some? && boot.Some?
    && Conforms(DoctorBaseline(template, o).value, boot.value)
  }

  /** The boot takes the persisted configuration for conformant: Python sees no difference to the healed one. */
  predicate HealingSkipped(template: J, env: map<string, string>, live: J)
    requires Render(template, env).Some?
  {
    LooseEq(Reconcile(Render(template, env).value, live), live)
  }

  /** Nor does it see one when the valid overrides are applied. */
  ghost predicate OverlaySkipped(healed: J, v: Overlay) {
    LooseEq(ApplyAll(healed, v, v.Keys), healed)
  }

  /**
   * After a boot, whatever the persisted configuration and the overlay hold, the doctor's check passes
   * if and only if no price or parameter is beyond the float range; the invalid entries were moved away,
   * or the file carries the values of each that names a model of the template; when healing was skipped,
   * the persisted file meets what the template asks for besides the overridden values; and when the
   * overlay was not written, the file carries the values of the template's models.
   */
  lemma BootPassesDoctor(template: J, env: map<string, string>, live: J, wanted: seq<string>, o: Overlay, moved: bool)
    requires Bootable(template, env, live, o)
    ensures Healed(template, env, live, wanted).Some?
    ensures var healed, v := Healed(template, env, live, wanted).value, ValidPart(o);
            Passes(template, OverlayFile(o, moved), BootConfig(template, env, live, wanted, o)) <==>
              && !OverlayOverflows(o)
              && (moved || PendingCarried(template, o, v, healed))
              && (HealingSkipped(template, env, live) ==> RestMet(template, OverlayFile(o, moved), healed))
              && (OverlaySkipped(healed, v) ==> AppliedCarried(template, healed, v))
  {
    var g := Ideal(template, env, live, wanted, o);
    var healed, v := Healed(template, env, live, wanted).value, ValidPart(o);
    FileReady(template, o, moved);
    BootIs(template, env, live, wanted, o);
    DoctorVerdict(template, g, healed, o, moved, HealingSkipped(template, env, live));
  }

  /** The last step of the boot. */
  lemma BootIs(template: J, env: map<string, string>, live: J, wanted: seq<string>, o: Overlay)
    requires Render(template, env).Some? && Healed(template, env, live, wanted).Some?
    requires OverlaySmooth(Healed(template, env, live, wanted).value, ValidPart(o))
    ensures BootConfig(template, env, live, wanted, o) ==
            if OverlayOverflows(o) then None
            else Some(Overlaid(Healed(template, env, live, wanted).value, ValidPart(o)))
  {
    SmoothApplies(Healed(template, env, live, wanted).value, ValidPart(o));
  }

  lemma PendingInFile(t: J, o: Overlay, moved: bool, r: J)
    ensures PendingCarried(t, OverlayFile(o, moved), ValidPart(o), r) <==>
            moved || PendingCarried(t, o, ValidPart(o), r)
  {
  }

  /** The doctor's verdict on what the overlay step leaves of a file that equals a conforming one. */
  lemma DoctorVerdict(t: J, g: J, healed: J, o: Overlay, moved: bool, skipped: bool)
    requires Prepared(t, g, healed, OverlayFile(o, moved), ValidPart(o)) && (!skipped ==> g == healed)
    ensures var file, v := OverlayFile(o, moved), ValidPart(o);
            Passes(t, file, if OverlayOverflows(o) then None else Some(Overlaid(healed, v))) <==>
              && !OverlayOverflows(o)
              && (moved || PendingCarried(t, o, v, healed))
              && (skipped ==> RestMet(t, file, healed))
              && (OverlaySkipped(healed, v) ==> AppliedCarried(t, healed, v))
  {
    var file, v := OverlayFile(o, moved), ValidPart(o);
    SmoothApplies(t, file);
    PendingInFile(t, o, moved, healed);
    FileVerdict(t, g, healed, file, v, skipped);
  }

  lemma FileVerdict(t: J, g: J, healed: J, file: Overlay, v: Overlay, skipped: bool)
    requires Prepared(t, g, healed, file, v) && (!skipped ==> g == healed)
    ensures Conforms(ApplyAll(t, file, file.Keys), Overlaid(healed, v)) <==>
              && PendingCarried(t, file, v, healed)
              && (skipped ==> RestMet(t, file, healed))
              && (OverlaySkipped(healed, v) ==> AppliedCarried(t, healed, v))
  {
    CheckAfterOverlay(t, g, healed, file, v);
    if !skipped && PendingCarried(t, file, v, healed) { HealedMeetsRest(t, g, healed, file, v); }
  }

  /** The boot dies only of validating the overlay; the doctor's baseline never meets a type error. */
  lemma BootSucceeds(template: J, env: map<string, string>, live: J, wanted: seq<string>, o: Overlay, moved: bool)
    requires Bootable(template, env, live, o)
    ensures Healed(template, env, live, wanted).Some?
    ensures BootConfig(template, env, live, wanted, o).Some? <==> !OverlayOverflows(o)
    ensures DoctorBaseline(template, OverlayFile(o, moved)).Some?
  {
    var g := Ideal(template, env, live, wanted, o);
    FileReady(template, o, moved);
    SmoothApplies(template, OverlayFile(o, moved));
    BootIs(template, env, live, wanted, o);
  }

  lemma FileReady(template: J, o: Overlay, moved: bool)
    requires OverlayReady(template, o)
    ensures OverlayReady(template, OverlayFile(o, moved)) && ProperRefs(ValidPart(o))
    ensures PartOf(ValidPart(o), OverlayFile(o, moved)) && ValidOverlay(ValidPart(o))
  {
  }

  /** A healed file that was written conforms, so it meets the rest too. */
  lemma HealedMeetsRest(t: J, g: J, healed: J, file: Overlay, v: Overlay)
    requires Prepared(t, g, healed, file, v) && g == healed && PendingCarried(t, file, v, healed)
    ensures RestMet(t, file, healed)
  {
    KnownSmooth(t, g, healed, file, v);
    KnownIsKnown(t, file);
    BlankBoth(t, healed, Known(t, file));
    KnownAlike(t, file, healed);
  }

  /** What healing would leave if it always wrote: it conforms, and Python does not tell the file from it. */
  lemma Ideal(template: J, env: map<string, string>, live: J, wanted: seq<string>, o: Overlay) returns (g: J)
    requires Bootable(template, env, live, o)
    ensures Healed(template, env, live, wanted).Some?
    ensures var healed := Healed(template, env, live, wanted).value;
            && Conforms(template, g) && LooseEq(g, healed)
            && (!HealingSkipped(template, env, live) ==> g == healed)
            && OverlaySmooth(healed, ValidPart(o))
  {
    var r := Reconcile(Render(template, env).value, live);
    HealedConformsToRaw(template, env, live);
    OriginsExtendable(template, r, wanted);
    OriginsConform(template, r, wanted);
    g := ExtendOrigins(r, wanted).value;
    KeptLoose(r, live);
    LooseOrigins(r, Kept(r, live), wanted);
    var healed := Healed(template, env, live, wanted).value;
    forall ref | ref in ValidPart(o) ensures SmoothFor(healed, ref, o[ref]) {
      ReconciledSmooth(template, env, live, ref, o[ref]);
      OriginsSmooth(r, wanted, ref, o[ref]);
      LooseSmoothFor(g, healed, ref, o[ref]);
    }
  }

  lemma OriginsSmooth(r: J, wanted: seq<string>, ref: string, props: J)
    requires ExtendOrigins(r, wanted).Some? && SmoothFor(r, ref, props)
    ensures SmoothFor(ExtendOrigins(r, wanted).value, ref, props)
  {
    OriginsElsewhere(r, wanted, EntryPath(ref), false);
    OriginsElsewhere(r, wanted, CostPath(ref), true);
    OriginsElsewhere(r, wanted, ParamsPath(ref), false);
  }
}
