/**
 * A boot writes the configuration only where Python's `==` sees a change (deploy/entrypoint.sh:286-291
 * and 336-339), so the file may differ from what it computed by `true` and 1, or `false` and 0. What
 * the overlay does to such a file, as the doctor sees it.
 */
module BootWrites {
  import opened Json
  import opened OpenclawTemplate
  import opened JsonPaths
  import opened ConformancePaths
  import opened LoosePaths
  import opened ModelOverrides
  import opened OverlayApply
  import opened OverlayEffects
  import opened BootSteps
  import opened BootDropped
  import opened BootRest

  /** The file after a step: rewritten only when `new != old`. */
  function Kept(new_: J, old_: J): J {
    if LooseEq(new_, old_) then old_ else new_
  }

  lemma KeptLoose(new_: J, old_: J)
    ensures LooseEq(new_, Kept(new_, old_))
  {
    LooseEqReflexive(new_);
  }

  // ---------------------------------------------------------------------------------------
  // Equal configurations under one overlay
  // ---------------------------------------------------------------------------------------

  lemma LoosePutIf(a: J, b: J, p: seq<Step>, coerce: bool, patch: Option<map<string, J>>)
    requires LooseEq(a, b)
    ensures LooseEq(PutIf(a, p, coerce, patch), PutIf(b, p, coerce, patch))
  {
    if patch.Some? {
      LooseEqReflexive(Obj(patch.value));
      LoosePut(a, b, p, coerce, patch.value, patch.value);
    }
  }

  lemma LooseApplyRef(a: J, b: J, ref: string, props: J)
    requires LooseEq(a, b)
    ensures LooseEq(ApplyRef(a, ref, props), ApplyRef(b, ref, props))
  {
    LooseGet(a, b, EntryPath(ref));
    if props.Obj? && Registered(a, ref) {
      var plain := PlainPatch(props.fields);
      var cost, params := SubPatch(props.fields, "cost"), SubPatch(props.fields, "params");
      var e, k, q := EntryPath(ref), CostPath(ref), ParamsPath(ref);
      LoosePutIf(a, b, e, false, Some(plain));
      var a1, b1 := Put(a, e, false, plain), Put(b, e, false, plain);
      LoosePutIf(a1, b1, k, true, cost);
      LoosePutIf(PutIf(a1, k, true, cost), PutIf(b1, k, true, cost), q, false, params);
    }
  }

  lemma {:induction false} LooseApplyAll(a: J, b: J, o: Overlay, refs: set<string>)
    requires LooseEq(a, b) && ProperRefs(o) && refs <= o.Keys
    ensures LooseEq(ApplyAll(a, o, refs), ApplyAll(b, o, refs))
    decreases |refs|
  {
    if refs != {} {
      var first :| first in refs;
      ApplyAnyFirst(a, o, refs, first);
      ApplyAnyFirst(b, o, refs, first);
      LooseApplyRef(a, b, first, o[first]);
      LooseApplyAll(ApplyRef(a, first, o[first]), ApplyRef(b, first, o[first]), o, refs - {first});
    }
  }

  lemma LooseSmoothFor(a: J, b: J, ref: string, props: J)
    requires LooseEq(a, b)
    ensures SmoothFor(a, ref, props) <==> SmoothFor(b, ref, props)
  {
    LooseSmooth(a, b, EntryPath(ref), false);
    LooseSmooth(a, b, CostPath(ref), true);
    LooseSmooth(a, b, ParamsPath(ref), false);
  }

  // ---------------------------------------------------------------------------------------
  // Overrides of models the template does not know
  // ---------------------------------------------------------------------------------------

  lemma PutExtraBackIf(t: J, w: J, r: J, p: seq<Step>, coerce: bool, patch: Option<map<string, J>>)
    requires Conforms(t, w) && LooseEq(w, r) && Lacks(t, p) && IdentifiedAlong(t, p)
    requires patch.Some? ==> KeepsIds(p, patch.value)
    ensures Conforms(t, PutIf(w, p, coerce, patch)) && LooseEq(PutIf(w, p, coerce, patch), PutIf(r, p, coerce, patch))
    ensures Conforms(t, PutIf(r, p, coerce, patch)) ==> Conforms(t, r)
  {
    LoosePutIf(w, r, p, coerce, patch);
    if patch.Some? {
      PutExtra(t, w, p, coerce, patch.value);
      if Conforms(t, Put(r, p, coerce, patch.value)) { PutExtraBack(t, w, r, p, coerce, patch.value); }
    }
  }

  lemma PatchesKeepIds(ref: string, plain: map<string, J>, cost: Option<map<string, J>>,
                       params: Option<map<string, J>>)
    requires "id" !in plain
    ensures KeepsIds(EntryPath(ref), plain) && (cost.Some? ==> KeepsIds(CostPath(ref), cost.value))
    ensures params.Some? ==> KeepsIds(ParamsPath(ref), params.value)
  {
    PathsKeepIds(ref, plain);
    if cost.Some? { PathsKeepIds(ref, cost.value); }
    if params.Some? { PathsKeepIds(ref, params.value); }
  }

  lemma UnknownPatchesBack(t: J, w: J, r: J, ref: string, plain: map<string, J>, cost: Option<map<string, J>>,
                           params: Option<map<string, J>>, props: J)
    requires Conforms(t, w) && LooseEq(w, r) && TemplateReady(t, ref, props) && !Registered(t, ref) && "id" !in plain
    requires Conforms(t, Patches(r, ref, plain, cost, params))
    ensures Conforms(t, r)
  {
    var e, k, q := EntryPath(ref), CostPath(ref), ParamsPath(ref);
    UnknownLacks(t, ref, props);
    PatchesKeepIds(ref, plain, cost, params);
    PutExtraBackIf(t, w, r, e, false, Some(plain));
    SubsBack(t, Put(w, e, false, plain), Put(r, e, false, plain), k, cost, q, params);
  }

  lemma SubsBack(t: J, w: J, r: J, k: seq<Step>, cost: Option<map<string, J>>, q: seq<Step>,
                 params: Option<map<string, J>>)
    requires Conforms(t, w) && LooseEq(w, r)
    requires Lacks(t, k) && IdentifiedAlong(t, k) && (cost.Some? ==> KeepsIds(k, cost.value))
    requires Lacks(t, q) && IdentifiedAlong(t, q) && (params.Some? ==> KeepsIds(q, params.value))
    requires Conforms(t, PutIf(PutIf(r, k, true, cost), q, false, params))
    ensures Conforms(t, r)
  {
    PutExtraBackIf(t, w, r, k, true, cost);
    PutExtraBackIf(t, PutIf(w, k, true, cost), PutIf(r, k, true, cost), q, false, params);
  }

  lemma UnknownRefBack(t: J, w: J, r: J, ref: string, props: map<string, J>)
    requires Conforms(t, w) && LooseEq(w, r) && TemplateReady(t, ref, Obj(props)) && !Registered(t, ref)
    requires Registered(r, ref) && Conforms(t, ApplyRef(r, ref, Obj(props)))
    ensures Conforms(t, r)
  {
    Applied(r, ref, props);
    PlainSpares(props);
    UnknownPatchesBack(t, w, r, ref, PlainPatch(props), SubPatch(props, "cost"), SubPatch(props, "params"), Obj(props));
  }

  /** Such an override makes no difference to the doctor. */
  lemma UnknownModelBack(t: J, w: J, r: J, ref: string, props: J)
    requires Conforms(t, w) && LooseEq(w, r) && TemplateReady(t, ref, props) && !Registered(t, ref)
    ensures Conforms(t, ApplyRef(r, ref, props)) <==> Conforms(t, r)
  {
    if Conforms(t, r) {
      UnknownModel(t, r, ref, props);
    } else if props.Obj? && Registered(r, ref) {
      if Conforms(t, ApplyRef(r, ref, props)) { UnknownRefBack(t, w, r, ref, props.fields); }
    }
  }

  lemma {:induction false} UnknownModelsBack(t: J, w: J, r: J, o: Overlay, refs: set<string>)
    requires Conforms(t, w) && LooseEq(w, r) && ProperRefs(o) && refs <= o.Keys
    requires forall ref | ref in refs :: TemplateReady(t, ref, o[ref]) && !Registered(t, ref)
    ensures Conforms(t, ApplyAll(r, o, refs)) <==> Conforms(t, r)
    decreases |refs|
  {
    if refs != {} {
      var first :| first in refs;
      ApplyAnyFirst(r, o, refs, first);
      UnknownModelBack(t, w, r, first, o[first]);
      UnknownModel(t, w, first, o[first]);
      LooseApplyRef(w, r, first, o[first]);
      UnknownModelsBack(t, ApplyRef(w, first, o[first]), ApplyRef(r, first, o[first]), o, refs - {first});
    }
  }

  // ---------------------------------------------------------------------------------------
  // The overlay written
  // ---------------------------------------------------------------------------------------

  /** Part of an overlay. */
  predicate PartOf(v: Overlay, o: Overlay) {
    v.Keys <= o.Keys && forall ref | ref in v :: v[ref] == o[ref]
  }

  function Restricted(o: Overlay, refs: set<string>): Overlay {
    map ref | ref in o && ref in refs :: o[ref]
  }

  /** Overlays of different models may be applied in either order. */
  lemma OverlaysSwap(c: J, a: Overlay, refs: set<string>, b: Overlay)
    requires ProperRefs(a) && refs <= a.Keys && refs !! b.Keys && AllApart(refs + b.Keys)
    ensures ApplyAll(ApplyAll(c, a, refs), b, b.Keys) == ApplyAll(ApplyAll(c, b, b.Keys), a, refs)
  {
    var both := Restricted(a, refs) + b;
    assert both.Keys == refs + b.Keys && refs + b.Keys == b.Keys + refs;
    ApplyAllSplit(c, both, refs, b.Keys);
    ApplyAllSplit(c, both, b.Keys, refs);
    ApplyAllAgree(c, both, a, refs);
    ApplyAllAgree(ApplyAll(c, b, b.Keys), both, a, refs);
    ApplyAllAgree(c, both, b, b.Keys);
    ApplyAllAgree(ApplyAll(c, a, refs), both, b, b.Keys);
  }

  /** Blanking hides what was written at the blanked places; the other models' overrides stay. */
  lemma BlankHides(h: J, v: Overlay, blank: Overlay)
    requires ProperRefs(v) && ProperRefs(blank) && AllApart(v.Keys + blank.Keys)
    requires forall ref | ref in v && ref in blank ::
               v[ref].Obj? && blank[ref].Obj? && SameKeys(v[ref].fields, blank[ref].fields)
    ensures ApplyAll(ApplyAll(h, v, v.Keys), blank, blank.Keys) ==
            ApplyAll(ApplyAll(h, blank, blank.Keys), v, v.Keys - blank.Keys)
  {
    var u, k := v.Keys - blank.Keys, v.Keys * blank.Keys;
    var known := Restricted(v, k);
    assert u + k == v.Keys && known.Keys == k;
    ApplyAllSplit(h, v, u, k);
    ApplyAllAgree(ApplyAll(h, v, u), v, known, k);
    AllAgain(ApplyAll(h, v, u), known, blank);
    OverlaysSwap(h, v, u, blank);
  }

  /** What the boot's overlay step works with. */
  ghost predicate Prepared(t: J, g: J, h: J, o: Overlay, v: Overlay) {
    && t.Obj? && OverlayReady(t, o) && PartOf(v, o) && ValidOverlay(v)
    && Conforms(t, g) && LooseEq(g, h)
    && forall ref | ref in v :: SmoothFor(h, ref, v[ref])
  }

  /** The other models' overrides make no difference on top of the blanked ones. */
  lemma OthersMakeNoDifference(t: J, g: J, h: J, o: Overlay, v: Overlay, blank: Overlay)
    requires Prepared(t, g, h, o, v) && blank.Keys == Known(t, o).Keys
    requires OverlayReady(t, blank) && OverlaySmooth(h, blank) && OverlayMetBy(blank, blank)
    ensures Conforms(ApplyAll(t, blank, blank.Keys), ApplyAll(ApplyAll(h, blank, blank.Keys), v, v.Keys - blank.Keys))
       <==> Conforms(ApplyAll(t, blank, blank.Keys), ApplyAll(h, blank, blank.Keys))
  {
    var tb := ApplyAll(t, blank, blank.Keys);
    BlankedPartner(t, g, h, blank);
    forall ref | ref in v.Keys - blank.Keys ensures TemplateReady(tb, ref, v[ref]) && !Registered(tb, ref) {
      assert ValidProps(v[ref]);
      StillReady(t, blank, blank.Keys, ref, v[ref]);
    }
    UnknownModelsBack(tb, ApplyAll(g, blank, blank.Keys), ApplyAll(h, blank, blank.Keys), v, v.Keys - blank.Keys);
  }

  lemma BlankReady(t: J, h: J, k: Overlay)
    requires AllKnown(t, k) && OverlaySmooth(h, k)
    ensures OverlayReady(t, Blank(k)) && OverlaySmooth(h, Blank(k)) && OverlayMetBy(Blank(k), Blank(k))
  {
    BlankFacts(t, k);
    SameSetsReady(t, h, k, Blank(k));
  }

  lemma BlankShapes(t: J, o: Overlay, v: Overlay, blank: Overlay)
    requires OverlayReady(t, o) && PartOf(v, o) && blank == Blank(Known(t, o))
    ensures ProperRefs(v) && ProperRefs(blank) && AllApart(v.Keys + blank.Keys)
    ensures forall ref | ref in v && ref in blank ::
              v[ref].Obj? && blank[ref].Obj? && SameKeys(v[ref].fields, blank[ref].fields)
  {
    KnownIsKnown(t, o);
    BlankFacts(t, Known(t, o));
    assert v.Keys + blank.Keys <= o.Keys;
    forall ref | ref in v && ref in blank ensures v[ref] == Known(t, o)[ref] {
    }
  }

  lemma BlankHidesKnown(t: J, h: J, o: Overlay, v: Overlay)
    requires OverlayReady(t, o) && PartOf(v, o)
    ensures var blank := Blank(Known(t, o));
            ApplyAll(ApplyAll(h, v, v.Keys), blank, blank.Keys) ==
            ApplyAll(ApplyAll(h, blank, blank.Keys), v, v.Keys - blank.Keys)
  {
    BlankShapes(t, o, v, Blank(Known(t, o)));
    BlankHides(h, v, Blank(Known(t, o)));
  }

  /** Writing the overlay does not change whether the rest is met. */
  lemma RestAfterOverlay(t: J, g: J, h: J, o: Overlay, v: Overlay)
    requires Prepared(t, g, h, o, v) && OverlaySmooth(h, Known(t, o))
    ensures RestMet(t, o, ApplyAll(h, v, v.Keys)) <==> RestMet(t, o, h)
  {
    KnownIsKnown(t, o);
    BlankReady(t, h, Known(t, o));
    BlankHidesKnown(t, h, o, v);
    OthersMakeNoDifference(t, g, h, o, v, Blank(Known(t, o)));
  }

  lemma BlankedPartner(t: J, g: J, h: J, blank: Overlay)
    requires Conforms(t, g) && LooseEq(g, h) && OverlayReady(t, blank) && OverlaySmooth(h, blank)
    requires OverlayMetBy(blank, blank)
    ensures Conforms(ApplyAll(t, blank, blank.Keys), ApplyAll(g, blank, blank.Keys))
    ensures LooseEq(ApplyAll(g, blank, blank.Keys), ApplyAll(h, blank, blank.Keys))
  {
    forall ref | ref in blank ensures SmoothFor(g, ref, blank[ref]) { LooseSmoothFor(g, h, ref, blank[ref]); }
    AllConform(t, g, blank, blank, blank.Keys);
    LooseApplyAll(g, h, blank, blank.Keys);
  }

  lemma SetIsHad(r: J, p: seq<Step>, patch: Option<map<string, J>>)
    requires AsksFor(r, p, patch) && (patch.Some? ==> MetBy(patch.value, patch.value))
    ensures Has(r, p, patch)
  {
  }

  /** A valid override of a model of the configuration is carried once it is applied. */
  lemma AppliedIsCarried(h: J, ref: string, props: J)
    requires ValidProps(props) && Registered(h, ref) && SmoothFor(h, ref, props)
    ensures Carries(ApplyRef(h, ref, props), ref, props.fields)
  {
    var r := ApplyRef(h, ref, props);
    ValidMeetsItself(props);
    PlainAskedAt(h, ref, props.fields);
    SetIsHad(r, EntryPath(ref), Some(PlainPatch(props.fields)));
    CostAskedAt(h, ref, props.fields);
    SetIsHad(r, CostPath(ref), SubPatch(props.fields, "cost"));
    ParamsAskedAt(h, ref, props.fields);
    SetIsHad(r, ParamsPath(ref), SubPatch(props.fields, "params"));
  }

  lemma WrittenIsCarried(h: J, v: Overlay, ref: string)
    requires OverlaySmooth(h, v) && ref in v && ValidProps(v[ref]) && Registered(h, ref)
    ensures Carries(ApplyAll(h, v, v.Keys), ref, v[ref].fields)
  {
    SmoothApplies(h, v);
    SmoothRaisesNothing(h, ref, v[ref]);
    EachOverrideLands(h, v, ref, EntryPath(ref));
    EachOverrideLands(h, v, ref, CostPath(ref));
    EachOverrideLands(h, v, ref, ParamsPath(ref));
    AppliedIsCarried(h, ref, v[ref]);
    CarriesSame(ApplyRef(h, ref, v[ref]), ApplyAll(h, v, v.Keys), ref, v[ref].fields);
  }

  /** Overrides in the file that were not applied, of models of the template. */
  predicate Pending(t: J, o: Overlay, v: Overlay, ref: string) {
    ref in o && ref !in v && Registered(t, ref) && o[ref].Obj?
  }

  predicate PendingCarried(t: J, o: Overlay, v: Overlay, r: J) {
    forall ref | ref in o && Pending(t, o, v, ref) :: Carries(r, ref, o[ref].fields)
  }

  /** With the overlay written, what remains to be carried is what was not applied. */
  lemma CarriesAfterOverlay(t: J, g: J, h: J, o: Overlay, v: Overlay)
    requires Prepared(t, g, h, o, v)
    ensures CarriesAll(t, o, ApplyAll(h, v, v.Keys)) <==>
            PendingCarried(t, o, v, h)
  {
    forall ref | ref in o && Registered(t, ref) && o[ref].Obj?
      ensures Carries(ApplyAll(h, v, v.Keys), ref, o[ref].fields) <==> ref in v || Carries(h, ref, o[ref].fields)
    {
      if ref in v {
        ConformingHas(t, g, EntryPath(ref));
        LooseGet(g, h, EntryPath(ref));
        WrittenIsCarried(h, v, ref);
      } else {
        CarriedAlike(h, v, v.Keys, ref, o[ref].fields);
      }
    }
    assert forall ref | Pending(t, o, v, ref) :: ref in o && Registered(t, ref) && o[ref].Obj?;
  }

  /** The configuration after the overlay step. */
  ghost function Overlaid(h: J, v: Overlay): J {
    Kept(ApplyAll(h, v, v.Keys), h)
  }

  /** The overrides just applied are carried whether or not the file was rewritten for them. */
  predicate AppliedCarried(t: J, h: J, v: Overlay) {
    forall ref | ref in v && Registered(t, ref) && v[ref].Obj? :: Carries(h, ref, v[ref].fields)
  }

  /**
   * The doctor's check after the overlay step: what is pending is carried by the file the step found,
   * so is what the step did not bother to write, and the rest of the template is met by that file.
   */
  lemma CheckAfterOverlay(t: J, g: J, h: J, o: Overlay, v: Overlay)
    requires Prepared(t, g, h, o, v)
    ensures Conforms(ApplyAll(t, o, o.Keys), Overlaid(h, v)) <==>
              && PendingCarried(t, o, v, h)
              && (LooseEq(ApplyAll(h, v, v.Keys), h) ==> AppliedCarried(t, h, v))
              && RestMet(t, o, h)
  {
    DoctorAsks(t, o, Overlaid(h, v));
    if LooseEq(ApplyAll(h, v, v.Keys), h) {
      CarriesSplit(t, o, v, h);
    } else {
      CarriesAfterOverlay(t, g, h, o, v);
      if PendingCarried(t, o, v, h) {
        KnownSmooth(t, g, h, o, v);
        RestAfterOverlay(t, g, h, o, v);
      }
    }
  }

  lemma CarriesSplit(t: J, o: Overlay, v: Overlay, h: J)
    requires PartOf(v, o)
    ensures CarriesAll(t, o, h) <==> PendingCarried(t, o, v, h) && AppliedCarried(t, h, v)
  {
    if PendingCarried(t, o, v, h) && AppliedCarried(t, h, v) {
      forall ref | ref in o && Registered(t, ref) && o[ref].Obj? ensures Carries(h, ref, o[ref].fields) {
        assert ref in v || Pending(t, o, v, ref);
      }
    }
  }

  lemma KnownSmooth(t: J, g: J, h: J, o: Overlay, v: Overlay)
    requires Prepared(t, g, h, o, v) && PendingCarried(t, o, v, h)
    ensures OverlaySmooth(h, Known(t, o))
  {
    forall ref | ref in Known(t, o) ensures SmoothFor(h, ref, o[ref]) {
      if ref !in v {
        assert Pending(t, o, v, ref);
        CarriesSmooth(h, ref, o[ref].fields);
      }
    }
  }
}
