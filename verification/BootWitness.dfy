/**
 * Boots that the doctor complains about, and one that dies: an invalid override that could not be moved
 * out of the overlay file, a 1 that Python takes for the template's or the override's `true`, and a
 * price too large for a float.
 */
module BootWitness {
  import opened Json
  import opened OpenclawTemplate
  import opened TemplateLaws
  import opened TemplateRendering
  import opened JsonPaths
  import opened ConformancePaths
  import opened LoosePaths
  import opened ModelOverrides
  import opened OverlayApply
  import opened OverlayWitness
  import opened BootSteps
  import opened BootOrigins
  import opened BootDropped
  import opened BootRest
  import opened BootWrites
  import opened Boot

  /** An overlay that asks for no tokens at all, which validation rejects. */
  function NoTokens(ref: string): Overlay {
    map[ref := Obj(map["maxTokens" := Int(0)])]
  }

  lemma {:induction false} RefIsSplit(p: string, m: string)
    requires '/' !in p
    ensures SplitRef(p + "/" + m) == (p, m)
    decreases |p|
  {
    var ref := p + "/" + m;
    if p == "" {
      assert ref[1..] == m;
    } else {
      assert ref[1..] == p[1..] + "/" + m;
      RefIsSplit(p[1..], m);
      assert [p[0]] + p[1..] == p;
    }
  }

  // ---------------------------------------------------------------------------------------
  // The template's paths
  // ---------------------------------------------------------------------------------------

  lemma OneModelReady(p: string, m: string, props: J)
    requires '/' !in p && !Sets(props, "params")
    ensures TemplateReady(OneModel(p, m), p + "/" + m, props)
    ensures Get(OneModel(p, m), EntryPath(p + "/" + m)) == Some(Entry(m))
  {
    RefIsSplit(p, m);
    EntrySteps(p + "/" + m, Entry(m), []);
    EntrySteps(p + "/" + m, Entry(m), [Make("cost")]);
    assert EntryPath(p + "/" + m) + [] == EntryPath(p + "/" + m);
    assert DefaultsPath(p + "/" + m)[0] == Make("agents");
  }

  lemma OneModelOrigins(p: string, m: string)
    ensures Get(OneModel(p, m), ORIGINS_PATH) == Some(Arr([]))
  {
    assert ORIGINS_PATH[1..] == [Make("controlUi"), Make("allowedOrigins")];
    assert ORIGINS_PATH[1..][1..] == [Make("allowedOrigins")];
    assert ORIGINS_PATH[1..][1..][1..] == [];
  }

  // ---------------------------------------------------------------------------------------
  // The template's text
  // ---------------------------------------------------------------------------------------

  predicate Plain(t: J) {
    PlaceholderFree(t) && WellFormed(t)
  }

  lemma {:induction false} WordIsPlain(s: string)
    requires '$' !in s
    ensures !HasPlaceholder(s)
    decreases |s|
  {
    if s != "" { WordIsPlain(s[1..]); }
  }

  lemma OneField(k: string, v: J)
    requires '$' !in k && Plain(v)
    ensures Plain(Obj(map[k := v]))
  {
    WordIsPlain(k);
  }

  lemma TwoFields(k: string, v: J, l: string, w: J)
    requires '$' !in k && Plain(v) && '$' !in l && Plain(w)
    ensures Plain(Obj(map[k := v, l := w]))
  {
    WordIsPlain(k);
    WordIsPlain(l);
  }

  lemma OneItem(e: J)
    requires Plain(e)
    ensures Plain(Arr([e]))
  {
  }

  lemma ProvidersPlain(p: string, m: string)
    requires '$' !in p && '$' !in m
    ensures Plain(Providers(p, Entry(m)))
  {
    WordIsPlain(m);
    OneField("id", Str(m));
    OneItem(Entry(m));
    OneField("models", Arr([Entry(m)]));
    OneField(p, Obj(map["models" := Arr([Entry(m)])]));
  }

  lemma GatewayPlain()
    ensures Plain(Gateway())
  {
    OneField("allowedOrigins", Arr([]));
    OneField("controlUi", Obj(map["allowedOrigins" := Arr([])]));
  }

  lemma OneModelPlain(p: string, m: string)
    requires '$' !in p && '$' !in m
    ensures Plain(OneModel(p, m))
  {
    ProvidersPlain(p, m);
    GatewayPlain();
    OneField("providers", Providers(p, Entry(m)));
    TwoFields("models", Obj(map["providers" := Providers(p, Entry(m))]), "gateway", Gateway());
  }

  lemma {:induction false} FreeIsValues(t: J)
    requires PlaceholderFree(t)
    ensures PlaceholdersAreValues(t) && ItemPlaceholders(t)
  {
    match t
    case Obj(tf) => forall k | k in tf ensures PlaceholdersAreValues(tf[k]) { FreeIsValues(tf[k]); }
    case Arr(ts) => forall i | 0 <= i < |ts| ensures ItemPlaceholders(ts[i]) { FreeIsValues(ts[i]); }
    case _ =>
  }

  // ---------------------------------------------------------------------------------------
  // Boots
  // ---------------------------------------------------------------------------------------

  /** The boot leaves a configuration, the doctor has a baseline, and its check fails. */
  ghost predicate Complains(template: J, live: J, o: Overlay, moved: bool) {
    && Bootable(template, map[], live, o)
    && BootConfig(template, map[], live, [], o).Some? && DoctorBaseline(template, OverlayFile(o, moved)).Some?
    && !Passes(template, OverlayFile(o, moved), BootConfig(template, map[], live, [], o))
  }

  lemma PlainGolden(t: J)
    requires Plain(t) && t.Obj? && Get(t, ORIGINS_PATH) == Some(Arr([]))
    ensures Golden(t, map[]) && Render(t, map[]) == Some(t)
  {
    FreeIsValues(t);
    RenderPlain(t, map[]);
  }

  lemma OneModelGolden(p: string, m: string)
    requires '$' !in p && '$' !in m
    ensures Golden(OneModel(p, m), map[]) && Render(OneModel(p, m), map[]) == Some(OneModel(p, m))
  {
    OneModelPlain(p, m);
    OneModelOrigins(p, m);
    PlainGolden(OneModel(p, m));
  }

  /** Overlays of one entry for the model. */
  lemma AloneBootable(p: string, m: string, live: J, props: J)
    requires '/' !in p && '$' !in p && '$' !in m && !Sets(props, "params")
    requires ValidProps(props) ==> LiveReady(OneModel(p, m), live, p + "/" + m, props)
    ensures Bootable(OneModel(p, m), map[], live, map[p + "/" + m := props])
  {
    OneModelGolden(p, m);
    OneModelReady(p, m, props);
    AloneReady(OneModel(p, m), live, p + "/" + m, props);
  }

  lemma AloneReady(t: J, live: J, ref: string, props: J)
    requires TemplateReady(t, ref, props) && (ValidProps(props) ==> LiveReady(t, live, ref, props))
    ensures OverlayReady(t, map[ref := props]) && LiveBootable(t, live, map[ref := props])
  {
  }

  // ---------------------------------------------------------------------------------------
  // An entry that stays in the file
  // ---------------------------------------------------------------------------------------

  lemma NoTokensInvalid(ref: string)
    ensures ValidPart(NoTokens(ref)) == map[] && !OverlayOverflows(NoTokens(ref))
  {
    var props := NoTokens(ref)[ref];
    assert props.fields["maxTokens"] == Int(0) && !ValidField("maxTokens", Int(0));
    assert !ValidProps(props) && !Overflows(props);
  }

  lemma NotHad(r: J, p: seq<Step>, entry: J, patch: map<string, J>, k: string)
    requires Get(r, p) == Some(entry) && entry.Obj? && k in patch
    requires k in entry.fields ==> !Conforms(patch[k], entry.fields[k])
    ensures !Has(r, p, Some(patch))
  {
  }

  lemma NoTokensUncarried(p: string, m: string)
    requires '/' !in p
    ensures var t, ref := OneModel(p, m), p + "/" + m;
            !PendingCarried(t, NoTokens(ref), ValidPart(NoTokens(ref)), t)
  {
    var t, ref := OneModel(p, m), p + "/" + m;
    var o := NoTokens(ref);
    NoTokensInvalid(ref);
    OneModelReady(p, m, o[ref]);
    assert "maxTokens" in PlainPatch(o[ref].fields);
    NotHad(t, EntryPath(ref), Entry(m), PlainPatch(o[ref].fields), "maxTokens");
    assert Pending(t, o, ValidPart(o), ref) && !Carries(t, ref, o[ref].fields);
  }

  lemma FirstBoot(t: J)
    requires t.Obj? && Render(t, map[]) == Some(t)
    ensures Healed(t, map[], Null, []) == Some(t)
  {
  }

  /** First boot, and the invalid entry could not be moved away: the doctor misses its value. */
  lemma FailingBoot(p: string, m: string)
    requires '/' !in p && '$' !in p && '$' !in m
    ensures Complains(OneModel(p, m), Null, NoTokens(p + "/" + m), false)
  {
    var t, ref := OneModel(p, m), p + "/" + m;
    NoTokensInvalid(ref);
    AloneBootable(p, m, Null, NoTokens(ref)[ref]);
    OneModelGolden(p, m);
    FirstBoot(t);
    NoTokensUncarried(p, m);
    BootSucceeds(t, map[], Null, [], NoTokens(ref), false);
    BootPassesDoctor(t, map[], Null, [], NoTokens(ref), false);
  }

  // ---------------------------------------------------------------------------------------
  // A 1 for a true
  // ---------------------------------------------------------------------------------------

  function Flagged(k: string, v: J): J {
    Obj(map[k := v, "gateway" := Gateway()])
  }

  lemma FlaggedGolden(k: string)
    requires '$' !in k && k != "gateway"
    ensures Golden(Flagged(k, Bool(true)), map[])
    ensures Render(Flagged(k, Bool(true)), map[]) == Some(Flagged(k, Bool(true)))
  {
    GatewayPlain();
    TwoFields(k, Bool(true), "gateway", Gateway());
    FlaggedOrigins(k);
    PlainGolden(Flagged(k, Bool(true)));
  }

  lemma FlaggedOrigins(k: string)
    requires k != "gateway"
    ensures Get(Flagged(k, Bool(true)), ORIGINS_PATH) == Some(Arr([]))
  {
    assert ORIGINS_PATH[1..] == [Make("controlUi"), Make("allowedOrigins")];
    assert ORIGINS_PATH[1..][1..] == [Make("allowedOrigins")];
    assert ORIGINS_PATH[1..][1..][1..] == [];
  }

  lemma FlagUnseen(k: string)
    requires k != "gateway"
    ensures LooseEq(Reconcile(Flagged(k, Bool(true)), Flagged(k, Int(1))), Flagged(k, Int(1)))
    ensures !Conforms(Flagged(k, Bool(true)), Flagged(k, Int(1)))
  {
    var t, live := Flagged(k, Bool(true)), Flagged(k, Int(1));
    GatewayPlain();
    SelfStable(Gateway());
    LooseEqReflexive(Gateway());
    var r := Reconcile(t, live);
    assert r.fields[k] == ReconcileKey(t, live, k) == Bool(true);
    assert r.fields["gateway"] == ReconcileKey(t, live, "gateway") == Gateway();
    assert !Conforms(t.fields[k], live.fields[k]);
  }

  lemma NothingToApply(t: J, r: J)
    ensures ValidPart(map[]) == map[] && !OverlayOverflows(map[]) && (RestMet(t, map[], r) <==> Conforms(t, r))
  {
    assert Blank(Known(t, map[])) == map[];
  }

  /** A persisted 1 under a flag that the template wants true: the boot sees nothing to heal, the doctor does. */
  lemma HiddenFlagBoot(k: string, moved: bool)
    requires '$' !in k && k != "gateway"
    ensures Complains(Flagged(k, Bool(true)), Flagged(k, Int(1)), map[], moved)
  {
    var t, live := Flagged(k, Bool(true)), Flagged(k, Int(1));
    FlaggedGolden(k);
    FlagUnseen(k);
    NothingToApply(t, live);
    BootSucceeds(t, map[], live, [], map[], moved);
    BootPassesDoctor(t, map[], live, [], map[], moved);
  }

  function Reasons(v: J): map<string, J> {
    map["reasoning" := v]
  }

  function Reasoning(m: string): J {
    Obj(map["id" := Str(m), "reasoning" := Int(1)])
  }

  lemma {:induction false} SmoothIsBeyond(t: J, live: J, path: seq<Step>, coerce: bool)
    requires Smooth(live, path, coerce)
    ensures SmoothBeyond(t, live, path, coerce)
    decreases |path|
  {
    if path != [] && Present(live, path[0]) && Present(t, path[0]) {
      SmoothIsBeyond(Child(t, path[0]), Child(live, path[0]), path[1..], coerce);
    }
  }

  lemma ListConforms(m: string)
    ensures Conforms(Arr([Entry(m)]), Arr([Reasoning(m)]))
  {
    SelfStable(Str(m));
    assert Conforms(Entry(m), Reasoning(m));
    FirstWithIdIs([Reasoning(m)], m, 0);
    assert Satisfied(Entry(m), [Reasoning(m)]);
  }

  lemma NestedConforms(k: string, v: J, w: J)
    requires Conforms(v, w)
    ensures Conforms(Obj(map[k := v]), Obj(map[k := w]))
  {
  }

  lemma EntryConforms(p: string, m: string)
    ensures Conforms(OneModel(p, m), WithEntry(p, Reasoning(m)))
  {
    ListConforms(m);
    NestedConforms("models", Arr([Entry(m)]), Arr([Reasoning(m)]));
    NestedConforms(p, Obj(map["models" := Arr([Entry(m)])]), Obj(map["models" := Arr([Reasoning(m)])]));
    NestedConforms("providers", Providers(p, Entry(m)), Providers(p, Reasoning(m)));
    GatewayPlain();
    SelfStable(Gateway());
  }

  lemma ConformingIsKept(t: J, live: J)
    requires PlaceholderFree(t) && t.Obj? && Render(t, map[]) == Some(t) && Conforms(t, live)
    ensures Healed(t, map[], live, []) == Some(live) && HealingSkipped(t, map[], live)
  {
    FreeIsLiteral(t);
    ConformingIsFixed(t, live);
    LooseEqReflexive(Reconcile(t, live));
    LooseEqSame(Reconcile(t, live), Reconcile(t, live), live);
  }

  lemma {:induction false} FreeIsLiteral(t: J)
    requires PlaceholderFree(t)
    ensures Literal(t)
    decreases t
  {
    match t
    case Obj(tf) => forall k | k in tf ensures Literal(tf[k]) { FreeIsLiteral(tf[k]); }
    case Arr(ts) => forall i | 0 <= i < |ts| && ts[i].Obj? ensures Literal(ts[i]) { FreeIsLiteral(ts[i]); }
    case _ =>
  }

  lemma AloneApplied(c: J, ref: string, props: J)
    ensures ApplyAll(c, map[ref := props], {ref}) == ApplyRef(c, ref, props)
  {
    var o: Overlay := map[ref := props];
    ApplyAnyFirst(c, o, {ref}, ref);
    assert {ref} - {ref} == {};
  }

  lemma ReasonsApplied(c: J, ref: string)
    requires Registered(c, ref)
    ensures ApplyRef(c, ref, Obj(Reasons(Bool(true)))) == Put(c, EntryPath(ref), false, Reasons(Bool(true)))
  {
    Applied(c, ref, Reasons(Bool(true)));
    assert PlainPatch(Reasons(Bool(true))) == Reasons(Bool(true));
  }

  /** Writing `true` over the 1 is no change to Python. */
  lemma OverrideUnseen(live: J, ref: string, m: string)
    requires Get(live, EntryPath(ref)) == Some(Reasoning(m))
    ensures OverlaySkipped(live, map[ref := Obj(Reasons(Bool(true)))])
  {
    var e, now, then_ := EntryPath(ref), Reasons(Int(1)), Reasons(Bool(true));
    LooseEqReflexive(live);
    assert LooseEq(Obj(then_), Obj(now));
    LoosePut(live, live, e, false, then_, now);
    PutOwn(live, e, false, now);
    ReasonsApplied(live, ref);
    AloneApplied(live, ref, Obj(then_));
  }

  lemma ReasonsValid(ref: string)
    ensures var o: Overlay := map[ref := Obj(Reasons(Bool(true)))]; ValidPart(o) == o && !OverlayOverflows(o)
  {
    var fields := Reasons(Bool(true));
    assert "reasoning" in fields && forall k | k in fields :: k == "reasoning" && ValidField(k, fields[k]);
    ValidNeverOverflows(Obj(Reasons(Bool(true))));
  }

  lemma ReasonsUncarried(t: J, live: J, ref: string, m: string)
    requires Get(live, EntryPath(ref)) == Some(Reasoning(m)) && Registered(t, ref)
    ensures !AppliedCarried(t, live, map[ref := Obj(Reasons(Bool(true)))])
  {
    assert PlainPatch(Reasons(Bool(true)))["reasoning"] == Bool(true);
    NotHad(live, EntryPath(ref), Reasoning(m), PlainPatch(Reasons(Bool(true))), "reasoning");
    assert !Carries(live, ref, Reasons(Bool(true)));
  }

  /** A valid override with `true` over a persisted 1: the boot does not write it, and the doctor misses it. */
  lemma HiddenOverrideBoot(p: string, m: string, moved: bool)
    requires '/' !in p && '$' !in p && '$' !in m
    ensures Complains(OneModel(p, m), WithEntry(p, Reasoning(m)), map[p + "/" + m := Obj(Reasons(Bool(true)))], moved)
  {
    var t, live, ref := OneModel(p, m), WithEntry(p, Reasoning(m)), p + "/" + m;
    var props := Obj(Reasons(Bool(true)));
    RefIsSplit(p, m);
    EntrySteps(ref, Reasoning(m), []);
    assert EntryPath(ref) + [] == EntryPath(ref);
    SmoothIsBeyond(t, live, EntryPath(ref), false);
    AloneBootable(p, m, live, props);
    ReasonsValid(ref);
    OneModelPlain(p, m);
    OneModelGolden(p, m);
    EntryConforms(p, m);
    ConformingIsKept(t, live);
    OneModelReady(p, m, props);
    OverrideUnseen(live, ref, m);
    ReasonsUncarried(t, live, ref, m);
    BootSucceeds(t, map[], live, [], map[ref := props], moved);
    BootPassesDoctor(t, map[], live, [], map[ref := props], moved);
  }

  // ---------------------------------------------------------------------------------------
  // A price too large for a float
  // ---------------------------------------------------------------------------------------

  /** A hand-edited price that validation cannot even look at. */
  function HugePrice(): J {
    Obj(map["cost" := Obj(map["input" := Int(FLOAT_BOUND)])])
  }

  /** The overlay loads, and validating it kills the boot, whether or not any model bears that name. */
  lemma DyingBoot(template: J, env: map<string, string>, live: J, wanted: seq<string>, o: Overlay, ref: string)
    requires Bootable(template, env, live, o) && ref in o && o[ref] == HugePrice()
    ensures BootConfig(template, env, live, wanted, o).None?
  {
    var cost := HugePrice().fields["cost"];
    assert cost.fields["input"] == Int(FLOAT_BOUND) && BeyondFloat(cost.fields["input"]);
    assert EntriesOverflow("cost", cost.fields) && FieldOverflows("cost", HugePrice().fields["cost"]);
    assert Overflows(o[ref]);
  }

  lemma HugePriceBootable(p: string, m: string)
    requires '/' !in p && '$' !in p && '$' !in m
    ensures Bootable(OneModel(p, m), map[], Null, map[p + "/" + m := HugePrice()])
  {
    var prices := HugePrice().fields["cost"];
    assert prices.fields["input"] == Int(FLOAT_BOUND) && !ValidCostEntry("input", Int(FLOAT_BOUND));
    assert !ValidField("cost", prices) && !ValidProps(HugePrice());
    AloneBootable(p, m, Null, HugePrice());
  }
}
