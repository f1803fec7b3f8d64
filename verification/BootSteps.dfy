/**
 * The steps of the boot theorem (autodev/installer/model_overrides.py:213-263 on both sides of
 * autodev/installer/openclaw_template.py:142-296).
 *
 * An override of a model that the template registers lands on template and configuration alike; one
 * of a model the template does not know touches nothing it asks for. Either way conformance is kept.
 * The conditions under which this holds for one override survive the application of the others, and
 * rendering and reconciliation bring them about. Overrides that name no model of a configuration do
 * nothing to it, and dictionaries on the touched paths rule out type errors.
 */
module BootSteps {
  import opened Json
  import opened OpenclawTemplate
  import opened TemplateLaws
  import opened TemplateRendering
  import opened JsonPaths
  import opened ConformancePaths
  import opened ModelOverrides
  import opened OverlayApply
  import opened OverlayLaws

  function DefaultsPath(ref: string): seq<Step> {
    [Make("agents"), Make("defaults"), Make("models"), Make(ref)]
  }

  /** Dictionaries on the way to every place that these patches of a model touch. */
  predicate Takes(j: J, ref: string, cost: bool, params: bool) {
    && Smooth(j, EntryPath(ref), false)
    && (cost ==> Smooth(j, CostPath(ref), true))
    && (params ==> Smooth(j, ParamsPath(ref), false))
  }

  predicate Sets(props: J, key: string) {
    props.Obj? && SubPatch(props.fields, key).Some?
  }

  predicate SmoothFor(j: J, ref: string, props: J) {
    Takes(j, ref, Sets(props, "cost"), Sets(props, "params"))
  }

  /**
   * The template has dictionaries on the way to what the override touches, identifies the entries of
   * the provider's list, and declares default params only for models it registers.
   */
  predicate TemplateReady(t: J, ref: string, props: J) {
    && SmoothFor(t, ref, props)
    && IdentifiedAlong(t, EntryPath(ref))
    && (Get(t, DefaultsPath(ref)).Some? ==> Registered(t, ref))
  }

  /** The live configuration has dictionaries on those ways wherever the template leaves it free. */
  predicate LiveReady(t: J, live: J, ref: string, props: J) {
    && SmoothBeyond(t, live, EntryPath(ref), false)
    && (Sets(props, "cost") ==> SmoothBeyond(t, live, CostPath(ref), true))
    && (Sets(props, "params") ==> SmoothBeyond(t, live, ParamsPath(ref), false))
  }

  lemma PathFacts(ref: string)
    ensures MakesObjects(EntryPath(ref)) && MakesObjects(CostPath(ref)) && MakesObjects(ParamsPath(ref))
  {
    MakesObjectsIf(EntryPath(ref));
    MakesObjectsIf(CostPath(ref));
    MakesObjectsIf(ParamsPath(ref));
  }

  lemma {:induction false} MakesObjectsIf(p: seq<Step>)
    requires forall i | 0 < i < |p| && p[i].Elem? :: !p[i - 1].Make?
    ensures MakesObjects(p)
  {
    if p != [] {
      assert |p| > 1 && p[1].Elem? ==> !p[1 - 1].Make?;
      MakesObjectsIf(p[1..]) by {
        forall i | 0 < i < |p[1..]| && p[1..][i].Elem? ensures !p[1..][i - 1].Make? {
          var n := i + 1;
          assert p[n].Elem? && !p[n - 1].Make?;
        }
      }
    }
  }

  lemma PlainPatchValid(props: J)
    requires ValidProps(props)
    ensures forall k | k in PlainPatch(props.fields) ::
              Conforms(PlainPatch(props.fields)[k], PlainPatch(props.fields)[k])
  {
    var patch := PlainPatch(props.fields);
    forall k | k in patch ensures Conforms(patch[k], patch[k]) {
      assert ValidField(k, props.fields[k]);
      if patch[k].Arr? {
        assert forall i | 0 <= i < |patch[k].items| :: ValidModality(patch[k].items[i]);
      }
      SelfStable(patch[k]);
    }
  }

  lemma SubPatchValid(props: J, key: string)
    requires ValidProps(props) && (key == "cost" || key == "params") && SubPatch(props.fields, key).Some?
    ensures var patch := SubPatch(props.fields, key).value; forall k | k in patch :: Conforms(patch[k], patch[k])
  {
    var patch := SubPatch(props.fields, key).value;
    assert ValidField(key, props.fields[key]);
    forall k | k in patch ensures Conforms(patch[k], patch[k]) {
      SelfStable(patch[k]);
    }
  }

  // ---------------------------------------------------------------------------------------
  // The places of one override spare each other, and those of another one
  // ---------------------------------------------------------------------------------------

  lemma OwnPlacesSpared(ref: string, plain: map<string, J>, sub: map<string, J>)
    requires "cost" !in plain
    ensures Spares(EntryPath(ref), plain, EntryPath(ref)) && Spares(EntryPath(ref), plain, CostPath(ref))
    ensures Spares(EntryPath(ref), plain, ParamsPath(ref))
    ensures Spares(CostPath(ref), sub, EntryPath(ref)) && Spares(CostPath(ref), sub, CostPath(ref))
    ensures Spares(CostPath(ref), sub, ParamsPath(ref))
  {
    SparesPast(EntryPath(ref), plain, EntryPath(ref), 5);
    SparesPast(EntryPath(ref), plain, CostPath(ref), 5);
    SparesPast(EntryPath(ref), plain, ParamsPath(ref), 0);
    SparesPast(CostPath(ref), sub, EntryPath(ref), 5);
    SparesPast(CostPath(ref), sub, CostPath(ref), 6);
    SparesPast(CostPath(ref), sub, ParamsPath(ref), 0);
  }

  lemma {:induction false} PartsSpares(p: seq<Step>, q: seq<Step>, patch: map<string, J>)
    requires Parts(p, q)
    ensures Spares(q, patch, p)
  {
    if p[0] == q[0] { PartsSpares(p[1..], q[1..], patch); }
  }

  lemma OtherPlacesSpared(a: string, b: string, p: seq<Step>, q: seq<Step>, patch: map<string, J>)
    requires SplitRef(a) != SplitRef(b) && TouchedBy(p, a) && TouchedBy(q, b)
    ensures Spares(q, patch, p)
  {
    RefsPart(a, p, b, q);
    PartsSpares(p, q, patch);
  }

  // ---------------------------------------------------------------------------------------
  // One override on both sides
  // ---------------------------------------------------------------------------------------

  lemma IdentifiedCost(t: J, ref: string)
    requires IdentifiedAlong(t, EntryPath(ref))
    ensures IdentifiedAlong(t, CostPath(ref)) && IdentifiedAlong(t, ParamsPath(ref))
  {
    IdentifiedLonger(t, EntryPath(ref), [Make("cost")]);
    NoListsIdentified(t, ParamsPath(ref));
  }

  lemma {:induction false} IdentifiedLonger(t: J, p: seq<Step>, s: seq<Step>)
    requires IdentifiedAlong(t, p) && forall i | 0 <= i < |s| :: !s[i].Elem?
    ensures IdentifiedAlong(t, p + s)
    decreases |p|
  {
    if p == [] {
      assert p + s == s;
      NoListsIdentified(t, s);
    } else {
      assert (p + s)[0] == p[0] && (p + s)[1..] == p[1..] + s;
      if Present(t, p[0]) { IdentifiedLonger(Child(t, p[0]), p[1..], s); }
    }
  }

  lemma {:induction false} NoListsIdentified(t: J, s: seq<Step>)
    requires forall i | 0 <= i < |s| :: !s[i].Elem?
    ensures IdentifiedAlong(t, s)
    decreases |s|
  {
    if s != [] && Present(t, s[0]) { NoListsIdentified(Child(t, s[0]), s[1..]); }
  }

  predicate MetByIf(a: Option<map<string, J>>, b: Option<map<string, J>>) {
    if a.Some? then b.Some? && MetBy(a.value, b.value) else b.None?
  }

  /** The second override sets what the first one sets, to values that meet its values. */
  predicate PropsMetBy(x: map<string, J>, y: map<string, J>) {
    && MetBy(PlainPatch(x), PlainPatch(y))
    && MetByIf(SubPatch(x, "cost"), SubPatch(y, "cost"))
    && MetByIf(SubPatch(x, "params"), SubPatch(y, "params"))
  }

  lemma PlainStep(t: J, r: J, ref: string, a: map<string, J>, b: map<string, J>, cost: bool, params: bool)
    requires Conforms(t, r) && IdentifiedAlong(t, EntryPath(ref)) && Takes(r, ref, cost, params)
    requires MetBy(a, b) && "id" !in a && "cost" !in a
    ensures var t1, r1 := Put(t, EntryPath(ref), false, a), Put(r, EntryPath(ref), false, b);
            && Conforms(t1, r1) && IdentifiedAlong(t1, CostPath(ref))
            && (cost ==> Smooth(r1, CostPath(ref), true)) && (params ==> Smooth(r1, ParamsPath(ref), false))
  {
    PathFacts(ref);
    PathsKeepIds(ref, a);
    PathsKeepIds(ref, b);
    IdentifiedCost(t, ref);
    PutMonotone(t, r, EntryPath(ref), false, a, b);
    OwnPlacesSpared(ref, a, map[]);
    OwnPlacesSpared(ref, b, map[]);
    if cost { SmoothAfterPut(r, CostPath(ref), true, EntryPath(ref), false, b); }
    if params { SmoothAfterPut(r, ParamsPath(ref), false, EntryPath(ref), false, b); }
    IdentifiedAfterPut(t, CostPath(ref), EntryPath(ref), false, a);
  }

  lemma CostStep(t: J, r: J, ref: string, a: Option<map<string, J>>, b: Option<map<string, J>>, params: bool)
    requires Conforms(t, r) && IdentifiedAlong(t, CostPath(ref)) && MetByIf(a, b)
    requires (a.Some? ==> Smooth(r, CostPath(ref), true)) && (params ==> Smooth(r, ParamsPath(ref), false))
    ensures var t2, r2 := PutIf(t, CostPath(ref), true, a), PutIf(r, CostPath(ref), true, b);
            Conforms(t2, r2) && (params ==> Smooth(r2, ParamsPath(ref), false))
  {
    if a.Some? {
      PathFacts(ref);
      PathsKeepIds(ref, a.value);
      PathsKeepIds(ref, b.value);
      PutMonotone(t, r, CostPath(ref), true, a.value, b.value);
      OwnPlacesSpared(ref, map[], b.value);
      if params { SmoothAfterPut(r, ParamsPath(ref), false, CostPath(ref), true, b.value); }
    }
  }

  lemma ParamsIdentified(t: J, ref: string)
    ensures IdentifiedAlong(t, ParamsPath(ref))
  {
    NoListsIdentified(t, ParamsPath(ref));
  }

  lemma ParamsStep(t: J, r: J, ref: string, a: Option<map<string, J>>, b: Option<map<string, J>>)
    requires Conforms(t, r) && MetByIf(a, b) && (a.Some? ==> Smooth(r, ParamsPath(ref), false))
    ensures Conforms(PutIf(t, ParamsPath(ref), false, a), PutIf(r, ParamsPath(ref), false, b))
  {
    if a.Some? {
      PathFacts(ref);
      PathsKeepIds(ref, a.value);
      PathsKeepIds(ref, b.value);
      ParamsIdentified(t, ref);
      PutMonotone(t, r, ParamsPath(ref), false, a.value, b.value);
    }
  }

  /** An override of a model the template registers, and one that meets it on the other side, keep conformance. */
  lemma KnownModel(t: J, r: J, ref: string, x: map<string, J>, y: map<string, J>)
    requires Conforms(t, r) && IdentifiedAlong(t, EntryPath(ref)) && SmoothFor(r, ref, Obj(x))
    requires PropsMetBy(x, y) && Registered(t, ref)
    ensures Conforms(ApplyRef(t, ref, Obj(x)), ApplyRef(r, ref, Obj(y)))
  {
    PlainSpares(x);
    ConformingHas(t, r, EntryPath(ref));
    var ac, bc := SubPatch(x, "cost"), SubPatch(y, "cost");
    var ap, bp := SubPatch(x, "params"), SubPatch(y, "params");
    PlainStep(t, r, ref, PlainPatch(x), PlainPatch(y), ac.Some?, ap.Some?);
    var t1, r1 := Put(t, EntryPath(ref), false, PlainPatch(x)), Put(r, EntryPath(ref), false, PlainPatch(y));
    CostStep(t1, r1, ref, ac, bc, ap.Some?);
    ParamsStep(PutIf(t1, CostPath(ref), true, ac), PutIf(r1, CostPath(ref), true, bc), ref, ap, bp);
    Applied(t, ref, x);
    Applied(r, ref, y);
  }

  /** A valid override meets itself. */
  lemma ValidMeetsItself(props: J)
    requires ValidProps(props)
    ensures PropsMetBy(props.fields, props.fields)
  {
    PlainPatchValid(props);
    if SubPatch(props.fields, "cost").Some? { SubPatchValid(props, "cost"); }
    if SubPatch(props.fields, "params").Some? { SubPatchValid(props, "params"); }
  }

  /** The template asks for nothing at the places of a model it does not know. */
  lemma UnknownLacks(t: J, ref: string, props: J)
    requires TemplateReady(t, ref, props) && !Registered(t, ref)
    ensures Lacks(t, EntryPath(ref)) && Lacks(t, CostPath(ref)) && Lacks(t, ParamsPath(ref))
    ensures IdentifiedAlong(t, CostPath(ref)) && IdentifiedAlong(t, ParamsPath(ref))
  {
    LacksMissing(t, EntryPath(ref), []);
    LacksMissing(t, EntryPath(ref), [Make("cost")]);
    assert EntryPath(ref) + [] == EntryPath(ref);
    NoListsIdentified(t, DefaultsPath(ref));
    LacksMissing(t, DefaultsPath(ref), [Make("params")]);
    assert DefaultsPath(ref) + [Make("params")] == ParamsPath(ref);
  }

  /** An override of a model the template does not know touches nothing the template asks for. */
  lemma UnknownModel(t: J, r: J, ref: string, props: J)
    requires Conforms(t, r) && TemplateReady(t, ref, props) && !Registered(t, ref)
    ensures Conforms(t, ApplyRef(r, ref, props))
  {
    if props.Obj? && Registered(r, ref) {
      var plain := PlainPatch(props.fields);
      var cost, params := SubPatch(props.fields, "cost"), SubPatch(props.fields, "params");
      UnknownLacks(t, ref, props);
      PathsKeepIds(ref, plain);
      PutExtra(t, r, EntryPath(ref), false, plain);
      var r1 := Put(r, EntryPath(ref), false, plain);
      if cost.Some? {
        PathsKeepIds(ref, cost.value);
        PutExtra(t, r1, CostPath(ref), true, cost.value);
      }
      var r2 := PutIf(r1, CostPath(ref), true, cost);
      if params.Some? {
        PathsKeepIds(ref, params.value);
        PutExtra(t, r2, ParamsPath(ref), false, params.value);
      }
    }
  }

  lemma StepConforms(t: J, r: J, ref: string, x: J, y: J)
    requires Conforms(t, r) && TemplateReady(t, ref, x) && SmoothFor(r, ref, x)
    requires x.Obj? && y.Obj? && PropsMetBy(x.fields, y.fields)
    ensures Conforms(ApplyRef(t, ref, x), ApplyRef(r, ref, y))
  {
    if Registered(t, ref) {
      KnownModel(t, r, ref, x.fields, y.fields);
    } else {
      SameReady(t, ref, x, y);
      UnknownModel(t, r, ref, y);
    }
  }

  /** Readiness depends only on which prices and parameters are set. */
  lemma SameReady(t: J, ref: string, x: J, y: J)
    requires Sets(x, "cost") == Sets(y, "cost") && Sets(x, "params") == Sets(y, "params")
    ensures SmoothFor(t, ref, x) <==> SmoothFor(t, ref, y)
    ensures TemplateReady(t, ref, x) <==> TemplateReady(t, ref, y)
  {
  }

  // ---------------------------------------------------------------------------------------
  // The conditions survive the other overrides
  // ---------------------------------------------------------------------------------------

  /** None of the three patches overwrites a node on the way to `p`. */
  predicate PatchesSpare(ref: string, plain: map<string, J>, cost: Option<map<string, J>>,
                         params: Option<map<string, J>>, p: seq<Step>)
  {
    && Spares(EntryPath(ref), plain, p)
    && (cost.Some? ==> Spares(CostPath(ref), cost.value, p))
    && (params.Some? ==> Spares(ParamsPath(ref), params.value, p))
  }

  lemma PatchesSpareTouched(ref: string, plain: map<string, J>, cost: Option<map<string, J>>,
                            params: Option<map<string, J>>, other: string, p: seq<Step>)
    requires TouchedBy(p, other) && "cost" !in plain && (other == ref || SplitRef(other) != SplitRef(ref))
    ensures PatchesSpare(ref, plain, cost, params, p)
  {
    if other == ref {
      OwnPlacesSpared(ref, plain, if cost.Some? then cost.value else map[]);
      if params.Some? { OwnParamsSpared(ref, params.value, p); }
    } else {
      OtherPlacesSpared(other, ref, p, EntryPath(ref), plain);
      if cost.Some? { OtherPlacesSpared(other, ref, p, CostPath(ref), cost.value); }
      if params.Some? { OtherPlacesSpared(other, ref, p, ParamsPath(ref), params.value); }
    }
  }

  lemma OwnParamsSpared(ref: string, params: map<string, J>, p: seq<Step>)
    requires TouchedBy(p, ref)
    ensures Spares(ParamsPath(ref), params, p)
  {
    SparesPast(ParamsPath(ref), params, p, if p == ParamsPath(ref) then 5 else 0);
  }

  /** Three patches of a model leave a tree smooth that was smooth. */
  lemma SmoothAfterPatches(j: J, ref: string, plain: map<string, J>, cost: Option<map<string, J>>,
                           params: Option<map<string, J>>, p: seq<Step>, c: bool)
    requires Takes(j, ref, cost.Some?, params.Some?) && Smooth(j, p, c) && "id" !in plain && "cost" !in plain
    requires PatchesSpare(ref, plain, cost, params, p)
    ensures Smooth(Patches(j, ref, plain, cost, params), p, c)
  {
    var e, k, q := EntryPath(ref), CostPath(ref), ParamsPath(ref);
    PathFacts(ref);
    PathsKeepIds(ref, plain);
    OwnPlacesSpared(ref, plain, map[]);
    var j1 := Put(j, e, false, plain);
    SmoothAfterPut(j, p, c, e, false, plain);
    if cost.Some? { SmoothAfterPut(j, k, true, e, false, plain); }
    if params.Some? { SmoothAfterPut(j, q, false, e, false, plain); }
    SmoothAfterSubs(j1, ref, cost, params, p, c);
  }

  lemma SmoothAfterSubs(j: J, ref: string, cost: Option<map<string, J>>, params: Option<map<string, J>>,
                        p: seq<Step>, c: bool)
    requires Smooth(j, p, c)
    requires cost.Some? ==> Smooth(j, CostPath(ref), true) && Spares(CostPath(ref), cost.value, p)
    requires params.Some? ==> Smooth(j, ParamsPath(ref), false) && Spares(ParamsPath(ref), params.value, p)
    ensures Smooth(PutIf(PutIf(j, CostPath(ref), true, cost), ParamsPath(ref), false, params), p, c)
  {
    PathFacts(ref);
    if cost.Some? {
      PathsKeepIds(ref, cost.value);
      OwnPlacesSpared(ref, map[], cost.value);
      SmoothAfterPut(j, p, c, CostPath(ref), true, cost.value);
      if params.Some? { SmoothAfterPut(j, ParamsPath(ref), false, CostPath(ref), true, cost.value); }
    }
    if params.Some? {
      PathsKeepIds(ref, params.value);
      SmoothAfterPut(PutIf(j, CostPath(ref), true, cost), p, c, ParamsPath(ref), false, params.value);
    }
  }

  lemma SmoothAfter(j: J, ref: string, props: J, other: string, p: seq<Step>, c: bool)
    requires other == ref || SplitRef(ref) != SplitRef(other)
    requires SmoothFor(j, ref, props) && TouchedBy(p, other) && Smooth(j, p, c)
    ensures Smooth(ApplyRef(j, ref, props), p, c)
  {
    if props.Obj? && Registered(j, ref) {
      var plain := PlainPatch(props.fields);
      var cost, params := SubPatch(props.fields, "cost"), SubPatch(props.fields, "params");
      PatchesSpareTouched(ref, plain, cost, params, other, p);
      SmoothAfterPatches(j, ref, plain, cost, params, p, c);
    }
  }

  /** Applying an override leaves the configuration smooth, for itself and for the others. */
  lemma SmoothForAfter(j: J, ref: string, props: J, other: string, its: J)
    requires other == ref || SplitRef(ref) != SplitRef(other)
    requires SmoothFor(j, ref, props) && SmoothFor(j, other, its)
    ensures SmoothFor(ApplyRef(j, ref, props), other, its)
  {
    SmoothAfter(j, ref, props, other, EntryPath(other), false);
    if Sets(its, "cost") { SmoothAfter(j, ref, props, other, CostPath(other), true); }
    if Sets(its, "params") { SmoothAfter(j, ref, props, other, ParamsPath(other), false); }
  }

  lemma IdentifiedAfterPatches(t: J, ref: string, plain: map<string, J>, cost: Option<map<string, J>>,
                               params: Option<map<string, J>>, p: seq<Step>)
    requires IdentifiedAlong(t, p) && "id" !in plain && PatchesSpare(ref, plain, cost, params, p)
    ensures IdentifiedAlong(Patches(t, ref, plain, cost, params), p)
  {
    PathFacts(ref);
    PathsKeepIds(ref, plain);
    IdentifiedAfterPut(t, p, EntryPath(ref), false, plain);
    var t1 := Put(t, EntryPath(ref), false, plain);
    if cost.Some? {
      PathsKeepIds(ref, cost.value);
      IdentifiedAfterPut(t1, p, CostPath(ref), true, cost.value);
    }
    if params.Some? {
      PathsKeepIds(ref, params.value);
      IdentifiedAfterPut(PutIf(t1, CostPath(ref), true, cost), p, ParamsPath(ref), false, params.value);
    }
  }

  lemma IdentifiedAfter(t: J, ref: string, props: J, other: string)
    requires (other == ref || SplitRef(ref) != SplitRef(other)) && IdentifiedAlong(t, EntryPath(other))
    ensures IdentifiedAlong(ApplyRef(t, ref, props), EntryPath(other))
  {
    if props.Obj? && Registered(t, ref) {
      var plain := PlainPatch(props.fields);
      var cost, params := SubPatch(props.fields, "cost"), SubPatch(props.fields, "params");
      PatchesSpareTouched(ref, plain, cost, params, other, EntryPath(other));
      IdentifiedAfterPatches(t, ref, plain, cost, params, EntryPath(other));
    }
  }

  lemma DefaultsAfter(t: J, ref: string, props: J, other: string)
    requires other == ref || SplitRef(ref) != SplitRef(other)
    requires Get(t, DefaultsPath(other)).Some? ==> Registered(t, other)
    ensures Registered(ApplyRef(t, ref, props), other) <==> Registered(t, other)
    ensures Get(ApplyRef(t, ref, props), DefaultsPath(other)).Some? ==> Registered(t, other)
  {
    if other == ref {
      RegisteredAfter(t, ref, props);
    } else {
      OtherRefUntouched(other, ref);
      GetAfterApplyRef(t, EntryPath(other), ref, props);
      var d := DefaultsPath(other);
      PartsAt(d, EntryPath(ref), 0);
      PartsAt(d, CostPath(ref), 0);
      PartsAt(d, ParamsPath(ref), 3);
      GetAfterApplyRef(t, d, ref, props);
    }
  }

  lemma ReadyAfter(t: J, ref: string, props: J, other: string, its: J)
    requires other == ref || SplitRef(ref) != SplitRef(other)
    requires TemplateReady(t, ref, props) && TemplateReady(t, other, its)
    ensures TemplateReady(ApplyRef(t, ref, props), other, its)
    ensures Registered(ApplyRef(t, ref, props), other) <==> Registered(t, other)
  {
    SmoothForAfter(t, ref, props, other, its);
    IdentifiedAfter(t, ref, props, other);
    DefaultsAfter(t, ref, props, other);
  }

  // ---------------------------------------------------------------------------------------
  // The whole overlay on both sides
  // ---------------------------------------------------------------------------------------

  /** Both sides are ready for an override. */
  predicate BothReady(t: J, r: J, ref: string, props: J) {
    TemplateReady(t, ref, props) && SmoothFor(r, ref, props)
  }

  predicate OverlayReady(t: J, o: Overlay) {
    ProperRefs(o) && forall ref | ref in o :: TemplateReady(t, ref, o[ref])
  }

  predicate OverlaySmooth(j: J, o: Overlay) {
    ProperRefs(o) && forall ref | ref in o :: SmoothFor(j, ref, o[ref])
  }

  /** The second overlay sets what the first one sets, to values that meet its values. */
  predicate OverlayMetBy(a: Overlay, b: Overlay) {
    && a.Keys == b.Keys
    && forall ref | ref in a :: a[ref].Obj? && b[ref].Obj? && PropsMetBy(a[ref].fields, b[ref].fields)
  }

  /** An overlay of the same models with the same prices and parameters. */
  predicate SameSets(a: Overlay, b: Overlay) {
    && a.Keys == b.Keys
    && forall ref | ref in a ::
         Sets(a[ref], "cost") == Sets(b[ref], "cost") && Sets(a[ref], "params") == Sets(b[ref], "params")
  }

  /** Applying an overlay, or some of it, leaves the template ready, and no model comes or goes. */
  lemma {:induction false} StillReady(t: J, o: Overlay, refs: set<string>, other: string, its: J)
    requires OverlayReady(t, o) && refs <= o.Keys && TemplateReady(t, other, its)
    requires forall ref | ref in refs :: ref == other || SplitRef(ref) != SplitRef(other)
    ensures TemplateReady(ApplyAll(t, o, refs), other, its)
    ensures Registered(ApplyAll(t, o, refs), other) <==> Registered(t, other)
    decreases |refs|
  {
    if refs != {} {
      var first :| first in refs;
      var t1 := ApplyRef(t, first, o[first]);
      ApplyAnyFirst(t, o, refs, first);
      forall ref | ref in o ensures TemplateReady(t1, ref, o[ref]) { ReadyAfter(t, first, o[first], ref, o[ref]); }
      ReadyAfter(t, first, o[first], other, its);
      StillReady(t1, o, refs - {first}, other, its);
    }
  }

  lemma {:induction false} StillSmooth(j: J, o: Overlay, refs: set<string>, other: string, its: J)
    requires OverlaySmooth(j, o) && refs <= o.Keys && SmoothFor(j, other, its)
    requires forall ref | ref in refs :: ref == other || SplitRef(ref) != SplitRef(other)
    ensures SmoothFor(ApplyAll(j, o, refs), other, its)
    decreases |refs|
  {
    if refs != {} {
      var first :| first in refs;
      var j1 := ApplyRef(j, first, o[first]);
      ApplyAnyFirst(j, o, refs, first);
      forall ref | ref in o ensures SmoothFor(j1, ref, o[ref]) { SmoothForAfter(j, first, o[first], ref, o[ref]); }
      SmoothForAfter(j, first, o[first], other, its);
      StillSmooth(j1, o, refs - {first}, other, its);
    }
  }

  lemma OthersReady(t: J, r: J, first: string, x: J, y: J, other: string, its: J)
    requires BothReady(t, r, first, x) && BothReady(t, r, other, its) && SplitRef(first) != SplitRef(other)
    requires Sets(x, "cost") == Sets(y, "cost") && Sets(x, "params") == Sets(y, "params")
    ensures BothReady(ApplyRef(t, first, x), ApplyRef(r, first, y), other, its)
  {
    ReadyAfter(t, first, x, other, its);
    SameReady(r, first, x, y);
    SmoothForAfter(r, first, y, other, its);
  }

  lemma RestReady(t: J, r: J, a: Overlay, b: Overlay, refs: set<string>, first: string)
    requires ProperRefs(a) && refs <= a.Keys && a.Keys == b.Keys && first in refs
    requires Sets(a[first], "cost") == Sets(b[first], "cost") && Sets(a[first], "params") == Sets(b[first], "params")
    requires forall ref | ref in refs :: BothReady(t, r, ref, a[ref])
    ensures forall other | other in refs - {first} ::
              BothReady(ApplyRef(t, first, a[first]), ApplyRef(r, first, b[first]), other, a[other])
  {
    forall other | other in refs - {first}
      ensures BothReady(ApplyRef(t, first, a[first]), ApplyRef(r, first, b[first]), other, a[other])
    {
      OthersReady(t, r, first, a[first], b[first], other, a[other]);
    }
  }

  lemma OneConforms(t: J, r: J, a: Overlay, b: Overlay, first: string)
    requires Conforms(t, r) && OverlayMetBy(a, b) && first in a && BothReady(t, r, first, a[first])
    ensures Conforms(ApplyRef(t, first, a[first]), ApplyRef(r, first, b[first]))
    ensures Sets(a[first], "cost") == Sets(b[first], "cost") && Sets(a[first], "params") == Sets(b[first], "params")
  {
    StepConforms(t, r, first, a[first], b[first]);
  }

  /** An overlay on the template, and one that meets it on the live side, keep conformance. */
  lemma {:induction false} AllConform(t: J, r: J, a: Overlay, b: Overlay, refs: set<string>)
    requires Conforms(t, r) && OverlayMetBy(a, b) && ProperRefs(a) && refs <= a.Keys
    requires forall ref | ref in refs :: BothReady(t, r, ref, a[ref])
    ensures Conforms(ApplyAll(t, a, refs), ApplyAll(r, b, refs))
    decreases |refs|
  {
    if refs != {} {
      var first :| first in refs;
      var t1, r1 := ApplyRef(t, first, a[first]), ApplyRef(r, first, b[first]);
      OneConforms(t, r, a, b, first);
      RestReady(t, r, a, b, refs, first);
      AllConform(t1, r1, a, b, refs - {first});
      ApplyAnyFirst(t, a, refs, first);
      ApplyAnyFirst(r, b, refs, first);
    }
  }

  lemma {:induction false} ApplyAllAgree(c: J, o: Overlay, p: Overlay, refs: set<string>)
    requires ProperRefs(o) && ProperRefs(p) && refs <= o.Keys && refs <= p.Keys
    requires forall ref | ref in refs :: o[ref] == p[ref]
    ensures ApplyAll(c, o, refs) == ApplyAll(c, p, refs)
    decreases |refs|
  {
    if refs != {} {
      var first :| first in refs;
      ApplyAnyFirst(c, o, refs, first);
      ApplyAnyFirst(c, p, refs, first);
      ApplyAllAgree(ApplyRef(c, first, o[first]), o, p, refs - {first});
    }
  }

  /** Dictionaries on the way mean no type error. */
  lemma SmoothRaisesNothing(c: J, ref: string, props: J)
    requires SmoothFor(c, ref, props)
    ensures c.Obj? && !RootRaises(c) && !RefRaises(c, ref, props)
  {
    var e, k := EntryPath(ref), CostPath(ref);
    SmoothAt(c, [Key("models")], e[1..], false);
    assert [Key("models")] + e[1..] == e;
    assert ListPath(SplitRef(ref).0) + [Elem(SplitRef(ref).1)] == e;
    SmoothAt(c, ListPath(SplitRef(ref).0), [Elem(SplitRef(ref).1)], false);
    assert k + [] == k;
    if Sets(props, "cost") { SmoothAt(c, k, [], true); }
  }

  lemma {:induction false} SmoothAt(c: J, p: seq<Step>, s: seq<Step>, coerce: bool)
    requires Smooth(c, p + s, coerce)
    ensures Get(c, p).Some? ==> Smooth(Get(c, p).value, s, coerce)
    decreases |p|
  {
    if p == [] {
      assert p + s == s;
    } else {
      assert (p + s)[0] == p[0] && (p + s)[1..] == p[1..] + s;
      if Present(c, p[0]) { SmoothAt(Child(c, p[0]), p[1..], s, coerce); }
    }
  }

  lemma ReconciledSmooth(t: J, env: map<string, string>, live: J, ref: string, props: J)
    requires PlaceholdersAreValues(t) && Render(t, env).Some? && TemplateReady(t, ref, props)
    requires LiveReady(Render(t, env).value, live, ref, props)
    ensures SmoothFor(Reconcile(Render(t, env).value, live), ref, props)
  {
    var r0 := Render(t, env).value;
    RenderIdentified(t, env, EntryPath(ref));
    IdentifiedCost(r0, ref);
    RenderSmooth(t, env, EntryPath(ref), false);
    ReconcileSmooth(r0, live, EntryPath(ref), false);
    if Sets(props, "cost") {
      RenderSmooth(t, env, CostPath(ref), true);
      ReconcileSmooth(r0, live, CostPath(ref), true);
    }
    if Sets(props, "params") {
      RenderSmooth(t, env, ParamsPath(ref), false);
      ReconcileSmooth(r0, live, ParamsPath(ref), false);
    }
  }

  lemma {:induction false} RenderIdentified(t: J, env: map<string, string>, path: seq<Step>)
    requires PlaceholdersAreValues(t) && Render(t, env).Some? && IdentifiedAlong(t, path)
    ensures IdentifiedAlong(Render(t, env).value, path)
    decreases |path|
  {
    var r := Render(t, env).value;
    if path != [] {
      if path[0].Elem? && t.Arr? {
        forall i | 0 <= i < |t.items|
          ensures t.items[i].Obj? <==> r.items[i].Obj?
          ensures HasId(t.items[i]) <==> HasId(r.items[i])
          ensures HasId(t.items[i]) ==> IdOf(t.items[i]) == IdOf(r.items[i])
        {
          assert ItemPlaceholders(t.items[i]);
          RenderKeepsId(t.items[i], env);
        }
      }
      if Present(r, path[0]) {
        if path[0].Elem? { FirstWithIdIs(t.items, path[0].id, FirstWithId(r.items, path[0].id)); }
        assert path[0].Elem? ==> ItemPlaceholders(Child(t, path[0]));
        RenderIdentified(Child(t, path[0]), env, path[1..]);
      }
    }
  }
}
