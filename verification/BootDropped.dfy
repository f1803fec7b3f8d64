/**
 * The doctor folds every entry of the overlay file into its baseline, valid or not
 * (autodev/installer/doctor.py:1229-1236): what a configuration must carry for the doctor to be content
 * with it, and which of it the application of other entries changes.
 */
module BootDropped {
  import opened Json
  import opened OpenclawTemplate
  import opened JsonPaths
  import opened ConformancePaths
  import opened ModelOverrides
  import opened OverlayApply
  import opened OverlayEffects
  import opened BootSteps

  /** The value, if a patch is asked for, meets everything in it. */
  predicate Meets(value: Option<J>, patch: Option<map<string, J>>) {
    patch.Some? ==> value.Some? && Conforms(Obj(patch.value), value.value)
  }

  predicate Has(r: J, p: seq<Step>, patch: Option<map<string, J>>) {
    Meets(Get(r, p), patch)
  }

  /** The configuration carries the values of an override, wherever they came from. */
  predicate Carries(r: J, ref: string, props: map<string, J>) {
    && Has(r, EntryPath(ref), Some(PlainPatch(props)))
    && Has(r, CostPath(ref), SubPatch(props, "cost"))
    && Has(r, ParamsPath(ref), SubPatch(props, "params"))
  }

  // ---------------------------------------------------------------------------------------
  // What is asked for must be carried
  // ---------------------------------------------------------------------------------------

  lemma SmallerPatch(big: map<string, J>, small: map<string, J>, r: J)
    requires Conforms(Obj(big), r) && forall k | k in small :: k in big && big[k] == small[k]
    ensures Conforms(Obj(small), r)
  {
  }

  lemma {:induction false} SmoothOpen(j: J, path: seq<Step>)
    requires Smooth(j, path, false) && forall i | 0 <= i < |path| :: path[i].Make?
    ensures Open(j, path)
    decreases |path|
  {
    if path != [] {
      if Present(j, path[0]) { SmoothOpen(Child(j, path[0]), path[1..]); } else { NothingOpen(path[1..]); }
    }
  }

  lemma {:induction false} NothingOpen(path: seq<Step>)
    requires forall i | 0 <= i < |path| :: path[i].Make?
    ensures Open(Obj(map[]), path)
  {
    if path != [] { NothingOpen(path[1..]); }
  }

  /** An object at the place holds the whole patch. */
  predicate AsksFor(t: J, p: seq<Step>, patch: Option<map<string, J>>) {
    patch.Some? ==>
      && Get(t, p).Some? && Get(t, p).value.Obj?
      && forall k | k in patch.value :: k in Get(t, p).value.fields && Get(t, p).value.fields[k] == patch.value[k]
  }

  lemma PlainAskedAt(t: J, ref: string, props: map<string, J>)
    requires Registered(t, ref)
    ensures AsksFor(ApplyRef(t, ref, Obj(props)), EntryPath(ref), Some(PlainPatch(props)))
  {
    OverrideLands(t, ref, Obj(props));
  }

  lemma CostAskedAt(t: J, ref: string, props: map<string, J>)
    requires SmoothFor(t, ref, Obj(props)) && Registered(t, ref)
    ensures AsksFor(ApplyRef(t, ref, Obj(props)), CostPath(ref), SubPatch(props, "cost"))
  {
    if SubPatch(props, "cost").Some? {
      OverrideLands(t, ref, Obj(props));
      CostIsOfEntry(t, EntryPath(ref));
      CostIsOfEntry(ApplyRef(t, ref, Obj(props)), EntryPath(ref));
      assert CostPath(ref) + [] == CostPath(ref);
      SmoothAt(t, CostPath(ref), [], true);
    }
  }

  lemma AddedIsAsked(t: J, p: seq<Step>, fields: map<string, J>, patch: Option<map<string, J>>)
    requires patch.Some? && Get(t, p) == Some(Obj(fields + patch.value))
    ensures AsksFor(t, p, patch)
  {
  }

  lemma ParamsAskedAt(t: J, ref: string, props: map<string, J>)
    requires SmoothFor(t, ref, Obj(props)) && Registered(t, ref)
    ensures AsksFor(ApplyRef(t, ref, Obj(props)), ParamsPath(ref), SubPatch(props, "params"))
  {
    if SubPatch(props, "params").Some? {
      SmoothOpen(t, ParamsPath(ref));
      ParamsLand(t, ref, Obj(props));
      var added := SubPatch(props, "params");
      AddedIsAsked(ApplyRef(t, ref, Obj(props)), ParamsPath(ref), FieldsAt(t, ParamsPath(ref)), added);
    }
  }

  lemma AskedMustBeHad(t: J, r: J, p: seq<Step>, patch: Option<map<string, J>>)
    requires Conforms(t, r) && AsksFor(t, p, patch)
    ensures Has(r, p, patch)
  {
    if patch.Some? {
      ConformingHas(t, r, p);
      SmallerPatch(Get(t, p).value.fields, patch.value, Get(r, p).value);
    }
  }

  /** What the doctor's baseline asks for because of one entry, a conforming configuration carries. */
  lemma AskedMustBeCarried(t: J, o: Overlay, r: J, ref: string)
    requires t.Obj? && ProperRefs(o) && Apply(t, o).Some? && ref in o && o[ref].Obj?
    requires SmoothFor(t, ref, o[ref]) && Registered(t, ref) && Conforms(Apply(t, o).value, r)
    ensures Carries(r, ref, o[ref].fields)
  {
    var props := o[ref].fields;
    var baseline := Apply(t, o).value;
    EachOverrideLands(t, o, ref, EntryPath(ref));
    EachOverrideLands(t, o, ref, CostPath(ref));
    EachOverrideLands(t, o, ref, ParamsPath(ref));
    PlainAskedAt(t, ref, props);
    AskedMustBeHad(baseline, r, EntryPath(ref), Some(PlainPatch(props)));
    CostAskedAt(t, ref, props);
    AskedMustBeHad(baseline, r, CostPath(ref), SubPatch(props, "cost"));
    ParamsAskedAt(t, ref, props);
    AskedMustBeHad(baseline, r, ParamsPath(ref), SubPatch(props, "params"));
  }

  // ---------------------------------------------------------------------------------------
  // Dropped and applied entries
  // ---------------------------------------------------------------------------------------

  lemma {:induction false} ApplyAllSplit(c: J, o: Overlay, refs: set<string>, rest: set<string>)
    requires ProperRefs(o) && refs + rest <= o.Keys && refs !! rest
    ensures ApplyAll(c, o, refs + rest) == ApplyAll(ApplyAll(c, o, refs), o, rest)
    decreases |refs|
  {
    if refs == {} {
      assert refs + rest == rest;
    } else {
      var first :| first in refs;
      ApplyAnyFirst(c, o, refs + rest, first);
      ApplyAnyFirst(c, o, refs, first);
      assert refs + rest - {first} == (refs - {first}) + rest;
      ApplyAllSplit(ApplyRef(c, first, o[first]), o, refs - {first}, rest);
    }
  }

  lemma PlaceAlike(r: J, o: Overlay, refs: set<string>, ref: string, p: seq<Step>)
    requires ProperRefs(o) && refs <= o.Keys && forall other | other in refs :: SplitRef(other) != SplitRef(ref)
    requires TouchedBy(p, ref)
    ensures Get(ApplyAll(r, o, refs), p) == Get(r, p)
  {
    forall other | other in refs ensures Untouched(p, other) { OtherRefUntouched(ref, other); }
    ElsewhereUntouched(r, o, refs, p);
  }

  lemma CarriesSame(r: J, r': J, ref: string, props: map<string, J>)
    requires Get(r', EntryPath(ref)) == Get(r, EntryPath(ref)) && Get(r', CostPath(ref)) == Get(r, CostPath(ref))
    requires Get(r', ParamsPath(ref)) == Get(r, ParamsPath(ref))
    ensures Carries(r', ref, props) <==> Carries(r, ref, props)
    ensures Registered(r', ref) <==> Registered(r, ref)
  {
  }

  /** Applying other entries does not change whether an entry's values are carried. */
  lemma CarriedAlike(r: J, o: Overlay, refs: set<string>, ref: string, props: map<string, J>)
    requires ProperRefs(o) && refs <= o.Keys && forall other | other in refs :: SplitRef(other) != SplitRef(ref)
    ensures Carries(ApplyAll(r, o, refs), ref, props) <==> Carries(r, ref, props)
    ensures Registered(ApplyAll(r, o, refs), ref) <==> Registered(r, ref)
  {
    var r' := ApplyAll(r, o, refs);
    PlaceAlike(r, o, refs, ref, EntryPath(ref));
    PlaceAlike(r, o, refs, ref, CostPath(ref));
    PlaceAlike(r, o, refs, ref, ParamsPath(ref));
    CarriesSame(r, r', ref, props);
  }
}
