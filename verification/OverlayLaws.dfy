/** The algebra of overlays: merging and applying fit together, and the order of references never matters. */
module OverlayLaws {
  import opened Json
  import opened JsonPaths
  import opened ModelOverrides
  import opened OverlayApply

  // ---------------------------------------------------------------------------------------
  // Merging
  // ---------------------------------------------------------------------------------------

  lemma MergeSubTwice(sub: map<string, J>, u: map<string, J>)
    ensures MergeSub(MergeSub(sub, u), u) == MergeSub(sub, u)
  {
  }

  lemma MergeSubNothing(sub: map<string, J>, u: map<string, J>)
    requires MergeSub(sub, u) == map[]
    ensures MergeSub(map[], u) == map[]
  {
    assert forall k | k in NonNull(u) :: k in MergeSub(sub, u);
    assert NonNull(u).Keys == {};
  }

  /** Merging the same update a second time changes nothing, whatever the update sets or clears. */
  lemma MergePropsTwice(existing: J, u: map<string, J>)
    requires Mergeable(existing, u)
    ensures var once := Obj(MergeProps(existing, u));
            Mergeable(once, u) && MergeProps(once, u) == once.fields
  {
    var prior := EntryFields(existing);
    var once := MergeProps(existing, u);
    forall k | k in u
      ensures FieldMergeable(k, Lookup(once, k), u[k])
      ensures MergeField(k, Lookup(once, k), u[k]) == Lookup(once, k)
    {
      assert Lookup(once, k) == MergeField(k, Lookup(prior, k), u[k]);
      if MergesPerKey(k, u[k]) {
        var sub := SubDict(Lookup(prior, k)).value;
        MergeSubTwice(sub, u[k].fields);
        if MergeSub(sub, u[k].fields) == map[] {
          MergeSubNothing(sub, u[k].fields);
        }
      }
    }
    var twice := MergeProps(Obj(once), u);
    forall k ensures Lookup(twice, k) == Lookup(once, k) {
    }
    SameLookups(twice, once);
  }

  /** An update that leaves nothing of an entry leaves nothing of an empty entry either. */
  lemma MergeIntoNothing(existing: J, u: map<string, J>)
    requires Mergeable(existing, u) && MergeProps(existing, u) == map[]
    ensures Mergeable(Obj(map[]), u) && MergeProps(Obj(map[]), u) == map[]
  {
    var prior := EntryFields(existing);
    forall k | k in u ensures MergeField(k, None, u[k]).None? {
      assert Lookup(MergeProps(existing, u), k).None?;
      assert MergeField(k, Lookup(prior, k), u[k]).None?;
      if MergesPerKey(k, u[k]) {
        var sub := SubDict(Lookup(prior, k)).value;
        assert MergeSub(sub, u[k].fields) == map[];
        MergeSubNothing(sub, u[k].fields);
      }
    }
  }

  /** Saving the same update twice is saving it once. */
  lemma MergeIdempotent(o: Overlay, u: Overlay)
    requires OverlaysMergeable(o, u)
    ensures OverlaysMergeable(Merge(o, u), u) && Merge(Merge(o, u), u) == Merge(o, u)
  {
    var once := Merge(o, u);
    forall ref | ref in u
      ensures RefMergeable(once, u, ref) && MergedEntry(once, u, ref) == Lookup(once, ref)
    {
      assert RefMergeable(o, u, ref);
      var entry := EntryOrEmpty(o, ref);
      assert Lookup(once, ref) == MergedEntry(o, u, ref);
      if ref in once {
        MergePropsTwice(entry, u[ref].fields);
      } else {
        MergeIntoNothing(entry, u[ref].fields);
      }
    }
    forall ref ensures Lookup(Merge(once, u), ref) == Lookup(once, ref) {
      if ref !in u { assert MergedEntry(once, u, ref) == Lookup(once, ref); }
    }
    SameLookups(Merge(once, u), once);
  }

  /** Valid properties only ever hold objects under the keys that merge per key. */
  lemma ValidMergeable(existing: J, updates: J)
    requires (ValidProps(existing) || existing == Obj(map[])) && ValidProps(updates)
    ensures Mergeable(existing, updates.fields)
  {
    forall k | k in updates.fields
      ensures FieldMergeable(k, Lookup(EntryFields(existing), k), updates.fields[k])
    {
      if k in existing.fields { assert ValidField(k, existing.fields[k]); }
    }
  }

  /** A valid update of a valid (or new) entry leaves a valid entry, or none. */
  lemma MergeKeepsValid(existing: J, updates: J)
    requires (ValidProps(existing) || existing == Obj(map[])) && ValidProps(updates)
    ensures Mergeable(existing, updates.fields)
    ensures var m := MergeProps(existing, updates.fields); m == map[] || ValidProps(Obj(m))
  {
    ValidMergeable(existing, updates);
    var prior := EntryFields(existing);
    var m := MergeProps(existing, updates.fields);
    forall k | k in m ensures ValidField(k, m[k]) {
      if k in prior { assert ValidField(k, prior[k]); }
      if k in updates.fields {
        var update := updates.fields[k];
        assert ValidField(k, update);
        assert Some(m[k]) == MergeField(k, Lookup(prior, k), update);
        if MergesPerKey(k, update) {
          assert m[k] == Obj(MergeSub(SubDict(Lookup(prior, k)).value, update.fields));
        }
      }
    }
  }

  // ---------------------------------------------------------------------------------------
  // Merging one entry and applying it
  // ---------------------------------------------------------------------------------------

  /** The properties set values only: nothing is cleared. */
  predicate ClearFreeProps(props: map<string, J>) {
    forall k | k in props :: !props[k].Null?
          && (MergesPerKey(k, props[k]) ==> NonNull(props[k].fields) == props[k].fields)
  }

  predicate ClearFree(o: Overlay) {
    forall ref | ref in o :: o[ref].Obj? && ClearFreeProps(o[ref].fields)
  }

  function Join(a: Option<map<string, J>>, b: Option<map<string, J>>): Option<map<string, J>> {
    if a.None? then b else if b.None? then a else Some(a.value + b.value)
  }

  /** The patches of a merged entry are the entry's own patches followed by the update's. */
  lemma MergedPatches(x: J, y: J)
    requires (ValidProps(x) || x == Obj(map[])) && ValidProps(y) && ClearFreeProps(y.fields)
    ensures Mergeable(x, y.fields)
    ensures var m := MergeProps(x, y.fields);
            && m != map[]
            && PlainPatch(m) == PlainPatch(x.fields) + PlainPatch(y.fields)
            && SubPatch(m, "cost") == Join(SubPatch(x.fields, "cost"), SubPatch(y.fields, "cost"))
            && SubPatch(m, "params") == Join(SubPatch(x.fields, "params"), SubPatch(y.fields, "params"))
  {
    ValidMergeable(x, y);
    var m := MergeProps(x, y.fields);
    var some :| some in y.fields;
    assert ValidField(some, y.fields[some]);
    SubMerged(x, y, some);
    assert some in m;
    PlainMerged(x, y);
    SubMerged(x, y, "cost");
    SubMerged(x, y, "params");
  }

  lemma PlainMerged(x: J, y: J)
    requires x.Obj? && y.Obj? && Mergeable(x, y.fields) && ClearFreeProps(y.fields)
    ensures PlainPatch(MergeProps(x, y.fields)) == PlainPatch(x.fields) + PlainPatch(y.fields)
  {
    var m := MergeProps(x, y.fields);
    forall k | k in PLAIN_KEYS
      ensures Lookup(m, k) == if k in y.fields then Some(y.fields[k]) else Lookup(x.fields, k)
    {
    }
    var l, r := PlainPatch(m), PlainPatch(x.fields) + PlainPatch(y.fields);
    forall k ensures Lookup(l, k) == Lookup(r, k) {
      if k in PLAIN_KEYS {
        assert Lookup(m, k) == if k in y.fields then Some(y.fields[k]) else Lookup(x.fields, k);
      }
    }
    SameLookups(l, r);
  }

  lemma MergedSub(sub: map<string, J>, u: map<string, J>)
    requires u != map[] && forall k | k in u :: !u[k].Null?
    ensures MergeSub(sub, u) != map[] && NonNull(MergeSub(sub, u)) == NonNull(sub) + NonNull(u)
  {
    var k :| k in u;
    assert k in MergeSub(sub, u);
  }

  lemma SubMerged(x: J, y: J, k: string)
    requires (ValidProps(x) || x == Obj(map[])) && ValidProps(y) && ClearFreeProps(y.fields)
    requires Mergeable(x, y.fields)
    ensures var m := MergeProps(x, y.fields);
            && (k in y.fields ==> k in m)
            && (k == "cost" || k == "params" ==> SubPatch(m, k) == Join(SubPatch(x.fields, k), SubPatch(y.fields, k)))
  {
    var m := MergeProps(x, y.fields);
    if k in x.fields { assert ValidField(k, x.fields[k]); }
    if k in y.fields {
      assert ValidField(k, y.fields[k]);
      assert Lookup(m, k) == MergeField(k, Lookup(x.fields, k), y.fields[k]);
      if MergesPerKey(k, y.fields[k]) {
        var sub := SubDict(Lookup(x.fields, k)).value;
        MergedSub(sub, y.fields[k].fields);
        if SubPatch(x.fields, k).None? {
          assert NonNull(sub) + NonNull(y.fields[k].fields) == NonNull(y.fields[k].fields);
        }
      }
    } else {
      assert Lookup(m, k) == Lookup(x.fields, k);
    }
  }

  lemma PutIfTwice(c: J, p: seq<Step>, coerce: bool, a: Option<map<string, J>>, b: Option<map<string, J>>)
    requires forall m :: KeepsIds(p, m)
    ensures PutIf(PutIf(c, p, coerce, a), p, coerce, b) == PutIf(c, p, coerce, Join(a, b))
  {
    if a.Some? && b.Some? { PutTwice(c, p, coerce, a.value, b.value); }
  }

  /** Six patches of one model, sorted by place. */
  lemma PatchesTwice(c: J, ref: string,
                     a: map<string, J>, ac: Option<map<string, J>>, ap: Option<map<string, J>>,
                     b: map<string, J>, bc: Option<map<string, J>>, bp: Option<map<string, J>>)
    requires "id" !in a && "id" !in b && "cost" !in b
    ensures Patches(Patches(c, ref, a, ac, ap), ref, b, bc, bp) == Patches(c, ref, a + b, Join(ac, bc), Join(ap, bp))
  {
    var e, k, q := EntryPath(ref), CostPath(ref), ParamsPath(ref);
    forall m ensures KeepsIds(k, m) && KeepsIds(q, m) { PathsKeepIds(ref, m); }
    PathsKeepIds(ref, a);
    PathsKeepIds(ref, b);
    PartsAt(q, e, 0);
    PartsAt(q, k, 0);
    BelowIf(e, b, [Make("cost")]);
    var c1 := Put(c, e, false, a);
    var c2 := PutIf(c1, k, true, ac);
    var c3 := PutIf(c2, q, false, ap);
    // The second plain patch moves in front of the first cost and params patches.
    if ap.Some? { PutApart(c2, q, false, ap.value, e, false, b); }
    assert Put(c3, e, false, b) == PutIf(Put(c2, e, false, b), q, false, ap);
    if ac.Some? { PutBelow(c1, e, b, k, true, ac.value); }
    assert Put(c2, e, false, b) == PutIf(Put(c1, e, false, b), k, true, ac);
    PutTwice(c, e, false, a, b);
    var d1 := Put(c, e, false, a + b);
    var d2 := PutIf(d1, k, true, ac);
    var d3 := PutIf(d2, q, false, ap);
    assert Put(c3, e, false, b) == d3;
    // The second cost patch moves in front of the first params patch.
    if ap.Some? && bc.Some? { PutApart(d2, q, false, ap.value, k, true, bc.value); }
    assert PutIf(d3, k, true, bc) == PutIf(PutIf(d2, k, true, bc), q, false, ap);
    PutIfTwice(d1, k, true, ac, bc);
    PutIfTwice(PutIf(d1, k, true, Join(ac, bc)), q, false, ap, bp);
  }

  /** Applying an override does not change which models are registered. */
  lemma RegisteredAfter(c: J, ref: string, props: J)
    ensures Registered(ApplyRef(c, ref, props), ref) <==> Registered(c, ref)
  {
    if props.Obj? && Registered(c, ref) {
      var e := EntryPath(ref);
      var plain := PlainPatch(props.fields);
      var cost := SubPatch(props.fields, "cost");
      var params := SubPatch(props.fields, "params");
      PathsKeepIds(ref, plain);
      assert e + [] == e;
      GetThrough(c, e, [], false, plain);
      var c1 := Put(c, e, false, plain);
      if cost.Some? {
        PathsKeepIds(ref, cost.value);
        GetThrough(c1, e, [Make("cost")], true, cost.value);
      }
      if params.Some? {
        PathsKeepIds(ref, params.value);
        PartsAt(e, ParamsPath(ref), 0);
        GetApart(PutIf(c1, CostPath(ref), true, cost), e, ParamsPath(ref), false, params.value);
      }
    }
  }

  lemma ApplyJoined(c: J, ref: string, x: map<string, J>, y: map<string, J>, m: map<string, J>)
    requires PlainPatch(m) == PlainPatch(x) + PlainPatch(y)
    requires SubPatch(m, "cost") == Join(SubPatch(x, "cost"), SubPatch(y, "cost"))
    requires SubPatch(m, "params") == Join(SubPatch(x, "params"), SubPatch(y, "params"))
    ensures ApplyRef(ApplyRef(c, ref, Obj(x)), ref, Obj(y)) == ApplyRef(c, ref, Obj(m))
  {
    RegisteredAfter(c, ref, Obj(x));
    if Registered(c, ref) {
      PlainSpares(x);
      PlainSpares(y);
      Applied(c, ref, x);
      Applied(ApplyRef(c, ref, Obj(x)), ref, y);
      Applied(c, ref, m);
      PatchesTwice(c, ref, PlainPatch(x), SubPatch(x, "cost"), SubPatch(x, "params"),
                   PlainPatch(y), SubPatch(y, "cost"), SubPatch(y, "params"));
    }
  }

  /** One model: applying an entry and then an update is applying the merged entry. */
  lemma ApplyMergedRef(c: J, ref: string, x: J, y: J)
    requires (ValidProps(x) || x == Obj(map[])) && ValidProps(y) && ClearFreeProps(y.fields)
    ensures Mergeable(x, y.fields)
    ensures ApplyRef(ApplyRef(c, ref, x), ref, y) == ApplyRef(c, ref, Obj(MergeProps(x, y.fields)))
  {
    MergedPatches(x, y);
    ApplyJoined(c, ref, x.fields, y.fields, MergeProps(x, y.fields));
  }

  // ---------------------------------------------------------------------------------------
  // Merging and applying whole overlays
  // ---------------------------------------------------------------------------------------

  lemma MergedOne(o: Overlay, u: Overlay, ref: string)
    requires ValidOverlay(o) && ValidOverlay(u) && ClearFree(u) && ref in u
    ensures RefMergeable(o, u, ref) && Mergeable(EntryOrEmpty(o, ref), u[ref].fields)
    ensures MergedEntry(o, u, ref) == Some(Obj(MergeProps(EntryOrEmpty(o, ref), u[ref].fields)))
  {
    MergedPatches(EntryOrEmpty(o, ref), u[ref]);
  }

  /** The entries of a merged overlay, when the update clears nothing. */
  lemma MergedOverlay(o: Overlay, u: Overlay)
    requires ValidOverlay(o) && ValidOverlay(u) && ClearFree(u)
    ensures OverlaysMergeable(o, u)
    ensures Merge(o, u).Keys == o.Keys + u.Keys
    ensures forall ref | ref in o && ref !in u :: Merge(o, u)[ref] == o[ref]
    ensures forall ref | ref in u :: Merge(o, u)[ref] == MergedUpdate(o, u, ref)
  {
    forall ref | ref in u
      ensures RefMergeable(o, u, ref) && MergedEntry(o, u, ref) == Some(MergedUpdate(o, u, ref))
    {
      MergedOne(o, u, ref);
    }
    MergedLookups(o, u);
  }

  /** What an updated entry becomes. */
  function MergedUpdate(o: Overlay, u: Overlay, ref: string): J
    requires ref in u
  {
    if u[ref].Obj? && Mergeable(EntryOrEmpty(o, ref), u[ref].fields)
    then Obj(MergeProps(EntryOrEmpty(o, ref), u[ref].fields)) else Null
  }

  lemma MergedLookups(o: Overlay, u: Overlay)
    requires OverlaysMergeable(o, u) && forall ref | ref in u :: MergedEntry(o, u, ref) == Some(MergedUpdate(o, u, ref))
    ensures Merge(o, u).Keys == o.Keys + u.Keys
    ensures forall ref | ref in o && ref !in u :: Merge(o, u)[ref] == o[ref]
    ensures forall ref | ref in u :: Merge(o, u)[ref] == MergedUpdate(o, u, ref)
  {
  }

  function ApplyIn(c: J, o: Overlay, ref: string): J {
    if ref in o then ApplyRef(c, ref, o[ref]) else c
  }

  lemma ApplyFirst(c: J, o: Overlay, refs: set<string>, ref: string)
    requires ProperRefs(o) && ref in refs
    ensures ApplyAll(c, o, refs * o.Keys) == ApplyAll(ApplyIn(c, o, ref), o, (refs - {ref}) * o.Keys)
  {
    if ref in o {
      ApplyAnyFirst(c, o, refs * o.Keys, ref);
      assert (refs - {ref}) * o.Keys == refs * o.Keys - {ref};
    } else {
      assert (refs - {ref}) * o.Keys == refs * o.Keys;
    }
  }

  lemma ApplyLast(c: J, o: Overlay, refs: set<string>, u: Overlay, ref: string)
    requires ProperRefs(o) && forall other | other in refs * o.Keys :: SplitRef(other) != SplitRef(ref)
    ensures ApplyIn(ApplyAll(c, o, refs * o.Keys), u, ref) == ApplyAll(ApplyIn(c, u, ref), o, refs * o.Keys)
  {
    if ref in u { ApplyRefLast(c, o, refs * o.Keys, ref, u[ref]); }
  }

  /** Two overlays one after the other, or reference by reference. */
  lemma {:induction false} ApplySetBySet(c: J, o: Overlay, u: Overlay, m: Overlay, refs: set<string>)
    requires ProperRefs(m) && m.Keys == o.Keys + u.Keys && refs <= m.Keys
    requires forall d, ref | ref in m :: ApplyIn(ApplyIn(d, o, ref), u, ref) == ApplyIn(d, m, ref)
    ensures ApplyAll(ApplyAll(c, o, refs * o.Keys), u, refs * u.Keys) == ApplyAll(c, m, refs * m.Keys)
    decreases |refs|
  {
    if refs == {} {
      assert refs * o.Keys == {} && refs * u.Keys == {} && refs * m.Keys == {};
    } else {
      var ref :| ref in refs;
      var rest := refs - {ref};
      var c1 := ApplyIn(c, o, ref);
      ApplyFirst(c, o, refs, ref);
      ApplyFirst(ApplyAll(c1, o, rest * o.Keys), u, refs, ref);
      ApplyLast(c1, o, rest, u, ref);
      ApplySetBySet(ApplyIn(c1, u, ref), o, u, m, rest);
      ApplyFirst(c, m, refs, ref);
    }
  }

  lemma UpdateOne(c: J, o: Overlay, u: Overlay, ref: string)
    requires ValidOverlay(o) && ValidOverlay(u) && ClearFree(u) && OverlaysMergeable(o, u)
    requires ref in Merge(o, u)
    ensures ApplyIn(ApplyIn(c, o, ref), u, ref) == ApplyIn(c, Merge(o, u), ref)
  {
    MergedOverlay(o, u);
    if ref in u {
      MergedOne(o, u, ref);
      ApplyMergedRef(c, ref, EntryOrEmpty(o, ref), u[ref]);
      if ref !in o { ApplyNothing(c, ref); }
    }
  }

  lemma UpdateEach(o: Overlay, u: Overlay)
    requires ValidOverlay(o) && ValidOverlay(u) && ClearFree(u) && OverlaysMergeable(o, u)
    ensures forall d, ref | ref in Merge(o, u) :: ApplyIn(ApplyIn(d, o, ref), u, ref) == ApplyIn(d, Merge(o, u), ref)
  {
    forall d, ref | ref in Merge(o, u)
      ensures ApplyIn(ApplyIn(d, o, ref), u, ref) == ApplyIn(d, Merge(o, u), ref)
    {
      UpdateOne(d, o, u, ref);
    }
  }

  lemma {:induction false} PutNothing(j: J, p: seq<Step>)
    requires forall i | 0 <= i < |p| :: !p[i].Make?
    ensures Put(j, p, false, map[]) == j
    decreases |p|
  {
    if p == [] {
      if j.Obj? { assert j.fields + map[] == j.fields; }
    } else if Leads(j, p[0]) {
      PutNothing(Child(j, p[0]), p[1..]);
      assert Replace(j, p[0], Child(j, p[0])) == j;
    }
  }

  lemma ApplyNothing(c: J, ref: string)
    ensures ApplyRef(c, ref, Obj(map[])) == c
  {
    var none: map<string, J> := map[];
    assert PlainPatch(none) == none;
    PutNothing(c, EntryPath(ref));
  }

  /** What the type checks of a reference see after other overrides, and after its own. */
  lemma {:induction false} RaisesAfterAll(c: J, o: Overlay, refs: set<string>, ref: string)
    requires ProperRefs(o) && refs <= o.Keys
    ensures var r := ApplyAll(c, o, refs);
            && (r.Obj? <==> c.Obj?)
            && (RootRaises(r) <==> RootRaises(c))
            && (ListRaises(r, SplitRef(ref).0) <==> ListRaises(c, SplitRef(ref).0))
            && ((forall other | other in refs :: SplitRef(other) != SplitRef(ref))
                  ==> (CostRaises(r, ref) <==> CostRaises(c, ref)))
    decreases |refs|
  {
    if refs != {} {
      var first :| first in refs;
      var c1 := ApplyRef(c, first, o[first]);
      ApplyAnyFirst(c, o, refs, first);
      RaisesAfterAll(c1, o, refs - {first}, ref);
      ShapesKept(c, first, o[first], SplitRef(ref).0);
      if forall other | other in refs :: SplitRef(other) != SplitRef(ref) {
        OtherRefUntouched(ref, first);
        GetAfterApplyRef(c, CostPath(ref), first, o[first]);
      }
    }
  }

  /** A patch that does not set "cost" leaves the cost check as it was. */
  lemma CostBelow(c: J, ref: string, plain: map<string, J>)
    requires Registered(c, ref) && "id" !in plain && "cost" !in plain
    ensures var c1 := Put(c, EntryPath(ref), false, plain);
            Registered(c1, ref) && (CostRaises(c1, ref) <==> CostRaises(c, ref))
  {
    var e := EntryPath(ref);
    PathsKeepIds(ref, plain);
    assert e + [] == e;
    GetThrough(c, e, [], false, plain);
    CostIsOfEntry(c, e);
    CostIsOfEntry(Put(c, e, false, plain), e);
  }

  /** A price list set where nothing bad stood leaves nothing bad. */
  lemma CostSet(c: J, ref: string, cost: map<string, J>)
    requires Registered(c, ref) && !CostRaises(c, ref)
    ensures !CostRaises(Put(c, CostPath(ref), true, cost), ref)
  {
    var e := EntryPath(ref);
    PathsKeepIds(ref, cost);
    GetThrough(c, e, [Make("cost")], true, cost);
    CostIsOfEntry(c, e);
    CostIsOfEntry(Put(c, CostPath(ref), true, cost), e);
  }

  lemma CostPastParams(c: J, ref: string, params: Option<map<string, J>>)
    ensures CostRaises(PutIf(c, ParamsPath(ref), false, params), ref) <==> CostRaises(c, ref)
  {
    if params.Some? {
      PathsKeepIds(ref, params.value);
      PartsAt(CostPath(ref), ParamsPath(ref), 0);
      GetApart(c, CostPath(ref), ParamsPath(ref), false, params.value);
    }
  }

  /** After an override that went through, the cost of its model is as bad as before, or an object. */
  lemma OwnCostAfter(c: J, ref: string, props: J)
    requires props.Obj?
    ensures SubPatch(props.fields, "cost").None? ==> (CostRaises(ApplyRef(c, ref, props), ref) <==> CostRaises(c, ref))
    ensures SubPatch(props.fields, "cost").Some? && !CostRaises(c, ref) ==> !CostRaises(ApplyRef(c, ref, props), ref)
  {
    if Registered(c, ref) {
      PlainSpares(props.fields);
      OwnCostPatched(c, ref, PlainPatch(props.fields), SubPatch(props.fields, "cost"),
            SubPatch(props.fields, "params"));
    }
  }

  lemma OwnCostPatched(c: J, ref: string, plain: map<string, J>, cost: Option<map<string, J>>,
                       params: Option<map<string, J>>)
    requires Registered(c, ref) && "id" !in plain && "cost" !in plain
    ensures cost.None? ==> (CostRaises(Patches(c, ref, plain, cost, params), ref) <==> CostRaises(c, ref))
    ensures cost.Some? && !CostRaises(c, ref) ==> !CostRaises(Patches(c, ref, plain, cost, params), ref)
  {
    var c1 := Put(c, EntryPath(ref), false, plain);
    CostBelow(c, ref, plain);
    if cost.Some? && !CostRaises(c1, ref) { CostSet(c1, ref, cost.value); }
    CostPastParams(PutIf(c1, CostPath(ref), true, cost), ref, params);
  }

  /** A type error of an entry is one of the entry merged with an update. */
  lemma MergedRaisesMore(c: J, ref: string, x: J, y: J, m: J)
    requires x.Obj? && y.Obj? && m.Obj?
    requires SubPatch(m.fields, "cost") == Join(SubPatch(x.fields, "cost"), SubPatch(y.fields, "cost"))
    ensures RefRaises(c, ref, x) ==> RefRaises(c, ref, m)
  {
  }

  /** An update of a new entry is a type error before and after the other overrides alike. */
  lemma NewRaises(c: J, o: Overlay, ref: string, y: J, m: J)
    requires y.Obj? && m.Obj? && ProperRefs(o) && forall other | other in o :: SplitRef(other) != SplitRef(ref)
    requires SubPatch(m.fields, "cost") == SubPatch(y.fields, "cost")
    ensures RefRaises(c, ref, m) <==> RefRaises(ApplyAll(c, o, o.Keys), ref, y)
  {
    RaisesAfterAll(c, o, o.Keys, ref);
  }

  /** An update of an entry that went through is a type error after it exactly when the merged entry is one. */
  lemma UpdateRaises(c: J, o: Overlay, ref: string, y: J, m: J)
    requires y.Obj? && m.Obj? && ProperRefs(o) && ref in o && o[ref].Obj? && !RefRaises(c, ref, o[ref])
    requires SubPatch(m.fields, "cost") == Join(SubPatch(o[ref].fields, "cost"), SubPatch(y.fields, "cost"))
    ensures RefRaises(c, ref, m) <==> RefRaises(ApplyAll(c, o, o.Keys), ref, y)
  {
    var rest := o.Keys - {ref};
    var c1 := ApplyAll(c, o, rest);
    RaisesAfterAll(c, o, o.Keys, ref);
    RaisesAfterAll(c, o, rest, ref);
    ApplyAnyFirst(c, o, o.Keys, ref);
    ApplyRefLast(c, o, rest, ref, o[ref]);
    OwnCostAfter(c1, ref, o[ref]);
  }

  lemma OldRaises(c: J, o: Overlay, ref: string, y: J, m: J)
    requires y.Obj? && m.Obj? && ProperRefs(o) && ref in o && o[ref].Obj?
    requires SubPatch(m.fields, "cost") == Join(SubPatch(o[ref].fields, "cost"), SubPatch(y.fields, "cost"))
    ensures RefRaises(c, ref, o[ref]) ==> RefRaises(c, ref, m)
    ensures !RefRaises(c, ref, o[ref]) ==> (RefRaises(c, ref, m) <==> RefRaises(ApplyAll(c, o, o.Keys), ref, y))
  {
    MergedRaisesMore(c, ref, o[ref], y, m);
    if !RefRaises(c, ref, o[ref]) { UpdateRaises(c, o, ref, y, m); }
  }

  /** Whether one reference of the merged overlay is a type error. */
  lemma MergedRefRaises(c: J, o: Overlay, u: Overlay, ref: string)
    requires ValidOverlay(o) && ValidOverlay(u) && ClearFree(u) && AllApart(o.Keys + u.Keys)
    requires OverlaysMergeable(o, u) && ref in u && ref in Merge(o, u)
    ensures ref in o && RefRaises(c, ref, o[ref]) ==> RefRaises(c, ref, Merge(o, u)[ref])
    ensures (ref in o ==> !RefRaises(c, ref, o[ref])) ==>
              (RefRaises(c, ref, Merge(o, u)[ref]) <==> RefRaises(ApplyAll(c, o, o.Keys), ref, u[ref]))
  {
    MergedOverlay(o, u);
    MergedOne(o, u, ref);
    MergedPatches(EntryOrEmpty(o, ref), u[ref]);
    if ref in o {
      OldRaises(c, o, ref, u[ref], Merge(o, u)[ref]);
    } else {
      NewRaises(c, o, ref, u[ref], Merge(o, u)[ref]);
    }
  }

  /**
   * Applying an overlay and then an update is applying the merged overlay, type errors included.
   */
  lemma ApplyMerge(c: J, o: Overlay, u: Overlay)
    requires ValidOverlay(o) && ValidOverlay(u) && ClearFree(u) && AllApart(o.Keys + u.Keys)
    ensures OverlaysMergeable(o, u)
    ensures Apply(c, Merge(o, u)) == if Apply(c, o).None? then None else Apply(Apply(c, o).value, u)
  {
    MergedOverlay(o, u);
    if u == map[] {
      MergeNothing(o, u);
    } else if o == map[] {
      MergeIntoNone(o, u);
    } else if c.Obj? {
      ApplyMergeBoth(c, o, u);
    }
  }

  lemma ApplyMergeBoth(c: J, o: Overlay, u: Overlay)
    requires ValidOverlay(o) && ValidOverlay(u) && ClearFree(u) && AllApart(o.Keys + u.Keys)
    requires OverlaysMergeable(o, u) && o != map[] && u != map[] && c.Obj?
    ensures Apply(c, Merge(o, u)) == if Apply(c, o).None? then None else Apply(Apply(c, o).value, u)
  {
    MergedOverlay(o, u);
    RaisesMerged(c, o, u);
    ApplyMergedAll(c, o, u);
    RaisesAfterAll(c, o, o.Keys, "/");
  }

  lemma MergeNothing(o: Overlay, u: Overlay)
    requires u == map[]
    ensures OverlaysMergeable(o, u) && Merge(o, u) == o
  {
  }

  lemma MergeIntoNone(o: Overlay, u: Overlay)
    requires ValidOverlay(o) && ValidOverlay(u) && ClearFree(u) && OverlaysMergeable(o, u) && o == map[]
    ensures Merge(o, u) == u
  {
    MergedOverlay(o, u);
    forall ref | ref in u ensures MergedUpdate(o, u, ref) == u[ref] { UpdateAlone(o, u, ref); }
    SameMaps(Merge(o, u), u);
  }

  lemma UpdateAlone(o: Overlay, u: Overlay, ref: string)
    requires ref in u && ref !in o && ValidProps(u[ref]) && ClearFreeProps(u[ref].fields)
    ensures MergedUpdate(o, u, ref) == u[ref]
  {
    MergeIntoEmpty(u[ref]);
  }

  lemma SameMaps(a: Overlay, b: Overlay)
    requires a.Keys == b.Keys && forall k | k in b :: a[k] == b[k]
    ensures a == b
  {
  }

  lemma ApplyMergedAll(c: J, o: Overlay, u: Overlay)
    requires ValidOverlay(o) && ValidOverlay(u) && ClearFree(u) && AllApart(o.Keys + u.Keys)
    requires OverlaysMergeable(o, u)
    ensures ApplyAll(c, Merge(o, u), Merge(o, u).Keys) == ApplyAll(ApplyAll(c, o, o.Keys), u, u.Keys)
  {
    var m := Merge(o, u);
    MergedOverlay(o, u);
    UpdateEach(o, u);
    ApplySetBySet(c, o, u, m, m.Keys);
    Within(m.Keys, o.Keys);
    Within(m.Keys, u.Keys);
    Within(m.Keys, m.Keys);
  }

  lemma Within(whole: set<string>, part: set<string>)
    requires part <= whole
    ensures whole * part == part
  {
  }

  lemma RaisesMerged(c: J, o: Overlay, u: Overlay)
    requires ValidOverlay(o) && ValidOverlay(u) && ClearFree(u) && AllApart(o.Keys + u.Keys) && u != map[]
    requires OverlaysMergeable(o, u)
    ensures Raises(c, Merge(o, u)) <==> Raises(c, o) || Raises(ApplyAll(c, o, o.Keys), u)
  {
    var some :| some in u;
    RaisesAfterAll(c, o, o.Keys, some);
    if !RootRaises(c) {
      if Raises(c, o) {
        RaisedBefore(c, o, u);
      } else {
        RaisedAfter(c, o, u);
      }
    }
  }

  lemma RaisedBefore(c: J, o: Overlay, u: Overlay)
    requires ValidOverlay(o) && ValidOverlay(u) && ClearFree(u) && AllApart(o.Keys + u.Keys) && OverlaysMergeable(o, u)
    requires Raises(c, o) && !RootRaises(c)
    ensures Raises(c, Merge(o, u))
  {
    var ref :| ref in o && RefRaises(c, ref, o[ref]);
    MergedOverlay(o, u);
    if ref in u { MergedRefRaises(c, o, u, ref); }
    assert ref in Merge(o, u) && RefRaises(c, ref, Merge(o, u)[ref]);
  }

  lemma RaisedAfter(c: J, o: Overlay, u: Overlay)
    requires ValidOverlay(o) && ValidOverlay(u) && ClearFree(u) && AllApart(o.Keys + u.Keys) && OverlaysMergeable(o, u)
    requires !Raises(c, o) && !RootRaises(ApplyAll(c, o, o.Keys))
    ensures Raises(c, Merge(o, u)) <==> Raises(ApplyAll(c, o, o.Keys), u)
  {
    MergedOverlay(o, u);
    if ref :| ref in Merge(o, u) && RefRaises(c, ref, Merge(o, u)[ref]) {
      assert ref in u;
      MergedRefRaises(c, o, u, ref);
    }
    if Raises(ApplyAll(c, o, o.Keys), u) { RaisedByUpdate(c, o, u); }
  }

  lemma RaisedByUpdate(c: J, o: Overlay, u: Overlay)
    requires ValidOverlay(o) && ValidOverlay(u) && ClearFree(u) && AllApart(o.Keys + u.Keys) && OverlaysMergeable(o, u)
    requires !Raises(c, o) && !RootRaises(ApplyAll(c, o, o.Keys)) && Raises(ApplyAll(c, o, o.Keys), u)
    ensures Raises(c, Merge(o, u))
  {
    var ref :| ref in u && RefRaises(ApplyAll(c, o, o.Keys), ref, u[ref]);
    MergedOverlay(o, u);
    MergedRefRaises(c, o, u, ref);
  }

  lemma MergeIntoEmpty(y: J)
    requires ValidProps(y) && ClearFreeProps(y.fields)
    ensures Mergeable(Obj(map[]), y.fields) && MergeProps(Obj(map[]), y.fields) == y.fields
  {
    ValidMergeable(Obj(map[]), y);
    var m := MergeProps(Obj(map[]), y.fields);
    forall k ensures Lookup(m, k) == Lookup(y.fields, k) {
      if k in y.fields {
        assert ValidField(k, y.fields[k]);
        if MergesPerKey(k, y.fields[k]) {
          assert MergeSub(map[], y.fields[k].fields) == NonNull(y.fields[k].fields);
        }
      }
    }
    SameLookups(m, y.fields);
  }
}
