/** Applying the overlay to an openclaw.json-shaped configuration (autodev/installer/model_overrides.py). */
module OverlayApply {
  import opened Json
  import opened JsonPaths
  import opened ModelOverrides

  /** `ref.partition("/")`, without the separator. */
  function SplitRef(ref: string): (r: (string, string))
    ensures '/' in ref ==> ref == r.0 + "/" + r.1
    ensures '/' !in r.0
  {
    if ref == "" then ("", "")
    else if ref[0] == '/' then ("", ref[1..])
    else
      var (p, m) := SplitRef(ref[1..]);
      ([ref[0]] + p, m)
  }

  /** No two of the references mean the same model of the same provider. */
  predicate AllApart(refs: set<string>) {
    forall a, b | a in refs && b in refs && a != b :: SplitRef(a) != SplitRef(b)
  }

  predicate ProperRefs(o: Overlay) {
    AllApart(o.Keys)
  }

  /** References with a slash, which are all that the overlay loader lets through, are apart. */
  lemma SlashedRefsApart(refs: set<string>)
    requires forall ref | ref in refs :: '/' in ref
    ensures AllApart(refs)
  {
    forall a, b | a in refs && b in refs && a != b ensures SplitRef(a) != SplitRef(b) {
      assert a == SplitRef(a).0 + "/" + SplitRef(a).1;
    }
  }

  /** Where a provider keeps its model list. */
  function ListPath(provider: string): seq<Step> {
    [Key("models"), Key("providers"), Key(provider), Key("models")]
  }

  function EntryPath(ref: string): seq<Step> {
    ListPath(SplitRef(ref).0) + [Elem(SplitRef(ref).1)]
  }

  function CostPath(ref: string): seq<Step> {
    EntryPath(ref) + [Make("cost")]
  }

  function ParamsPath(ref: string): seq<Step> {
    [Make("agents"), Make("defaults"), Make("models"), Make(ref), Make("params")]
  }

  /** The model named by `ref` is in its provider's list. */
  predicate Registered(config: J, ref: string) {
    Get(config, EntryPath(ref)).Some?
  }

  /** The properties set directly on the model entry. */
  function PlainPatch(props: map<string, J>): map<string, J> {
    map k | k in props && k in PLAIN_KEYS && !props[k].Null? :: props[k]
  }

  /** Ids and prices are not set directly. */
  lemma PlainSpares(props: map<string, J>)
    ensures "id" !in PlainPatch(props) && "cost" !in PlainPatch(props)
  {
  }

  /** The non-null part of a sub-object, when there is a non-empty one. */
  function SubPatch(props: map<string, J>, key: string): Option<map<string, J>> {
    if key in props && props[key].Obj? && props[key].fields != map[] then Some(NonNull(props[key].fields)) else None
  }

  function PutIf(config: J, path: seq<Step>, coerce: bool, patch: Option<map<string, J>>): J {
    if patch.Some? then Put(config, path, coerce, patch.value) else config
  }

  /** The three patches of an override, in order: plain properties, cost, params. */
  function Patches(c: J, ref: string, plain: map<string, J>, cost: Option<map<string, J>>,
                   params: Option<map<string, J>>): J {
    PutIf(PutIf(Put(c, EntryPath(ref), false, plain), CostPath(ref), true, cost), ParamsPath(ref), false, params)
  }

  /** One override applied: nothing at all happens for an unknown model. */
  function ApplyRef(config: J, ref: string, props: J): J {
    if props.Obj? && Registered(config, ref)
    then Patches(config, ref, PlainPatch(props.fields), SubPatch(props.fields, "cost"),
          SubPatch(props.fields, "params"))
    else config
  }

  /** A registered model's properties are applied as three patches. */
  lemma Applied(c: J, ref: string, props: map<string, J>)
    requires Registered(c, ref)
    ensures ApplyRef(c, ref, Obj(props)) ==
            Patches(c, ref, PlainPatch(props), SubPatch(props, "cost"), SubPatch(props, "params"))
  {
  }

  predicate NotIterable(j: J) {
    Truthy(j) && (j.Bool? || IsNumeric(j))
  }

  /** `for m in provider.get("models") or []` meets a number. */
  predicate ListRaises(config: J, provider: string) {
    var models := Get(config, ListPath(provider));
    models.Some? && NotIterable(models.value)
  }

  /** `dict(entry.get("cost") or {})` meets a truthy value that is not an object. */
  predicate CostRaises(config: J, ref: string) {
    var cost := Get(config, CostPath(ref));
    cost.Some? && Truthy(cost.value) && !cost.value.Obj?
  }

  /** Applying this override is a type error. */
  predicate RefRaises(config: J, ref: string, props: J) {
    props.Obj? && (ListRaises(config, SplitRef(ref).0)
          || (CostRaises(config, ref) && SubPatch(props.fields, "cost").Some?))
  }

  /** `(config.get("models") or {}).get(...)` meets a truthy value that is not an object. */
  predicate RootRaises(config: J) {
    var models := Get(config, [Key("models")]);
    models.Some? && Truthy(models.value) && !models.value.Obj?
  }

  predicate Raises(config: J, o: Overlay) {
    RootRaises(config) || exists ref | ref in o :: RefRaises(config, ref, o[ref])
  }

  /** The overrides named by `refs` applied, in some order. */
  ghost function ApplyAll(config: J, o: Overlay, refs: set<string>): J
    requires refs <= o.Keys
    decreases |refs|
  {
    if refs == {} then config
    else
      var ref :| ref in refs;
      ApplyAll(ApplyRef(config, ref, o[ref]), o, refs - {ref})
  }

  /** `apply_model_overrides`: the configuration with the overlay applied, `None` for a type error. */
  ghost function Apply(config: J, o: Overlay): Option<J> {
    if o == map[] || !config.Obj? then Some(config)
    else if Raises(config, o) then None
    else Some(ApplyAll(config, o, o.Keys))
  }

  /** What stands under `cost` at the end of a path. */
  lemma {:induction false} CostIsOfEntry(c: J, p: seq<Step>)
    ensures Get(c, p + [Make("cost")]) ==
            if Get(c, p).Some? && Get(c, p).value.Obj? then Lookup(Get(c, p).value.fields, "cost") else None
    decreases |p|
  {
    if p == [] {
      assert p + [Make("cost")] == [Make("cost")];
      assert [Make("cost")][1..] == [];
    } else {
      assert (p + [Make("cost")])[1..] == p[1..] + [Make("cost")];
      if Present(c, p[0]) { CostIsOfEntry(Child(c, p[0]), p[1..]); }
    }
  }

  // ---------------------------------------------------------------------------------------
  // Paths of different overrides
  // ---------------------------------------------------------------------------------------

  lemma PathsKeepIds(ref: string, a: map<string, J>)
    ensures "id" !in a ==> KeepsIds(EntryPath(ref), a)
    ensures KeepsIds(CostPath(ref), a) && KeepsIds(ParamsPath(ref), a)
  {
    if "id" !in a { KeepsIdsIf(EntryPath(ref), a); }
    KeepsIdsIf(CostPath(ref), a);
    KeepsIdsIf(ParamsPath(ref), a);
  }

  /** The places an override touches or looks at. */
  predicate TouchedBy(p: seq<Step>, ref: string) {
    p == EntryPath(ref) || p == CostPath(ref) || p == ParamsPath(ref)
  }

  /** Different overrides touch different places. */
  lemma RefsPart(a: string, p: seq<Step>, b: string, q: seq<Step>)
    requires SplitRef(a) != SplitRef(b) && TouchedBy(p, a) && TouchedBy(q, b)
    ensures Parts(p, q)
  {
    if p[0] != q[0] {
      PartsAt(p, q, 0);
    } else if p[0].Make? {
      PartsAt(p, q, 3);
    } else if SplitRef(a).0 != SplitRef(b).0 {
      PartsAt(p, q, 2);
    } else {
      PartsAt(p, q, 4);
    }
  }

  // ---------------------------------------------------------------------------------------
  // One override seen from another
  // ---------------------------------------------------------------------------------------

  /** A place no patch of `ref` is at, above or below. */
  predicate Untouched(p: seq<Step>, ref: string) {
    Parts(p, EntryPath(ref)) && Parts(p, CostPath(ref)) && Parts(p, ParamsPath(ref))
  }

  lemma GetAfterApplyRef(config: J, p: seq<Step>, ref: string, props: J)
    requires Untouched(p, ref)
    ensures Get(ApplyRef(config, ref, props), p) == Get(config, p)
  {
    if props.Obj? && Registered(config, ref) {
      var c1 := Put(config, EntryPath(ref), false, PlainPatch(props.fields));
      PlainSpares(props.fields);
      PathsKeepIds(ref, PlainPatch(props.fields));
      GetApart(config, p, EntryPath(ref), false, PlainPatch(props.fields));
      var cost := SubPatch(props.fields, "cost");
      var c2 := PutIf(c1, CostPath(ref), true, cost);
      if cost.Some? {
        PathsKeepIds(ref, cost.value);
        GetApart(c1, p, CostPath(ref), true, cost.value);
      }
      var params := SubPatch(props.fields, "params");
      if params.Some? {
        PathsKeepIds(ref, params.value);
        GetApart(c2, p, ParamsPath(ref), false, params.value);
      }
    }
  }

  lemma OtherRefUntouched(a: string, b: string)
    requires SplitRef(a) != SplitRef(b)
    ensures Untouched(EntryPath(a), b) && Untouched(CostPath(a), b) && Untouched(ParamsPath(a), b)
  {
    forall p, q | TouchedBy(p, a) && TouchedBy(q, b) ensures Parts(p, q) { RefsPart(a, p, b, q); }
    assert TouchedBy(EntryPath(a), a) && TouchedBy(CostPath(a), a) && TouchedBy(ParamsPath(a), a);
    assert TouchedBy(EntryPath(b), b) && TouchedBy(CostPath(b), b) && TouchedBy(ParamsPath(b), b);
  }

  /** A patch, where there is one, commutes with a patch at a place that parts from its own. */
  lemma PutIfApart(config: J, p: seq<Step>, c: bool, patch: map<string, J>, q: seq<Step>, d: bool,
                   other: Option<map<string, J>>)
    requires Parts(q, p) && KeepsIds(p, patch) && (other.Some? ==> KeepsIds(q, other.value))
    ensures Put(PutIf(config, q, d, other), p, c, patch) == PutIf(Put(config, p, c, patch), q, d, other)
  {
    if other.Some? { PutApart(config, q, d, other.value, p, c, patch); }
  }

  /** A patch at one override's place commutes with the three patches of another. */
  lemma PutPatches(config: J, p: seq<Step>, c: bool, patch: map<string, J>, ref: string,
                   plain: map<string, J>, cost: Option<map<string, J>>, params: Option<map<string, J>>)
    requires Untouched(p, ref) && KeepsIds(p, patch) && "id" !in plain
    ensures Put(Patches(config, ref, plain, cost, params), p, c, patch) ==
              Patches(Put(config, p, c, patch), ref, plain, cost, params)
  {
    PathsKeepIds(ref, plain);
    if cost.Some? { PathsKeepIds(ref, cost.value); }
    if params.Some? { PathsKeepIds(ref, params.value); }
    PartsSym(p, EntryPath(ref));
    PartsSym(p, CostPath(ref));
    PartsSym(p, ParamsPath(ref));
    var c1 := Put(config, EntryPath(ref), false, plain);
    var c2 := PutIf(c1, CostPath(ref), true, cost);
    PutIfApart(c2, p, c, patch, ParamsPath(ref), false, params);
    PutIfApart(c1, p, c, patch, CostPath(ref), true, cost);
    PutApart(config, EntryPath(ref), false, plain, p, c, patch);
  }

  /** A patch of one override commutes with the whole application of another. */
  lemma PutApplyRef(config: J, p: seq<Step>, c: bool, patch: map<string, J>, b: string, props: J)
    requires Untouched(p, b) && KeepsIds(p, patch)
    ensures Put(ApplyRef(config, b, props), p, c, patch) == ApplyRef(Put(config, p, c, patch), b, props)
  {
    PartsSym(p, EntryPath(b));
    GetApart(config, EntryPath(b), p, c, patch);
    if props.Obj? && Registered(config, b) {
      PlainSpares(props.fields);
      PutPatches(config, p, c, patch, b, PlainPatch(props.fields), SubPatch(props.fields, "cost"),
            SubPatch(props.fields, "params"));
    }
  }

  lemma PutIfApplyRef(config: J, p: seq<Step>, c: bool, patch: Option<map<string, J>>, b: string, props: J)
    requires Untouched(p, b) && (patch.Some? ==> KeepsIds(p, patch.value))
    ensures PutIf(ApplyRef(config, b, props), p, c, patch) == ApplyRef(PutIf(config, p, c, patch), b, props)
  {
    if patch.Some? { PutApplyRef(config, p, c, patch.value, b, props); }
  }

  /** The three patches of one override commute with the whole application of another. */
  lemma PatchesApplyRef(config: J, a: string, plain: map<string, J>, cost: Option<map<string, J>>,
                        params: Option<map<string, J>>, b: string, y: J)
    requires SplitRef(a) != SplitRef(b) && "id" !in plain
    ensures Patches(ApplyRef(config, b, y), a, plain, cost, params) ==
              ApplyRef(Patches(config, a, plain, cost, params), b, y)
  {
    OtherRefUntouched(a, b);
    PathsKeepIds(a, plain);
    if cost.Some? { PathsKeepIds(a, cost.value); }
    if params.Some? { PathsKeepIds(a, params.value); }
    var c1 := Put(config, EntryPath(a), false, plain);
    var c2 := PutIf(c1, CostPath(a), true, cost);
    PutApplyRef(config, EntryPath(a), false, plain, b, y);
    PutIfApplyRef(c1, CostPath(a), true, cost, b, y);
    PutIfApplyRef(c2, ParamsPath(a), false, params, b, y);
  }

  /** Two overrides of different models commute. */
  lemma ApplyRefsCommute(config: J, a: string, x: J, b: string, y: J)
    requires SplitRef(a) != SplitRef(b)
    ensures ApplyRef(ApplyRef(config, a, x), b, y) == ApplyRef(ApplyRef(config, b, y), a, x)
  {
    OtherRefUntouched(a, b);
    GetAfterApplyRef(config, EntryPath(a), b, y);
    if x.Obj? && Registered(config, a) {
      PlainSpares(x.fields);
      PatchesApplyRef(config, a, PlainPatch(x.fields), SubPatch(x.fields, "cost"), SubPatch(x.fields, "params"), b, y);
    }
  }

  // ---------------------------------------------------------------------------------------
  // Order of application
  // ---------------------------------------------------------------------------------------

  /** Whichever override is applied first, the outcome is the same. */
  lemma {:induction false} ApplyAnyFirst(config: J, o: Overlay, refs: set<string>, ref: string)
    requires ProperRefs(o) && refs <= o.Keys && ref in refs
    ensures ApplyAll(config, o, refs) == ApplyAll(ApplyRef(config, ref, o[ref]), o, refs - {ref})
    decreases |refs|
  {
    var first :| first in refs && ApplyAll(config, o, refs) ==
          ApplyAll(ApplyRef(config, first, o[first]), o, refs - {first});
    if first != ref {
      ApplyAnyFirst(ApplyRef(config, first, o[first]), o, refs - {first}, ref);
      ApplyRefsCommute(config, first, o[first], ref, o[ref]);
      ApplyAnyFirst(ApplyRef(config, ref, o[ref]), o, refs - {ref}, first);
      assert refs - {first} - {ref} == refs - {ref} - {first};
    }
  }

  /** An override of another model may be applied before or after the whole set. */
  lemma {:induction false} ApplyRefLast(config: J, o: Overlay, refs: set<string>, ref: string, props: J)
    requires ProperRefs(o) && refs <= o.Keys && forall other | other in refs :: SplitRef(other) != SplitRef(ref)
    ensures ApplyRef(ApplyAll(config, o, refs), ref, props) == ApplyAll(ApplyRef(config, ref, props), o, refs)
    decreases |refs|
  {
    if refs != {} {
      var first :| first in refs;
      ApplyAnyFirst(config, o, refs, first);
      ApplyRefLast(ApplyRef(config, first, o[first]), o, refs - {first}, ref, props);
      ApplyRefsCommute(config, first, o[first], ref, props);
      ApplyAnyFirst(ApplyRef(config, ref, props), o, refs, first);
    }
  }

  // ---------------------------------------------------------------------------------------
  // Type errors seen from another override
  // ---------------------------------------------------------------------------------------

  /** A patch at or below `p + [s]` keeps objects objects and lists lists at `p`. */
  lemma KindKept(c: J, p: seq<Step>, s: seq<Step>, coerce: bool, a: map<string, J>)
    requires KeepsIds(p + s, a) && s != [] && forall i | 0 <= i < |p| :: !p[i].Make?
    ensures var before, after := Get(c, p), Get(Put(c, p + s, coerce, a), p);
            && (before.None? <==> after.None?)
            && (before.Some? ==>
                  (after == before
                   || (before.value.Obj? && after.value.Obj?)
                   || (before.value.Arr? && after.value.Arr? && s[0].Elem?)))
  {
    GetThrough(c, p, s, coerce, a);
  }

  /** Nor does a patch at or below `p + [s]` change whether a loop over the value at `p` is a type error. */
  lemma IterableAlike(c: J, p: seq<Step>, s: seq<Step>, coerce: bool, a: map<string, J>)
    requires KeepsIds(p + s, a) && s != [] && forall i | 0 <= i < |p| :: !p[i].Make?
    ensures var before, after := Get(c, p), Get(Put(c, p + s, coerce, a), p);
            (before.Some? && NotIterable(before.value)) <==> (after.Some? && NotIterable(after.value))
  {
    KindKept(c, p, s, coerce, a);
  }

  /** Being a root or list type error does not depend on the overrides applied so far. */
  lemma ShapesKept(c: J, ref: string, props: J, provider: string)
    ensures ApplyRef(c, ref, props).Obj? <==> c.Obj?
    ensures RootRaises(ApplyRef(c, ref, props)) <==> RootRaises(c)
    ensures ListRaises(ApplyRef(c, ref, props), provider) <==> ListRaises(c, provider)
  {
    if props.Obj? && Registered(c, ref) {
      var plain := PlainPatch(props.fields);
      var cost := SubPatch(props.fields, "cost");
      var params := SubPatch(props.fields, "params");
      var c1 := Put(c, EntryPath(ref), false, plain);
      var c2 := PutIf(c1, CostPath(ref), true, cost);
      PathsKeepIds(ref, plain);
      PatchKeepsShapes(c, EntryPath(ref), ref, false, plain, provider);
      if cost.Some? {
        PathsKeepIds(ref, cost.value);
        PatchKeepsShapes(c1, CostPath(ref), ref, true, cost.value, provider);
      }
      if params.Some? {
        PathsKeepIds(ref, params.value);
        PatchKeepsShapes(c2, ParamsPath(ref), ref, false, params.value, provider);
      }
    }
  }

  lemma PatchKeepsShapes(c: J, p: seq<Step>, ref: string, coerce: bool, a: map<string, J>, provider: string)
    requires TouchedBy(p, ref) && KeepsIds(p, a)
    ensures Put(c, p, coerce, a).Obj? <==> c.Obj?
    ensures RootRaises(Put(c, p, coerce, a)) <==> RootRaises(c)
    ensures ListRaises(Put(c, p, coerce, a), provider) <==> ListRaises(c, provider)
  {
    RootKindKept(c, p, ref, coerce, a);
    if p[0].Make? {
      PartsAt(ListPath(provider), p, 0);
      GetApart(c, ListPath(provider), p, coerce, a);
    } else {
      ListKindKept(c, p, ref, coerce, a, provider);
    }
  }

  lemma RootKindKept(c: J, p: seq<Step>, ref: string, coerce: bool, a: map<string, J>)
    requires TouchedBy(p, ref) && KeepsIds(p, a)
    ensures Put(c, p, coerce, a).Obj? <==> c.Obj?
    ensures RootRaises(Put(c, p, coerce, a)) <==> RootRaises(c)
  {
    if p[0].Make? {
      PartsAt([Key("models")], p, 0);
      GetApart(c, [Key("models")], p, coerce, a);
    } else {
      assert p == [Key("models")] + p[1..];
      KindKept(c, [Key("models")], p[1..], coerce, a);
    }
  }

  lemma ListKindKept(c: J, p: seq<Step>, ref: string, coerce: bool, a: map<string, J>, provider: string)
    requires TouchedBy(p, ref) && p[0].Key? && KeepsIds(p, a)
    ensures ListRaises(Put(c, p, coerce, a), provider) <==> ListRaises(c, provider)
  {
    if SplitRef(ref).0 == provider {
      assert p == ListPath(provider) + p[4..];
      IterableAlike(c, ListPath(provider), p[4..], coerce, a);
    } else {
      PartsAt(ListPath(provider), p, 2);
      GetApart(c, ListPath(provider), p, coerce, a);
    }
  }

  /** Whether an override is a type error does not depend on the other overrides applied so far. */
  lemma OthersRaiseAlike(c: J, a: string, x: J, b: string, y: J)
    requires SplitRef(a) != SplitRef(b)
    ensures RefRaises(ApplyRef(c, b, y), a, x) <==> RefRaises(c, a, x)
  {
    ShapesKept(c, b, y, SplitRef(a).0);
    OtherRefUntouched(a, b);
    GetAfterApplyRef(c, CostPath(a), b, y);
  }

  // ---------------------------------------------------------------------------------------
  // One after the other
  // ---------------------------------------------------------------------------------------

  /** The overrides applied in the order of the references; `None` as soon as one is a type error. */
  function ApplyInOrder(config: J, o: Overlay, order: seq<string>): Option<J>
    requires forall i | 0 <= i < |order| :: order[i] in o
  {
    if order == [] then Some(config)
    else
      var ref := order[|order| - 1];
      var before := ApplyInOrder(config, o, order[..|order| - 1]);
      if before.None? || RefRaises(before.value, ref, o[ref]) then None else Some(ApplyRef(before.value, ref, o[ref]))
  }

  /** The references of the overlay in some order, each once. */
  ghost predicate Lists(order: seq<string>, refs: set<string>) {
    && (forall ref :: ref in order <==> ref in refs)
    && (forall i, j | 0 <= i < j < |order| :: order[i] != order[j])
  }

  /** `apply_model_overrides` with the overlay's entries in this order. */
  function ApplyOrdered(config: J, o: Overlay, order: seq<string>): Option<J>
    requires Lists(order, o.Keys)
  {
    if o == map[] || !config.Obj? then Some(config)
    else if RootRaises(config) then None
    else ApplyInOrder(config, o, order)
  }

  lemma {:induction false} InOrderIsAll(config: J, o: Overlay, order: seq<string>, refs: set<string>)
    requires ProperRefs(o) && refs <= o.Keys && Lists(order, refs)
    ensures var r := ApplyInOrder(config, o, order);
            if exists ref | ref in refs :: RefRaises(config, ref, o[ref]) then r.None?
            else r == Some(ApplyAll(config, o, refs))
    decreases |order|
  {
    if order != [] {
      var init, ref := order[..|order| - 1], order[|order| - 1];
      var rest := refs - {ref};
      ListsInit(order, refs);
      InOrderIsAll(config, o, init, rest);
      if ApplyInOrder(config, o, init).Some? {
        OthersAllRaiseAlike(config, o, rest, ref, o[ref]);
        ApplyAnyFirst(config, o, refs, ref);
        ApplyRefLast(config, o, rest, ref, o[ref]);
      }
      assert forall other | other in refs :: other == ref || other in rest;
    } else {
      assert refs == {} by { assert forall ref :: ref !in refs; }
    }
  }

  lemma ListsInit(order: seq<string>, refs: set<string>)
    requires order != [] && Lists(order, refs)
    ensures Lists(order[..|order| - 1], refs - {order[|order| - 1]}) && order[|order| - 1] in refs
  {
    var init, last := order[..|order| - 1], order[|order| - 1];
    assert last !in init by { assert forall i | 0 <= i < |init| :: init[i] == order[i] && order[i] != last; }
    assert order == init + [last];
    forall ref ensures ref in init <==> ref in refs - {last} {
      assert ref in order <==> ref in init || ref == last;
    }
  }

  lemma {:induction false} OthersAllRaiseAlike(config: J, o: Overlay, refs: set<string>, ref: string, props: J)
    requires ProperRefs(o) && refs <= o.Keys && forall other | other in refs :: SplitRef(other) != SplitRef(ref)
    ensures RefRaises(ApplyAll(config, o, refs), ref, props) <==> RefRaises(config, ref, props)
    decreases |refs|
  {
    if refs != {} {
      var first :| first in refs;
      ApplyAnyFirst(config, o, refs, first);
      OthersRaiseAlike(config, ref, props, first, o[first]);
      OthersAllRaiseAlike(ApplyRef(config, first, o[first]), o, refs - {first}, ref, props);
    }
  }

  /** Whatever the order of the entries, the outcome is the same, type errors included. */
  lemma OrderIrrelevant(config: J, o: Overlay, order: seq<string>)
    requires ProperRefs(o) && Lists(order, o.Keys)
    ensures ApplyOrdered(config, o, order) == Apply(config, o)
  {
    InOrderIsAll(config, o, order, o.Keys);
  }
}
