/**
 * What merging and applying an overlay do to a configuration, place by place
 * (autodev/installer/model_overrides.py:170-263): what an override sets, what it leaves, and that the
 * whole overlay does to each model what its own override does.
 */
module OverlayEffects {
  import opened Json
  import opened OpenclawTemplate
  import opened JsonPaths
  import opened ModelOverrides
  import opened OverlayApply

  // ---------------------------------------------------------------------------------------
  // Merging
  // ---------------------------------------------------------------------------------------

  /** The sub-object under a key, empty when there is none. */
  function Sub(entry: map<string, J>, key: string): map<string, J> {
    if key in entry && entry[key].Obj? then entry[key].fields else map[]
  }

  /**
   * Saving an update: a null clears its key, anything else replaces it; inside `cost` and `params`
   * the same holds key by key, other keys staying, and a sub-object left empty goes; keys the update
   * does not mention stay as they are.
   */
  lemma MergeSetsAndClears(existing: J, u: map<string, J>, k: string)
    requires Mergeable(existing, u)
    ensures var prior, m := EntryFields(existing), MergeProps(existing, u);
            && (k !in u ==> Lookup(m, k) == Lookup(prior, k))
            && (k in u && u[k].Null? ==> k !in m)
            && (k in u && !u[k].Null? && !MergesPerKey(k, u[k]) ==> k in m && m[k] == u[k])
            && (k in u && MergesPerKey(k, u[k]) ==>
                  && (k in m ==> m[k].Obj? && m[k].fields != map[])
                  && (forall c | c in u[k].fields ::
                        if u[k].fields[c].Null? then c !in Sub(m, k)
                        else c in Sub(m, k) && Sub(m, k)[c] == u[k].fields[c])
                  && (forall c | c !in u[k].fields :: Lookup(Sub(m, k), c) == Lookup(Sub(prior, k), c)))
  {
    var prior, m := EntryFields(existing), MergeProps(existing, u);
    if k in u && MergesPerKey(k, u[k]) {
      var was := SubDict(Lookup(prior, k)).value;
      assert FieldMergeable(k, Lookup(prior, k), u[k]);
      assert was == Sub(prior, k);
      var sub := MergeSub(was, u[k].fields);
      assert Sub(m, k) == sub;
    }
  }

  // ---------------------------------------------------------------------------------------
  // Applying one override
  // ---------------------------------------------------------------------------------------

  lemma EntryIsObject(c: J, p: seq<Step>, id: string)
    requires Get(c, p + [Elem(id)]).Some?
    ensures CarriesId(Get(c, p + [Elem(id)]).value, id)
    decreases |p|
  {
    if p == [] {
      assert p + [Elem(id)] == [Elem(id)];
    } else {
      assert (p + [Elem(id)])[1..] == p[1..] + [Elem(id)];
      EntryIsObject(Child(c, p[0]), p[1..], id);
    }
  }

  /** The model's entry after the override: the entry with the plain properties, then with the cost. */
  lemma EntryAfter(c: J, ref: string, plain: map<string, J>, cost: Option<map<string, J>>,
                   params: Option<map<string, J>>)
    requires Registered(c, ref) && "id" !in plain
    ensures Get(Patches(c, ref, plain, cost, params), EntryPath(ref)) ==
            Some(PutIf(PatchNode(Get(c, EntryPath(ref)).value, false, plain), [Make("cost")], true, cost))
  {
    var e := EntryPath(ref);
    PathsKeepIds(ref, plain);
    assert e + [] == e;
    GetThrough(c, e, [], false, plain);
    var c1 := Put(c, e, false, plain);
    if cost.Some? {
      PathsKeepIds(ref, cost.value);
      GetThrough(c1, e, [Make("cost")], true, cost.value);
    }
    var c2 := PutIf(c1, CostPath(ref), true, cost);
    if params.Some? {
      PathsKeepIds(ref, params.value);
      PartsAt(e, ParamsPath(ref), 0);
      GetApart(c2, e, ParamsPath(ref), false, params.value);
    }
  }

  /** What stands under `cost` once the non-null prices are set. */
  function CostAfter(entry: map<string, J>, cost: map<string, J>): J {
    PatchNode(if "cost" in entry then entry["cost"] else Obj(map[]), true, cost)
  }

  /**
   * An override of a registered model sets its non-null plain properties on the model's entry and
   * its non-null prices under `cost`, keeping the other prices; every other key of the entry stays.
   */
  lemma OverrideLands(c: J, ref: string, props: J)
    requires props.Obj? && Registered(c, ref)
    ensures Get(c, EntryPath(ref)).value.Obj?
    ensures Get(ApplyRef(c, ref, props), EntryPath(ref)).Some?
              && Get(ApplyRef(c, ref, props), EntryPath(ref)).value.Obj?
    ensures var was, now := Get(c, EntryPath(ref)).value.fields,
              Get(ApplyRef(c, ref, props), EntryPath(ref)).value.fields;
            var plain := {"input", "contextWindow", "maxTokens", "reasoning"};
            && (forall k | k in props.fields && k in plain && !props.fields[k].Null? ::
                  k in now && now[k] == props.fields[k])
            && (forall k | k != "cost" && !(k in props.fields && k in plain && !props.fields[k].Null?) ::
                  Lookup(now, k) == Lookup(was, k))
            && (SubPatch(props.fields, "cost").None? ==> Lookup(now, "cost") == Lookup(was, "cost"))
            && (SubPatch(props.fields, "cost").Some? ==>
                  Lookup(now, "cost") == Some(CostAfter(was, SubPatch(props.fields, "cost").value)))
  {
    var patch, cost := PlainPatch(props.fields), SubPatch(props.fields, "cost");
    PlainSpares(props.fields);
    EntryIsObject(c, ListPath(SplitRef(ref).0), SplitRef(ref).1);
    EntryAfter(c, ref, patch, cost, SubPatch(props.fields, "params"));
    EntryChanged(Get(c, EntryPath(ref)).value.fields, patch, cost);
  }

  /** The entry's keys after the plain properties and the prices. */
  lemma EntryChanged(was: map<string, J>, plain: map<string, J>, cost: Option<map<string, J>>)
    requires "cost" !in plain
    ensures var now := PutIf(PatchNode(Obj(was), false, plain), [Make("cost")], true, cost);
            && now.Obj?
            && (forall k | k in plain :: k in now.fields && now.fields[k] == plain[k])
            && (forall k | k != "cost" && k !in plain :: Lookup(now.fields, k) == Lookup(was, k))
            && Lookup(now.fields, "cost") ==
                 if cost.Some? then Some(CostAfter(was, cost.value)) else Lookup(was, "cost")
  {
    var mid := was + plain;
    if cost.Some? {
      assert [Make("cost")][1..] == [];
      assert Put(Obj(mid), [Make("cost")], true, cost.value) == Obj(mid["cost" := CostAfter(was, cost.value)]);
    }
  }

  /** Objects, or nothing, all along the path. */
  predicate Open(j: J, path: seq<Step>)
    decreases |path|
  {
    if path == [] then j.Obj? else Leads(j, path[0]) && Open(Child(j, path[0]), path[1..])
  }

  function FieldsAt(j: J, path: seq<Step>): map<string, J> {
    if Get(j, path).Some? && Get(j, path).value.Obj? then Get(j, path).value.fields else map[]
  }

  lemma {:induction false} PutMakes(j: J, path: seq<Step>, a: map<string, J>)
    requires Open(j, path) && forall i | 0 <= i < |path| :: path[i].Make?
    ensures Get(Put(j, path, false, a), path) == Some(Obj(FieldsAt(j, path) + a))
    decreases |path|
  {
    if path != [] {
      var s := path[0];
      PutMakes(Child(j, s), path[1..], a);
      ReplaceChild(j, s, Put(Child(j, s), path[1..], false, a));
      if !Present(j, s) { NothingBelow(path[1..]); }
    }
  }

  lemma {:induction false} NothingBelow(path: seq<Step>)
    requires forall i | 0 <= i < |path| :: path[i].Make?
    ensures FieldsAt(Obj(map[]), path) == map[]
  {
  }

  /** A patch under `models` leaves the objects under `agents` open. */
  lemma OpenElsewhere(j: J, q: seq<Step>, coerce: bool, patch: map<string, J>, p: seq<Step>)
    requires q != [] && p != [] && q[0] == Key("models") && p[0] == Make("agents") && Open(j, p) && KeepsIds(q, patch)
    ensures Open(Put(j, q, coerce, patch), p)
  {
    if Leads(j, q[0]) {
      PutFits(j, q, coerce, patch);
      ReplaceApart(j, q[0], Put(Child(j, q[0]), q[1..], coerce, patch), p[0]);
    }
  }

  /** A patch of the entry or its cost neither shows at the parameters' place nor closes the way there. */
  lemma ParamsApart(c: J, p: seq<Step>, coerce: bool, patch: Option<map<string, J>>, ref: string)
    requires p != [] && p[0] == Key("models") && (patch.Some? ==> KeepsIds(p, patch.value)) && Open(c, ParamsPath(ref))
    ensures var c' := PutIf(c, p, coerce, patch);
            Get(c', ParamsPath(ref)) == Get(c, ParamsPath(ref)) && Open(c', ParamsPath(ref))
  {
    if patch.Some? {
      PartsAt(ParamsPath(ref), p, 0);
      GetApart(c, ParamsPath(ref), p, coerce, patch.value);
      OpenElsewhere(c, p, coerce, patch.value, ParamsPath(ref));
    }
  }

  lemma PutParams(c: J, c': J, ref: string, a: map<string, J>)
    requires Open(c', ParamsPath(ref)) && Get(c', ParamsPath(ref)) == Get(c, ParamsPath(ref))
    ensures Get(Put(c', ParamsPath(ref), false, a), ParamsPath(ref)) == Some(Obj(FieldsAt(c, ParamsPath(ref)) + a))
  {
    PutMakes(c', ParamsPath(ref), a);
  }

  lemma ParamsPatched(c: J, ref: string, plain: map<string, J>, cost: Option<map<string, J>>, params: map<string, J>)
    requires "id" !in plain && Open(c, ParamsPath(ref))
    ensures Get(Patches(c, ref, plain, cost, Some(params)), ParamsPath(ref)) ==
            Some(Obj(FieldsAt(c, ParamsPath(ref)) + params))
  {
    PathsKeepIds(ref, plain);
    if cost.Some? { PathsKeepIds(ref, cost.value); }
    var c1 := PutIf(c, EntryPath(ref), false, Some(plain));
    ParamsApart(c, EntryPath(ref), false, Some(plain), ref);
    var c2 := PutIf(c1, CostPath(ref), true, cost);
    ParamsApart(c1, CostPath(ref), true, cost, ref);
    PutParams(c, c2, ref, params);
  }

  /** Its non-null generation parameters land in the agents' defaults, on top of those already there. */
  lemma ParamsLand(c: J, ref: string, props: J)
    requires props.Obj? && Registered(c, ref) && Open(c, ParamsPath(ref))
    requires SubPatch(props.fields, "params").Some?
    ensures Get(ApplyRef(c, ref, props), ParamsPath(ref)) ==
            Some(Obj(FieldsAt(c, ParamsPath(ref)) + SubPatch(props.fields, "params").value))
  {
    PlainSpares(props.fields);
    ParamsPatched(c, ref, PlainPatch(props.fields), SubPatch(props.fields, "cost"),
          SubPatch(props.fields, "params").value);
  }

  // ---------------------------------------------------------------------------------------
  // Applying them all
  // ---------------------------------------------------------------------------------------

  lemma {:induction false} ElsewhereUntouched(c: J, o: Overlay, refs: set<string>, p: seq<Step>)
    requires ProperRefs(o) && refs <= o.Keys && forall ref | ref in refs :: Untouched(p, ref)
    ensures Get(ApplyAll(c, o, refs), p) == Get(c, p)
    decreases |refs|
  {
    if refs != {} {
      var first :| first in refs;
      ApplyAnyFirst(c, o, refs, first);
      GetAfterApplyRef(c, p, first, o[first]);
      ElsewhereUntouched(ApplyRef(c, first, o[first]), o, refs - {first}, p);
    }
  }

  /** A place that no override touches keeps its value. */
  lemma ApplyLeavesTheRest(c: J, o: Overlay, p: seq<Step>)
    requires ProperRefs(o) && Apply(c, o).Some? && forall ref | ref in o :: Untouched(p, ref)
    ensures Get(Apply(c, o).value, p) == Get(c, p)
  {
    if o != map[] && c.Obj? { ElsewhereUntouched(c, o, o.Keys, p); }
  }

  /** In the whole result, each model's entry, cost and params are as its own override alone leaves them. */
  lemma EachOverrideLands(c: J, o: Overlay, ref: string, p: seq<Step>)
    requires ProperRefs(o) && c.Obj? && Apply(c, o).Some? && ref in o && TouchedBy(p, ref)
    ensures Get(Apply(c, o).value, p) == Get(ApplyRef(c, ref, o[ref]), p)
  {
    ApplyAnyFirst(c, o, o.Keys, ref);
    forall other | other in o.Keys - {ref} ensures Untouched(p, other) { OtherRefUntouched(ref, other); }
    ElsewhereUntouched(ApplyRef(c, ref, o[ref]), o, o.Keys - {ref}, p);
  }
}
