/**
 * The overlay's places by name (autodev/installer/model_overrides.py:226-262): which entry of which
 * list a reference means, where its parameters stand, and what an override leaves there key by key.
 */
module OverlayPlaces {
  import opened Json
  import opened OpenclawTemplate
  import opened JsonPaths
  import opened ModelOverrides
  import opened OverlayApply
  import opened OverlayEffects

  /** What stands under the keys, one inside the other. */
  function Under(j: J, keys: seq<string>): Option<J>
    decreases |keys|
  {
    if keys == [] then Some(j)
    else if j.Obj? && keys[0] in j.fields then Under(j.fields[keys[0]], keys[1..])
    else None
  }

  predicate NamesModel(j: J, id: string) {
    j.Obj? && "id" in j.fields && j.fields["id"] == Str(id)
  }

  /** The entry is the first of its provider's list with the model's id. */
  ghost predicate EntryIs(c: J, provider: string, model: string, e: J) {
    var list := Under(c, ["models", "providers", provider, "models"]);
    && list.Some? && list.value.Arr?
    && exists i | 0 <= i < |list.value.items| ::
         && list.value.items[i] == e && NamesModel(e, model)
         && forall h | 0 <= h < i :: !NamesModel(list.value.items[h], model)
  }

  lemma {:induction false} UnderIsGet(j: J, keys: seq<string>, path: seq<Step>)
    requires |path| == |keys|
    requires forall i | 0 <= i < |keys| :: path[i] in {Key(keys[i]), Make(keys[i])}
    ensures Get(j, path) == Under(j, keys)
    decreases |keys|
  {
    if keys != [] && j.Obj? && keys[0] in j.fields { UnderIsGet(j.fields[keys[0]], keys[1..], path[1..]); }
  }

  lemma {:induction false} GetOn(j: J, p: seq<Step>, s: Step)
    ensures Get(j, p + [s]) ==
            if Get(j, p).Some? && Present(Get(j, p).value, s) then Some(Child(Get(j, p).value, s)) else None
    decreases |p|
  {
    if p == [] {
      assert p + [s] == [s] && [s][1..] == [];
    } else {
      assert (p + [s])[1..] == p[1..] + [s];
      if Present(j, p[0]) { GetOn(Child(j, p[0]), p[1..], s); }
    }
  }

  lemma {:induction false} RefSplits(provider: string, model: string)
    requires '/' !in provider
    ensures SplitRef(provider + "/" + model) == (provider, model)
    decreases |provider|
  {
    var ref := provider + "/" + model;
    if provider == "" {
      assert ref[1..] == model;
    } else {
      assert ref[1..] == provider[1..] + "/" + model;
      assert provider[0] in provider && ref[0] == provider[0];
      RefSplits(provider[1..], model);
      assert [provider[0]] + provider[1..] == provider;
    }
  }

  /** A reference without a slash names a provider and no model. */
  lemma {:induction false} BareRefSplits(ref: string)
    requires '/' !in ref
    ensures SplitRef(ref) == (ref, "")
    decreases |ref|
  {
    if ref != "" {
      BareRefSplits(ref[1..]);
      assert ref[0] in ref && [ref[0]] + ref[1..] == ref;
    }
  }

  /** `provider/model` means the first entry with the id `model` in the list of `provider`. */
  lemma EntryFound(c: J, provider: string, model: string, e: J)
    requires '/' !in provider
    ensures Get(c, EntryPath(provider + "/" + model)) == Some(e) <==> EntryIs(c, provider, model, e)
  {
    RefSplits(provider, model);
    var list := Get(c, ListPath(provider));
    GetOn(c, ListPath(provider), Elem(model));
    UnderIsGet(c, ["models", "providers", provider, "models"], ListPath(provider));
    if list.Some? && list.value.Arr? { FirstIs(list.value.items, model, e); }
  }

  lemma FirstIs(items: seq<J>, model: string, e: J)
    ensures (FirstWithId(items, model) < |items| && items[FirstWithId(items, model)] == e) <==>
              exists i | 0 <= i < |items| ::
                items[i] == e && NamesModel(e, model) && forall h | 0 <= h < i :: !NamesModel(items[h], model)
  {
    forall i | 0 <= i < |items| ensures NamesModel(items[i], model) <==> CarriesId(items[i], model) {}
  }

  /** Parameters stand in the agents' defaults, under the whole reference. */
  lemma ParamsFound(c: J, ref: string)
    ensures Get(c, ParamsPath(ref)) == Under(c, ["agents", "defaults", "models", ref, "params"])
  {
    UnderIsGet(c, ["agents", "defaults", "models", ref, "params"], ParamsPath(ref));
  }

  /** Key by key: the non-null new values over the old ones. */
  ghost predicate SetOver(now: map<string, J>, was: map<string, J>, given: map<string, J>) {
    forall k :: Lookup(now, k) == if k in given && !given[k].Null? then Some(given[k]) else Lookup(was, k)
  }

  /** The override brings a sub-object with something in it. */
  predicate Brings(props: map<string, J>, key: string) {
    key in props && props[key].Obj? && props[key].fields != map[]
  }

  /** What an override does to the entry's keys: four are set, prices go under `cost`, the others stay. */
  ghost predicate EntrySet(now: map<string, J>, was: map<string, J>, props: map<string, J>) {
    && (forall k | k != "cost" :: Lookup(now, k) ==
          if k in {"input", "contextWindow", "maxTokens", "reasoning"} && k in props && !props[k].Null?
          then Some(props[k]) else Lookup(was, k))
    && if Brings(props, "cost")
       then "cost" in now && now["cost"].Obj? && SetOver(now["cost"].fields, Sub(was, "cost"), props["cost"].fields)
       else Lookup(now, "cost") == Lookup(was, "cost")
  }

  lemma SubSet(was: map<string, J>, props: map<string, J>, key: string)
    requires Brings(props, key)
    ensures SubPatch(props, key).Some? && SetOver(was + SubPatch(props, key).value, was, props[key].fields)
  {
  }

  lemma CostIs(was: map<string, J>, cost: map<string, J>)
    requires "cost" in was ==> was["cost"].Obj? || !Truthy(was["cost"])
    ensures CostAfter(was, cost) == Obj(Sub(was, "cost") + cost)
  {
    assert map[] + cost == cost;
  }

  lemma PricesSet(was: map<string, J>, props: map<string, J>, now: J)
    requires "cost" in was ==> was["cost"].Obj? || !Truthy(was["cost"])
    requires Brings(props, "cost") && now == CostAfter(was, SubPatch(props, "cost").value)
    ensures now.Obj? && SetOver(now.fields, Sub(was, "cost"), props["cost"].fields)
  {
    SubSet(Sub(was, "cost"), props, "cost");
    CostIs(was, SubPatch(props, "cost").value);
  }

  lemma EntryAt(c: J, ref: string, props: map<string, J>)
    requires Registered(c, ref)
    ensures var was, now := Get(c, EntryPath(ref)).value, Get(ApplyRef(c, ref, Obj(props)), EntryPath(ref));
            && was.Obj? && now.Some? && now.value.Obj?
            && (("cost" in was.fields ==> was.fields["cost"].Obj? || !Truthy(was.fields["cost"])) ==>
                  EntrySet(now.value.fields, was.fields, props))
  {
    OverrideLands(c, ref, Obj(props));
    var was, now := Get(c, EntryPath(ref)).value.fields, Get(ApplyRef(c, ref, Obj(props)), EntryPath(ref)).value.fields;
    if "cost" in was ==> was["cost"].Obj? || !Truthy(was["cost"]) { LandedIsSet(now, was, props); }
  }

  lemma LandedIsSet(now: map<string, J>, was: map<string, J>, props: map<string, J>)
    requires "cost" in was ==> was["cost"].Obj? || !Truthy(was["cost"])
    requires var plain := {"input", "contextWindow", "maxTokens", "reasoning"};
             && (forall k | k in props && k in plain && !props[k].Null? :: k in now && now[k] == props[k])
             && (forall k | k != "cost" && !(k in props && k in plain && !props[k].Null?) ::
                   Lookup(now, k) == Lookup(was, k))
             && (SubPatch(props, "cost").None? ==> Lookup(now, "cost") == Lookup(was, "cost"))
             && (SubPatch(props, "cost").Some? ==>
                   Lookup(now, "cost") == Some(CostAfter(was, SubPatch(props, "cost").value)))
    ensures EntrySet(now, was, props)
  {
    if Brings(props, "cost") { PricesSet(was, props, now["cost"]); }
  }

  /** The override of a listed model changes its entry so, prices in place of a falsy `cost` included. */
  lemma EntrySeen(c: J, provider: string, model: string, props: map<string, J>, was: J)
    requires '/' !in provider && EntryIs(c, provider, model, was) && was.Obj?
    requires "cost" in was.fields ==> was.fields["cost"].Obj? || !Truthy(was.fields["cost"])
    ensures exists now :: EntryIs(ApplyRef(c, provider + "/" + model, Obj(props)), provider, model, now)
                          && now.Obj? && EntrySet(now.fields, was.fields, props)
  {
    var ref := provider + "/" + model;
    EntryFound(c, provider, model, was);
    EntryAt(c, ref, props);
    EntryFound(ApplyRef(c, ref, Obj(props)), provider, model, Get(ApplyRef(c, ref, Obj(props)), EntryPath(ref)).value);
  }

  /** Its parameters are set over those in the agents' defaults, where objects or nothing lead there. */
  lemma ParamsSeen(c: J, provider: string, model: string, props: map<string, J>, was: J)
    requires '/' !in provider && EntryIs(c, provider, model, was)
    requires Brings(props, "params") && Open(c, ParamsPath(provider + "/" + model))
    ensures var keys := ["agents", "defaults", "models", provider + "/" + model, "params"];
            var before, after := Under(c, keys), Under(ApplyRef(c, provider + "/" + model, Obj(props)), keys);
            && after.Some? && after.value.Obj?
            && SetOver(after.value.fields,
                       if before.Some? && before.value.Obj? then before.value.fields else map[], props["params"].fields)
  {
    var ref := provider + "/" + model;
    EntryFound(c, provider, model, was);
    ParamsFound(c, ref);
    ParamsFound(ApplyRef(c, ref, Obj(props)), ref);
    ParamsLand(c, ref, Obj(props));
    SubSet(FieldsAt(c, ParamsPath(ref)), props, "params");
  }
}
