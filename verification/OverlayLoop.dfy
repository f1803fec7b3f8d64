/**
 * The loops of `apply_model_overrides` (autodev/installer/model_overrides.py:213-263) as they are
 * written: the search for the model's entry, the assignments to its keys, the merge of the prices
 * and the `setdefault` chain for the parameters, proved against patches at paths.
 */
module OverlayLoop {
  import opened Json
  import opened OpenclawTemplate
  import opened JsonPaths
  import opened ModelOverrides
  import opened OverlayApply

  // ---------------------------------------------------------------------------------------
  // One step of a path
  // ---------------------------------------------------------------------------------------

  lemma PutKey(j: J, k: string, rest: seq<Step>, coerce: bool, patch: map<string, J>)
    ensures Put(j, [Key(k)] + rest, coerce, patch) ==
            if j.Obj? && k in j.fields then Obj(j.fields[k := Put(j.fields[k], rest, coerce, patch)]) else j
  {
    assert ([Key(k)] + rest)[1..] == rest;
  }

  lemma PutElem(j: J, id: string, rest: seq<Step>, coerce: bool, patch: map<string, J>)
    ensures Put(j, [Elem(id)] + rest, coerce, patch) ==
            if j.Arr? && FirstWithId(j.items, id) < |j.items|
            then
              var i := FirstWithId(j.items, id);
              Arr(j.items[i := Put(j.items[i], rest, coerce, patch)])
            else j
  {
    assert ([Elem(id)] + rest)[1..] == rest;
  }

  /** `m.setdefault(k, {})`. */
  function Default(m: map<string, J>, k: string): J {
    if k in m then m[k] else Obj(map[])
  }

  lemma PutMake(j: J, k: string, rest: seq<Step>, coerce: bool, patch: map<string, J>)
    ensures Put(j, [Make(k)] + rest, coerce, patch) ==
            if j.Obj? then Obj(j.fields[k := Put(Default(j.fields, k), rest, coerce, patch)]) else j
  {
    assert ([Make(k)] + rest)[1..] == rest;
  }

  lemma GetKey(j: J, k: string, rest: seq<Step>)
    ensures Get(j, [Key(k)] + rest) == if j.Obj? && k in j.fields then Get(j.fields[k], rest) else None
  {
    assert ([Key(k)] + rest)[1..] == rest;
  }

  lemma GetElem(j: J, id: string, rest: seq<Step>)
    ensures Get(j, [Elem(id)] + rest) ==
            if j.Arr? && FirstWithId(j.items, id) < |j.items| then Get(j.items[FirstWithId(j.items, id)], rest)
            else None
  {
    assert ([Elem(id)] + rest)[1..] == rest;
  }

  // ---------------------------------------------------------------------------------------
  // The model's entry
  // ---------------------------------------------------------------------------------------

  /** The object under a key, if there is one. */
  function ObjAt(m: map<string, J>, k: string): Option<map<string, J>> {
    if k in m && m[k].Obj? then Some(m[k].fields) else None
  }

  /** `providers`: an absent or falsy `models`, or a `providers` that is no object, leave none. */
  function Providers(config: map<string, J>): map<string, J> {
    var models := ObjAt(config, "models");
    if models.None? || ObjAt(models.value, "providers").None? then map[] else ObjAt(models.value, "providers").value
  }

  /** What `for m in provider.get("models") or []` runs over; elements of a string or object are never objects. */
  function ModelList(provider: map<string, J>): seq<J> {
    if "models" in provider && provider["models"].Arr? then provider["models"].items else []
  }

  lemma EntryFound(config: map<string, J>, ref: string)
    ensures var (name, id) := SplitRef(ref);
            var provider := ObjAt(Providers(config), name);
            Get(Obj(config), EntryPath(ref)) ==
              if provider.None? then None
              else
                var list := ModelList(provider.value);
                var i := FirstWithId(list, id);
                if i < |list| then Some(list[i]) else None
  {
    var (name, id) := SplitRef(ref);
    var p3 := [Key("models")] + ([Elem(id)] + []);
    var p2 := [Key(name)] + p3;
    var p1 := [Key("providers")] + p2;
    assert EntryPath(ref) == [Key("models")] + p1;
    GetKey(Obj(config), "models", p1);
    if "models" in config {
      var models := config["models"];
      GetKey(models, "providers", p2);
      if models.Obj? && "providers" in models.fields {
        EntryFoundBelow(models.fields["providers"], name, id);
      }
    }
  }

  lemma EntryFoundBelow(providers: J, name: string, id: string)
    ensures Get(providers, [Key(name)] + ([Key("models")] + ([Elem(id)] + []))) ==
            if !providers.Obj? || ObjAt(providers.fields, name).None? then None
            else
              var list := ModelList(ObjAt(providers.fields, name).value);
              var i := FirstWithId(list, id);
              if i < |list| then Some(list[i]) else None
  {
    var p3 := [Key("models")] + ([Elem(id)] + []);
    GetKey(providers, name, p3);
    if providers.Obj? && name in providers.fields {
      var provider := providers.fields[name];
      GetKey(provider, "models", [Elem(id)] + []);
      if provider.Obj? && "models" in provider.fields { GetElem(provider.fields["models"], id, []); }
    }
  }

  /** The configuration with other providers, everything around them as it was. */
  function WithProviders(config: map<string, J>, providers: map<string, J>): map<string, J> {
    var models := if "models" in config && config["models"].Obj? then config["models"].fields else map[];
    config["models" := Obj(models["providers" := Obj(providers)])]
  }

  /** The providers with another model list for one of them. */
  function WithList(providers: map<string, J>, name: string, list: seq<J>): map<string, J> {
    var provider := if name in providers && providers[name].Obj? then providers[name].fields else map[];
    providers[name := Obj(provider["models" := Arr(list)])]
  }

  /** The model list the search goes through. */
  function ListOf(config: map<string, J>, name: string): seq<J> {
    var provider := ObjAt(Providers(config), name);
    if provider.Some? then ModelList(provider.value) else []
  }

  /** The configuration with another model list for one provider. */
  function WithModels(config: map<string, J>, name: string, list: seq<J>): map<string, J> {
    WithProviders(config, WithList(Providers(config), name, list))
  }

  lemma UpdateTwice<K, V>(m: map<K, V>, k: K, a: V, b: V)
    ensures m[k := a][k := b] == m[k := b]
  {
  }

  lemma ProvidersChanged(config: map<string, J>, p: map<string, J>, q: map<string, J>)
    ensures Providers(WithProviders(config, p)) == p
    ensures WithProviders(WithProviders(config, p), q) == WithProviders(config, q)
  {
    var models := if "models" in config && config["models"].Obj? then config["models"].fields else map[];
    UpdateTwice(models, "providers", Obj(p), Obj(q));
    UpdateTwice(config, "models", Obj(models["providers" := Obj(p)]), Obj(models["providers" := Obj(q)]));
  }

  lemma ListChanged(providers: map<string, J>, name: string, l: seq<J>, m: seq<J>)
    ensures WithList(WithList(providers, name, l), name, m) == WithList(providers, name, m)
  {
    var provider := if name in providers && providers[name].Obj? then providers[name].fields else map[];
    UpdateTwice(provider, "models", Arr(l), Arr(m));
    UpdateTwice(providers, name, Obj(provider["models" := Arr(l)]), Obj(provider["models" := Arr(m)]));
  }

  /** A changed list is what is found afterwards, and changing it again replaces the change. */
  lemma ModelsChanged(config: map<string, J>, name: string, l: seq<J>, m: seq<J>)
    ensures ListOf(WithModels(config, name, l), name) == l
    ensures WithModels(WithModels(config, name, l), name, m) == WithModels(config, name, m)
  {
    var p, q := WithList(Providers(config), name, l), WithList(Providers(config), name, m);
    ProvidersChanged(config, p, q);
    ListChanged(Providers(config), name, l, m);
    ProvidersChanged(config, p, WithList(p, name, m));
  }

  lemma PutAtProviders(config: map<string, J>, rest: seq<Step>, coerce: bool, patch: map<string, J>)
    requires ObjAt(config, "models").Some? && ObjAt(ObjAt(config, "models").value, "providers").Some?
    ensures Put(Obj(config), [Key("models")] + ([Key("providers")] + rest), coerce, patch) ==
            var providers := Put(Obj(Providers(config)), rest, coerce, patch);
            Obj(config["models" := Obj(config["models"].fields["providers" := providers])])
  {
    PutKey(Obj(config), "models", [Key("providers")] + rest, coerce, patch);
    PutKey(config["models"], "providers", rest, coerce, patch);
  }

  lemma PutAtList(providers: map<string, J>, name: string, id: string, s: seq<Step>, coerce: bool,
                  patch: map<string, J>)
    requires ObjAt(providers, name).Some?
    requires FirstWithId(ModelList(ObjAt(providers, name).value), id) < |ModelList(ObjAt(providers, name).value)|
    ensures var list := ModelList(ObjAt(providers, name).value);
            var i := FirstWithId(list, id);
            Put(Obj(providers), [Key(name)] + ([Key("models")] + ([Elem(id)] + s)), coerce, patch) ==
              Obj(WithList(providers, name, list[i := Put(list[i], s, coerce, patch)]))
  {
    var p3 := [Key("models")] + ([Elem(id)] + s);
    PutKey(Obj(providers), name, p3, coerce, patch);
    var provider := ObjAt(providers, name).value;
    PutKey(Obj(provider), "models", [Elem(id)] + s, coerce, patch);
    PutElem(provider["models"], id, s, coerce, patch);
  }

  lemma PutAtEntry(config: map<string, J>, ref: string, s: seq<Step>, coerce: bool, patch: map<string, J>)
    requires Registered(Obj(config), ref)
    ensures var (name, id) := SplitRef(ref);
            var list := ListOf(config, name);
            var i := FirstWithId(list, id);
            && i < |list|
            && Put(Obj(config), EntryPath(ref) + s, coerce, patch) ==
                 Obj(WithModels(config, name, list[i := Put(list[i], s, coerce, patch)]))
  {
    var (name, id) := SplitRef(ref);
    EntryFound(config, ref);
    var p3 := [Key("models")] + ([Elem(id)] + s);
    assert EntryPath(ref) + s == [Key("models")] + ([Key("providers")] + ([Key(name)] + p3));
    PutAtProviders(config, [Key(name)] + p3, coerce, patch);
    PutAtList(Providers(config), name, id, s, coerce, patch);
  }

  // ---------------------------------------------------------------------------------------
  // The loops
  // ---------------------------------------------------------------------------------------

  /** `next`-style search with `break`; `None` when no element carries the id. */
  method FindModel(models: seq<J>, id: string) returns (index: Option<nat>)
    ensures index == if FirstWithId(models, id) < |models| then Some(FirstWithId(models, id)) else None
  {
    var i := 0;
    while i < |models|
      invariant 0 <= i <= |models| && forall k | 0 <= k < i :: !CarriesId(models[k], id)
    {
      if models[i].Obj? && "id" in models[i].fields && models[i].fields["id"] == Str(id) {
        FirstIs(models, id, i);
        return Some(i);
      }
      i := i + 1;
    }
    assert !(FirstWithId(models, id) < |models|);
    index := None;
  }

  lemma FirstIs(models: seq<J>, id: string, i: nat)
    requires i < |models| && CarriesId(models[i], id) && forall k | 0 <= k < i :: !CarriesId(models[k], id)
    ensures FirstWithId(models, id) == i
  {
    var f := FirstWithId(models, id);
    assert !(f < i) && !(i < f);
  }

  /** The loop over the four keys that are set directly on the entry. */
  method SetPlainKeys(entry: map<string, J>, props: map<string, J>) returns (result: map<string, J>)
    ensures result == entry + PlainPatch(props)
  {
    var keys := ["input", "contextWindow", "maxTokens", "reasoning"];
    result := entry;
    var i := 0;
    while i < |keys|
      invariant 0 <= i <= |keys|
      invariant forall k ::
                  Lookup(result, k) == (if k in keys[..i] && k in props && !props[k].Null? then Some(props[k])
                        else Lookup(entry, k))
    {
      var key := keys[i];
      if key in props && !props[key].Null? {
        result := result[key := props[key]];
      }
      i := i + 1;
    }
    assert keys[..i] == keys;
    PlainDone(entry, props, keys, result);
  }

  lemma PlainDone(entry: map<string, J>, props: map<string, J>, keys: seq<string>, result: map<string, J>)
    requires keys == ["input", "contextWindow", "maxTokens", "reasoning"]
    requires forall k :: Lookup(result, k) ==
                         (if k in keys && k in props && !props[k].Null? then Some(props[k]) else Lookup(entry, k))
    ensures result == entry + PlainPatch(props)
  {
    forall k: string ensures k in keys <==> k in PLAIN_KEYS {}
    forall k ensures Lookup(result, k) == Lookup(entry + PlainPatch(props), k) {}
    SameLookups(result, entry + PlainPatch(props));
  }

  /** `d.update({...})` with the non-null values. */
  method UpdateNonNull(m: map<string, J>, updates: map<string, J>) returns (result: map<string, J>)
    ensures result == m + NonNull(updates)
  {
    result := m;
    var todo := updates.Keys;
    while todo != {}
      invariant todo <= updates.Keys
      invariant forall k ::
                  Lookup(result, k) == (if k in updates.Keys - todo && !updates[k].Null? then Some(updates[k])
                        else Lookup(m, k))
      decreases |todo|
    {
      var key :| key in todo;
      todo := todo - {key};
      if !updates[key].Null? { result := result[key := updates[key]]; }
    }
    UpdatedEverywhere(m, updates, result);
  }

  lemma UpdatedEverywhere(m: map<string, J>, updates: map<string, J>, result: map<string, J>)
    requires forall k :: Lookup(result, k) ==
                         (if k in updates && !updates[k].Null? then Some(updates[k]) else Lookup(m, k))
    ensures result == m + NonNull(updates)
  {
    forall k ensures Lookup(result, k) == Lookup(m + NonNull(updates), k) {}
    SameLookups(result, m + NonNull(updates));
  }

  /** The override's effect on the entry itself; `None` where `dict()` raises. */
  function EntryPatched(entry: map<string, J>, props: map<string, J>): Option<map<string, J>> {
    var plain := entry + PlainPatch(props);
    var cost := SubPatch(props, "cost");
    if cost.None? then Some(plain)
    else
      var prior := SubDict(Lookup(plain, "cost"));
      if prior.None? then None else Some(plain["cost" := Obj(prior.value + cost.value)])
  }

  method PatchEntry(entry: map<string, J>, props: map<string, J>) returns (result: Option<map<string, J>>)
    ensures result == EntryPatched(entry, props)
  {
    var updated := SetPlainKeys(entry, props);
    if "cost" in props && props["cost"].Obj? && props["cost"].fields != map[] {
      var prior := SubDict(Lookup(updated, "cost"));
      if prior.None? { return None; }
      var merged := UpdateNonNull(prior.value, props["cost"].fields);
      updated := updated["cost" := Obj(merged)];
    }
    result := Some(updated);
  }

  /** The `setdefault` chain: objects are created where nothing stands, and anything else ends it. */
  method SetParams(config: map<string, J>, ref: string, params: map<string, J>) returns (result: map<string, J>)
    ensures Put(Obj(config), ParamsPath(ref), false, NonNull(params)) == Obj(result)
  {
    ghost var p5: seq<Step> := [Make("params")] + [];
    ghost var p4, patch := [Make(ref)] + p5, NonNull(params);
    ghost var p3 := [Make("models")] + p4;
    ghost var p2 := [Make("defaults")] + p3;
    assert ParamsPath(ref) == [Make("agents")] + p2;
    var agents := Default(config, "agents");
    PutMake(Obj(config), "agents", p2, false, patch);
    PutMake(agents, "defaults", p3, false, patch);
    result := config["agents" := agents];
    if agents.Obj? {
      var defaults := Default(agents.fields, "defaults");
      PutMake(defaults, "models", p4, false, patch);
      if defaults.Obj? {
        var models := Default(defaults.fields, "models");
        PutMake(models, ref, p5, false, patch);
        if models.Obj? {
          var entry := Default(models.fields, ref);
          PutMake(entry, "params", [], false, patch);
          if entry.Obj? {
            var own := Default(entry.fields, "params");
            if own.Obj? {
              var updated := UpdateNonNull(own.fields, params);
              own := Obj(updated);
            }
            entry := Obj(entry.fields["params" := own]);
          }
          models := Obj(models.fields[ref := entry]);
        }
        defaults := Obj(defaults.fields["models" := models]);
      }
      agents := Obj(agents.fields["defaults" := defaults]);
      result := config["agents" := agents];
    }
  }

  /** One turn of the loop over the overlay. */
  method ApplyOne(config: map<string, J>, ref: string, props: J) returns (result: Option<map<string, J>>)
    requires !RootRaises(Obj(config))
    ensures result.None? <==> RefRaises(Obj(config), ref, props)
    ensures result.Some? ==> Obj(result.value) == ApplyRef(Obj(config), ref, props)
  {
    if !props.Obj? { return Some(config); }
    var (name, id) := SplitRef(ref);
    EntryFound(config, ref);
    ListFound(config, ref);
    var provider := ObjAt(Providers(config), name);
    var index: Option<nat> := None;
    if provider.Some? {
      if "models" in provider.value && NotIterable(provider.value["models"]) { return None; }
      index := FindModel(ModelList(provider.value), id);
    }
    if index.None? {
      UnknownRaisesNot(Obj(config), ref);
      return Some(config);
    }
    var models := ModelList(provider.value);
    var entry := models[index.value];
    var patched := PatchEntry(entry.fields, props.fields);
    EntryPut(config, ref, props.fields);
    if patched.None? { return None; }
    var updated := WithModels(config, name, models[index.value := Obj(patched.value)]);
    if "params" in props.fields && props.fields["params"].Obj? && props.fields["params"].fields != map[] {
      updated := SetParams(updated, ref, props.fields["params"].fields);
    }
    result := Some(updated);
  }

  lemma UnknownRaisesNot(c: J, ref: string)
    requires !Registered(c, ref)
    ensures !CostRaises(c, ref)
  {
    CostIsOfEntry(c, EntryPath(ref));
  }

  /** Where the search for the entry looks. */
  lemma ListFound(config: map<string, J>, ref: string)
    ensures var provider := ObjAt(Providers(config), SplitRef(ref).0);
            ListRaises(Obj(config), SplitRef(ref).0) <==>
              provider.Some? && "models" in provider.value && NotIterable(provider.value["models"])
  {
    var name := SplitRef(ref).0;
    var p3: seq<Step> := [Key("models")] + [];
    var p2 := [Key(name)] + p3;
    var p1 := [Key("providers")] + p2;
    assert ListPath(name) == [Key("models")] + p1;
    GetKey(Obj(config), "models", p1);
    if "models" in config {
      var models := config["models"];
      GetKey(models, "providers", p2);
      if models.Obj? && "providers" in models.fields {
        var providers := models.fields["providers"];
        GetKey(providers, name, p3);
        if providers.Obj? && name in providers.fields { GetKey(providers.fields[name], "models", []); }
      }
    }
  }

  /** The first two patches of an override are one change of the entry. */
  lemma EntryPut(config: map<string, J>, ref: string, props: map<string, J>)
    requires Registered(Obj(config), ref)
    ensures var (name, id) := SplitRef(ref);
            var list := ListOf(config, name);
            var i := FirstWithId(list, id);
            && i < |list| && list[i].Obj?
            && var patched := EntryPatched(list[i].fields, props);
               && (patched.None? <==> CostRaises(Obj(config), ref) && SubPatch(props, "cost").Some?)
               && (patched.Some? ==>
                     PutIf(Put(Obj(config), EntryPath(ref), false, PlainPatch(props)), CostPath(ref), true,
                           SubPatch(props, "cost"))
                     == Obj(WithModels(config, name, list[i := Obj(patched.value)])))
  {
    var (name, id) := SplitRef(ref);
    var plain, cost := PlainPatch(props), SubPatch(props, "cost");
    EntryFound(config, ref);
    var list := ListOf(config, name);
    var i := FirstWithId(list, id);
    PutAtEntry(config, ref, [], false, plain);
    assert EntryPath(ref) + [] == EntryPath(ref);
    CostIsOfEntry(Obj(config), EntryPath(ref));
    var was := list[i].fields;
    assert Lookup(was + plain, "cost") == Lookup(was, "cost");
    if cost.Some? && SubDict(Lookup(was, "cost")).Some? {
      CostPut(config, ref, was + plain, cost.value);
    }
  }

  function WithCost(entry: map<string, J>, cost: map<string, J>): map<string, J>
    requires SubDict(Lookup(entry, "cost")).Some?
  {
    entry["cost" := Obj(SubDict(Lookup(entry, "cost")).value + cost)]
  }

  /** The prices merged into an entry that was changed before. */
  lemma CostPut(config: map<string, J>, ref: string, entry: map<string, J>, cost: map<string, J>)
    requires Registered(Obj(config), ref) && CarriesId(Obj(entry), SplitRef(ref).1)
    requires SubDict(Lookup(entry, "cost")).Some?
    ensures var (name, id) := SplitRef(ref);
            var list := ListOf(config, name);
            var i := FirstWithId(list, id);
            && i < |list|
            && Put(Obj(WithModels(config, name, list[i := Obj(entry)])), CostPath(ref), true, cost) ==
                 Obj(WithModels(config, name, list[i := Obj(WithCost(entry, cost))]))
  {
    var (name, id) := SplitRef(ref);
    EntryFound(config, ref);
    var list := ListOf(config, name);
    var i := FirstWithId(list, id);
    var list1 := list[i := Obj(entry)];
    var entry' := Obj(WithCost(entry, cost));
    var config1 := WithModels(config, name, list1);
    ModelsChanged(config, name, list1, list1[i := entry']);
    FirstIs(list1, id, i);
    EntryFound(config1, ref);
    PutAtEntry(config1, ref, [Make("cost")], true, cost);
    CostOnEntry(entry, cost);
    ItemTwice(list, i, Obj(entry), entry');
  }

  lemma ItemTwice(list: seq<J>, i: nat, a: J, b: J)
    requires i < |list|
    ensures list[i := a][i := b] == list[i := b]
  {
  }

  lemma CostOnEntry(entry: map<string, J>, cost: map<string, J>)
    requires SubDict(Lookup(entry, "cost")).Some?
    ensures Put(Obj(entry), [Make("cost")], true, cost) == Obj(WithCost(entry, cost))
  {
    assert [Make("cost")] + [] == [Make("cost")];
    PutMake(Obj(entry), "cost", [], true, cost);
    assert map[] + cost == cost;
  }

  /** The loop over the overlay's entries in the order of the dictionary. */
  method ApplyModelOverrides(config: J, o: Overlay, order: seq<string>) returns (r: Option<J>)
    requires Lists(order, o.Keys)
    ensures r == ApplyOrdered(config, o, order)
  {
    if o == map[] || !config.Obj? {
      return Some(config);
    }
    RootRaisesIf(config.fields);
    if "models" in config.fields && Truthy(config.fields["models"]) && !config.fields["models"].Obj? {
      return None;
    }
    r := ApplyEach(config.fields, o, order);
  }

  method ApplyEach(config: map<string, J>, o: Overlay, order: seq<string>) returns (r: Option<J>)
    requires !RootRaises(Obj(config)) && forall i | 0 <= i < |order| :: order[i] in o
    ensures r == ApplyInOrder(Obj(config), o, order)
  {
    var result, i := config, 0;
    while i < |order|
      invariant 0 <= i <= |order|
      invariant ApplyInOrder(Obj(config), o, order[..i]) == Some(Obj(result))
      invariant !RootRaises(Obj(result))
    {
      NextInOrder(Obj(config), o, order, i);
      var next := ApplyOne(result, order[i], o[order[i]]);
      if next.None? {
        FailsOn(Obj(config), o, order, i + 1);
        return None;
      }
      ShapesKept(Obj(result), order[i], o[order[i]], "");
      result := next.value;
      i := i + 1;
    }
    assert order[..i] == order;
    r := Some(Obj(result));
  }

  lemma RootRaisesIf(config: map<string, J>)
    ensures RootRaises(Obj(config)) <==> "models" in config && Truthy(config["models"]) && !config["models"].Obj?
  {
    assert [Key("models")] + [] == [Key("models")];
    GetKey(Obj(config), "models", []);
  }

  lemma NextInOrder(config: J, o: Overlay, order: seq<string>, i: nat)
    requires i < |order| && forall k | 0 <= k < |order| :: order[k] in o
    ensures var before, ref := ApplyInOrder(config, o, order[..i]), order[i];
            ApplyInOrder(config, o, order[..i + 1]) ==
              if before.None? || RefRaises(before.value, ref, o[ref]) then None
              else Some(ApplyRef(before.value, ref, o[ref]))
  {
    assert order[..i + 1][..i] == order[..i];
  }

  lemma {:induction false} FailsOn(config: J, o: Overlay, order: seq<string>, n: nat)
    requires n <= |order| && (forall i | 0 <= i < |order| :: order[i] in o) && ApplyInOrder(config, o, order[..n]).None?
    ensures ApplyInOrder(config, o, order).None?
    decreases |order|
  {
    if n < |order| {
      var init := order[..|order| - 1];
      assert init[..n] == order[..n];
      FailsOn(config, o, init, n);
    } else {
      assert order[..n] == order;
    }
  }
}
