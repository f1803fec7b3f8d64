/** The recursive loops of openclaw_template.py, proved against the functions that specify them. */
module TemplateMethods {
  import opened Json
  import opened Text
  import opened OpenclawTemplate

  /** The recursive check: the list is empty exactly on a conforming tree. */
  method TemplateConformanceIssues(template: J, live: J, path: string) returns (issues: seq<string>)
    ensures issues == [] <==> Conforms(template, live)
    decreases template, 2
  {
    issues := [];
    if IsPlaceholder(template) {
      if !live.Str? || Blank(live.s) { issues := [path]; }
    } else if template.Obj? {
      if !live.Obj? { return [path]; }
      issues := KeyIssues(template, live, path);
    } else if template.Arr? {
      if !live.Arr? { return [path]; }
      issues := ItemIssues(template, live, path);
    } else if !LeafMatches(template, live) {
      issues := [path];
    }
  }

  /** The loop over the template's keys, in any order. */
  method KeyIssues(template: J, live: J, path: string) returns (issues: seq<string>)
    requires template.Obj? && live.Obj?
    ensures issues == [] <==> Conforms(template, live)
    decreases template, 1
  {
    issues := [];
    var tf, todo := template.fields, template.fields.Keys;
    while todo != {}
      invariant todo <= tf.Keys
      invariant issues == [] <==> forall k | k in tf && k !in todo ::
                  k in live.fields && Conforms(tf[k], live.fields[k])
      decreases |todo|
    {
      var key :| key in todo;
      todo := todo - {key};
      if key !in live.fields {
        issues := issues + [path + "." + key];
      } else {
        var more := TemplateConformanceIssues(tf[key], live.fields[key], path + "." + key);
        issues := issues + more;
      }
    }
  }

  /** The loop over the items of a template list. */
  method ItemIssues(template: J, live: J, path: string) returns (issues: seq<string>)
    requires template.Arr? && live.Arr?
    ensures issues == [] <==> Conforms(template, live)
    decreases template, 1
  {
    issues := [];
    for idx := 0 to |template.items|
      invariant issues == [] <==> forall i | 0 <= i < idx :: Satisfied(template.items[i], live.items)
    {
      var more := OneItemIssues(template.items[idx], live.items, path);
      issues := issues + more;
    }
  }

  /** One item: by id, or by the search for a counterpart. */
  method OneItemIssues(item: J, live: seq<J>, path: string) returns (issues: seq<string>)
    ensures issues == [] <==> Satisfied(item, live)
    decreases item, 4
  {
    issues := [];
    if HasId(item) {
      var i := FirstWithId(live, IdOf(item));
      if i == |live| { return [path + "[id=" + IdOf(item) + "]"]; }
      issues := TemplateConformanceIssues(item, live[i], path + "[id=" + IdOf(item) + "]");
    } else {
      var found := IsSatisfied(item, live);
      if !found { issues := [path]; }
    }
  }

  /** The `any(...)` over the live list for an item without an id, and `in` for a plain one. */
  method IsSatisfied(t: J, live: seq<J>) returns (found: bool)
    requires !HasId(t)
    ensures found <==> Satisfied(t, live)
    decreases t, 3
  {
    found := false;
    for i := 0 to |live|
      invariant !found
      invariant forall k | 0 <= k < i :: !(if t.Obj? then live[k].Obj? && Conforms(t, live[k]) else LooseEq(t, live[k]))
    {
      if t.Obj? {
        if live[i].Obj? {
          var issues := TemplateConformanceIssues(t, live[i], "");
          if issues == [] {
            assert live[i] in live;
            return true;
          }
        }
      } else if LooseEq(t, live[i]) {
        assert live[i] in live;
        return true;
      }
    }
  }

  /** Keys and list items are enforced one at a time on a copy of the live value. */
  method ReconcileConfigToTemplate(template: J, live: J) returns (result: J)
    ensures result == Reconcile(template, live)
    decreases template, 2
  {
    if template.Obj? && live.Obj? {
      result := ReconcileKeys(template, live);
    } else if template.Arr? && live.Arr? {
      result := ReconcileList(template, live);
    } else {
      result := template;
    }
  }

  lemma KeysEnforced(t: J, live: J, fields: map<string, J>)
    requires t.Obj? && live.Obj? && forall k :: k in fields <==> k in live.fields || k in t.fields
    requires forall k | k in fields :: fields[k] == ReconcileKey(t, live, k)
    ensures Reconcile(t, live) == Obj(fields)
  {
    assert Reconcile(t, live).fields == fields;
  }

  method ReconcileOneKey(template: J, live: J, key: string) returns (value: J)
    requires template.Obj? && live.Obj? && key in template.fields
    ensures value == ReconcileKey(template, live, key)
    decreases template, 0
  {
    if key in live.fields {
      value := ReconcileConfigToTemplate(template.fields[key], live.fields[key]);
    } else {
      value := template.fields[key];
    }
  }

  method ReconcileKeys(template: J, live: J) returns (result: J)
    requires template.Obj? && live.Obj?
    ensures result == Reconcile(template, live)
    decreases template, 1
  {
    var fields := live.fields;
    var todo := template.fields.Keys;
    while todo != {}
      invariant forall k | k in todo :: k in template.fields
      invariant forall k :: k in fields <==> k in live.fields || (k in template.fields && k !in todo)
      invariant forall k | k in fields ::
                  fields[k] == if k in todo then live.fields[k] else ReconcileKey(template, live, k)
      decreases |todo|
    {
      var key :| key in todo;
      todo := todo - {key};
      var value := ReconcileOneKey(template, live, key);
      fields := fields[key := value];
    }
    KeysEnforced(template, live, fields);
    result := Obj(fields);
  }

  method ReconcileList(template: J, live: J) returns (result: J)
    requires template.Arr? && live.Arr?
    ensures result == Reconcile(template, live)
    decreases template, 0
  {
    var ts := template.items;
    var items := live.items;
    assert ts[0..] == ts;
    for idx := 0 to |ts|
      invariant ReconcileItems(ts[idx..], items) == ReconcileItems(ts, live.items)
    {
      var item := ts[idx];
      assert ts[idx..][0] == item && ts[idx..][1..] == ts[idx + 1..];
      if HasId(item) {
        var i := FirstWithId(items, IdOf(item));
        if i == |items| {
          items := items + [item];
        } else {
          var entry := ReconcileConfigToTemplate(item, items[i]);
          items := items[i := entry];
        }
      } else {
        var found := IsSatisfied(item, items);
        if !found {
          items := items + [item];
        }
      }
    }
    result := Arr(items);
  }
}
