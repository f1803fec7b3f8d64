/** Reconciling with the rendered template satisfies the check against the raw one. */
module TemplateRendering {
  import opened Json
  import opened Text
  import opened OpenclawTemplate
  import opened TemplateLaws

  /** No string anywhere in the tree, keys included, holds a placeholder. */
  predicate PlaceholderFree(t: J) {
    match t
    case Str(s) => !HasPlaceholder(s)
    case Obj(tf) => forall k | k in tf :: !HasPlaceholder(k) && PlaceholderFree(tf[k])
    case Arr(ts) => forall i | 0 <= i < |ts| :: PlaceholderFree(ts[i])
    case _ => true
  }

  /** Placeholders occur only as dictionary values: never as keys, ids or plain list items. */
  predicate PlaceholdersAreValues(t: J)
    decreases t, 0
  {
    match t
    case Obj(tf) => forall k | k in tf :: !HasPlaceholder(k) && PlaceholdersAreValues(tf[k])
    case Arr(ts) => forall i | 0 <= i < |ts| :: ItemPlaceholders(ts[i])
    case _ => true
  }

  predicate ItemPlaceholders(t: J)
    decreases t, 1
  {
    if t.Obj? then (HasId(t) ==> !HasPlaceholder(IdOf(t))) && PlaceholdersAreValues(t)
    else PlaceholderFree(t)
  }

  lemma {:induction false} RenderTextPlain(s: string, env: map<string, string>)
    requires !HasPlaceholder(s)
    ensures RenderText(s, env) == Ok(s)
    decreases |s|
  {
    if s != "" {
      RenderTextPlain(s[1..], env);
      assert [s[0]] + s[1..] == s;
    }
  }

  lemma {:induction false} NameLengthIs(s: string, n: nat)
    requires n < |s| && !IsNameChar(s[n]) && forall i | 0 <= i < n :: IsNameChar(s[i])
    ensures NameLength(s) == n
  {
    if n > 0 { NameLengthIs(s[1..], n - 1); }
  }

  /** Text, then a variable's value, then the rendered rest; the first variable without a value is the error. */
  function Spliced(plain: string, name: string, rest: string, env: map<string, string>): Result<string, string> {
    match Resolve(name, env)
    case Err(missing) => Err(missing)
    case Ok(value) =>
      match RenderText(rest, env)
      case Err(missing) => Err(missing)
      case Ok(tail) => Ok(plain + (value + tail))
  }

  predicate IsName(name: string) {
    name != "" && IsUpper(name[0]) && forall i | 0 <= i < |name| :: IsNameChar(name[i])
  }

  lemma SpliceAtHead(name: string, rest: string, env: map<string, string>)
    requires IsName(name)
    ensures RenderText("${" + name + "}" + rest, env) == Spliced("", name, rest, env)
  {
    var s := "${" + name + "}" + rest;
    assert s[2..] == name + "}" + rest;
    NameLengthIs(s[2..], |name|);
    assert PlaceholderAtHead(s) && NameAtHead(s) == name && AfterHead(s) == rest;
    if Resolve(name, env).Ok? && RenderText(rest, env).Ok? {
      assert "" + (Resolve(name, env).value + RenderText(rest, env).value) ==
            Resolve(name, env).value + RenderText(rest, env).value;
    }
  }

  /** Where no placeholder starts inside the text in front, not even one that ends behind it. */
  predicate NoneStarts(plain: string, end: string) {
    forall i | 0 <= i < |plain| :: !PlaceholderAtHead(plain[i..] + end)
  }

  lemma CharKept(s: string, env: map<string, string>)
    requires s != "" && !PlaceholderAtHead(s)
    ensures var tail := RenderText(s[1..], env);
            RenderText(s, env) == if tail.Ok? then Ok([s[0]] + tail.value) else tail
  {
  }

  lemma NoneStartsLater(plain: string, end: string)
    requires plain != "" && NoneStarts(plain, end)
    ensures !PlaceholderAtHead(plain + end) && NoneStarts(plain[1..], end)
    ensures (plain + end)[0] == plain[0] && (plain + end)[1..] == plain[1..] + end
  {
    assert plain[0..] == plain;
    assert forall i | 0 <= i < |plain[1..]| :: plain[1..][i..] == plain[i + 1..];
  }

  /** Placeholders are replaced one by one, left to right; the text between them is kept, lone dollar signs included. */
  lemma {:induction false} RenderSplices(plain: string, name: string, rest: string, env: map<string, string>)
    requires IsName(name) && NoneStarts(plain, "${" + name + "}" + rest)
    ensures RenderText(plain + ("${" + name + "}" + rest), env) == Spliced(plain, name, rest, env)
    decreases |plain|
  {
    var end := "${" + name + "}" + rest;
    if plain == "" {
      assert plain + end == end;
      SpliceAtHead(name, rest, env);
    } else {
      NoneStartsLater(plain, end);
      CharKept(plain + end, env);
      RenderSplices(plain[1..], name, rest, env);
      if Spliced(plain, name, rest, env).Ok? {
        var mid := Resolve(name, env).value + RenderText(rest, env).value;
        assert [plain[0]] + (plain[1..] + mid) == plain + mid;
      }
    }
  }

  lemma OneSplice(name: string, env: map<string, string>)
    requires IsName(name)
    ensures RenderText("${" + name + "}", env) ==
            match Resolve(name, env)
            case Err(missing) => Err(missing)
            case Ok(value) => Ok(value)
  {
    SpliceAtHead(name, "", env);
    assert "${" + name + "}" + "" == "${" + name + "}";
    if Resolve(name, env).Ok? {
      var value := Resolve(name, env).value;
      assert "" + (value + "") == value;
    }
  }

  /**
   * A placeholder is an upper-case letter and then such letters, digits and underscores. It gets the
   * variable's value, stripped, where the environment has one that is not blank; else the default of
   * the six model variables; else the rendering fails and names it.
   */
  lemma PlaceholderValue(name: string, env: map<string, string>)
    requires name != "" && 'A' <= name[0] <= 'Z'
    requires forall i | 0 <= i < |name| :: 'A' <= name[i] <= 'Z' || '0' <= name[i] <= '9' || name[i] == '_'
    ensures RenderText("${" + name + "}", env) ==
            if name in env && !Blank(env[name]) then Ok(Strip(env[name]))
            else if name == "PLANNER_MODEL" || name == "ROADMAP_MODEL" then Ok("openrouter/z-ai/glm-5.2")
            else if name == "EXECUTOR_MODEL" || name == "REVIEWER_MODEL" || name == "PRD_MODEL"
              then Ok("openrouter/moonshotai/kimi-k2.7-code")
            else if name == "ESCALATION_MODEL" then Ok("openrouter/qwen/qwen3.6-27b")
            else Err(name)
  {
    assert IsName(name);
    OneSplice(name, env);
    if name in env { StripBlank(env[name]); }
  }

  lemma {:induction false} NoDollarPlain(s: string)
    requires '$' !in s
    ensures !HasPlaceholder(s)
    decreases |s|
  {
    if s != "" { NoDollarPlain(s[1..]); }
  }

  lemma NoHeadAt(name: string)
    requires !IsName(name) && '}' !in name
    ensures !PlaceholderAtHead("${" + name + "}")
  {
    var n, u := NameLength(name), name + "}";
    assert ("${" + name + "}")[2..] == u;
    if n < |name| { assert u[n] == name[n] && name[n] in name; }
    NameLengthIs(u, n);
  }

  /** Anything else in braces stays as it is, and so does text without a dollar sign. */
  lemma NoPlaceholderStays(name: string, env: map<string, string>)
    requires '$' !in name && '}' !in name
    requires name == "" || !('A' <= name[0] <= 'Z')
             || exists i | 0 <= i < |name| :: !('A' <= name[i] <= 'Z' || '0' <= name[i] <= '9' || name[i] == '_')
    ensures RenderText("${" + name + "}", env) == Ok("${" + name + "}")
    ensures RenderText(name, env) == Ok(name)
  {
    assert !IsName(name);
    NoDollarPlain(name);
    RenderTextPlain(name, env);
    var s := "${" + name + "}";
    NoHeadAt(name);
    var rest := "{" + name + "}";
    assert s[1..] == rest && forall i | 0 <= i < |rest| :: rest[i] != '$';
    NoDollarPlain(rest);
    RenderTextPlain(rest, env);
    assert [s[0]] + rest == s;
  }

  lemma ResolvedNotBlank(name: string, env: map<string, string>)
    requires Resolve(name, env).Ok?
    ensures !Blank(Resolve(name, env).value)
  {
    var value := Resolve(name, env).value;
    if name in env { StripBlank(env[name]); }
    assert value[0] == 'o' || !IsSpace(value[0]);
  }

  /** A rendered placeholder is never blank: a variable without a value fails the rendering instead. */
  lemma {:induction false} RenderTextNotBlank(s: string, env: map<string, string>)
    requires HasPlaceholder(s) && RenderText(s, env).Ok?
    ensures !Blank(RenderText(s, env).value)
    decreases |s|
  {
    var r := RenderText(s, env).value;
    if PlaceholderAtHead(s) {
      ResolvedNotBlank(NameAtHead(s), env);
      var value := Resolve(NameAtHead(s), env).value;
      assert r[..|value|] == value;
      var i :| 0 <= i < |value| && !IsSpace(value[i]);
      assert !IsSpace(r[i]);
    } else {
      RenderTextNotBlank(s[1..], env);
      var rest := RenderText(s[1..], env).value;
      var i :| 0 <= i < |rest| && !IsSpace(rest[i]);
      assert !IsSpace(r[i + 1]);
    }
  }

  lemma {:induction false} RenderPlain(t: J, env: map<string, string>)
    requires PlaceholderFree(t)
    ensures Render(t, env) == Some(t)
  {
    match t
    case Str(s) => RenderTextPlain(s, env);
    case Obj(tf) =>
      forall k | k in tf ensures Render(tf[k], env) == Some(tf[k]) { RenderPlain(tf[k], env); }
      assert Render(t, env).value.fields == tf;
    case Arr(ts) =>
      forall i | 0 <= i < |ts| ensures Render(ts[i], env) == Some(ts[i]) { RenderPlain(ts[i], env); }
      assert Render(t, env).value.items == ts;
    case _ =>
  }

  /** Rendering keeps the ids of list items. */
  lemma RenderKeepsId(t: J, env: map<string, string>)
    requires ItemPlaceholders(t) && Render(t, env).Some?
    ensures t.Obj? <==> Render(t, env).value.Obj?
    ensures HasId(t) <==> HasId(Render(t, env).value)
    ensures HasId(t) ==> IdOf(t) == IdOf(Render(t, env).value)
  {
    if t.Obj? && "id" in t.fields {
      assert Render(t, env).value.fields["id"] == Render(t.fields["id"], env).value;
      if HasId(t) { RenderTextPlain(IdOf(t), env); }
    }
  }

  /** A tree conforming to the rendered template conforms to the raw one. */
  lemma {:induction false} RenderRefines(t: J, env: map<string, string>, live: J)
    requires PlaceholdersAreValues(t) && Render(t, env).Some?
    requires Conforms(Render(t, env).value, live)
    ensures Conforms(t, live)
    decreases t, 0
  {
    var r := Render(t, env).value;
    match t
    case Str(s) =>
      if HasPlaceholder(s) { RenderTextNotBlank(s, env); } else { RenderTextPlain(s, env); }
    case Obj(tf) =>
      forall k | k in tf ensures k in live.fields && Conforms(tf[k], live.fields[k]) {
        assert k in r.fields && r.fields[k] == Render(tf[k], env).value;
        RenderRefines(tf[k], env, live.fields[k]);
      }
    case Arr(ts) =>
      forall i | 0 <= i < |ts| ensures Satisfied(ts[i], live.items) {
        assert r.items[i] == Render(ts[i], env).value;
        ItemRefines(ts[i], env, live.items);
      }
    case _ =>
  }

  lemma {:induction false} ItemRefines(t: J, env: map<string, string>, live: seq<J>)
    requires ItemPlaceholders(t) && Render(t, env).Some?
    requires Satisfied(Render(t, env).value, live)
    ensures Satisfied(t, live)
    decreases t, 1
  {
    var r := Render(t, env).value;
    RenderKeepsId(t, env);
    if HasId(t) {
      RenderRefines(t, env, live[FirstWithId(live, IdOf(t))]);
    } else if t.Obj? {
      var e :| e in live && e.Obj? && Conforms(r, e);
      RenderRefines(t, env, e);
    } else {
      RenderPlain(t, env);
    }
  }

  /** Rendering keeps a template well-formed. */
  lemma {:induction false} RenderWellFormed(t: J, env: map<string, string>)
    requires PlaceholdersAreValues(t) && Render(t, env).Some? && WellFormed(t)
    ensures WellFormed(Render(t, env).value)
    decreases t
  {
    var r := Render(t, env).value;
    match t
    case Obj(tf) =>
      forall k | k in tf ensures WellFormed(r.fields[k]) { RenderWellFormed(tf[k], env); }
    case Arr(ts) =>
      forall i | 0 <= i < |ts|
        ensures WellFormed(r.items[i]) && (ts[i].Obj? <==> r.items[i].Obj?)
             && (HasId(ts[i]) <==> HasId(r.items[i])) && (HasId(ts[i]) ==> IdOf(ts[i]) == IdOf(r.items[i]))
      {
        assert ItemPlaceholders(ts[i]);
        RenderKeepsId(ts[i], env);
        if ts[i].Obj? { RenderWellFormed(ts[i], env); } else { RenderPlain(ts[i], env); }
      }
    case _ =>
  }

  /** Healing towards the rendered template passes the check against the raw template. */
  lemma HealedConformsToRaw(t: J, env: map<string, string>, live: J)
    requires WellFormed(t) && PlaceholdersAreValues(t) && Render(t, env).Some?
    ensures Conforms(t, Reconcile(Render(t, env).value, live))
  {
    var r := Render(t, env).value;
    RenderWellFormed(t, env);
    ReconcileConforms(r, live);
    RenderRefines(t, env, Reconcile(r, live));
  }

  function Strings(texts: seq<string>): (ts: seq<J>)
    ensures |ts| == |texts| && forall i | 0 <= i < |ts| :: ts[i] == Str(texts[i])
  {
    seq(|texts|, i requires 0 <= i < |texts| => Str(texts[i]))
  }

  /** A list of strings is answered by the lists that hold them all. */
  lemma StringsHeld(texts: seq<string>, live: seq<J>)
    ensures Conforms(Arr(Strings(texts)), Arr(live)) <==> forall i | 0 <= i < |texts| :: Str(texts[i]) in live
  {
    forall i | 0 <= i < |texts| ensures Satisfied(Strings(texts)[i], live) <==> Str(texts[i]) in live {
      assert forall e | e in live :: LooseEq(Str(texts[i]), e) <==> e == Str(texts[i]);
    }
  }

  lemma StringsRendered(texts: seq<string>, env: map<string, string>, rendered: seq<string>)
    requires |rendered| == |texts| && forall i | 0 <= i < |texts| :: RenderText(texts[i], env) == Ok(rendered[i])
    ensures Render(Arr(Strings(texts)), env) == Some(Arr(Strings(rendered)))
  {
    var ts := Strings(texts);
    assert forall i | 0 <= i < |ts| :: Render(ts[i], env) == Some(Str(rendered[i]));
    assert Render(Arr(ts), env).value.items == Strings(rendered);
  }

  /** Whatever answers the rendered template answers the raw one. */
  ghost predicate RawFollows(raw: J, rendered: J) {
    forall live | Conforms(rendered, live) :: Conforms(raw, live)
  }

  predicate AllIn(texts: seq<string>, rendered: seq<string>) {
    forall i | 0 <= i < |texts| :: texts[i] in rendered
  }

  /**
   * Why plain list items must not be placeholders: membership compares them with their literal text,
   * so the rendered check implies the raw one exactly when every item is still there after rendering.
   */
  lemma PlainItemsExact(texts: seq<string>, env: map<string, string>, rendered: seq<string>)
    requires |rendered| == |texts| && forall i | 0 <= i < |texts| :: RenderText(texts[i], env) == Ok(rendered[i])
    ensures Render(Arr(Strings(texts)), env) == Some(Arr(Strings(rendered)))
    ensures RawFollows(Arr(Strings(texts)), Arr(Strings(rendered))) <==> AllIn(texts, rendered)
  {
    StringsRendered(texts, env, rendered);
    if AllIn(texts, rendered) {
      forall live | Conforms(Arr(Strings(rendered)), live) ensures Conforms(Arr(Strings(texts)), live) {
        ItemsFound(texts, rendered, live);
      }
    }
    if RawFollows(Arr(Strings(texts)), Arr(Strings(rendered))) { ItemsStayed(texts, rendered); }
  }

  lemma ItemsFound(texts: seq<string>, rendered: seq<string>, live: J)
    requires AllIn(texts, rendered) && Conforms(Arr(Strings(rendered)), live)
    ensures Conforms(Arr(Strings(texts)), live)
  {
    assert live == Arr(live.items);
    StringsHeld(rendered, live.items);
    StringsHeld(texts, live.items);
    forall i | 0 <= i < |texts| ensures Str(texts[i]) in live.items {
      var j :| 0 <= j < |rendered| && rendered[j] == texts[i];
    }
  }

  lemma ItemsStayed(texts: seq<string>, rendered: seq<string>)
    requires RawFollows(Arr(Strings(texts)), Arr(Strings(rendered)))
    ensures AllIn(texts, rendered)
  {
    var live := Strings(rendered);
    assert forall j | 0 <= j < |rendered| :: live[j] == Str(rendered[j]);
    StringsHeld(rendered, live);
    StringsHeld(texts, live);
    forall i | 0 <= i < |texts| ensures texts[i] in rendered {
      var j :| 0 <= j < |live| && live[j] == Str(texts[i]);
      assert rendered[j] == texts[i];
    }
  }
}
