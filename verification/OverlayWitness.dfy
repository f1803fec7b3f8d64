/**
 * The smallest configuration with a model, and with it the exact condition under which two overrides
 * may be applied in either order (autodev/installer/model_overrides.py:229-262): they commute on every
 * configuration if and only if they name different models.
 */
module OverlayWitness {
  import opened Json
  import opened OpenclawTemplate
  import opened JsonPaths
  import opened ConformancePaths
  import opened OverlayApply
  import opened OverlayEffects

  function Providers(p: string, e: J): J {
    Obj(map[p := Obj(map["models" := Arr([e])])])
  }

  function Gateway(): J {
    Obj(map["controlUi" := Obj(map["allowedOrigins" := Arr([])])])
  }

  /** A configuration with one entry of one provider. */
  function WithEntry(p: string, e: J): J {
    Obj(map["models" := Obj(map["providers" := Providers(p, e)]), "gateway" := Gateway()])
  }

  function Entry(m: string): J {
    Obj(map["id" := Str(m)])
  }

  /** A template with one model of one provider. */
  function OneModel(p: string, m: string): J {
    WithEntry(p, Entry(m))
  }

  // ---------------------------------------------------------------------------------------
  // Its paths
  // ---------------------------------------------------------------------------------------

  lemma ListSteps(e: J, m: string, rest: seq<Step>)
    requires CarriesId(e, m) && "cost" !in e.fields && (rest == [] || rest == [Make("cost")])
    ensures var q, list := [Elem(m)] + rest, Arr([e]);
            && Get(list, q) == (if rest == [] then Some(e) else None)
            && Smooth(list, q, false) && Smooth(list, q, true) && IdentifiedAlong(list, q)
  {
    var q, list := [Elem(m)] + rest, Arr([e]);
    assert q[1..] == rest;
    assert list.items[0] == e && FirstWithId(list.items, m) == 0;
    if rest != [] { assert rest[1..] == []; }
  }

  lemma OneStep(j: J, k: string, v: J, q: seq<Step>)
    requires j == Obj(map[k := v]) || (j.Obj? && k in j.fields && j.fields[k] == v)
    ensures Get(j, [Key(k)] + q) == Get(v, q)
    ensures forall c :: Smooth(j, [Key(k)] + q, c) <==> Smooth(v, q, c)
    ensures IdentifiedAlong(j, [Key(k)] + q) <==> IdentifiedAlong(v, q)
  {
    assert ([Key(k)] + q)[1..] == q;
  }

  lemma EntrySteps(ref: string, e: J, rest: seq<Step>)
    requires CarriesId(e, SplitRef(ref).1) && "cost" !in e.fields && (rest == [] || rest == [Make("cost")])
    ensures var t, q := WithEntry(SplitRef(ref).0, e), EntryPath(ref) + rest;
            && Get(t, q) == (if rest == [] then Some(e) else None)
            && Smooth(t, q, false) && Smooth(t, q, true) && IdentifiedAlong(t, q)
  {
    var (p, m) := SplitRef(ref);
    var q4 := [Elem(m)] + rest;
    var q3 := [Key("models")] + q4;
    var q2 := [Key(p)] + q3;
    var q1 := [Key("providers")] + q2;
    assert EntryPath(ref) + rest == [Key("models")] + q1;
    ListSteps(e, m, rest);
    var provider := Obj(map["models" := Arr([e])]);
    OneStep(provider, "models", Arr([e]), q4);
    OneStep(Providers(p, e), p, provider, q3);
    OneStep(Obj(map["providers" := Providers(p, e)]), "providers", Providers(p, e), q2);
    OneStep(WithEntry(p, e), "models", Obj(map["providers" := Providers(p, e)]), q1);
  }

  // ---------------------------------------------------------------------------------------
  // The order of two overrides
  // ---------------------------------------------------------------------------------------

  /** An override of one plain property. */
  function Tokens(n: int): J {
    Obj(map["maxTokens" := Int(n)])
  }

  ghost predicate Commute(a: string, b: string) {
    forall c, x, y :: ApplyRef(ApplyRef(c, a, x), b, y) == ApplyRef(ApplyRef(c, b, y), a, x)
  }

  lemma TokensLand(c: J, ref: string, n: int)
    requires Registered(c, ref)
    ensures var e := Get(ApplyRef(c, ref, Tokens(n)), EntryPath(ref));
            e.Some? && e.value.Obj? && "maxTokens" in e.value.fields && e.value.fields["maxTokens"] == Int(n)
  {
    OverrideLands(c, ref, Tokens(n));
  }

  /** Two spellings of one model, such as `p` and `p/`, or one reference twice: the later one wins. */
  lemma SameModelClashes(a: string, b: string)
    requires SplitRef(a) == SplitRef(b)
    ensures !Commute(a, b)
  {
    var c := OneModel(SplitRef(a).0, SplitRef(a).1);
    EntrySteps(a, Entry(SplitRef(a).1), []);
    assert EntryPath(a) + [] == EntryPath(a) == EntryPath(b);
    TokensLand(c, a, 1);
    TokensLand(ApplyRef(c, a, Tokens(1)), b, 2);
    TokensLand(c, b, 2);
    TokensLand(ApplyRef(c, b, Tokens(2)), a, 1);
    assert ApplyRef(ApplyRef(c, a, Tokens(1)), b, Tokens(2)) != ApplyRef(ApplyRef(c, b, Tokens(2)), a, Tokens(1));
  }

  lemma CommuteIffApart(a: string, b: string)
    ensures Commute(a, b) <==> SplitRef(a) != SplitRef(b)
  {
    if SplitRef(a) == SplitRef(b) {
      SameModelClashes(a, b);
    } else {
      forall c, x, y ensures ApplyRef(ApplyRef(c, a, x), b, y) == ApplyRef(ApplyRef(c, b, y), a, x) {
        ApplyRefsCommute(c, a, x, b, y);
      }
    }
  }
}
