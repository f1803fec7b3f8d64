/**
 * The origins of a remapped gateway port, which a boot adds to the Control UI allow-list between
 * healing the configuration and applying the overlay (deploy/entrypoint.sh:293-310).
 */
module BootOrigins {
  import opened Json
  import opened OpenclawTemplate
  import opened TemplateLaws
  import opened JsonPaths
  import opened ConformancePaths
  import opened LoosePaths

  const ORIGINS_PATH: seq<Step> := [Make("gateway"), Make("controlUi"), Make("allowedOrigins")]

  /** `origins.extend(o for o in wanted if o not in origins)`. */
  function Extended(list: seq<J>, wanted: seq<string>): (r: seq<J>)
    ensures |list| <= |r| && r[..|list|] == list
    decreases |wanted|
  {
    if wanted == [] then list
    else Extended(if Str(wanted[0]) in list then list else list + [Str(wanted[0])], wanted[1..])
  }

  function OriginsOf(ui: J): J
    requires ui.Obj?
  {
    if "allowedOrigins" in ui.fields then ui.fields["allowedOrigins"] else Arr([])
  }

  function WithOrigins(ui: J, wanted: seq<string>): J
    requires ui.Obj? && OriginsOf(ui).Arr?
  {
    Obj(ui.fields["allowedOrigins" := Arr(Extended(OriginsOf(ui).items, wanted))])
  }

  /** The configuration with the origins of the published port; `None` for a type error on the way. */
  function ExtendOrigins(c: J, wanted: seq<string>): Option<J> {
    if wanted == [] then Some(c)
    else if !c.Obj? then None
    else
      var gateway := Child(c, Make("gateway"));
      if !gateway.Obj? then None
      else
        var ui := Child(gateway, Make("controlUi"));
        if !ui.Obj? then None
        else if !OriginsOf(ui).Arr? then None
        else Some(Obj(c.fields["gateway" := Obj(gateway.fields["controlUi" := WithOrigins(ui, wanted)])]))
  }

  lemma {:induction false} AllListed(list: seq<J>, wanted: seq<string>)
    ensures forall e | e in list :: e in Extended(list, wanted)
    ensures forall w | w in wanted :: Str(w) in Extended(list, wanted)
    decreases |wanted|
  {
    var r := Extended(list, wanted);
    forall e | e in list ensures e in r {
      var i :| 0 <= i < |list| && list[i] == e;
      assert r[..|list|][i] == r[i];
    }
    if wanted != [] {
      AllListed(if Str(wanted[0]) in list then list else list + [Str(wanted[0])], wanted[1..]);
    }
  }

  /** Behind the first `n` elements there are wanted origins only, each new where it stands. */
  predicate AddedOnce(r: seq<J>, n: nat, wanted: seq<string>) {
    forall i | n <= i < |r| :: r[i].Str? && r[i].s in wanted && r[i] !in r[..i]
  }

  lemma {:induction false} OnceEach(list: seq<J>, wanted: seq<string>)
    ensures AddedOnce(Extended(list, wanted), |list|, wanted)
    decreases |wanted|
  {
    if wanted != [] {
      var w := Str(wanted[0]);
      var r := Extended(list, wanted);
      OnceEach(if w in list then list else list + [w], wanted[1..]);
      if w !in list {
        var next := list + [w];
        assert r[..|next|] == next;
        assert r[|list|] == r[..|next|][|list|] == w;
        assert r[..|list|] == list;
      }
    }
  }

  /** Every wanted origin is listed in the end, what was listed stays in front, and none is added twice. */
  lemma ExtendedLists(list: seq<J>, wanted: seq<string>)
    ensures var r := Extended(list, wanted);
            |list| <= |r| && r[..|list|] == list && AddedOnce(r, |list|, wanted) && forall w | w in wanted ::
                  Str(w) in r
  {
    AllListed(list, wanted);
    OnceEach(list, wanted);
  }

  lemma StaysSatisfied(t: J, list: seq<J>, wanted: seq<string>)
    requires Satisfied(t, list)
    ensures Satisfied(t, Extended(list, wanted))
  {
    var r := Extended(list, wanted);
    forall i | 0 <= i < |list| ensures r[i] == list[i] { assert r[..|list|][i] == r[i]; }
    if HasId(t) { FirstWithIdIs(r, IdOf(t), FirstWithId(list, IdOf(t))); }
  }

  lemma FieldConforms(t: J, r: J, k: string, v: J)
    requires Conforms(t, r) && r.Obj? && (t.Obj? && k in t.fields ==> Conforms(t.fields[k], v))
    ensures Conforms(t, Obj(r.fields[k := v]))
  {
  }

  lemma ListConforms(t: J, list: seq<J>, wanted: seq<string>)
    requires Conforms(t, Arr(list))
    ensures Conforms(t, Arr(Extended(list, wanted)))
  {
    if t.Arr? {
      forall i | 0 <= i < |t.items| ensures Satisfied(t.items[i], Extended(list, wanted)) {
        StaysSatisfied(t.items[i], list, wanted);
      }
    }
  }

  /** The template sees nothing of it: what conformed before still does. */
  lemma OriginsConform(t: J, r: J, wanted: seq<string>)
    requires Conforms(t, r) && ExtendOrigins(r, wanted).Some?
    ensures Conforms(t, ExtendOrigins(r, wanted).value)
  {
    if wanted != [] {
      var gateway := Child(r, Make("gateway"));
      var ui := Child(gateway, Make("controlUi"));
      var origins := OriginsOf(ui);
      var ui' := WithOrigins(ui, wanted);
      var gateway' := Obj(gateway.fields["controlUi" := ui']);
      forall s: J | Conforms(s, ui) ensures Conforms(s, ui') {
        if s.Obj? && "allowedOrigins" in s.fields { ListConforms(s.fields["allowedOrigins"], origins.items, wanted); }
        FieldConforms(s, ui, "allowedOrigins", Arr(Extended(origins.items, wanted)));
      }
      forall s: J | Conforms(s, gateway) ensures Conforms(s, gateway') { FieldConforms(s, gateway, "controlUi", ui'); }
      FieldConforms(t, r, "gateway", gateway');
    }
  }

  /** A template that declares the allow-list rules the type errors out. */
  lemma OriginsExtendable(t: J, r: J, wanted: seq<string>)
    requires Conforms(t, r) && Get(t, ORIGINS_PATH).Some? && Get(t, ORIGINS_PATH).value.Arr?
    ensures ExtendOrigins(r, wanted).Some?
  {
    ConformingHas(t, r, ORIGINS_PATH);
    assert ORIGINS_PATH[1..] == [Make("controlUi"), Make("allowedOrigins")];
    assert ORIGINS_PATH[1..][1..] == [Make("allowedOrigins")];
    assert ORIGINS_PATH[1..][1..][1..] == [];
  }

  /** Nothing outside `gateway` changes. */
  lemma OriginsElsewhere(c: J, wanted: seq<string>, p: seq<Step>, coerce: bool)
    requires ExtendOrigins(c, wanted).Some? && p != [] && !p[0].Elem? && p[0].k != "gateway"
    ensures Get(ExtendOrigins(c, wanted).value, p) == Get(c, p)
    ensures Smooth(ExtendOrigins(c, wanted).value, p, coerce) <==> Smooth(c, p, coerce)
  {
  }

  // ---------------------------------------------------------------------------------------
  // Configurations that Python does not tell apart
  // ---------------------------------------------------------------------------------------

  lemma LooseListed(xs: seq<J>, ys: seq<J>, w: string)
    requires LooseEq(Arr(xs), Arr(ys))
    ensures Str(w) in xs <==> Str(w) in ys
  {
    forall i | 0 <= i < |xs| ensures xs[i] == Str(w) <==> ys[i] == Str(w) { assert LooseEq(xs[i], ys[i]); }
  }

  lemma LooseAppend(xs: seq<J>, ys: seq<J>, e: J)
    requires LooseEq(Arr(xs), Arr(ys))
    ensures LooseEq(Arr(xs + [e]), Arr(ys + [e]))
  {
    var xs', ys' := xs + [e], ys + [e];
    LooseEqReflexive(e);
    forall i | 0 <= i < |xs'| ensures LooseEq(xs'[i], ys'[i]) {
      if i < |xs| { assert LooseEq(xs[i], ys[i]); }
    }
  }

  lemma {:induction false} LooseExtended(xs: seq<J>, ys: seq<J>, wanted: seq<string>)
    requires LooseEq(Arr(xs), Arr(ys))
    ensures LooseEq(Arr(Extended(xs, wanted)), Arr(Extended(ys, wanted)))
    decreases |wanted|
  {
    if wanted != [] {
      var e := Str(wanted[0]);
      LooseListed(xs, ys, wanted[0]);
      LooseAppend(xs, ys, e);
      LooseExtended(if e in xs then xs else xs + [e], if e in ys then ys else ys + [e], wanted[1..]);
    }
  }

  lemma LooseUi(a: J, b: J, wanted: seq<string>)
    requires a.Obj? && b.Obj? && LooseEq(a, b) && OriginsOf(a).Arr?
    ensures OriginsOf(b).Arr? && LooseEq(WithOrigins(a, wanted), WithOrigins(b, wanted))
  {
    assert LooseEq(OriginsOf(a), OriginsOf(b));
    LooseExtended(OriginsOf(a).items, OriginsOf(b).items, wanted);
    LooseField(a, b, "allowedOrigins", Arr(Extended(OriginsOf(a).items, wanted)),
               Arr(Extended(OriginsOf(b).items, wanted)));
  }

  /** Listing the origins keeps equal configurations equal. */
  lemma LooseOrigins(a: J, b: J, wanted: seq<string>)
    requires LooseEq(a, b) && ExtendOrigins(a, wanted).Some?
    ensures ExtendOrigins(b, wanted).Some? && LooseEq(ExtendOrigins(a, wanted).value, ExtendOrigins(b, wanted).value)
  {
    if wanted != [] {
      LooseStep(a, b, Make("gateway"));
      var ga, gb := Child(a, Make("gateway")), Child(b, Make("gateway"));
      LooseStep(ga, gb, Make("controlUi"));
      var ua, ub := Child(ga, Make("controlUi")), Child(gb, Make("controlUi"));
      LooseUi(ua, ub, wanted);
      LooseField(ga, gb, "controlUi", WithOrigins(ua, wanted), WithOrigins(ub, wanted));
      LooseField(a, b, "gateway", Obj(ga.fields["controlUi" := WithOrigins(ua, wanted)]),
                 Obj(gb.fields["controlUi" := WithOrigins(ub, wanted)]));
    }
  }
}
