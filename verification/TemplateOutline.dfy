/** Reconciling yields a conforming list, whatever the items of an outline hold, exactly if its ids are in order. */
module TemplateOutline {
  import opened Json
  import opened OpenclawTemplate
  import opened TemplateLaws

  datatype Kind = Tagged(id: string) | Plain | Scalar

  function KindOf(t: J): Kind {
    if HasId(t) then Tagged(IdOf(t)) else if t.Obj? then Plain else Scalar
  }

  function Outline(ts: seq<J>): seq<Kind> {
    seq(|ts|, i requires 0 <= i < |ts| => KindOf(ts[i]))
  }

  /** `OrderedIds`, read off the outline alone. */
  predicate OrderedKinds(ks: seq<Kind>) {
    forall i, j | 0 <= i < j < |ks| && ks[j].Tagged? && !ks[i].Scalar? :: ks[i].Tagged? && ks[i].id != ks[j].id
  }

  /** Reconciling any list of this outline with any live value gives a conforming result. */
  ghost predicate AlwaysConforms(ks: seq<Kind>) {
    forall ts, live | Outline(ts) == ks && (forall i | 0 <= i < |ts| :: WellFormed(ts[i])) ::
      Conforms(Arr(ts), Reconcile(Arr(ts), live))
  }

  function Body(k: Kind, i: nat): J {
    match k
    case Tagged(id) => Obj(map["id" := Str(id), "x" := Int(i)])
    case Plain => Obj(map["x" := Int(i)])
    case Scalar => Null
  }

  /** A list of the given outline whose items all disagree. */
  function Bodies(ks: seq<Kind>): (ts: seq<J>)
    ensures Outline(ts) == ks && forall i | 0 <= i < |ts| :: WellFormed(ts[i])
  {
    seq(|ks|, i requires 0 <= i < |ks| => Body(ks[i], i))
  }

  /** Two items with one id: the list does not even conform to itself. */
  lemma RepeatedIdFails(ks: seq<Kind>, i: nat, j: nat)
    requires i < j < |ks| && ks[i].Tagged? && ks[j] == ks[i]
    ensures !AlwaysConforms(ks)
  {
    var ts := Bodies(ks);
    var f := FirstWithId(ts, ks[i].id);
    assert f <= i by { assert CarriesId(ts[i], ks[i].id); }
    assert ts[f].fields["x"] == Int(f) && ts[j].fields["x"] == Int(j);
    assert !Conforms(ts[j].fields["x"], ts[f].fields["x"]);
    assert !Satisfied(ts[j], ts);
    assert !Conforms(Arr(ts), Reconcile(Arr(ts), Null));
  }

  /** The entry the plain item `i` relies on is the one the later id'd item `j` rewrites. */
  predicate Hijacked(ks: seq<Kind>, i: nat, j: nat, n: nat, acc: seq<J>)
    requires i < j < |ks| && ks[j].Tagged?
  {
    && acc != []
    && acc[0] == Obj(map["id" := Str(ks[j].id), "x" := Int(if n <= j then i else j)])
    && forall m | 1 <= m < |acc| && acc[m].Obj? ::
         "x" in acc[m].fields && acc[m].fields["x"].Int? && acc[m].fields["x"] != Int(i)
  }

  /** The rewriting of the entry by the item that carries its id. */
  lemma HijackHappens(ks: seq<Kind>, i: nat, j: nat, acc: seq<J>)
    requires i < j < |ks| && ks[j].Tagged? && Hijacked(ks, i, j, j, acc)
    ensures Hijacked(ks, i, j, j + 1, ReconcileItem(Bodies(ks)[j], acc))
  {
    var t := Bodies(ks)[j];
    assert CarriesId(acc[0], ks[j].id) && FirstWithId(acc, ks[j].id) == 0;
    var e := Reconcile(t, acc[0]);
    assert e.fields["x"] == ReconcileKey(t, acc[0], "x") == Int(j);
    assert e.fields["id"] == ReconcileKey(t, acc[0], "id") == Str(ks[j].id);
    assert e.fields == map["id" := Str(ks[j].id), "x" := Int(j)];
  }

  /** Another item with an id leaves the entry alone and brings no value that item `i` could use. */
  lemma HijackPasses(ks: seq<Kind>, i: nat, j: nat, n: nat, acc: seq<J>)
    requires i < j < |ks| && ks[i].Plain? && ks[j].Tagged? && n < |ks| && ks[n].Tagged? && ks[n] != ks[j]
    requires Hijacked(ks, i, j, n, acc)
    ensures Hijacked(ks, i, j, n + 1, ReconcileItem(Bodies(ks)[n], acc))
  {
    var t, m := Bodies(ks)[n], FirstWithId(acc, ks[n].id);
    assert m != 0 by { assert IdOf(acc[0]) == ks[j].id; }
    if m < |acc| {
      assert Reconcile(t, acc[m]).fields["x"] == ReconcileKey(t, acc[m], "x") == Int(n);
    }
  }

  lemma HijackStep(ks: seq<Kind>, i: nat, j: nat, n: nat, acc: seq<J>)
    requires i < j < |ks| && ks[i].Plain? && ks[j].Tagged? && n < |ks|
    requires forall a, b | 0 <= a < b < |ks| && ks[a].Tagged? && ks[b].Tagged? :: ks[a] != ks[b]
    requires Hijacked(ks, i, j, n, acc)
    ensures Hijacked(ks, i, j, n + 1, ReconcileItem(Bodies(ks)[n], acc))
  {
    if n == i {
      assert Conforms(Bodies(ks)[n], acc[0]);
      assert Satisfied(Bodies(ks)[n], acc);
    } else if n == j {
      HijackHappens(ks, i, j, acc);
    } else if ks[n].Tagged? {
      HijackPasses(ks, i, j, n, acc);
    }
  }

  lemma {:induction false} HijackRuns(ks: seq<Kind>, i: nat, j: nat, n: nat, acc: seq<J>)
    requires i < j < |ks| && ks[i].Plain? && ks[j].Tagged? && n <= |ks|
    requires forall a, b | 0 <= a < b < |ks| && ks[a].Tagged? && ks[b].Tagged? :: ks[a] != ks[b]
    requires Hijacked(ks, i, j, n, acc)
    ensures Hijacked(ks, i, j, |ks|, ReconcileItems(Bodies(ks)[n..], acc))
    decreases |ks| - n
  {
    var ts := Bodies(ks);
    if n < |ks| {
      assert ts[n..][0] == ts[n] && ts[n..][1..] == ts[n + 1..];
      HijackStep(ks, i, j, n, acc);
      HijackRuns(ks, i, j, n + 1, ReconcileItem(ts[n], acc));
    }
  }

  lemma HijackedFails(ks: seq<Kind>, i: nat, j: nat)
    requires i < j < |ks| && ks[i].Plain? && ks[j].Tagged?
    requires forall a, b | 0 <= a < b < |ks| && ks[a].Tagged? && ks[b].Tagged? :: ks[a] != ks[b]
    ensures var live := Arr([Obj(map["id" := Str(ks[j].id), "x" := Int(i)])]);
            !Conforms(Arr(Bodies(ks)), Reconcile(Arr(Bodies(ks)), live))
    ensures !AlwaysConforms(ks)
  {
    var ts := Bodies(ks);
    var acc := [Obj(map["id" := Str(ks[j].id), "x" := Int(i)])];
    HijackRuns(ks, i, j, 0, acc);
    assert ts[0..] == ts;
    var r := ReconcileItems(ts, acc);
    forall e | e in r && e.Obj? ensures !Conforms(ts[i], e) {
      assert e.fields["x"].Int? && e.fields["x"] != Int(i);
      assert !Conforms(ts[i].fields["x"], e.fields["x"]);
    }
    assert !Satisfied(ts[i], r);
  }

  lemma OrderedOutlineConforms(ks: seq<Kind>)
    requires OrderedKinds(ks)
    ensures AlwaysConforms(ks)
  {
    forall ts, live | Outline(ts) == ks && (forall i | 0 <= i < |ts| :: WellFormed(ts[i]))
      ensures Conforms(Arr(ts), Reconcile(Arr(ts), live))
    {
      assert forall i | 0 <= i < |ts| :: KindOf(ts[i]) == ks[i];
      ReconcileConforms(Arr(ts), live);
    }
  }

  /** An ordered outline is enough, and no weaker condition on the outline is. */
  lemma OutlineIsExact(ks: seq<Kind>)
    ensures OrderedKinds(ks) <==> AlwaysConforms(ks)
  {
    if OrderedKinds(ks) {
      OrderedOutlineConforms(ks);
    } else if i, j :| 0 <= i < j < |ks| && ks[i].Tagged? && ks[i] == ks[j] {
      RepeatedIdFails(ks, i, j);
    } else {
      var i, j :| 0 <= i < j < |ks| && ks[j].Tagged? && !ks[i].Scalar? && !(ks[i].Tagged? && ks[i].id != ks[j].id);
      HijackedFails(ks, i, j);
    }
  }

  /** The smallest instance: `[{x: 0}, {id: "a", x: 1}]` against `[{id: "a", x: 0}]`. */
  lemma MixedListFails()
    ensures var t := Arr([Obj(map["x" := Int(0)]), Obj(map["id" := Str("a"), "x" := Int(1)])]);
            var live := Arr([Obj(map["id" := Str("a"), "x" := Int(0)])]);
            !Conforms(t, Reconcile(t, live))
  {
    var ks := [Plain, Tagged("a")];
    HijackedFails(ks, 0, 1);
    var ts := Bodies(ks);
    assert |ts| == 2 && ts[0] == Body(Plain, 0) && ts[1] == Body(Tagged("a"), 1);
    assert ts == [Body(Plain, 0), Body(Tagged("a"), 1)];
  }
}
