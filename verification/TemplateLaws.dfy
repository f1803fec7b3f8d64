/** What reconciliation guarantees, and for which template lists. */
module TemplateLaws {
  import opened Json
  import opened Text
  import opened OpenclawTemplate

  /**
   * Before an item that carries an id, a list holds only plain items and objects carrying other
   * ids: editing the entry matched by that id cannot disturb what earlier items rely on.
   */
  predicate OrderedIds(ts: seq<J>) {
    forall i, j | 0 <= i < j < |ts| && HasId(ts[j]) && ts[i].Obj? ::
      HasId(ts[i]) && IdOf(ts[i]) != IdOf(ts[j])
  }

  /** Every list of the template, at any depth, has its ids in order. */
  predicate WellFormed(t: J) {
    match t
    case Obj(tf) => forall k | k in tf :: WellFormed(tf[k])
    case Arr(ts) => OrderedIds(ts) && forall i | 0 <= i < |ts| :: WellFormed(ts[i])
    case _ => true
  }

  /** Item `t` is satisfied by `acc` and enforcing it again would change nothing. */
  predicate Held(t: J, acc: seq<J>) {
    && Satisfied(t, acc)
    && (HasId(t) ==> var i := FirstWithId(acc, IdOf(t)); Reconcile(t, acc[i]) == acc[i])
  }

  lemma {:induction false} PlaceholderNotBlank(s: string)
    requires HasPlaceholder(s)
    ensures !Blank(s)
  {
    if PlaceholderAtHead(s) {
      assert !IsSpace(s[0]);
    } else {
      PlaceholderNotBlank(s[1..]);
      assert forall i | 0 <= i < |s[1..]| :: s[1..][i] == s[i + 1];
    }
  }

  lemma {:induction false} FirstWithIdIs(es: seq<J>, id: string, i: nat)
    requires i < |es| && CarriesId(es[i], id)
    requires forall k | 0 <= k < i :: !CarriesId(es[k], id)
    ensures FirstWithId(es, id) == i
  {
  }

  lemma HeldFixed(ts: seq<J>, acc: seq<J>)
    requires forall i | 0 <= i < |ts| :: Held(ts[i], acc)
    ensures ReconcileItems(ts, acc) == acc
  {
    if ts != [] {
      assert Held(ts[0], acc);
      assert ReconcileItem(ts[0], acc) == acc;
      HeldFixed(ts[1..], acc);
    }
  }

  /** A well-formed template conforms to itself and reconciling it with itself is the identity. */
  lemma {:induction false} SelfStable(t: J)
    requires WellFormed(t)
    ensures Conforms(t, t) && Reconcile(t, t) == t
    decreases t
  {
    match t
    case Str(s) => if HasPlaceholder(s) { PlaceholderNotBlank(s); }
    case Obj(tf) =>
      forall k | k in tf ensures Conforms(tf[k], tf[k]) && Reconcile(tf[k], tf[k]) == tf[k] {
        SelfStable(tf[k]);
      }
      assert Reconcile(t, t).fields == tf;
    case Arr(ts) =>
      forall i | 0 <= i < |ts| ensures Held(ts[i], ts) {
        SelfStable(ts[i]);
        LooseEqReflexive(ts[i]);
        if HasId(ts[i]) { FirstWithIdIs(ts, IdOf(ts[i]), i); }
      }
      HeldFixed(ts, ts);
    case _ =>
  }

  /** Items already held stay held when an id'd item edits, or any item extends, the list. */
  lemma HeldAfterEdit(s: J, acc: seq<J>, i: nat, e: J)
    requires Held(s, acc)
    requires i < |acc| && HasId(acc[i]) && HasId(e) && IdOf(e) == IdOf(acc[i])
    requires s.Obj? ==> HasId(s) && IdOf(s) != IdOf(e)
    ensures Held(s, acc[i := e])
  {
    var acc' := acc[i := e];
    if HasId(s) {
      var j := FirstWithId(acc, IdOf(s));
      assert acc'[j] == acc[j];
      FirstWithIdIs(acc', IdOf(s), j);
    } else {
      var w :| w in acc && LooseEq(s, w);
      var j :| 0 <= j < |acc| && acc[j] == w;
      assert acc'[j] == w;
    }
  }

  lemma HeldAfterAppend(s: J, acc: seq<J>, e: J)
    requires Held(s, acc)
    ensures Held(s, acc + [e])
  {
    if HasId(s) {
      var j := FirstWithId(acc, IdOf(s));
      FirstWithIdIs(acc + [e], IdOf(s), j);
    } else if s.Obj? {
      var w :| w in acc && w.Obj? && Conforms(s, w);
      assert w in acc + [e];
    } else {
      var w :| w in acc && LooseEq(s, w);
      assert w in acc + [e];
    }
  }

  /** Reconciling keeps the id of the entry it edits. */
  lemma ReconcileKeepsId(t: J, e: J)
    requires HasId(t) && CarriesId(e, IdOf(t))
    ensures CarriesId(Reconcile(t, e), IdOf(t))
  {
    assert Reconcile(t.fields["id"], e.fields["id"]) == t.fields["id"];
  }

  /**
   * The claim of `reconcile_config_to_template`: its result conforms, for every live tree and every
   * well-formed template; and reconciling once more changes nothing at all.
   */
  lemma {:induction false} ReconcileConforms(t: J, live: J)
    requires WellFormed(t)
    ensures Conforms(t, Reconcile(t, live))
    ensures Reconcile(t, Reconcile(t, live)) == Reconcile(t, live)
    decreases t, 0
  {
    var r := Reconcile(t, live);
    match t
    case Str(s) => SelfStable(t);
    case Obj(tf) =>
      if !live.Obj? {
        SelfStable(t);
      } else {
        forall k | k in tf
          ensures k in r.fields && Conforms(tf[k], r.fields[k]) && Reconcile(tf[k], r.fields[k]) == r.fields[k]
        {
          assert r.fields[k] == ReconcileKey(t, live, k);
          if k in live.fields { ReconcileConforms(tf[k], live.fields[k]); } else { SelfStable(tf[k]); }
        }
        forall k | k in r.fields ensures ReconcileKey(t, r, k) == r.fields[k] {
        }
        assert Reconcile(t, r).fields == r.fields;
      }
    case Arr(ts) =>
      if !live.Arr? {
        SelfStable(t);
      } else {
        assert ts[0..] == ts;
        ItemsHeld(ts, 0, live.items);
        HeldFixed(ts, r.items);
      }
    case _ =>
  }

  /** The list loop: items before `n` are held by `acc`, and in the end all of them are. */
  lemma {:induction false} ItemsHeld(ts: seq<J>, n: nat, acc: seq<J>)
    requires n <= |ts| && OrderedIds(ts) && forall i | 0 <= i < |ts| :: WellFormed(ts[i])
    requires forall i | 0 <= i < n :: Held(ts[i], acc)
    ensures forall i | 0 <= i < |ts| :: Held(ts[i], ReconcileItems(ts[n..], acc))
    decreases ts, 1, |ts| - n
  {
    if n < |ts| {
      var acc' := ReconcileItem(ts[n], acc);
      ItemHeld(ts, n, acc);
      forall i | 0 <= i < n ensures Held(ts[i], acc') {
        if HasId(ts[n]) && FirstWithId(acc, IdOf(ts[n])) < |acc| {
          var m := FirstWithId(acc, IdOf(ts[n]));
          ReconcileKeepsId(ts[n], acc[m]);
          HeldAfterEdit(ts[i], acc, m, Reconcile(ts[n], acc[m]));
        } else if acc' != acc {
          HeldAfterAppend(ts[i], acc, ts[n]);
        }
      }
      ItemsHeld(ts, n + 1, acc');
      assert ts[n..][1..] == ts[n + 1..];
    }
  }

  lemma {:induction false} ItemHeld(ts: seq<J>, n: nat, acc: seq<J>)
    requires n < |ts| && WellFormed(ts[n])
    ensures Held(ts[n], ReconcileItem(ts[n], acc))
    decreases ts, 0
  {
    var t := ts[n];
    var acc' := ReconcileItem(t, acc);
    if HasId(t) {
      var m := FirstWithId(acc, IdOf(t));
      if m < |acc| {
        ReconcileConforms(t, acc[m]);
        ReconcileKeepsId(t, acc[m]);
      } else {
        SelfStable(t);
      }
      FirstWithIdIs(acc', IdOf(t), m);
    } else if acc' != acc {
      SelfStable(t);
      LooseEqReflexive(t);
      assert t in acc';
    }
  }

  // ---------------------------------------------------------------------------------------
  // What reconciliation leaves alone
  // ---------------------------------------------------------------------------------------

  /** Position `i` of the live list is the entry some id'd template item is matched with. */
  predicate Matched(ts: seq<J>, live: seq<J>, i: nat) {
    exists n | 0 <= n < |ts| :: HasId(ts[n]) && FirstWithId(live, IdOf(ts[n])) == i
  }

  /** Undeclared keys keep their values; live entries keep their places, and all but the matched ones their values. */
  lemma ReconcileFrame(t: J, live: J)
    ensures t.Obj? && live.Obj? ==>
              var r := Reconcile(t, live);
              r.Obj? && r.fields.Keys == t.fields.Keys + live.fields.Keys
              && forall k | k in live.fields && k !in t.fields :: r.fields[k] == live.fields[k]
    ensures t.Arr? && live.Arr? ==>
              var r := Reconcile(t, live);
              r.Arr? && |live.items| <= |r.items|
              && forall i | 0 <= i < |live.items| && !Matched(t.items, live.items, i) ::
                   r.items[i] == live.items[i]
  {
    if t.Arr? && live.Arr? {
      assert t.items[0..] == t.items;
      ItemsFrame(t.items, 0, live.items, live.items);
    }
  }

  lemma {:induction false} ItemsFrame(ts: seq<J>, n: nat, live: seq<J>, acc: seq<J>)
    requires n <= |ts| && |live| <= |acc|
    requires forall i, id | 0 <= i < |live| :: CarriesId(acc[i], id) <==> CarriesId(live[i], id)
    requires forall i | 0 <= i < |live| && !Matched(ts, live, i) :: acc[i] == live[i]
    ensures var r := ReconcileItems(ts[n..], acc);
            |live| <= |r| && forall i | 0 <= i < |live| && !Matched(ts, live, i) :: r[i] == live[i]
    decreases |ts| - n
  {
    if n < |ts| {
      var t := ts[n];
      assert ts[n..][0] == t && ts[n..][1..] == ts[n + 1..];
      if HasId(t) {
        var m := FirstWithId(acc, IdOf(t));
        if m < |live| {
          assert CarriesId(live[m], IdOf(t));
          FirstWithIdIs(live, IdOf(t), m);
          assert Matched(ts, live, m);
          ReconcileKeepsId(t, acc[m]);
        }
      }
      ItemsFrame(ts, n + 1, live, ReconcileItem(t, acc));
    }
  }

  lemma SameIds(a: J, b: J, id: string)
    requires Same(a, b)
    ensures CarriesId(a, id) <==> CarriesId(b, id)
  {
    if a.Obj? && "id" in a.fields { assert Same(a.fields["id"], b.fields["id"]); }
  }

  /** Conformance does not see how a number is spelled. */
  lemma {:induction false} ConformsSame(t: J, a: J, b: J)
    requires Conforms(t, a) && Same(a, b)
    ensures Conforms(t, b)
    decreases t, 0
  {
    if !IsPlaceholder(t) {
      match t
      case Obj(tf) =>
        forall k | k in tf ensures Conforms(tf[k], b.fields[k]) {
          ConformsSame(tf[k], a.fields[k], b.fields[k]);
        }
      case Arr(ts) =>
        forall i | 0 <= i < |ts| ensures Satisfied(ts[i], b.items) {
          SatisfiedSame(ts[i], a.items, b.items);
        }
      case _ => LooseEqReflexive(t); if !t.Bool? { LooseEqSame(t, a, b); }
    }
  }

  lemma {:induction false} SatisfiedSame(t: J, a: seq<J>, b: seq<J>)
    requires Satisfied(t, a) && Same(Arr(a), Arr(b))
    ensures Satisfied(t, b)
    ensures HasId(t) ==> FirstWithId(a, IdOf(t)) == FirstWithId(b, IdOf(t))
    decreases t, 1
  {
    if HasId(t) {
      var i := FirstWithId(a, IdOf(t));
      forall k | 0 <= k <= i ensures CarriesId(a[k], IdOf(t)) <==> CarriesId(b[k], IdOf(t)) {
        SameIds(a[k], b[k], IdOf(t));
      }
      FirstWithIdIs(b, IdOf(t), i);
      ConformsSame(t, a[i], b[i]);
    } else if t.Obj? {
      var w :| w in a && w.Obj? && Conforms(t, w);
      var i :| 0 <= i < |a| && a[i] == w;
      ConformsSame(t, w, b[i]);
      assert b[i] in b;
    } else {
      var w :| w in a && LooseEq(t, w);
      var i :| 0 <= i < |a| && a[i] == w;
      LooseEqSame(t, w, b[i]);
      assert b[i] in b;
    }
  }

  /** No dictionary value of the template is a placeholder. */
  predicate Literal(t: J) {
    match t
    case Str(s) => !HasPlaceholder(s)
    case Obj(tf) => forall k | k in tf :: Literal(tf[k])
    case Arr(ts) => forall i | 0 <= i < |ts| && ts[i].Obj? :: Literal(ts[i])
    case _ => true
  }

  /** A tree that already conforms comes back as it was, ordered ids or not. */
  lemma {:induction false} ConformingIsFixed(t: J, live: J)
    requires Literal(t) && Conforms(t, live)
    ensures Same(Reconcile(t, live), live)
    decreases t, 0
  {
    match t
    case Obj(tf) =>
      forall k | k in live.fields ensures Same(Reconcile(t, live).fields[k], live.fields[k]) {
        if k in tf { ConformingIsFixed(tf[k], live.fields[k]); } else { SameReflexive(live.fields[k]); }
      }
    case Arr(ts) =>
      SameReflexive(live);
      assert Same(Arr(live.items), Arr(live.items));
      ItemsFixed(ts, live.items, live.items);
    case _ =>
  }

  lemma {:induction false} ItemsFixed(ts: seq<J>, live: seq<J>, acc: seq<J>)
    requires forall i | 0 <= i < |ts| :: Satisfied(ts[i], live) && (ts[i].Obj? ==> Literal(ts[i]))
    requires Same(Arr(acc), Arr(live))
    ensures Same(Arr(ReconcileItems(ts, acc)), Arr(live))
    decreases ts, 0
  {
    if ts != [] {
      var acc' := ReconcileItem(ts[0], acc);
      SameSymmetric(Arr(acc), Arr(live));
      SatisfiedSame(ts[0], live, acc);
      if HasId(ts[0]) {
        var m := FirstWithId(acc, IdOf(ts[0]));
        ConformingIsFixed(ts[0], acc[m]);
        SameTransitive(acc'[m], acc[m], live[m]);
        assert Same(Arr(acc'), Arr(live)) by {
          forall i | 0 <= i < |acc'| ensures Same(acc'[i], live[i]) {
            assert i != m ==> acc'[i] == acc[i];
          }
        }
      }
      ItemsFixed(ts[1..], live, acc');
    }
  }
}
