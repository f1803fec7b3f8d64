/**
 * Conformance seen along a path (autodev/installer/openclaw_template.py:142-296). Patching the
 * template and the live tree alike keeps them conforming, and so does patching the live tree where
 * the template says nothing. Two conditions make a path fit for that: the tree is smooth along it
 * (objects where the path has keys, lists where it has ids), and the template's lists on the way
 * identify their entries. Rendering, reconciliation and other patches keep both conditions.
 *
 * These are the steps from one override to the theorem about a whole boot.
 */
module ConformancePaths {
  import opened Json
  import opened OpenclawTemplate
  import opened TemplateLaws
  import opened TemplateRendering
  import opened JsonPaths

  /** Every object of the list carries an id of its own. */
  predicate AllIdentified(ts: seq<J>) {
    && (forall i | 0 <= i < |ts| && ts[i].Obj? :: HasId(ts[i]))
    && (forall i, j | 0 <= i < j < |ts| && HasId(ts[i]) && HasId(ts[j]) :: IdOf(ts[i]) != IdOf(ts[j]))
  }

  /** The lists the path goes through hold identified objects only. */
  predicate IdentifiedAlong(t: J, path: seq<Step>)
    decreases |path|
  {
    path != [] ==>
      && (path[0].Elem? && t.Arr? ==> AllIdentified(t.items))
      && (Present(t, path[0]) ==> IdentifiedAlong(Child(t, path[0]), path[1..]))
  }

  /** Each node met on the path is of the kind the next step needs, and the last one can take a patch. */
  predicate Smooth(j: J, path: seq<Step>, coerce: bool)
    decreases |path|
  {
    if path == [] then j.Obj? || (coerce && !Truthy(j))
    else
      && (if path[0].Elem? then j.Arr? else j.Obj?)
      && (Present(j, path[0]) ==> Smooth(Child(j, path[0]), path[1..], coerce))
  }

  /** What `Make` creates is an object, so it is never searched for an id. */
  predicate MakesObjects(path: seq<Step>) {
    path != [] ==> (path[0].Make? && |path| > 1 ==> !path[1].Elem?) && MakesObjects(path[1..])
  }

  /** The template asks for nothing on this path. */
  predicate Lacks(t: J, path: seq<Step>)
    decreases |path|
  {
    && path != []
    && if Present(t, path[0]) then Lacks(Child(t, path[0]), path[1..])
       else path[0].Elem? && t.Arr? ==> AllIdentified(t.items)
  }

  lemma SatisfiedApart(t: J, live: seq<J>, j: nat, e: J)
    requires j < |live| && HasId(live[j]) && HasId(e) && IdOf(e) == IdOf(live[j])
    requires Satisfied(t, live) && (t.Obj? ==> HasId(t) && IdOf(t) != IdOf(e))
    ensures Satisfied(t, live[j := e])
  {
    if HasId(t) {
      var m := FirstWithId(live, IdOf(t));
      FirstWithIdIs(live[j := e], IdOf(t), m);
    } else {
      var w :| w in live && LooseEq(t, w);
      var m :| 0 <= m < |live| && live[m] == w;
      assert live[j := e][m] == w;
    }
  }

  lemma NothingConforms(ts: seq<J>)
    requires ts != []
    ensures !Conforms(Arr(ts), Arr([]))
  {
    assert !Satisfied(ts[0], []);
  }

  /** Patch `b` sets the keys of `a`, to values that meet those of `a`. */
  predicate MetBy(a: map<string, J>, b: map<string, J>) {
    a.Keys == b.Keys && forall k | k in a :: Conforms(a[k], b[k])
  }

  lemma PatchMonotone(t: J, r: J, coerce: bool, a: map<string, J>, b: map<string, J>)
    requires Conforms(t, r) && Smooth(r, [], coerce) && MetBy(a, b)
    ensures Conforms(PatchNode(t, coerce, a), PatchNode(r, coerce, b))
  {
    if t.Arr? && t.items != [] { NothingConforms(t.items); }
  }

  /** A patch of the template, and one on the live side that meets it, keep a conforming pair conforming. */
  lemma {:induction false} PutMonotone(t: J, r: J, path: seq<Step>, coerce: bool, a: map<string, J>, b: map<string, J>)
    requires Conforms(t, r) && MetBy(a, b) && KeepsIds(path, a) && KeepsIds(path, b)
    requires IdentifiedAlong(t, path) && Smooth(r, path, coerce) && MakesObjects(path)
    ensures Conforms(Put(t, path, coerce, a), Put(r, path, coerce, b))
    decreases |path|, 1
  {
    if path == [] {
      PatchMonotone(t, r, coerce, a, b);
    } else if path[0].Elem? {
      if t.Arr? { PutMonotoneElem(t, r, path, coerce, a, b); }
    } else if t.Obj? {
      PutMonotoneField(t, r, path, coerce, a, b);
    }
  }

  lemma FieldReplaced(t: J, r: J, k: string, v: J, w: J)
    requires t.Obj? && r.Obj? && Conforms(t, r) && Conforms(v, w)
    ensures Conforms(Obj(t.fields[k := v]), Obj(r.fields[k := w]))
  {
  }

  lemma {:induction false} PutMonotoneField(t: J, r: J, path: seq<Step>, coerce: bool, a: map<string, J>,
                                            b: map<string, J>)
    requires path != [] && !path[0].Elem? && t.Obj?
    requires Conforms(t, r) && MetBy(a, b) && KeepsIds(path, a) && KeepsIds(path, b)
    requires IdentifiedAlong(t, path) && Smooth(r, path, coerce) && MakesObjects(path)
    ensures Conforms(Put(t, path, coerce, a), Put(r, path, coerce, b))
    decreases |path|, 0
  {
    var s := path[0];
    if Leads(t, s) {
      if s.k in t.fields {
        PutMonotone(t.fields[s.k], r.fields[s.k], path[1..], coerce, a, b);
      } else {
        PutMonotoneCreated(Child(r, s), path[1..], coerce, a, b);
      }
      FieldReplaced(t, r, s.k, Put(Child(t, s), path[1..], coerce, a), Put(Child(r, s), path[1..], coerce, b));
    }
  }

  /** Where the template has nothing, the patches create the same nodes on both sides. */
  lemma {:induction false} PutMonotoneCreated(below: J, rest: seq<Step>, coerce: bool, a: map<string, J>,
                                              b: map<string, J>)
    requires KeepsIds(rest, a) && KeepsIds(rest, b) && MakesObjects(rest) && (rest != [] ==> !rest[0].Elem?)
    requires Smooth(below, rest, coerce) && IdentifiedAlong(Obj(map[]), rest) && MetBy(a, b)
    ensures Conforms(Put(Obj(map[]), rest, coerce, a), Put(below, rest, coerce, b))
    decreases |rest|, 2
  {
    if below.Obj? {
      PutMonotone(Obj(map[]), below, rest, coerce, a, b);
    } else {
      assert Put(Obj(map[]), [], coerce, a).fields == a;
    }
  }

  /** One entry of a list changed on both sides, or on the live side only, with its id kept. */
  lemma ListPatched(ts: seq<J>, rs: seq<J>, i: nat, j: nat, id: string, t': J, r': J)
    requires AllIdentified(ts) && Conforms(Arr(ts), Arr(rs))
    requires i < |ts| && CarriesId(ts[i], id) && CarriesId(t', id)
    requires j < |rs| && j == FirstWithId(rs, id) && CarriesId(r', id) && Conforms(t', r')
    ensures Conforms(Arr(ts[i := t']), Arr(rs[j := r']))
  {
    var ts', rs' := ts[i := t'], rs[j := r'];
    forall n | 0 <= n < |ts'| ensures Satisfied(ts'[n], rs') {
      assert Satisfied(ts[n], rs);
      if n == i {
        FirstWithIdIs(rs', id, j);
      } else {
        SatisfiedApart(ts[n], rs, j, r');
      }
    }
  }

  lemma {:induction false} PutMonotoneElem(t: J, r: J, path: seq<Step>, coerce: bool, a: map<string, J>,
                                           b: map<string, J>)
    requires path != [] && path[0].Elem? && t.Arr?
    requires Conforms(t, r) && MetBy(a, b) && KeepsIds(path, a) && KeepsIds(path, b)
    requires IdentifiedAlong(t, path) && Smooth(r, path, coerce) && MakesObjects(path)
    ensures Conforms(Put(t, path, coerce, a), Put(r, path, coerce, b))
    decreases |path|, 0
  {
    var s := path[0];
    if Leads(t, s) {
      var i := FirstWithId(t.items, s.id);
      assert Satisfied(t.items[i], r.items);
      PutFits(t, path, coerce, a);
      PutFits(r, path, coerce, b);
      var t1, r1 := Put(Child(t, s), path[1..], coerce, a), Put(Child(r, s), path[1..], coerce, b);
      PutMonotone(Child(t, s), Child(r, s), path[1..], coerce, a, b);
      assert CarriesId(t1, s.id) && CarriesId(r1, s.id);
      ListPatched(t.items, r.items, i, FirstWithId(r.items, s.id), s.id, t1, r1);
    } else if Leads(r, s) {
      PutFits(r, path, coerce, b);
      ElsewhereSatisfied(t, r, path, coerce, b);
    }
  }

  /** Whether a list template is met does not depend on an entry that it does not name. */
  lemma ElsewhereSatisfied(t: J, r: J, path: seq<Step>, coerce: bool, patch: map<string, J>)
    requires path != [] && path[0].Elem? && t.Arr? && AllIdentified(t.items) && !Leads(t, path[0])
    requires KeepsIds(path, patch)
    ensures Conforms(t, Put(r, path, coerce, patch)) <==> Conforms(t, r)
  {
    var s := path[0];
    if Leads(r, s) {
      var r' := Put(r, path, coerce, patch);
      var j := FirstWithId(r.items, s.id);
      PutFits(r, path, coerce, patch);
      assert CarriesId(r.items[j], s.id) && CarriesId(r'.items[j], s.id);
      assert r'.items[j := r.items[j]] == r.items;
      forall n | 0 <= n < |t.items| ensures Satisfied(t.items[n], r'.items) <==> Satisfied(t.items[n], r.items) {
        assert !CarriesId(t.items[n], s.id);
        if Satisfied(t.items[n], r.items) { SatisfiedApart(t.items[n], r.items, j, r'.items[j]); }
        if Satisfied(t.items[n], r'.items) { SatisfiedApart(t.items[n], r'.items, j, r.items[j]); }
      }
    }
  }

  /** A patch where the template asks for nothing keeps the live tree conforming. */
  lemma {:induction false} PutExtra(t: J, r: J, path: seq<Step>, coerce: bool, patch: map<string, J>)
    requires Conforms(t, r) && KeepsIds(path, patch) && Lacks(t, path)
    requires IdentifiedAlong(t, path)
    ensures Conforms(t, Put(r, path, coerce, patch))
    decreases |path|, 1
  {
    var s := path[0];
    if s.Elem? {
      if t.Arr? {
        if Present(t, s) {
          PutExtraElem(t, r, path, coerce, patch);
        } else {
          ElsewhereSatisfied(t, r, path, coerce, patch);
        }
      }
    } else if t.Obj? {
      if s.k in t.fields { PutExtra(t.fields[s.k], r.fields[s.k], path[1..], coerce, patch); }
    }
  }

  lemma {:induction false} PutExtraElem(t: J, r: J, path: seq<Step>, coerce: bool, patch: map<string, J>)
    requires Conforms(t, r) && KeepsIds(path, patch) && Lacks(t, path) && IdentifiedAlong(t, path)
    requires path[0].Elem? && Present(t, path[0])
    ensures Conforms(t, Put(r, path, coerce, patch))
    decreases |path|, 0
  {
    var s := path[0];
    var i := FirstWithId(t.items, s.id);
    assert Satisfied(t.items[i], r.items);
    PutFits(r, path, coerce, patch);
    var r1 := Put(Child(r, s), path[1..], coerce, patch);
    PutExtra(Child(t, s), Child(r, s), path[1..], coerce, patch);
    assert CarriesId(r1, s.id);
    ListPatched(t.items, r.items, i, FirstWithId(r.items, s.id), s.id, t.items[i], r1);
    assert t.items[i := t.items[i]] == t.items;
  }

  // ---------------------------------------------------------------------------------------
  // What patches keep
  // ---------------------------------------------------------------------------------------

  /**
   * A patch at `q` overwrites no node that `p` goes through: it parts from `p`, stays at or below its
   * end, or sets other keys.
   */
  predicate Spares(q: seq<Step>, patch: map<string, J>, p: seq<Step>)
    decreases |p|
  {
    p != [] ==>
      if q == [] then !p[0].Elem? && p[0].k !in patch
      else if p[0] == q[0] then Spares(q[1..], patch, p[1..])
      else Differ(p[0], q[0])
  }

  lemma {:induction false} SparesPast(q: seq<Step>, patch: map<string, J>, p: seq<Step>, n: nat)
    requires n <= |p| && n <= |q| && forall i | 0 <= i < n :: p[i] == q[i]
    requires n == |p| || (n == |q| && !p[n].Elem? && p[n].k !in patch) || (n < |q| && n < |p| && Differ(p[n], q[n]))
    ensures Spares(q, patch, p)
  {
    if n > 0 { SparesPast(q[1..], patch, p[1..], n - 1); }
  }

  lemma {:induction false} SmoothAfterPut(j: J, p: seq<Step>, c: bool, q: seq<Step>, d: bool, patch: map<string, J>)
    requires Smooth(j, p, c) && Smooth(j, q, d) && KeepsIds(q, patch) && Spares(q, patch, p) && MakesObjects(q)
    ensures Smooth(Put(j, q, d, patch), p, c)
    decreases |p|
  {
    if q == [] || p == [] {
    } else if p[0] == q[0] {
      if Leads(j, q[0]) {
        PutFits(j, q, d, patch);
        ReplaceChild(j, q[0], Put(Child(j, q[0]), q[1..], d, patch));
        if Present(j, q[0]) {
          SmoothAfterPut(Child(j, q[0]), p[1..], c, q[1..], d, patch);
        } else {
          SmoothCreated(p[1..], c, q[1..], d, patch);
        }
      }
    } else if Leads(j, q[0]) {
      PutFits(j, q, d, patch);
      ReplaceApart(j, q[0], Put(Child(j, q[0]), q[1..], d, patch), p[0]);
    }
  }

  /** Below a node that `Make` just created there is only what the patch itself created. */
  lemma {:induction false} SmoothCreated(p: seq<Step>, c: bool, q: seq<Step>, d: bool, patch: map<string, J>)
    requires Spares(q, patch, p) && (q != [] ==> !q[0].Elem?) && MakesObjects(q)
    ensures Smooth(Put(Obj(map[]), q, d, patch), p, c)
    decreases |p|
  {
    var empty := Obj(map[]);
    if p != [] && q != [] && q[0].Make? {
      var below := Put(empty, q[1..], d, patch);
      assert Put(empty, q, d, patch).fields == map[q[0].k := below];
      if p[0] == q[0] { SmoothCreated(p[1..], c, q[1..], d, patch); }
    }
  }

  lemma {:induction false} IdentifiedAfterPut(t: J, p: seq<Step>, q: seq<Step>, d: bool, patch: map<string, J>)
    requires IdentifiedAlong(t, p) && KeepsIds(q, patch) && Spares(q, patch, p) && MakesObjects(q)
    ensures IdentifiedAlong(Put(t, q, d, patch), p)
    decreases |p|
  {
    if p == [] {
    } else if q == [] {
    } else if Leads(t, q[0]) {
      PutFits(t, q, d, patch);
      var v := Put(Child(t, q[0]), q[1..], d, patch);
      if p[0].Elem? {
        var i := FirstWithId(t.items, q[0].id);
        assert CarriesId(t.items[i], q[0].id) && CarriesId(v, q[0].id);
        assert AllIdentified(t.items[i := v]);
      }
      if p[0] == q[0] {
        ReplaceChild(t, q[0], v);
        if Present(t, q[0]) {
          IdentifiedAfterPut(Child(t, q[0]), p[1..], q[1..], d, patch);
        } else {
          IdentifiedAfterPut(Obj(map[]), p[1..], q[1..], d, patch);
        }
      } else {
        ReplaceApart(t, q[0], v, p[0]);
      }
    }
  }

  /** What the template has on a path of existing nodes, a conforming tree has too. */
  lemma {:induction false} ConformingHas(t: J, r: J, p: seq<Step>)
    requires Conforms(t, r) && Get(t, p).Some?
    ensures Get(r, p).Some? && Conforms(Get(t, p).value, Get(r, p).value)
    decreases |p|
  {
    if p != [] {
      if p[0].Elem? {
        assert Satisfied(Child(t, p[0]), r.items);
      }
      ConformingHas(Child(t, p[0]), Child(r, p[0]), p[1..]);
    }
  }

  lemma {:induction false} LacksMissing(t: J, p: seq<Step>, s: seq<Step>)
    requires Get(t, p).None? && IdentifiedAlong(t, p)
    ensures Lacks(t, p + s) && IdentifiedAlong(t, p + s)
    decreases |p|
  {
    assert p != [] && (p + s)[0] == p[0] && (p + s)[1..] == p[1..] + s;
    if Present(t, p[0]) { LacksMissing(Child(t, p[0]), p[1..], s); }
  }

  // ---------------------------------------------------------------------------------------
  // What rendering and reconciliation do to a path
  // ---------------------------------------------------------------------------------------

  lemma {:induction false} RenderSmooth(t: J, env: map<string, string>, path: seq<Step>, coerce: bool)
    requires PlaceholdersAreValues(t) && Render(t, env).Some? && Smooth(t, path, coerce)
    ensures Smooth(Render(t, env).value, path, coerce)
    decreases |path|
  {
    var r := Render(t, env).value;
    if path != [] {
      if path[0].Elem? {
        forall i | 0 <= i < |t.items| ensures CarriesId(r.items[i], path[0].id) <==> CarriesId(t.items[i], path[0].id) {
          assert ItemPlaceholders(t.items[i]);
          RenderKeepsId(t.items[i], env);
        }
      }
      if Present(r, path[0]) {
        if path[0].Elem? { FirstWithIdIs(t.items, path[0].id, FirstWithId(r.items, path[0].id)); }
        assert path[0].Elem? ==> ItemPlaceholders(Child(t, path[0]));
        RenderSmooth(Child(t, path[0]), env, path[1..], coerce);
      }
    }
  }

  /** Where the template says nothing, the live tree has the shapes the path needs. */
  predicate SmoothBeyond(t: J, live: J, path: seq<Step>, coerce: bool)
    decreases |path|
  {
    if path == [] then t.Obj? || live.Obj? || !Truthy(live)
    else Present(live, path[0]) ==>
      if Present(t, path[0]) then SmoothBeyond(Child(t, path[0]), Child(live, path[0]), path[1..], coerce)
      else Smooth(Child(live, path[0]), path[1..], coerce)
  }

  /** The entry reconciliation leaves under an id of a list whose template entries are identified. */
  lemma {:induction false} EntryReconciled(ts: seq<J>, acc: seq<J>, id: string)
    requires AllIdentified(ts)
    ensures var r := ReconcileItems(ts, acc);
            var m, n := FirstWithId(acc, id), FirstWithId(ts, id);
            if m < |acc| then
              |acc| <= |r| && FirstWithId(r, id) == m && r[m] == if n < |ts| then Reconcile(ts[n], acc[m]) else acc[m]
            else if n < |ts| then FirstWithId(r, id) < |r| && r[FirstWithId(r, id)] == ts[n]
            else FirstWithId(r, id) == |r|
    decreases |ts|
  {
    if ts != [] {
      var t := ts[0];
      var acc' := ReconcileItem(t, acc);
      var m := FirstWithId(acc, id);
      EntryStep(t, acc, id);
      assert AllIdentified(ts[1..]);
      EntryReconciled(ts[1..], acc', id);
    }
  }

  lemma EntryStep(t: J, acc: seq<J>, id: string)
    requires t.Obj? ==> HasId(t)
    ensures var acc' := ReconcileItem(t, acc);
            var m := FirstWithId(acc, id);
            |acc| <= |acc'| &&
            if m < |acc| then
              FirstWithId(acc', id) == m && acc'[m] == if CarriesId(t, id) then Reconcile(t, acc[m]) else acc[m]
            else if CarriesId(t, id) then FirstWithId(acc', id) == |acc| && acc' == acc + [t]
            else FirstWithId(acc', id) == |acc'|
  {
    var acc' := ReconcileItem(t, acc);
    var m := FirstWithId(acc, id);
    if HasId(t) {
      var i := FirstWithId(acc, IdOf(t));
      if i < |acc| {
        ReconcileKeepsId(t, acc[i]);
        assert forall k | 0 <= k < |acc| :: CarriesId(acc'[k], id) <==> CarriesId(acc[k], id);
      }
    }
    if m < |acc| || CarriesId(t, id) { FirstWithIdIs(acc', id, m); }
  }

  /** Reconciliation leaves a smooth path smooth, and smooths it wherever the template speaks. */
  lemma {:induction false} ReconcileSmooth(t: J, live: J, path: seq<Step>, coerce: bool)
    requires Smooth(t, path, coerce) && SmoothBeyond(t, live, path, coerce) && IdentifiedAlong(t, path)
    ensures Smooth(Reconcile(t, live), path, coerce)
    decreases |path|
  {
    var r := Reconcile(t, live);
    if path == [] {
      if t.Arr? && live.Arr? { assert t.items == []; }
    } else {
      var s := path[0];
      if s.Elem? {
        if live.Arr? {
          EntryReconciled(t.items, live.items, s.id);
          if Leads(live, s) && Leads(t, s) { ReconcileSmooth(Child(t, s), Child(live, s), path[1..], coerce); }
        }
      } else if live.Obj? && s.k in r.fields {
        assert r.fields[s.k] == ReconcileKey(t, live, s.k);
        if s.k in live.fields && s.k in t.fields {
          ReconcileSmooth(t.fields[s.k], live.fields[s.k], path[1..], coerce);
        }
      }
    }
  }
}
