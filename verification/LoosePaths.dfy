/**
 * Trees that Python's `==` does not tell apart, seen along paths: the same places, the same ids, the
 * same kinds of nodes, and the same patches keep them equal. The boot compares whole trees that way
 * before it writes (deploy/entrypoint.sh:286-291, 336-339).
 */
module LoosePaths {
  import opened Json
  import opened OpenclawTemplate
  import opened JsonPaths
  import opened ConformancePaths

  lemma {:induction false} LooseEqSymmetric(a: J, b: J)
    requires LooseEq(a, b)
    ensures LooseEq(b, a)
    decreases a
  {
    match a
    case Arr(xs) =>
      forall i | 0 <= i < |xs| ensures LooseEq(b.items[i], xs[i]) { LooseEqSymmetric(xs[i], b.items[i]); }
    case Obj(m) =>
      forall k | k in m ensures LooseEq(b.fields[k], m[k]) { LooseEqSymmetric(m[k], b.fields[k]); }
    case _ =>
  }

  lemma LooseIds(a: J, b: J, id: string)
    requires LooseEq(a, b)
    ensures CarriesId(a, id) <==> CarriesId(b, id)
  {
    if a.Obj? && "id" in a.fields { assert LooseEq(a.fields["id"], b.fields["id"]); }
  }

  lemma {:induction false} LooseFirst(xs: seq<J>, ys: seq<J>, id: string)
    requires LooseEq(Arr(xs), Arr(ys))
    ensures FirstWithId(xs, id) == FirstWithId(ys, id)
    decreases |xs|
  {
    if xs != [] {
      LooseIds(xs[0], ys[0], id);
      assert LooseEq(Arr(xs[1..]), Arr(ys[1..])) by {
        assert forall i | 0 <= i < |xs[1..]| :: xs[1..][i] == xs[i + 1] && ys[1..][i] == ys[i + 1];
      }
      LooseFirst(xs[1..], ys[1..], id);
    }
  }

  /** A step leads on in both trees or in neither, to nodes that are equal again. */
  lemma LooseStep(a: J, b: J, s: Step)
    requires LooseEq(a, b)
    ensures (Leads(a, s) <==> Leads(b, s)) && (Present(a, s) <==> Present(b, s))
    ensures Leads(a, s) ==> LooseEq(Child(a, s), Child(b, s))
  {
    if s.Elem? && a.Arr? { LooseFirst(a.items, b.items, s.id); }
  }

  lemma {:induction false} LooseGet(a: J, b: J, p: seq<Step>)
    requires LooseEq(a, b)
    ensures Get(a, p).Some? <==> Get(b, p).Some?
    ensures Get(a, p).Some? ==> LooseEq(Get(a, p).value, Get(b, p).value)
    decreases |p|
  {
    if p != [] {
      LooseStep(a, b, p[0]);
      if Present(a, p[0]) { LooseGet(Child(a, p[0]), Child(b, p[0]), p[1..]); }
    }
  }

  lemma {:induction false} LooseSmooth(a: J, b: J, p: seq<Step>, coerce: bool)
    requires LooseEq(a, b)
    ensures Smooth(a, p, coerce) <==> Smooth(b, p, coerce)
    decreases |p|
  {
    if p != [] {
      LooseStep(a, b, p[0]);
      if Present(a, p[0]) { LooseSmooth(Child(a, p[0]), Child(b, p[0]), p[1..], coerce); }
    }
  }

  lemma LooseUpdate(xs: seq<J>, ys: seq<J>, i: nat, v: J, w: J)
    requires LooseEq(Arr(xs), Arr(ys)) && i < |xs| && LooseEq(v, w)
    ensures LooseEq(Arr(xs[i := v]), Arr(ys[i := w]))
  {
    var xs', ys' := xs[i := v], ys[i := w];
    forall n | 0 <= n < |xs'| ensures LooseEq(xs'[n], ys'[n]) {
      assert LooseEq(xs[n], ys[n]);
    }
  }

  lemma LooseReplace(a: J, b: J, s: Step, v: J, w: J)
    requires LooseEq(a, b) && LooseEq(v, w) && Leads(a, s)
    ensures Leads(b, s) && LooseEq(Replace(a, s, v), Replace(b, s, w))
  {
    LooseStep(a, b, s);
    if s.Elem? {
      LooseFirst(a.items, b.items, s.id);
      LooseUpdate(a.items, b.items, FirstWithId(a.items, s.id), v, w);
    } else {
      LooseField(a, b, s.k, v, w);
    }
  }

  lemma LooseField(a: J, b: J, k: string, v: J, w: J)
    requires a.Obj? && b.Obj? && LooseEq(a, b) && LooseEq(v, w)
    ensures LooseEq(Obj(a.fields[k := v]), Obj(b.fields[k := w]))
  {
  }

  lemma LoosePatch(a: J, b: J, coerce: bool, f: map<string, J>, g: map<string, J>)
    requires LooseEq(a, b) && LooseEq(Obj(f), Obj(g))
    ensures LooseEq(PatchNode(a, coerce, f), PatchNode(b, coerce, g))
  {
    if a.Obj? {
      forall k | k in a.fields + f ensures LooseEq((a.fields + f)[k], (b.fields + g)[k]) {
      }
    }
  }

  /** Equal patches of equal trees leave equal trees. */
  lemma {:induction false} LoosePut(a: J, b: J, p: seq<Step>, coerce: bool, f: map<string, J>, g: map<string, J>)
    requires LooseEq(a, b) && LooseEq(Obj(f), Obj(g))
    ensures LooseEq(Put(a, p, coerce, f), Put(b, p, coerce, g))
    decreases |p|
  {
    if p == [] {
      LoosePatch(a, b, coerce, f, g);
    } else {
      LooseStep(a, b, p[0]);
      if Leads(a, p[0]) {
        LoosePut(Child(a, p[0]), Child(b, p[0]), p[1..], coerce, f, g);
        LooseReplace(a, b, p[0], Put(Child(a, p[0]), p[1..], coerce, f), Put(Child(b, p[0]), p[1..], coerce, g));
      }
    }
  }

  // ---------------------------------------------------------------------------------------
  // Patches the template does not see
  // ---------------------------------------------------------------------------------------

  /**
   * A patch where the template asks for nothing does not make a tree conform that did not, provided
   * the tree equals a conforming one: it has every node that the template has.
   */
  lemma {:induction false} PutExtraBack(t: J, w: J, r: J, path: seq<Step>, coerce: bool, patch: map<string, J>)
    requires Conforms(t, w) && LooseEq(w, r) && Conforms(t, Put(r, path, coerce, patch))
    requires KeepsIds(path, patch) && Lacks(t, path) && IdentifiedAlong(t, path)
    ensures Conforms(t, r)
    decreases |path|, 1
  {
    var s := path[0];
    if s.Elem? {
      if t.Arr? {
        if Present(t, s) {
          if Leads(r, s) { PutExtraBackElem(t, w, r, path, coerce, patch); }
        } else {
          ElsewhereSatisfied(t, r, path, coerce, patch);
        }
      }
    } else if t.Obj? && Leads(r, s) && s.k in t.fields {
      PutExtraBack(t.fields[s.k], w.fields[s.k], r.fields[s.k], path[1..], coerce, patch);
      var r' := Put(r, path, coerce, patch);
      assert forall k | k in t.fields && k != s.k :: r'.fields[k] == r.fields[k];
    }
  }

  lemma ListRestored(ts: seq<J>, rs: seq<J>, i: nat, j: nat, id: string, e: J)
    requires AllIdentified(ts) && j < |rs| && j == FirstWithId(rs, id) && CarriesId(e, id)
    requires i < |ts| && CarriesId(ts[i], id) && Conforms(ts[i], rs[j]) && Conforms(Arr(ts), Arr(rs[j := e]))
    ensures Conforms(Arr(ts), Arr(rs))
  {
    SameFirst(rs, j, e, id);
    assert ts[i := ts[i]] == ts && rs[j := e][j := rs[j]] == rs;
    ListPatched(ts, rs[j := e], i, j, id, ts[i], rs[j]);
  }

  lemma {:induction false} PutExtraBackElem(t: J, w: J, r: J, path: seq<Step>, coerce: bool, patch: map<string, J>)
    requires Conforms(t, w) && LooseEq(w, r) && Conforms(t, Put(r, path, coerce, patch))
    requires KeepsIds(path, patch) && Lacks(t, path) && IdentifiedAlong(t, path)
    requires path[0].Elem? && Present(t, path[0]) && Leads(r, path[0])
    ensures Conforms(t, r)
    decreases |path|, 0
  {
    var s := path[0];
    var i, j := FirstWithId(t.items, s.id), FirstWithId(r.items, s.id);
    var r1 := Put(Child(r, s), path[1..], coerce, patch);
    var rs' := r.items[j := r1];
    PutFits(r, path, coerce, patch);
    SameFirst(r.items, j, r1, s.id);
    LooseStep(w, r, s);
    assert Satisfied(t.items[i], w.items) && Satisfied(t.items[i], rs');
    PutExtraBack(t.items[i], Child(w, s), Child(r, s), path[1..], coerce, patch);
    ListRestored(t.items, r.items, i, j, s.id, r1);
  }
}
