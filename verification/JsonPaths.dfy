/**
 * Patching an object deep inside a JSON tree, and when two patches do not get in each other's way.
 * A path goes through dictionary keys and through list entries found by id.
 *
 * Two patches at paths that part commute; a patch of a node commutes with one below it; two patches
 * at one place add up. What is found along a path does not change under a patch of another place,
 * and changes by just the patch at its own. All of it needs the patches to leave alone the ids that
 * the paths go through.
 */
module JsonPaths {
  import opened Json
  import opened OpenclawTemplate

  /** `Key` needs the key to be there, `Make` creates an empty object (`setdefault`), `Elem` finds an id. */
  datatype Step = Key(k: string) | Make(k: string) | Elem(id: string)

  predicate Leads(j: J, s: Step) {
    match s
    case Key(k) => j.Obj? && k in j.fields
    case Make(k) => j.Obj?
    case Elem(id) => j.Arr? && FirstWithId(j.items, id) < |j.items|
  }

  /** The node one step down. */
  function Child(j: J, s: Step): J
    requires Leads(j, s)
  {
    if s.Elem? then j.items[FirstWithId(j.items, s.id)]
    else if s.k in j.fields then j.fields[s.k]
    else Obj(map[])
  }

  /** The tree with another node one step down. */
  function Replace(j: J, s: Step, v: J): J
    requires Leads(j, s)
  {
    if s.Elem? then Arr(j.items[FirstWithId(j.items, s.id) := v]) else Obj(j.fields[s.k := v])
  }

  /** Adds `patch` to one node: an object is extended; with `coerce`, a falsy value counts as an empty object. */
  function PatchNode(j: J, coerce: bool, patch: map<string, J>): J {
    if j.Obj? then Obj(j.fields + patch)
    else if coerce && !Truthy(j) then Obj(patch)
    else j
  }

  /** The tree with `patch` added at `path`; unchanged when the path does not lead anywhere. */
  function Put(j: J, path: seq<Step>, coerce: bool, patch: map<string, J>): J
    decreases |path|
  {
    if path == [] then PatchNode(j, coerce, patch)
    else if Leads(j, path[0]) then Replace(j, path[0], Put(Child(j, path[0]), path[1..], coerce, patch))
    else j
  }

  /** Is the node one step down there already, rather than one `Make` would create? */
  predicate Present(j: J, s: Step) {
    Leads(j, s) && (s.Make? ==> s.k in j.fields)
  }

  /** The node at `path`, if there is one. */
  function Get(j: J, path: seq<Step>): Option<J>
    decreases |path|
  {
    if path == [] then Some(j)
    else if Present(j, path[0]) then Get(Child(j, path[0]), path[1..])
    else None
  }

  // ---------------------------------------------------------------------------------------
  // One step
  // ---------------------------------------------------------------------------------------

  ghost predicate SameIdsAs(a: J, b: J) {
    forall id :: CarriesId(a, id) <==> CarriesId(b, id)
  }

  /** `v` may stand where the step leads without changing which entry the step finds. */
  ghost predicate Fits(j: J, s: Step, v: J)
    requires Leads(j, s)
  {
    s.Elem? ==> SameIdsAs(v, Child(j, s))
  }

  /** The two steps lead to different places. */
  predicate Differ(a: Step, b: Step) {
    if a.Elem? then b.Elem? && a.id != b.id else !b.Elem? && a.k != b.k
  }

  /** Editing one entry without touching its id moves no first match. */
  lemma SameFirst(es: seq<J>, i: nat, e: J, id: string)
    requires i < |es| && SameIdsAs(e, es[i])
    ensures FirstWithId(es[i := e], id) == FirstWithId(es, id)
  {
    var es' := es[i := e];
    assert forall k | 0 <= k < |es| :: CarriesId(es'[k], id) <==> CarriesId(es[k], id);
  }

  lemma ReplaceChild(j: J, s: Step, v: J)
    requires Leads(j, s) && Fits(j, s, v)
    ensures var r := Replace(j, s, v);
            Leads(r, s) && Child(r, s) == v && Present(r, s)
            && forall w :: Replace(r, s, w) == Replace(j, s, w)
  {
    if s.Elem? { SameFirst(j.items, FirstWithId(j.items, s.id), v, s.id); }
  }

  lemma ReplaceApart(j: J, s: Step, v: J, t: Step)
    requires Leads(j, s) && Fits(j, s, v) && Differ(s, t)
    ensures var r := Replace(j, s, v);
            && (Leads(r, t) <==> Leads(j, t))
            && (Present(r, t) <==> Present(j, t))
            && (Leads(j, t) ==> Child(r, t) == Child(j, t))
  {
    if s.Elem? {
      SameFirst(j.items, FirstWithId(j.items, s.id), v, t.id);
      if Leads(j, t) {
        assert CarriesId(Child(j, t), t.id) && CarriesId(Child(j, s), s.id);
      }
    }
  }

  lemma ReplaceCommutes(j: J, s: Step, v: J, t: Step, w: J)
    requires Leads(j, s) && Leads(j, t) && Fits(j, s, v) && Fits(j, t, w) && Differ(s, t)
    ensures Leads(Replace(j, s, v), t) && Leads(Replace(j, t, w), s)
    ensures Replace(Replace(j, s, v), t, w) == Replace(Replace(j, t, w), s, v)
  {
    ReplaceApart(j, s, v, t);
    ReplaceApart(j, t, w, s);
    if s.Elem? {
      var m, n := FirstWithId(j.items, s.id), FirstWithId(j.items, t.id);
      SameFirst(j.items, m, v, t.id);
      SameFirst(j.items, n, w, s.id);
      IdsApart(j.items, m, s.id, n, t.id);
      ItemsCommute(j.items, m, v, n, w);
    } else {
      KeysCommute(j.fields, s.k, v, t.k, w);
    }
  }

  lemma IdsApart(es: seq<J>, m: nat, a: string, n: nat, b: string)
    requires m < |es| && n < |es| && CarriesId(es[m], a) && CarriesId(es[n], b) && a != b
    ensures m != n
  {
  }

  lemma ItemsCommute(es: seq<J>, m: nat, v: J, n: nat, w: J)
    requires m < |es| && n < |es| && m != n
    ensures es[m := v][n := w] == es[n := w][m := v]
  {
  }

  lemma KeysCommute(fields: map<string, J>, k: string, v: J, l: string, w: J)
    requires k != l
    ensures fields[k := v][l := w] == fields[l := w][k := v]
  {
  }

  // ---------------------------------------------------------------------------------------
  // Paths
  // ---------------------------------------------------------------------------------------

  /** Patching along this path rewrites no "id" of a list entry it goes through. */
  predicate KeepsIds(path: seq<Step>, patch: map<string, J>) {
    path != [] ==>
      && (path[0].Elem? ==> if |path| == 1 then "id" !in patch else !path[1].Elem? && path[1].k != "id")
      && KeepsIds(path[1..], patch)
  }

  lemma {:induction false} KeepsIdsIf(path: seq<Step>, patch: map<string, J>)
    requires path != [] && path[|path| - 1].Elem? ==> "id" !in patch
    requires forall i | 0 <= i < |path| - 1 && path[i].Elem? :: !path[i + 1].Elem? && path[i + 1].k != "id"
    ensures KeepsIds(path, patch)
  {
    if path != [] {
      var rest := path[1..];
      assert |path| > 1 && path[0].Elem? ==> !path[0 + 1].Elem?;
      forall i | 0 <= i < |rest| - 1 && rest[i].Elem? ensures !rest[i + 1].Elem? && rest[i + 1].k != "id" {
        var n := i + 1;
        assert path[n].Elem? && path[n + 1] == rest[i + 1];
      }
      KeepsIdsIf(rest, patch);
    }
  }

  lemma PutFits(j: J, path: seq<Step>, coerce: bool, patch: map<string, J>)
    requires path != [] && KeepsIds(path, patch) && Leads(j, path[0])
    ensures Fits(j, path[0], Put(Child(j, path[0]), path[1..], coerce, patch))
  {
  }

  /** The paths share a beginning and then lead to different places. */
  predicate Parts(p: seq<Step>, q: seq<Step>)
    decreases |p|
  {
    p != [] && q != [] && if p[0] == q[0] then Parts(p[1..], q[1..]) else Differ(p[0], q[0])
  }

  /** The second path goes on below the first one, through a key the first one's patch leaves alone. */
  predicate Below(p: seq<Step>, a: map<string, J>, q: seq<Step>)
    decreases |p|
  {
    q != [] && if p == [] then !q[0].Elem? && q[0].k !in a else p[0] == q[0] && Below(p[1..], a, q[1..])
  }

  lemma {:induction false} PartsAt(p: seq<Step>, q: seq<Step>, n: nat)
    requires n < |p| && n < |q| && Differ(p[n], q[n])
    requires forall i | 0 <= i < n :: p[i] == q[i]
    ensures Parts(p, q) && Parts(q, p)
  {
    if n > 0 { PartsAt(p[1..], q[1..], n - 1); }
  }

  lemma {:induction false} PartsSym(p: seq<Step>, q: seq<Step>)
    requires Parts(p, q)
    ensures Parts(q, p)
    decreases |p|
  {
    if p[0] == q[0] { PartsSym(p[1..], q[1..]); }
  }

  lemma {:induction false} BelowIf(p: seq<Step>, a: map<string, J>, s: seq<Step>)
    requires s != [] && !s[0].Elem? && s[0].k !in a
    ensures Below(p, a, p + s)
  {
    if p == [] {
      assert p + s == s;
    } else {
      assert (p + s)[1..] == p[1..] + s;
      BelowIf(p[1..], a, s);
    }
  }

  /** Patches at paths that part commute. */
  lemma {:induction false} PutApart(j: J, p: seq<Step>, c: bool, a: map<string, J>, q: seq<Step>, d: bool,
                                    b: map<string, J>)
    requires Parts(p, q) && KeepsIds(p, a) && KeepsIds(q, b)
    ensures Put(Put(j, p, c, a), q, d, b) == Put(Put(j, q, d, b), p, c, a)
    decreases |p|
  {
    var s, t := p[0], q[0];
    if Leads(j, s) {
      PutFits(j, p, c, a);
      var v := Put(Child(j, s), p[1..], c, a);
      if s == t {
        PutFits(j, q, d, b);
        var w := Put(Child(j, s), q[1..], d, b);
        ReplaceChild(j, s, v);
        ReplaceChild(j, s, w);
        PutApart(Child(j, s), p[1..], c, a, q[1..], d, b);
      } else {
        ReplaceApart(j, s, v, t);
        if Leads(j, t) {
          PutFits(j, q, d, b);
          var w := Put(Child(j, t), q[1..], d, b);
          ReplaceApart(j, t, w, s);
          ReplaceCommutes(j, s, v, t, w);
        }
      }
    } else if s != t && Leads(j, t) {
      PutFits(j, q, d, b);
      ReplaceApart(j, t, Put(Child(j, t), q[1..], d, b), s);
    }
  }

  /** A patch of a node and a patch below it commute. */
  lemma {:induction false} PutBelow(j: J, p: seq<Step>, a: map<string, J>, q: seq<Step>, d: bool, b: map<string, J>)
    requires Below(p, a, q) && KeepsIds(p, a) && KeepsIds(q, b)
    ensures Put(Put(j, p, false, a), q, d, b) == Put(Put(j, q, d, b), p, false, a)
    decreases |p|
  {
    if p == [] {
      if j.Obj? && Leads(j, q[0]) {
        var w := Put(Child(j, q[0]), q[1..], d, b);
        assert (j.fields + a)[q[0].k := w] == j.fields[q[0].k := w] + a;
      }
    } else if Leads(j, p[0]) {
      PutFits(j, p, false, a);
      PutFits(j, q, d, b);
      ReplaceChild(j, p[0], Put(Child(j, p[0]), p[1..], false, a));
      ReplaceChild(j, p[0], Put(Child(j, p[0]), q[1..], d, b));
      PutBelow(Child(j, p[0]), p[1..], a, q[1..], d, b);
    }
  }

  /** Two patches at one place add up, the later one winning. */
  lemma {:induction false} PutTwice(j: J, p: seq<Step>, c: bool, a: map<string, J>, b: map<string, J>)
    requires KeepsIds(p, a) && KeepsIds(p, b)
    ensures Put(Put(j, p, c, a), p, c, b) == Put(j, p, c, a + b)
    decreases |p|
  {
    if p == [] {
      if j.Obj? { assert (j.fields + a) + b == j.fields + (a + b); }
    } else if Leads(j, p[0]) {
      PutFits(j, p, c, a);
      ReplaceChild(j, p[0], Put(Child(j, p[0]), p[1..], c, a));
      PutTwice(Child(j, p[0]), p[1..], c, a, b);
    }
  }

  /** A patch does not change what is found along a path that parts from it. */
  lemma {:induction false} GetApart(j: J, p: seq<Step>, q: seq<Step>, d: bool, b: map<string, J>)
    requires Parts(p, q) && KeepsIds(q, b)
    ensures Get(Put(j, q, d, b), p) == Get(j, p)
    decreases |p|
  {
    var s, t := p[0], q[0];
    if Leads(j, t) {
      PutFits(j, q, d, b);
      var w := Put(Child(j, t), q[1..], d, b);
      if s == t {
        ReplaceChild(j, s, w);
        GetApart(Child(j, s), p[1..], q[1..], d, b);
        assert Present(j, s) || Get(Obj(map[]), p[1..]) == None;
      } else {
        ReplaceApart(j, t, w, s);
      }
    }
  }

  /** A patch at or below an existing node shows up as a patch of that node. */
  lemma {:induction false} GetThrough(j: J, p: seq<Step>, s: seq<Step>, c: bool, a: map<string, J>)
    requires KeepsIds(p + s, a) && forall i | 0 <= i < |p| :: !p[i].Make?
    ensures Get(j, p) == None ==> Put(j, p + s, c, a) == j
    ensures Get(Put(j, p + s, c, a), p) ==
            if Get(j, p).None? then None else Some(Put(Get(j, p).value, s, c, a))
    decreases |p|
  {
    if p == [] {
      assert p + s == s;
    } else {
      assert (p + s)[1..] == p[1..] + s;
      if Leads(j, p[0]) {
        PutFits(j, p + s, c, a);
        ReplaceChild(j, p[0], Put(Child(j, p[0]), (p + s)[1..], c, a));
        GetThrough(Child(j, p[0]), p[1..], s, c, a);
        assert Get(j, p).None? ==> Replace(j, p[0], Child(j, p[0])) == j;
      }
    }
  }
}
