/**
 * The import-graph walk shared by the two static resolvers of
 * autodev/pipeline/gate_scripts/reachability (js_ts.py:45-86, python.py:29-73 and 158-172).
 * What a file imports is given by the project: specifier and module resolution are parameters.
 */
module Reachability {
  import opened Json

  type Path = string

  const PACKAGE_JSON: Path := "package.json"

  /** A file that cannot be read (or, for Python, parsed), or one with the files its imports resolve to. */
  datatype Content =
    | Opaque(note: string)
    | Source(targets: seq<Option<Path>>, notes: seq<string>)

  /**
   * A project on disk: `norm` is `os.path.normpath`, `content` reads the file of a normal form, and
   * `files` are the normal forms of the files that exist. Two spellings of one normal form read the
   * same file. An import that resolves to no file is `None`.
   */
  datatype Project = Project(norm: Path -> Path, content: Path -> Content, files: set<Path>)

  function Notes(content: Content): seq<string> {
    if content.Opaque? then [content.note] else content.notes
  }

  /** Imports resolve to existing files. */
  ghost predicate Consistent(pr: Project) {
    forall x, y | Leads(pr, x, y) :: y in pr.files
  }

  /** The file `x` imports the file `y`. */
  ghost predicate Leads(pr: Project, x: Path, y: Path) {
    pr.content(x).Source? && exists t :: Some(t) in pr.content(x).targets && pr.norm(t) == y
  }

  /** A pre-seeded package.json is listed but not read, unless it is the entry itself. */
  predicate Expanded(pr: Project, entry: Path, seeded: bool, x: Path) {
    !seeded || x != PACKAGE_JSON || pr.norm(entry) == PACKAGE_JSON
  }

  /** A chain of imports from the entry, in normal forms. */
  ghost predicate Chain(pr: Project, entry: Path, seeded: bool, c: seq<Path>)
    decreases |c|
  {
    if c == [] then false
    else if |c| == 1 then c[0] == pr.norm(entry)
    else
      var x, y := c[|c| - 2], c[|c| - 1];
      Chain(pr, entry, seeded, c[..|c| - 1]) && Expanded(pr, entry, seeded, x) && Leads(pr, x, y)
  }

  ghost predicate Reached(pr: Project, entry: Path, seeded: bool, x: Path) {
    exists c :: Chain(pr, entry, seeded, c) && c[|c| - 1] == x
  }

  lemma ReachedOn(pr: Project, entry: Path, seeded: bool, x: Path, y: Path)
    requires Reached(pr, entry, seeded, x) && Expanded(pr, entry, seeded, x) && Leads(pr, x, y)
    ensures Reached(pr, entry, seeded, y)
  {
    var c :| Chain(pr, entry, seeded, c) && c[|c| - 1] == x;
    assert (c + [y])[..|c|] == c;
    assert Chain(pr, entry, seeded, c + [y]);
  }

  /** A set that holds the roots and the imports of its members. */
  ghost predicate Closed(pr: Project, entry: Path, seeded: bool, s: set<Path>) {
    && pr.norm(entry) in s
    && (seeded ==> PACKAGE_JSON in s)
    && forall x, y | x in s && Expanded(pr, entry, seeded, x) && Leads(pr, x, y) :: y in s
  }

  lemma {:induction false} ClosedHoldsChain(pr: Project, entry: Path, seeded: bool, s: set<Path>, c: seq<Path>)
    requires Closed(pr, entry, seeded, s) && Chain(pr, entry, seeded, c)
    ensures c[|c| - 1] in s
    decreases |c|
  {
    if |c| > 1 { ClosedHoldsChain(pr, entry, seeded, s, c[..|c| - 1]); }
  }

  // ---------------------------------------------------------------------------------------
  // The walk
  // ---------------------------------------------------------------------------------------

  /** The files that the paths name. */
  function Files(pr: Project, ps: seq<Path>): set<Path> {
    if ps == [] then {} else Files(pr, ps[..|ps| - 1]) + {pr.norm(ps[|ps| - 1])}
  }

  /** No two of the paths name the same file. */
  predicate DistinctFiles(pr: Project, ps: seq<Path>) {
    ps == [] || (DistinctFiles(pr, ps[..|ps| - 1]) && pr.norm(ps[|ps| - 1]) !in Files(pr, ps[..|ps| - 1]))
  }

  lemma {:induction false} FilesConcat(pr: Project, ps: seq<Path>, qs: seq<Path>)
    ensures Files(pr, ps + qs) == Files(pr, ps) + Files(pr, qs)
    decreases |qs|
  {
    if qs == [] {
      assert ps + qs == ps;
    } else {
      assert (ps + qs)[..|ps + qs| - 1] == ps + qs[..|qs| - 1];
      FilesConcat(pr, ps, qs[..|qs| - 1]);
    }
  }

  lemma {:induction false} DistinctConcat(pr: Project, ps: seq<Path>, qs: seq<Path>)
    requires DistinctFiles(pr, ps) && DistinctFiles(pr, qs) && Files(pr, ps) !! Files(pr, qs)
    ensures DistinctFiles(pr, ps + qs)
    decreases |qs|
  {
    if qs == [] {
      assert ps + qs == ps;
    } else {
      assert (ps + qs)[..|ps + qs| - 1] == ps + qs[..|qs| - 1];
      DistinctConcat(pr, ps, qs[..|qs| - 1]);
      FilesConcat(pr, ps, qs[..|qs| - 1]);
    }
  }

  lemma FileAt(pr: Project, ps: seq<Path>, i: nat)
    requires i < |ps|
    ensures pr.norm(ps[i]) in Files(pr, ps)
  {
    FilesConcat(pr, ps[..i + 1], ps[i + 1..]);
    assert ps[..i + 1] + ps[i + 1..] == ps;
  }

  lemma OneFile(pr: Project, p: Path)
    ensures Files(pr, [p]) == {pr.norm(p)} && DistinctFiles(pr, [p])
  {
    assert [p][..0] == [];
  }

  /** The resolved imports of one file, enqueued unless their file has been seen. */
  method EnqueueAll(pr: Project, targets: seq<Option<Path>>, seen: set<Path>) returns (added: seq<Path>, now: set<Path>)
    ensures now == seen + Files(pr, added) && seen !! Files(pr, added) && DistinctFiles(pr, added)
    ensures forall y | y in Files(pr, added) :: exists t :: Some(t) in targets && pr.norm(t) == y
    ensures forall t | Some(t) in targets :: pr.norm(t) in now
  {
    added, now := [], seen;
    var k := 0;
    while k < |targets|
      invariant 0 <= k <= |targets|
      invariant now == seen + Files(pr, added) && seen !! Files(pr, added) && DistinctFiles(pr, added)
      invariant forall y | y in Files(pr, added) :: exists t :: Some(t) in targets && pr.norm(t) == y
      invariant forall j | 0 <= j < k && targets[j].Some? :: pr.norm(targets[j].value) in now
    {
      if targets[k].Some? {
        var target := targets[k].value;
        assert Some(target) in targets;
        var norm := pr.norm(target);
        if norm !in now {
          OneFile(pr, target);
          FilesConcat(pr, added, [target]);
          DistinctConcat(pr, added, [target]);
          now := now + {norm};
          added := added + [target];
        }
      }
      k := k + 1;
    }
  }

  /** Reading one file: an opaque one is only noted. */
  method Expand(pr: Project, current: Path, seen: set<Path>)
    returns (added: seq<Path>, now: set<Path>, notes: seq<string>)
    ensures now == seen + Files(pr, added) && seen !! Files(pr, added) && DistinctFiles(pr, added)
    ensures forall y | y in Files(pr, added) :: Leads(pr, pr.norm(current), y)
    ensures forall y | Leads(pr, pr.norm(current), y) :: y in now
    ensures notes == Notes(pr.content(pr.norm(current)))
  {
    var content := pr.content(pr.norm(current));
    if content.Opaque? { return [], seen, [content.note]; }
    added, now := EnqueueAll(pr, content.targets, seen);
    notes := content.notes;
  }

  function NotesOf(pr: Project, ps: seq<Path>): seq<string> {
    if ps == [] then [] else NotesOf(pr, ps[..|ps| - 1]) + Notes(pr.content(pr.norm(ps[|ps| - 1])))
  }

  function Seeds(seeded: bool): set<Path> {
    if seeded then {PACKAGE_JSON} else {}
  }

  /** An enqueued file: on disk, reached, and to be read. */
  ghost predicate Sound(pr: Project, entry: Path, seeded: bool, x: Path) {
    x in pr.files && Reached(pr, entry, seeded, x) && Expanded(pr, entry, seeded, x)
  }

  ghost predicate AllSound(pr: Project, entry: Path, seeded: bool, xs: set<Path>) {
    forall x | x in xs :: Sound(pr, entry, seeded, x)
  }

  /** The imports of these files have been seen. */
  ghost predicate Covered(pr: Project, xs: set<Path>, seen: set<Path>) {
    forall x, y | x in xs && Leads(pr, x, y) :: y in seen
  }

  /** What holds of everything ever enqueued, of which the first `n` have been read. */
  ghost predicate Walked(pr: Project, entry: Path, seeded: bool, enqueued: seq<Path>, n: nat, reachable: set<Path>) {
    && n <= |enqueued|
    && reachable == Seeds(seeded) + Files(pr, enqueued) && DistinctFiles(pr, enqueued)
    && pr.norm(entry) in Files(pr, enqueued)
    && AllSound(pr, entry, seeded, Files(pr, enqueued))
    && Covered(pr, Files(pr, enqueued[..n]), reachable)
  }

  lemma SoundOn(pr: Project, entry: Path, seeded: bool, x: Path, ys: set<Path>)
    requires Consistent(pr) && Sound(pr, entry, seeded, x)
    requires forall y | y in ys :: Leads(pr, x, y) && (seeded ==> y != PACKAGE_JSON)
    ensures AllSound(pr, entry, seeded, ys)
  {
    forall y | y in ys ensures Sound(pr, entry, seeded, y) { ReachedOn(pr, entry, seeded, x, y); }
  }

  lemma CoveredOn(pr: Project, xs: set<Path>, seen: set<Path>, x: Path, now: set<Path>)
    requires Covered(pr, xs, seen) && seen <= now && forall y | Leads(pr, x, y) :: y in now
    ensures Covered(pr, xs + {x}, now)
  {
  }

  lemma SplitAt<T>(s: seq<T>, t: seq<T>, n: nat)
    requires n < |s|
    ensures (s + t)[..n + 1] == s[..n] + [s[n]] && (s + t)[n + 1..] == s[n + 1..] + t
    ensures (s + t)[..n + 1][..n] == s[..n]
  {
  }

  lemma ReadSoFar(pr: Project, enqueued: seq<Path>, added: seq<Path>, n: nat)
    requires n < |enqueued|
    ensures Files(pr, (enqueued + added)[..n + 1]) == Files(pr, enqueued[..n]) + {pr.norm(enqueued[n])}
  {
    SplitAt(enqueued, added, n);
    OneFile(pr, enqueued[n]);
    FilesConcat(pr, enqueued[..n], [enqueued[n]]);
  }

  lemma WalkedOn(pr: Project, entry: Path, seeded: bool, enqueued: seq<Path>, n: nat, reachable: set<Path>,
                 added: seq<Path>)
    requires Consistent(pr) && Walked(pr, entry, seeded, enqueued, n, reachable) && n < |enqueued|
    requires DistinctFiles(pr, added) && reachable !! Files(pr, added)
    requires forall y | y in Files(pr, added) :: Leads(pr, pr.norm(enqueued[n]), y)
    requires forall y | Leads(pr, pr.norm(enqueued[n]), y) :: y in reachable + Files(pr, added)
    ensures Walked(pr, entry, seeded, enqueued + added, n + 1, reachable + Files(pr, added))
  {
    FilesConcat(pr, enqueued, added);
    DistinctConcat(pr, enqueued, added);
    AddedSound(pr, entry, seeded, enqueued, n, reachable, added);
    ReadCovered(pr, enqueued, n, reachable, added);
  }

  lemma AddedSound(pr: Project, entry: Path, seeded: bool, enqueued: seq<Path>, n: nat, reachable: set<Path>,
                   added: seq<Path>)
    requires Consistent(pr) && Walked(pr, entry, seeded, enqueued, n, reachable) && n < |enqueued|
    requires reachable !! Files(pr, added) && forall y | y in Files(pr, added) :: Leads(pr, pr.norm(enqueued[n]), y)
    ensures AllSound(pr, entry, seeded, Files(pr, enqueued) + Files(pr, added))
  {
    FileAt(pr, enqueued, n);
    SoundOn(pr, entry, seeded, pr.norm(enqueued[n]), Files(pr, added));
  }

  lemma ReadCovered(pr: Project, enqueued: seq<Path>, n: nat, reachable: set<Path>, added: seq<Path>)
    requires n < |enqueued| && Covered(pr, Files(pr, enqueued[..n]), reachable)
    requires forall y | Leads(pr, pr.norm(enqueued[n]), y) :: y in reachable + Files(pr, added)
    ensures Covered(pr, Files(pr, (enqueued + added)[..n + 1]), reachable + Files(pr, added))
  {
    ReadSoFar(pr, enqueued, added, n);
    CoveredOn(pr, Files(pr, enqueued[..n]), reachable, pr.norm(enqueued[n]), reachable + Files(pr, added));
  }

  lemma WalkedStart(pr: Project, entry: Path, seeded: bool)
    requires Consistent(pr) && pr.norm(entry) in pr.files
    ensures Walked(pr, entry, seeded, [entry], 0, {pr.norm(entry)} + Seeds(seeded))
  {
    assert Chain(pr, entry, seeded, [pr.norm(entry)]);
    OneFile(pr, entry);
    assert [entry][..0] == [];
  }

  lemma WalkedAll(pr: Project, entry: Path, seeded: bool, enqueued: seq<Path>, reachable: set<Path>)
    requires Consistent(pr) && Walked(pr, entry, seeded, enqueued, |enqueued|, reachable)
    ensures Closed(pr, entry, seeded, reachable)
    ensures forall x :: x in reachable <==> (seeded && x == PACKAGE_JSON) || Reached(pr, entry, seeded, x)
  {
    assert enqueued[..|enqueued|] == enqueued;
    forall x | Reached(pr, entry, seeded, x) ensures x in reachable {
      var c :| Chain(pr, entry, seeded, c) && c[|c| - 1] == x;
      ClosedHoldsChain(pr, entry, seeded, reachable, c);
    }
  }

  lemma SeenGrows(pr: Project, seen: set<Path>, added: seq<Path>)
    requires forall y | y in Files(pr, added) :: y in pr.files
    requires seen !! Files(pr, added) && added != []
    ensures pr.files - (seen + Files(pr, added)) < pr.files - seen
  {
    FileAt(pr, added, 0);
    var y := pr.norm(added[0]);
    assert y in pr.files - seen && y !in pr.files - (seen + Files(pr, added));
  }

  /**
   * The worklist loop. Without an entry file the result is empty; otherwise it is exactly what
   * chains of imports reach from the entry, plus a pre-seeded package.json. Every file is enqueued
   * once, and the limitations are those of the enqueued files, in that order.
   */
  method Resolve(pr: Project, entry: Option<Path>, seeded: bool)
    returns (reachable: set<Path>, limitations: seq<string>, entryResolved: Option<Path>, ghost enqueued: seq<Path>)
    requires Consistent(pr)
    ensures entry.None? || pr.norm(entry.value) !in pr.files ==>
              reachable == {} && limitations == [] && entryResolved == None
    ensures entry.Some? && pr.norm(entry.value) in pr.files ==>
              && entryResolved == Some(pr.norm(entry.value))
              && Closed(pr, entry.value, seeded, reachable)
              && (forall x :: x in reachable <==> (seeded && x == PACKAGE_JSON) || Reached(pr, entry.value, seeded, x))
              && DistinctFiles(pr, enqueued) && limitations == NotesOf(pr, enqueued)
              && reachable == Seeds(seeded) + Files(pr, enqueued)
  {
    if entry.None? || pr.norm(entry.value) !in pr.files {
      return {}, [], None, [];
    }
    var start := entry.value;
    reachable, limitations, enqueued := {pr.norm(start)}, [], [start];
    if seeded { reachable := reachable + {PACKAGE_JSON}; }
    WalkedStart(pr, start, seeded);
    assert reachable == {pr.norm(start)} + Seeds(seeded);
    var seen, queue := reachable, [start];
    ghost var n := 0;
    while queue != []
      invariant n <= |enqueued| && queue == enqueued[n..]
      invariant seen == reachable
      invariant Walked(pr, start, seeded, enqueued, n, reachable)
      invariant limitations == NotesOf(pr, enqueued[..n])
      decreases pr.files - seen, |queue|
    {
      var current := queue[0];
      assert current == enqueued[n];
      queue := queue[1..];
      var added, now, notes := Expand(pr, current, seen);
      WalkedOn(pr, start, seeded, enqueued, n, reachable, added);
      if added != [] { SeenGrows(pr, seen, added); }
      assert added == [] ==> now == seen;
      limitations, seen, reachable := limitations + notes, now, now;
      queue := queue + added;
      SplitAt(enqueued, added, n);
      enqueued := enqueued + added;
      n := n + 1;
    }
    assert enqueued[..n] == enqueued;
    WalkedAll(pr, start, seeded, enqueued, reachable);
    entryResolved := Some(pr.norm(start));
  }

  // ---------------------------------------------------------------------------------------
  // The least closed set
  // ---------------------------------------------------------------------------------------

  /**
   * The result is the least set that holds the roots and is closed under the imports of its readable
   * members: no closed set misses any of it. Cyclic imports make no difference.
   */
  lemma ResultIsLeast(pr: Project, entry: Path, seeded: bool, reachable: set<Path>, s: set<Path>)
    requires Closed(pr, entry, seeded, reachable)
    requires forall x :: x in reachable <==> (seeded && x == PACKAGE_JSON) || Reached(pr, entry, seeded, x)
    requires Closed(pr, entry, seeded, s)
    ensures reachable <= s
  {
    forall x | x in reachable ensures x in s {
      if Reached(pr, entry, seeded, x) {
        var c :| Chain(pr, entry, seeded, c) && c[|c| - 1] == x;
        ClosedHoldsChain(pr, entry, seeded, s, c);
      }
    }
  }

  /** Chains of imports are cut exactly where they go on from package.json, unless that is the entry. */
  lemma {:induction false} SeededChains(pr: Project, entry: Path, c: seq<Path>)
    ensures Chain(pr, entry, true, c) <==>
            Chain(pr, entry, false, c) && (pr.norm(entry) == PACKAGE_JSON || PACKAGE_JSON !in c[..|c| - 1])
    decreases |c|
  {
    if |c| > 1 {
      var init := c[..|c| - 1];
      SeededChains(pr, entry, init);
      assert init == init[..|init| - 1] + [c[|c| - 2]];
    }
  }

  /** Every chain of imports to the file goes through package.json. */
  ghost predicate OnlyThroughPackageJson(pr: Project, entry: Path, x: Path) {
    forall c | Chain(pr, entry, false, c) && c[|c| - 1] == x :: PACKAGE_JSON in c[..|c| - 1]
  }

  /**
   * Seeding package.json adds just that file, and takes away just what every chain of imports reaches
   * through it: nothing at all when it is the entry.
   */
  lemma SeedingOnlyCuts(pr: Project, entry: Path, x: Path)
    ensures Reached(pr, entry, true, x) ==> Reached(pr, entry, false, x)
    ensures Reached(pr, entry, false, x) && !Reached(pr, entry, true, x) <==>
              Reached(pr, entry, false, x) && pr.norm(entry) != PACKAGE_JSON && OnlyThroughPackageJson(pr, entry, x)
  {
    forall c | c != [] && c[|c| - 1] == x
      ensures Chain(pr, entry, true, c) <==>
              Chain(pr, entry, false, c) && (pr.norm(entry) == PACKAGE_JSON || PACKAGE_JSON !in c[..|c| - 1])
    {
      SeededChains(pr, entry, c);
    }
  }
}
