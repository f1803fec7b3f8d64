/** One process appending to the event log undisturbed: the order of the lines and the bounds on the files. */
module EventLogOrder {
  import opened EventLog

  // ---------------------------------------------------------------------------------------
  // Sorted archive names
  // ---------------------------------------------------------------------------------------

  ghost predicate Increasing(s: seq<nat>) {
    forall i, j | 0 <= i < j < |s| :: s[i] < s[j]
  }

  lemma HasGreatest(names: set<nat>)
    requires names != {}
    ensures exists a | a in names :: forall b | b in names :: b <= a
    decreases |names|
  {
    var a :| a in names;
    var rest := names - {a};
    if rest == {} {
      assert names == {a};
    } else {
      HasGreatest(rest);
      var m :| m in rest && forall b | b in rest :: b <= m;
      var top := if m < a then a else m;
      forall b | b in names ensures b <= top { assert b == a || b in rest; }
      assert top in names;
    }
  }

  /** The names in ascending order. */
  function Sorted(names: set<nat>): seq<nat>
    decreases |names|
  {
    if names == {} then []
    else
      HasGreatest(names);
      var m :| m in names && forall b | b in names :: b <= m;
      Sorted(names - {m}) + [m]
  }

  ghost predicate Lists(s: seq<nat>, names: set<nat>) {
    Increasing(s) && |s| == |names| && forall a :: a in s <==> a in names
  }

  lemma {:induction false} SortedLists(names: set<nat>)
    ensures Lists(Sorted(names), names)
    decreases |names|
  {
    if names != {} {
      HasGreatest(names);
      var m :| m in names && (forall b | b in names :: b <= m) && Sorted(names) == Sorted(names - {m}) + [m];
      var rest, s := names - {m}, Sorted(names - {m});
      SortedLists(rest);
      forall i | 0 <= i < |s| ensures s[i] < m { assert s[i] in rest; }
      assert forall a :: a in names <==> a in rest || a == m;
    }
  }

  lemma {:induction false} ListUnique(s: seq<nat>, t: seq<nat>)
    requires Increasing(s) && Increasing(t) && forall a :: a in s <==> a in t
    ensures s == t
    decreases |s|
  {
    assert |s| > 0 <==> |t| > 0 by {
      if |s| > 0 { assert s[0] in t; }
      if |t| > 0 { assert t[0] in s; }
    }
    if s != [] {
      var x, y := s[|s| - 1], t[|t| - 1];
      assert x in t && y in s;
      var s', t' := s[..|s| - 1], t[..|t| - 1];
      forall a ensures a in s' <==> a in t' {
        assert a in s <==> a in s' || a == x;
        assert a in t <==> a in t' || a == y;
      }
      ListUnique(s', t');
      assert s == s' + [x] && t == t' + [y];
    }
  }

  lemma SortedGrows(names: set<nat>, top: nat)
    requires forall a | a in names :: a < top
    ensures Sorted(names + {top}) == Sorted(names) + [top]
  {
    SortedLists(names);
    SortedLists(names + {top});
    ListUnique(Sorted(names + {top}), Sorted(names) + [top]);
  }

  /** How many of the oldest names `archives[:-keep]` holds, and all of them for `keep <= 0`. */
  function Beyond(count: nat, keep: int): (n: nat)
    ensures n <= count
  {
    if keep <= 0 then count else if count <= keep then 0 else count - keep
  }

  lemma ListAbove(s: seq<nat>, i: nat, b: nat)
    requires Increasing(s) && i < |s|
    ensures b in s[i + 1..] <==> b in s && b > s[i]
  {
    if b in s {
      var j :| 0 <= j < |s| && s[j] == b;
      if j > i { assert s[i + 1..][j - i - 1] == b; }
    }
  }

  /** The names above the `i`-th smallest are those listed after it. */
  lemma NewerAt(names: set<nat>, s: seq<nat>, i: nat)
    requires Lists(s, names) && i < |s|
    ensures |Newer(names, s[i])| == |names| - i - 1
  {
    var newer := Newer(names, s[i]);
    SortedLists(newer);
    forall b: nat ensures b in s[i + 1..] <==> b in Sorted(newer) { ListAbove(s, i, b); }
    ListUnique(s[i + 1..], Sorted(newer));
  }

  lemma InPrefix(s: seq<nat>, n: nat, i: nat)
    requires Increasing(s) && n <= |s| && i < |s|
    ensures s[i] in s[..n] <==> i < n
    ensures s[i] in s[n..] <==> n <= i
  {
    if i < n { assert s[..n][i] == s[i]; } else { assert s[n..][i - n] == s[i]; }
  }

  /** Slicing the sorted listing picks exactly the names with `keep` newer ones. */
  lemma SliceIsStale(names: set<nat>, s: seq<nat>, keep: int, a: nat)
    requires Lists(s, names)
    ensures a in s[..Beyond(|s|, keep)] <==> a in Stale(names, keep)
    ensures a in s[Beyond(|s|, keep)..] <==> a in names - Stale(names, keep)
  {
    var n := Beyond(|s|, keep);
    if a in s {
      var i :| 0 <= i < |s| && s[i] == a;
      NewerAt(names, s, i);
      InPrefix(s, n, i);
    }
  }

  lemma KeptListed(names: set<nat>, s: seq<nat>, keep: int, t: seq<nat>)
    requires Lists(s, names) && Lists(t, names - Stale(names, keep))
    ensures t == s[Beyond(|s|, keep)..]
  {
    var rest := s[Beyond(|s|, keep)..];
    forall a: nat ensures a in rest <==> a in t { SliceIsStale(names, s, keep, a); }
    ListUnique(rest, t);
  }

  lemma KeptSorted(names: set<nat>, keep: int)
    ensures |Sorted(names)| == |names|
    ensures Sorted(names - Stale(names, keep)) == Sorted(names)[Beyond(|names|, keep)..]
  {
    SortedLists(names);
    SortedLists(names - Stale(names, keep));
    KeptListed(names, Sorted(names), keep, Sorted(names - Stale(names, keep)));
  }

  // ---------------------------------------------------------------------------------------
  // The operations
  // ---------------------------------------------------------------------------------------

  predicate Oversized(d: Dir, max: int)
    requires d.live.Some? ==> d.live.value < |d.files|
  {
    d.live.Some? && Bytes(d.files[d.live.value]) > max
  }

  function KeepNewest(archives: map<nat, nat>, keep: int): map<nat, nat> {
    archives - Stale(archives.Keys, keep)
  }

  /** What rotation leaves: the live file archived under `ts`, and only the `keep` newest archives. */
  function Rotated(d: Dir, max: int, keep: int, ts: nat): (r: Dir)
    requires d.live.Some? ==> d.live.value < |d.files|
    ensures r.files == d.files && (r.live.Some? ==> r.live == d.live)
    ensures r.live.Some? ==> Bytes(r.files[r.live.value]) <= max
  {
    if !Oversized(d, max) then d
    else
      var renamed := RenameLive(d, ts);
      renamed.(archives := KeepNewest(renamed.archives, keep))
  }

  lemma RotatedWellFormed(d: Dir, max: int, keep: int, ts: nat)
    requires WellFormedDir(d)
    ensures WellFormedDir(Rotated(d, max, keep, ts))
  {
  }

  function WithLine(d: Dir, line: Line): (r: Dir)
    requires d.live.Some? ==> d.live.value < |d.files|
    ensures r.live.Some? && r.live.value < |r.files| && r.archives == d.archives
  {
    var ready := OpenLive(d);
    WriteLine(ready, ready.live.value, line)
  }

  lemma WithLineWellFormed(d: Dir, line: Line)
    requires WellFormedDir(d)
    ensures WellFormedDir(WithLine(d, line))
  {
  }

  datatype Append = Append(line: Line, max: int, keep: int, ts: nat)

  /** The line at the end of the live file of the rotated directory. */
  function Appended(d: Dir, call: Append): (r: Dir)
    requires d.live.Some? ==> d.live.value < |d.files|
    ensures r.live.Some? && r.live.value < |r.files|
  {
    WithLine(Rotated(d, call.max, call.keep, call.ts), call.line)
  }

  lemma SlicePruned(archives: map<nat, nat>, s: seq<nat>, keep: int, after: map<nat, nat>)
    requires Lists(s, archives.Keys)
    requires forall a :: a in after <==> a in archives && a !in s[..Beyond(|s|, keep)]
    requires forall a | a in after :: after[a] == archives[a]
    ensures after == KeepNewest(archives, keep)
  {
    forall a: nat ensures a in after <==> a in KeepNewest(archives, keep) {
      SliceIsStale(archives.Keys, s, keep, a);
    }
  }

  class EventDirectory {
    var dir: Dir

    method RotateIfNeeded(max: int, keep: int, ts: nat)
      requires dir.live.Some? ==> dir.live.value < |dir.files|
      modifies this
      ensures dir == Rotated(old(dir), max, keep, ts)
      ensures Bytes(LiveLines(old(dir))) <= max || old(dir).live.None? ==> dir == old(dir)
      ensures old(dir).live.Some? && Bytes(LiveLines(old(dir))) > max ==> dir.live.None? && dir.files == old(dir).files
    {
      if dir.live.None? { return; }
      var size := Bytes(dir.files[dir.live.value]);
      if size <= max { return; }
      dir := RenameLive(dir, ts);
      var archives := Sorted(dir.archives.Keys);
      SortedLists(dir.archives.Keys);
      var stale := if keep > 0 then archives[..Beyond(|archives|, keep)] else archives;
      ghost var renamed := dir;
      assert stale == archives[..Beyond(|archives|, keep)];
      PruneAll(stale);
      SlicePruned(renamed.archives, archives, keep, dir.archives);
    }

    /** The loop that deletes the stale archives. */
    method PruneAll(stale: seq<nat>)
      modifies this
      ensures dir.live == old(dir).live && dir.files == old(dir).files
      ensures forall a :: a in dir.archives <==> a in old(dir).archives && a !in stale
      ensures forall a | a in dir.archives :: dir.archives[a] == old(dir).archives[a]
    {
      var i := 0;
      while i < |stale|
        invariant 0 <= i <= |stale|
        invariant dir.live == old(dir).live && dir.files == old(dir).files
        invariant forall a :: a in dir.archives <==> a in old(dir).archives && a !in stale[..i]
        invariant forall a | a in dir.archives :: dir.archives[a] == old(dir).archives[a]
      {
        assert stale[..i + 1] == stale[..i] + [stale[i]];
        dir := RemoveArchive(dir, stale[i]);
        i := i + 1;
      }
      assert stale[..i] == stale;
    }

    method AppendPipelineEvent(line: Line, max: int, keep: int, ts: nat)
      requires dir.live.Some? ==> dir.live.value < |dir.files|
      modifies this
      ensures dir == Appended(old(dir), Append(line, max, keep, ts))
      ensures old(dir).live.None? || Bytes(LiveLines(old(dir))) <= max ==>
                dir.archives == old(dir).archives && LiveLines(dir) == LiveLines(old(dir)) + [line]
      ensures old(dir).live.Some? && Bytes(LiveLines(old(dir))) > max ==> LiveLines(dir) == [line]
    {
      RotateIfNeeded(max, keep, ts);
      dir := OpenLive(dir);
      dir := WriteLine(dir, dir.live.value, line);
    }
  }

  // ---------------------------------------------------------------------------------------
  // Order and bounds
  // ---------------------------------------------------------------------------------------

  function Held(d: Dir, name: nat): seq<Line> {
    if name in d.archives && d.archives[name] < |d.files| then d.files[d.archives[name]] else []
  }

  function LinesUnder(d: Dir, names: seq<nat>): seq<Line> {
    if names == [] then [] else LinesUnder(d, names[..|names| - 1]) + Held(d, names[|names| - 1])
  }

  function LiveLines(d: Dir): seq<Line> {
    if d.live.Some? && d.live.value < |d.files| then d.files[d.live.value] else []
  }

  /** Everything still on disk, oldest archive first, the live file last. */
  function History(d: Dir): seq<Line> {
    LinesUnder(d, Sorted(d.archives.Keys)) + LiveLines(d)
  }

  /** The lines of the archives that a rotation prunes. */
  function Dropped(d: Dir, call: Append): seq<Line>
    requires d.live.Some? ==> d.live.value < |d.files|
  {
    if !Oversized(d, call.max) then []
    else
      var renamed := RenameLive(d, call.ts);
      var names := Sorted(renamed.archives.Keys);
      LinesUnder(renamed, names[..Beyond(|names|, call.keep)])
  }

  lemma {:induction false} SplitLines(d: Dir, names: seq<nat>, n: nat)
    requires n <= |names|
    ensures LinesUnder(d, names) == LinesUnder(d, names[..n]) + LinesUnder(d, names[n..])
    decreases |names|
  {
    if n == |names| {
      assert names[..n] == names && names[n..] == [];
    } else {
      var init, tail, x := names[..|names| - 1], names[n..], Held(d, names[|names| - 1]);
      SplitLines(d, init, n);
      assert init[..n] == names[..n];
      assert tail[..|tail| - 1] == init[n..] && tail[|tail| - 1] == names[|names| - 1];
      assert LinesUnder(d, names) == LinesUnder(d, init) + x;
      assert LinesUnder(d, tail) == LinesUnder(d, init[n..]) + x;
      Regroup(LinesUnder(d, init), x, LinesUnder(d, init[..n]), LinesUnder(d, init[n..]));
    }
  }

  lemma {:induction false} SameLines(d: Dir, d': Dir, names: seq<nat>)
    requires forall i | 0 <= i < |names| :: Held(d, names[i]) == Held(d', names[i])
    ensures LinesUnder(d, names) == LinesUnder(d', names)
    decreases |names|
  {
    if names != [] { SameLines(d, d', names[..|names| - 1]); }
  }

  lemma RenameMovesLines(d: Dir, ts: nat)
    requires d.live.Some? && d.live.value < |d.files| && forall a | a in d.archives :: a < ts
    ensures History(d) == LinesUnder(RenameLive(d, ts), Sorted(RenameLive(d, ts).archives.Keys))
  {
    var renamed := RenameLive(d, ts);
    var before := Sorted(d.archives.Keys);
    assert renamed.archives.Keys == d.archives.Keys + {ts};
    SortedGrows(d.archives.Keys, ts);
    LinesAppend(renamed, before, ts);
    EarlierKept(d, ts, before);
    SameLines(d, renamed, before);
    assert Held(renamed, ts) == LiveLines(d);
  }

  lemma LinesAppend(d: Dir, names: seq<nat>, a: nat)
    ensures LinesUnder(d, names + [a]) == LinesUnder(d, names) + Held(d, a)
  {
    assert (names + [a])[..|names|] == names;
  }

  lemma EarlierKept(d: Dir, ts: nat, names: seq<nat>)
    requires d.live.Some? && ts !in d.archives && names == Sorted(d.archives.Keys)
    ensures forall i | 0 <= i < |names| :: Held(d, names[i]) == Held(RenameLive(d, ts), names[i])
  {
    SortedLists(d.archives.Keys);
    forall i | 0 <= i < |names| ensures Held(d, names[i]) == Held(RenameLive(d, ts), names[i]) {
      assert names[i] in d.archives.Keys;
    }
  }

  lemma PruneSplitsLines(renamed: Dir, keep: int)
    requires renamed.live.None?
    ensures var names := Sorted(renamed.archives.Keys);
            var after := renamed.(archives := KeepNewest(renamed.archives, keep));
            LinesUnder(renamed, names) == LinesUnder(renamed, names[..Beyond(|names|, keep)]) + History(after)
  {
    var names := Sorted(renamed.archives.Keys);
    var n := Beyond(|names|, keep);
    var after := renamed.(archives := KeepNewest(renamed.archives, keep));
    SplitLines(renamed, names, n);
    KeptSorted(renamed.archives.Keys, keep);
    assert after.archives.Keys == renamed.archives.Keys - Stale(renamed.archives.Keys, keep);
    PrunedHolds(renamed, keep, names[n..]);
  }

  lemma PrunedHolds(renamed: Dir, keep: int, kept: seq<nat>)
    requires kept == Sorted(KeepNewest(renamed.archives, keep).Keys)
    ensures LinesUnder(renamed, kept) == LinesUnder(renamed.(archives := KeepNewest(renamed.archives, keep)), kept)
  {
    var after := renamed.(archives := KeepNewest(renamed.archives, keep));
    forall i | 0 <= i < |kept| ensures Held(renamed, kept[i]) == Held(after, kept[i]) {
      SortedLists(after.archives.Keys);
      assert kept[i] in after.archives.Keys;
    }
    SameLines(renamed, after, kept);
  }

  lemma RotationSplits(d: Dir, call: Append)
    requires d.live.Some? ==> d.live.value < |d.files|
    requires forall a | a in d.archives :: a < call.ts
    ensures History(d) == Dropped(d, call) + History(Rotated(d, call.max, call.keep, call.ts))
  {
    if Oversized(d, call.max) {
      RenameMovesLines(d, call.ts);
      PruneSplitsLines(RenameLive(d, call.ts), call.keep);
    }
  }

  lemma WriteExtends(d: Dir, line: Line)
    requires WellFormedDir(d)
    ensures History(WithLine(d, line)) == History(d) + [line]
  {
    var after := WithLine(d, line);
    SameLines(d, after, Sorted(d.archives.Keys));
    assert LiveLines(after) == LiveLines(d) + [line];
  }

  lemma ArchivesBounded(d: Dir, call: Append)
    requires d.live.Some? ==> d.live.value < |d.files|
    requires call.keep > 0 && |d.archives.Keys| <= call.keep
    ensures |Appended(d, call).archives.Keys| <= call.keep
  {
    if Oversized(d, call.max) {
      var names := RenameLive(d, call.ts).archives.Keys;
      KeptSorted(names, call.keep);
      SortedLists(names - Stale(names, call.keep));
      assert Appended(d, call).archives.Keys == names - Stale(names, call.keep);
    }
  }

  lemma LiveBounded(d: Dir, call: Append)
    requires d.live.Some? ==> d.live.value < |d.files|
    ensures Bytes(LiveLines(Appended(d, call))) <= (if call.max < 0 then 0 else call.max) + |call.line| + 1
  {
    var rotated := Rotated(d, call.max, call.keep, call.ts);
    var lines := LiveLines(rotated);
    assert LiveLines(Appended(d, call)) == lines + [call.line];
    assert (lines + [call.line])[..|lines|] == lines;
  }

  lemma Regroup<T>(before: seq<T>, x: seq<T>, dropped: seq<T>, kept: seq<T>)
    requires before == dropped + kept
    ensures before + x == dropped + (kept + x)
  {
  }

  /**
   * One append under a fresh timestamp: what was on disk and the new line, in order, are the pruned
   * lines followed by what is on disk now.
   */
  lemma AppendKeepsOrder(d: Dir, call: Append)
    requires WellFormedDir(d) && forall a | a in d.archives :: a < call.ts
    ensures History(d) + [call.line] == Dropped(d, call) + History(Appended(d, call))
  {
    var rotated := Rotated(d, call.max, call.keep, call.ts);
    RotatedWellFormed(d, call.max, call.keep, call.ts);
    RotationSplits(d, call);
    WriteExtends(rotated, call.line);
    Regroup(History(d), [call.line], Dropped(d, call), History(rotated));
  }

  lemma AppendWellFormed(d: Dir, call: Append)
    requires WellFormedDir(d)
    ensures WellFormedDir(Appended(d, call))
    ensures forall a | a in Appended(d, call).archives :: a in d.archives || a == call.ts
  {
    RotatedWellFormed(d, call.max, call.keep, call.ts);
    WithLineWellFormed(Rotated(d, call.max, call.keep, call.ts), call.line);
  }

  /** The size of a file: every line and its line break. */
  lemma BytesAre(lines: seq<Line>, line: Line)
    ensures Bytes([]) == 0 && Bytes(lines + [line]) == Bytes(lines) + |line| + 1
  {
    assert (lines + [line])[..|lines|] == lines;
  }

  /** A log within the limit is left alone: the line is added, no archive comes or goes, no line is dropped. */
  lemma SmallLogStays(d: Dir, call: Append)
    requires d.live.Some? ==> d.live.value < |d.files|
    requires d.live.None? || Bytes(LiveLines(d)) <= call.max
    ensures Appended(d, call).archives == d.archives && LiveLines(Appended(d, call)) == LiveLines(d) + [call.line]
    ensures Dropped(d, call) == []
  {
  }

  /**
   * A larger one is archived whole under the timestamp, the live file starts over with the line, and of
   * the archives just those stay, as they were, that fewer than `keep` names are newer than.
   */
  lemma LargeLogRotates(d: Dir, call: Append)
    requires WellFormedDir(d) && d.live.Some? && Bytes(LiveLines(d)) > call.max
    ensures var after := Appended(d, call);
            && LiveLines(after) == [call.line]
            && (forall a :: a in after.archives <==>
                  && (a in d.archives || a == call.ts)
                  && |set b | b in d.archives.Keys + {call.ts} && b > a| < call.keep)
            && (forall a | a in after.archives ::
                  Held(after, a) == if a == call.ts then LiveLines(d) else Held(d, a))
    ensures call.keep > 0 && (forall a | a in d.archives :: a < call.ts) ==> call.ts in Appended(d, call).archives
  {
    var names := d.archives.Keys + {call.ts};
    RenamedNames(d, call.ts);
    NewerCounts(names);
    if forall a | a in d.archives :: a < call.ts { assert Newer(names, call.ts) == {}; }
  }

  lemma RenamedNames(d: Dir, ts: nat)
    requires d.live.Some?
    ensures RenameLive(d, ts).archives.Keys == d.archives.Keys + {ts}
  {
  }

  lemma NewerCounts(names: set<nat>)
    ensures forall a: nat :: Newer(names, a) == set b | b in names && b > a
  {
  }

  datatype Outcome = Outcome(dir: Dir, dropped: seq<Line>)

  /** The directory after these appends, and the lines pruned on the way. */
  function Run(d: Dir, calls: seq<Append>): (r: Outcome)
    requires d.live.Some? ==> d.live.value < |d.files|
    ensures r.dir.live.Some? ==> r.dir.live.value < |r.dir.files|
    decreases |calls|
  {
    if calls == [] then Outcome(d, [])
    else
      var before, last := Run(d, calls[..|calls| - 1]), calls[|calls| - 1];
      Outcome(Appended(before.dir, last), before.dropped + Dropped(before.dir, last))
  }

  function LinesAppended(calls: seq<Append>): seq<Line> {
    seq(|calls|, i requires 0 <= i < |calls| => calls[i].line)
  }

  ghost predicate FreshStamps(d: Dir, calls: seq<Append>) {
    && (forall a, i | a in d.archives && 0 <= i < |calls| :: a < calls[i].ts)
    && (forall i, j | 0 <= i < j < |calls| :: calls[i].ts < calls[j].ts)
  }

  lemma {:induction false} RunWellFormed(d: Dir, calls: seq<Append>)
    requires WellFormedDir(d)
    ensures WellFormedDir(Run(d, calls).dir)
    ensures forall a | a in Run(d, calls).dir.archives :: a in d.archives || exists i | 0 <= i < |calls| ::
              a == calls[i].ts
    decreases |calls|
  {
    if calls != [] {
      var init := calls[..|calls| - 1];
      RunWellFormed(d, init);
      AppendWellFormed(Run(d, init).dir, calls[|calls| - 1]);
      forall a | a in Run(d, calls).dir.archives && a !in d.archives
        ensures exists i | 0 <= i < |calls| :: a == calls[i].ts
      {
        if a in Run(d, init).dir.archives {
          var i :| 0 <= i < |init| && a == init[i].ts;
          assert calls[i].ts == a;
        }
      }
    }
  }

  lemma StampsStayFresh(d: Dir, init: seq<Append>, last: Append)
    requires WellFormedDir(d) && FreshStamps(d, init + [last])
    ensures FreshStamps(d, init) && WellFormedDir(Run(d, init).dir)
    ensures forall a | a in Run(d, init).dir.archives :: a < last.ts
  {
    var calls := init + [last];
    assert calls[|init|] == last;
    assert forall i | 0 <= i < |init| :: init[i] == calls[i];
    RunWellFormed(d, init);
  }

  /**
   * Over a whole run with strictly increasing timestamps: pruned lines, then archives oldest first,
   * then the live file, are the starting contents followed by the appended lines, in order, nothing
   * lost or repeated.
   */
  lemma {:induction false} RunKeepsOrder(d: Dir, calls: seq<Append>)
    requires WellFormedDir(d) && FreshStamps(d, calls)
    ensures Run(d, calls).dropped + History(Run(d, calls).dir) == History(d) + LinesAppended(calls)
    decreases |calls|
  {
    if calls == [] {
      assert LinesAppended(calls) == [];
    } else {
      var init, last := calls[..|calls| - 1], calls[|calls| - 1];
      assert calls == init + [last];
      var before := Run(d, init);
      StampsStayFresh(d, init, last);
      RunKeepsOrder(d, init);
      LinesOn(init, last);
      RunOn(d, init, last);
      AppendOnce(History(d), LinesAppended(init), before, last);
    }
  }

  lemma LinesOn(init: seq<Append>, last: Append)
    ensures LinesAppended(init + [last]) == LinesAppended(init) + [last.line]
  {
  }

  lemma RunOn(d: Dir, init: seq<Append>, last: Append)
    requires d.live.Some? ==> d.live.value < |d.files|
    ensures Run(d, init + [last]) ==
            Outcome(Appended(Run(d, init).dir, last), Run(d, init).dropped + Dropped(Run(d, init).dir, last))
  {
    assert (init + [last])[..|init|] == init;
  }

  lemma AppendOnce(start: seq<Line>, lines: seq<Line>, before: Outcome, call: Append)
    requires WellFormedDir(before.dir) && forall a | a in before.dir.archives :: a < call.ts
    requires before.dropped + History(before.dir) == start + lines
    ensures (before.dropped + Dropped(before.dir, call)) + History(Appended(before.dir, call)) ==
              start + (lines + [call.line])
  {
    AppendKeepsOrder(before.dir, call);
    Reassemble(start, lines, [call.line], before.dropped, History(before.dir),
               Dropped(before.dir, call), History(Appended(before.dir, call)));
  }

  lemma Reassemble<T>(start: seq<T>, lines: seq<T>, line: seq<T>, dropped: seq<T>, held: seq<T>, more: seq<T>,
                      now: seq<T>)
    requires dropped + held == start + lines && held + line == more + now
    ensures (dropped + more) + now == start + (lines + line)
  {
    calc {
      (dropped + more) + now;
      dropped + (more + now);
      (dropped + held) + line;
      start + (lines + line);
    }
  }

  /** Before every append the live file, with all lines so far, is within that call's limit. */
  predicate StaysSmall(d: Dir, calls: seq<Append>) {
    forall i | 0 <= i < |calls| :: Bytes(LiveLines(d) + LinesAppended(calls[..i])) <= calls[i].max
  }

  lemma StillSmall(d: Dir, init: seq<Append>, last: Append)
    requires StaysSmall(d, init + [last])
    ensures StaysSmall(d, init) && Bytes(LiveLines(d) + LinesAppended(init)) <= last.max
  {
    var calls := init + [last];
    forall i | 0 <= i < |init| ensures Bytes(LiveLines(d) + LinesAppended(init[..i])) <= init[i].max {
      assert calls[..i] == init[..i] && calls[i] == init[i];
    }
    assert calls[..|init|] == init && calls[|init|] == last;
  }

  lemma OneMore(a: seq<Line>, b: seq<Line>, line: Line)
    ensures a + (b + [line]) == (a + b) + [line]
  {
  }

  /** Nothing dropped, the archives as they were, and these lines more in the live file. */
  predicate OnlyAdded(d: Dir, o: Outcome, lines: seq<Line>)
    requires (d.live.Some? ==> d.live.value < |d.files|) && (o.dir.live.Some? ==> o.dir.live.value < |o.dir.files|)
  {
    o.dropped == [] && o.dir.archives == d.archives && LiveLines(o.dir) == LiveLines(d) + lines
  }

  lemma OnlyAddedOn(d: Dir, before: Outcome, lines: seq<Line>, call: Append)
    requires (d.live.Some? ==> d.live.value < |d.files|)
    requires (before.dir.live.Some? ==> before.dir.live.value < |before.dir.files|)
    requires OnlyAdded(d, before, lines) && Bytes(LiveLines(before.dir)) <= call.max
    ensures OnlyAdded(d, Outcome(Appended(before.dir, call), before.dropped + Dropped(before.dir, call)),
                      lines + [call.line])
  {
    SmallLogStays(before.dir, call);
    OneMore(LiveLines(d), lines, call.line);
  }

  /** As long as the live file never passes the limit, a run drops nothing, archives nothing and adds every line. */
  lemma {:induction false} SmallRunStays(d: Dir, calls: seq<Append>)
    requires (d.live.Some? ==> d.live.value < |d.files|) && StaysSmall(d, calls)
    ensures OnlyAdded(d, Run(d, calls), LinesAppended(calls))
    decreases |calls|
  {
    if calls == [] {
      assert LiveLines(d) + LinesAppended(calls) == LiveLines(d);
    } else {
      var init, last := calls[..|calls| - 1], calls[|calls| - 1];
      assert calls == init + [last];
      StillSmall(d, init, last);
      SmallRunStays(d, init);
      RunOn(d, init, last);
      LinesOn(init, last);
      OnlyAddedOn(d, Run(d, init), LinesAppended(init), last);
    }
  }

  /** Under one retention setting, whatever the timestamps, the number of archives never passes it. */
  lemma {:induction false} RunKeepsBound(d: Dir, calls: seq<Append>, keep: int)
    requires d.live.Some? ==> d.live.value < |d.files|
    requires keep > 0 && |d.archives.Keys| <= keep && forall i | 0 <= i < |calls| :: calls[i].keep == keep
    ensures |Run(d, calls).dir.archives.Keys| <= keep
    decreases |calls|
  {
    if calls != [] {
      RunKeepsBound(d, calls[..|calls| - 1], keep);
      ArchivesBounded(Run(d, calls[..|calls| - 1]).dir, calls[|calls| - 1]);
    }
  }

  // ---------------------------------------------------------------------------------------
  // The same thing as a run of the shared protocol
  // ---------------------------------------------------------------------------------------

  /** The steps of one process, with nothing in between, from one state of the protocol to another. */
  ghost predicate Alone(s: State, p: nat, events: seq<Event>, after: State)
    decreases |events|
  {
    if events == [] then after == s
    else
      && events[0].p == p && Enabled(s, events[0]) && (s.dir.live.Some? ==> s.dir.live.value < |s.dir.files|)
      && Alone(Next(s, events[0]), p, events[1..], after)
  }

  lemma AloneStep(s: State, p: nat, e: Event, events: seq<Event>, after: State)
    requires e.p == p && Enabled(s, e) && (s.dir.live.Some? ==> s.dir.live.value < |s.dir.files|)
    requires Alone(Next(s, e), p, events, after)
    ensures Alone(s, p, [e] + events, after)
  {
    assert ([e] + events)[1..] == events;
  }

  /** Opening and writing put the line at the end of the live file. */
  lemma FinishAlone(s: State, p: nat) returns (events: seq<Event>, after: State)
    requires p < |s.procs| && s.procs[p].Opening? && (s.dir.live.Some? ==> s.dir.live.value < |s.dir.files|)
    ensures Alone(s, p, events, after) && after.dir == WithLine(s.dir, s.procs[p].line) && p < |after.procs|
              && after.procs[p].Idle?
  {
    var ready := Next(s, Open(p));
    after := Next(ready, Write(p));
    AloneStep(ready, p, Write(p), [], after);
    AloneStep(s, p, Open(p), [Write(p)], after);
    events := [Open(p), Write(p)];
    assert events == [Open(p)] + [Write(p)] && [Write(p)] == [Write(p)] + [];
  }

  /** Pruning removes the listed names one by one, in whatever order. */
  lemma PruneAlone(s: State, p: nat) returns (events: seq<Event>, after: State)
    requires p < |s.procs| && s.procs[p].Pruning? && s.dir.live.None?
    ensures Alone(s, p, events, after) && p < |after.procs| && after.procs[p].Idle?
    ensures after.dir == WithLine(s.dir.(archives := s.dir.archives - s.procs[p].stale), s.procs[p].line)
    decreases |s.procs[p].stale|
  {
    var stale := s.procs[p].stale;
    if stale == {} {
      var next := Next(s, PruneDone(p));
      var rest;
      rest, after := FinishAlone(next, p);
      AloneStep(s, p, PruneDone(p), rest, after);
      events := [PruneDone(p)] + rest;
      assert s.dir.archives - stale == s.dir.archives;
    } else {
      var name :| name in stale;
      var next := Next(s, Remove(p, name));
      RemovedOne(s, p, name);
      var rest;
      rest, after := PruneAlone(next, p);
      AloneStep(s, p, Remove(p, name), rest, after);
      events := [Remove(p, name)] + rest;
    }
  }

  lemma RemovedOne(s: State, p: nat, name: nat)
    requires p < |s.procs| && s.procs[p].Pruning? && s.dir.live.None? && name in s.procs[p].stale
    ensures var next, stale := Next(s, Remove(p, name)), s.procs[p].stale;
            && p < |next.procs| && next.procs[p] == s.procs[p].(stale := stale - {name}) && next.dir.live.None?
            && next.dir.(archives := next.dir.archives - (stale - {name})) == s.dir.(archives := s.dir.archives - stale)
  {
    var next, stale := Next(s, Remove(p, name)), s.procs[p].stale;
    assert next.dir.archives - (stale - {name}) == s.dir.archives - stale;
  }

  /**
   * `append_pipeline_event` run without interruption is one run of the protocol that any number of
   * processes share: its steps lead to just the directory that the sequential operation leaves.
   */
  lemma AppendIsProtocolRun(s: State, p: nat, call: Append) returns (events: seq<Event>, after: State)
    requires p < |s.procs| && s.procs[p].Idle? && WellFormedDir(s.dir)
    ensures Alone(s, p, events, after) && after.dir == Appended(s.dir, call) && p < |after.procs|
              && after.procs[p].Idle?
  {
    var start := EventLog.Call(p, call.line, call.max, call.keep);
    var called := Next(s, start);
    var stated := Next(called, Stat(p));
    var rest;
    if Oversized(s.dir, call.max) {
      var renamed := Next(stated, Rename(p, call.ts));
      var globbed := Next(renamed, Glob(p));
      rest, after := PruneAlone(globbed, p);
      AloneStep(renamed, p, Glob(p), rest, after);
      AloneStep(stated, p, Rename(p, call.ts), [Glob(p)] + rest, after);
      rest := [Rename(p, call.ts)] + ([Glob(p)] + rest);
    } else {
      rest, after := FinishAlone(stated, p);
    }
    AloneStep(called, p, Stat(p), rest, after);
    AloneStep(s, p, start, [Stat(p)] + rest, after);
    events := [start] + ([Stat(p)] + rest);
  }
}
