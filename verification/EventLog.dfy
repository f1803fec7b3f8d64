/** The rotating event log, autodev/pipeline/event_log.py: processes interleaved at every file operation. */
module EventLog {
  import opened Json

  type Line = string

  /** The live name and the archive names (by timestamp), each leading to a file number. */
  datatype Dir = Dir(live: Option<nat>, archives: map<nat, nat>, files: seq<seq<Line>>)

  function Bytes(lines: seq<Line>): nat {
    if lines == [] then 0 else Bytes(lines[..|lines| - 1]) + |lines[|lines| - 1]| + 1
  }

  ghost predicate WellFormedDir(d: Dir) {
    && (d.live.Some? ==> d.live.value < |d.files|)
    && (forall a | a in d.archives :: d.archives[a] < |d.files|)
    && (forall a | a in d.archives :: d.live != Some(d.archives[a]))
    && (forall a, b | a in d.archives && b in d.archives && a != b :: d.archives[a] != d.archives[b])
  }

  ghost predicate Named(d: Dir, i: nat) {
    d.live == Some(i) || exists a | a in d.archives :: d.archives[a] == i
  }

  /** `os.replace(live, archive)`: whatever the archive name led to before loses that name. */
  function RenameLive(d: Dir, ts: nat): Dir
    requires d.live.Some?
  {
    Dir(None, d.archives[ts := d.live.value], d.files)
  }

  function RemoveArchive(d: Dir, a: nat): Dir {
    d.(archives := d.archives - {a})
  }

  /** `open(path, "a")`: an absent live file is created. */
  function OpenLive(d: Dir): Dir {
    if d.live.Some? then d else Dir(Some(|d.files|), d.archives, d.files + [[]])
  }

  function WriteLine(d: Dir, i: nat, line: Line): Dir
    requires i < |d.files|
  {
    d.(files := d.files[i := d.files[i] + [line]])
  }

  function Newer(names: set<nat>, a: nat): set<nat> {
    set b | b in names && b > a
  }

  /** The archives beyond the `keep` newest ones. */
  function Stale(names: set<nat>, keep: int): set<nat> {
    set a | a in names && |Newer(names, a)| >= keep
  }

  // ---------------------------------------------------------------------------------------
  // The processes
  // ---------------------------------------------------------------------------------------

  /** Where a process is inside `append_pipeline_event`. */
  datatype Phase =
    | Idle
    | Stating(line: Line, max: int, keep: int)
    | Renaming(line: Line, keep: int)
    | Globbing(line: Line, keep: int)
    | Pruning(line: Line, keep: int, stale: set<nat>)
    | Opening(line: Line)
    | Writing(line: Line, file: nat)

  datatype Written = Written(file: nat, line: Line)

  datatype Removal = Removal(name: nat, keep: int)

  /**
   * The directory and the processes; then what only observes the run: the writes in order, the
   * archive names ever created, the removals pruning made, the files those removals unnamed, and
   * the files that lost their name because a rename took it.
   */
  datatype State = State(
    dir: Dir, procs: seq<Phase>,
    log: seq<Written>, created: set<nat>, removals: set<Removal>, pruned: set<nat>, overwritten: set<nat>)

  /**
   * The scheduler's choice. A failing stat or rename is swallowed and the append goes on (`Pass`), and
   * so is a failing removal (`Spare`); `Fail` is the open or the write raising, which ends the call, or
   * the process dying, at any point.
   */
  datatype Event =
    | Call(p: nat, line: Line, max: int, keep: int)
    | Stat(p: nat)
    | Rename(p: nat, ts: nat)
    | Glob(p: nat)
    | Remove(p: nat, name: nat)
    | Pass(p: nat)
    | Spare(p: nat, name: nat)
    | PruneDone(p: nat)
    | Open(p: nat)
    | Write(p: nat)
    | Fail(p: nat)

  predicate Enabled(s: State, e: Event) {
    && e.p < |s.procs|
    && var phase := s.procs[e.p];
       match e
       case Call(_, _, _, _) => phase.Idle?
       case Stat(_) => phase.Stating?
       case Rename(_, _) => phase.Renaming?
       case Glob(_) => phase.Globbing?
       case Remove(_, name) => phase.Pruning? && name in phase.stale
       case Pass(_) => phase.Stating? || phase.Renaming?
       case Spare(_, name) => phase.Pruning? && name in phase.stale
       case PruneDone(_) => phase.Pruning? && phase.stale == {}
       case Open(_) => phase.Opening?
       case Write(_) => phase.Writing? && phase.file < |s.dir.files|
       case Fail(_) => true
  }

  /** The rename finds its archive name already taken. */
  predicate Collides(s: State, e: Event) {
    e.Rename? && s.dir.live.Some? && e.ts in s.dir.archives
  }

  function Next(s: State, e: Event): State
    requires Enabled(s, e) && (s.dir.live.Some? ==> s.dir.live.value < |s.dir.files|)
  {
    var phase := s.procs[e.p];
    match e
    case Call(_, line, max, keep) => s.(procs := s.procs[e.p := Stating(line, max, keep)])
    case Stat(_) =>
      if s.dir.live.None? || Bytes(s.dir.files[s.dir.live.value]) <= phase.max
      then s.(procs := s.procs[e.p := Opening(phase.line)])
      else s.(procs := s.procs[e.p := Renaming(phase.line, phase.keep)])
    case Rename(_, ts) =>
      if s.dir.live.None? then s.(procs := s.procs[e.p := Opening(phase.line)])
      else
        s.(dir := RenameLive(s.dir, ts),
           procs := s.procs[e.p := Globbing(phase.line, phase.keep)],
           created := s.created + {ts},
           overwritten := if ts in s.dir.archives then s.overwritten + {s.dir.archives[ts]} else s.overwritten)
    case Glob(_) =>
      s.(procs := s.procs[e.p := Pruning(phase.line, phase.keep, Stale(s.dir.archives.Keys, phase.keep))])
    case Remove(_, name) =>
      var next := s.(procs := s.procs[e.p := phase.(stale := phase.stale - {name})]);
      if name in s.dir.archives then
        next.(dir := RemoveArchive(s.dir, name),
              removals := s.removals + {Removal(name, phase.keep)},
              pruned := s.pruned + {s.dir.archives[name]})
      else next
    case Pass(_) => s.(procs := s.procs[e.p := Opening(phase.line)])
    case Spare(_, name) => s.(procs := s.procs[e.p := phase.(stale := phase.stale - {name})])
    case PruneDone(_) => s.(procs := s.procs[e.p := Opening(phase.line)])
    case Open(_) =>
      var dir := OpenLive(s.dir);
      s.(dir := dir, procs := s.procs[e.p := Writing(phase.line, dir.live.value)])
    case Write(_) =>
      s.(dir := WriteLine(s.dir, phase.file, phase.line),
         procs := s.procs[e.p := Idle],
         log := s.log + [Written(phase.file, phase.line)])
    case Fail(_) => s.(procs := s.procs[e.p := Idle])
  }

  /** A process goes on to append at once if it finds the file absent or within its limit, and rotates else. */
  lemma StatDecides(s: State, p: nat)
    requires Enabled(s, Stat(p)) && (s.dir.live.Some? ==> s.dir.live.value < |s.dir.files|)
    ensures Next(s, Stat(p)).dir == s.dir
    ensures Next(s, Stat(p)).procs[p] ==
            if s.dir.live.Some? && Bytes(s.dir.files[s.dir.live.value]) > s.procs[p].max
            then Renaming(s.procs[p].line, s.procs[p].keep) else Opening(s.procs[p].line)
  {
  }

  /** A start over any directory with empty files, so that every line is accounted for by the run. */
  ghost predicate Initial(s: State) {
    && WellFormedDir(s.dir)
    && (forall i | 0 <= i < |s.dir.files| :: s.dir.files[i] == [] && Named(s.dir, i))
    && (forall p | 0 <= p < |s.procs| :: s.procs[p].Idle?)
    && s.log == [] && s.created == s.dir.archives.Keys && s.removals == {} && s.pruned == {} && s.overwritten == {}
  }

  /** `s` is reached by these events; `collisions` counts the renames that found their name taken. */
  ghost predicate Reaches(events: seq<Event>, s: State, collisions: nat)
    decreases |events|
  {
    if events == [] then Initial(s) && collisions == 0
    else
      var last := |events| - 1;
      exists before, c: nat ::
        && Reaches(events[..last], before, c)
        && WellFormedDir(before.dir) && Enabled(before, events[last]) && s == Next(before, events[last])
        && collisions == c + if Collides(before, events[last]) then 1 else 0
  }

  // ---------------------------------------------------------------------------------------
  // What every interleaving keeps
  // ---------------------------------------------------------------------------------------

  /** The lines written to one file, in the order of the writes. */
  function LinesOf(log: seq<Written>, i: nat): seq<Line>
    decreases |log|
  {
    if log == [] then []
    else
      var last := log[|log| - 1];
      LinesOf(log[..|log| - 1], i) + if last.file == i then [last.line] else []
  }

  /** Each file holds exactly the lines written to it, in order. */
  ghost predicate FilesInv(s: State) {
    && WellFormedDir(s.dir)
    && (forall i | 0 <= i < |s.dir.files| :: s.dir.files[i] == LinesOf(s.log, i))
    && (forall t | 0 <= t < |s.log| :: s.log[t].file < |s.dir.files|)
    && (forall p | 0 <= p < |s.procs| && s.procs[p].Writing? :: s.procs[p].file < |s.dir.files|)
  }

  /** Every file is live, archived, pruned or overwritten, and only one of these. */
  ghost predicate NamesInv(s: State) {
    && (forall i | 0 <= i < |s.dir.files| :: Named(s.dir, i) || i in s.pruned || i in s.overwritten)
    && (forall i | i in s.pruned || i in s.overwritten :: i < |s.dir.files| && !Named(s.dir, i))
    && s.pruned !! s.overwritten
  }

  /** Whatever pruning removed, or is about to remove, has `keep` newer archives among those ever created. */
  ghost predicate PruneInv(s: State) {
    && s.dir.archives.Keys <= s.created
    && (forall r | r in s.removals :: |Newer(s.created, r.name)| >= r.keep)
    && (forall p, a | 0 <= p < |s.procs| && s.procs[p].Pruning? && a in s.procs[p].stale ::
          |Newer(s.created, a)| >= s.procs[p].keep)
  }

  lemma NewerGrows(names: set<nat>, more: set<nat>, a: nat)
    requires names <= more
    ensures |Newer(names, a)| <= |Newer(more, a)|
  {
    SubsetSize(Newer(names, a), Newer(more, a));
  }

  lemma SubsetSize(a: set<nat>, b: set<nat>)
    requires a <= b
    ensures |a| <= |b|
    decreases |a|
  {
    if a != {} {
      var x :| x in a;
      SubsetSize(a - {x}, b - {x});
    }
  }

  lemma FilesStep(s: State, e: Event)
    requires FilesInv(s) && Enabled(s, e)
    ensures FilesInv(Next(s, e))
  {
    if e.Write? {
      WriteFiles(s, Next(s, e), s.procs[e.p].file, s.procs[e.p].line);
    } else if e.Open? {
      OpenFiles(s, e);
    } else if e.Rename? || e.Remove? {
      NamesOnly(s, e);
    }
  }

  lemma OpenFiles(s: State, e: Event)
    requires FilesInv(s) && Enabled(s, e) && e.Open?
    ensures FilesInv(Next(s, e))
  {
    if s.dir.live.None? { NothingWritten(s.log, |s.dir.files|); }
  }

  lemma NamesOnly(s: State, e: Event)
    requires FilesInv(s) && Enabled(s, e) && (e.Rename? || e.Remove?)
    ensures FilesInv(Next(s, e))
  {
    assert WellFormedDir(Next(s, e).dir);
  }

  lemma WriteFiles(s: State, s': State, file: nat, line: Line)
    requires FilesInv(s) && file < |s.dir.files|
    requires s'.dir == WriteLine(s.dir, file, line) && s'.log == s.log + [Written(file, line)]
    requires |s'.procs| == |s.procs|
    requires forall p | 0 <= p < |s.procs| :: s'.procs[p] == s.procs[p] || s'.procs[p].Idle?
    ensures FilesInv(s')
  {
    assert s'.log[..|s.log|] == s.log;
    forall i | 0 <= i < |s'.dir.files| ensures s'.dir.files[i] == LinesOf(s'.log, i) {
      assert LinesOf(s'.log, i) == LinesOf(s.log, i) + if file == i then [line] else [];
    }
  }

  lemma {:induction false} NothingWritten(log: seq<Written>, i: nat)
    requires forall t | 0 <= t < |log| :: log[t].file < i
    ensures LinesOf(log, i) == []
    decreases |log|
  {
    if log != [] { NothingWritten(log[..|log| - 1], i); }
  }

  lemma NamesStep(s: State, e: Event)
    requires WellFormedDir(s.dir) && NamesInv(s) && Enabled(s, e)
    ensures NamesInv(Next(s, e))
    ensures Next(s, e).overwritten == s.overwritten + if Collides(s, e) then {s.dir.archives[e.ts]} else {}
    ensures Collides(s, e) ==> s.dir.archives[e.ts] !in s.overwritten
  {
    var s' := Next(s, e);
    if Collides(s, e) { assert Named(s.dir, s.dir.archives[e.ts]); }
    if e.Rename? && s.dir.live.Some? {
      RenameNames(s, s', e.ts);
    } else if e.Remove? && e.name in s.dir.archives {
      RemoveNames(s, s', e.name);
    } else if e.Open? && s.dir.live.None? {
      assert Named(s'.dir, |s.dir.files|);
      forall i | 0 <= i < |s.dir.files| ensures Named(s'.dir, i) <==> Named(s.dir, i) {
      }
    } else {
      forall i: nat ensures Named(s'.dir, i) <==> Named(s.dir, i) {
      }
    }
  }

  lemma RenameNames(s: State, s': State, ts: nat)
    requires WellFormedDir(s.dir) && NamesInv(s) && s.dir.live.Some? && s'.dir == RenameLive(s.dir, ts)
    requires s'.pruned == s.pruned
    requires s'.overwritten == s.overwritten + if ts in s.dir.archives then {s.dir.archives[ts]} else {}
    ensures NamesInv(s')
  {
    var victim := if ts in s.dir.archives then {s.dir.archives[ts]} else {};
    if ts in s.dir.archives { assert Named(s.dir, s.dir.archives[ts]); }
    forall i | 0 <= i < |s.dir.files| ensures Named(s'.dir, i) <==> Named(s.dir, i) && i !in victim {
      if s.dir.live == Some(i) {
        assert s'.dir.archives[ts] == i;
      } else if Named(s.dir, i) {
        var a :| a in s.dir.archives && s.dir.archives[a] == i;
        if a != ts { assert s'.dir.archives[a] == i; }
      }
    }
  }

  lemma RemoveNames(s: State, s': State, name: nat)
    requires WellFormedDir(s.dir) && NamesInv(s) && name in s.dir.archives && s'.dir == RemoveArchive(s.dir, name)
    requires s'.pruned == s.pruned + {s.dir.archives[name]} && s'.overwritten == s.overwritten
    ensures NamesInv(s')
  {
    var victim := s.dir.archives[name];
    assert Named(s.dir, victim);
    forall i | 0 <= i < |s.dir.files| ensures Named(s'.dir, i) <==> Named(s.dir, i) && i != victim {
      if Named(s.dir, i) && s.dir.live != Some(i) {
        var a :| a in s.dir.archives && s.dir.archives[a] == i;
        if a != name { assert s'.dir.archives[a] == i; }
      }
    }
  }

  lemma PruneStep(s: State, e: Event)
    requires WellFormedDir(s.dir) && PruneInv(s) && Enabled(s, e)
    ensures PruneInv(Next(s, e))
  {
    var s' := Next(s, e);
    forall a: nat ensures |Newer(s.created, a)| <= |Newer(s'.created, a)| {
      NewerGrows(s.created, s'.created, a);
    }
    if e.Glob? {
      forall a | a in Stale(s.dir.archives.Keys, s.procs[e.p].keep)
        ensures |Newer(s.created, a)| >= s.procs[e.p].keep
      {
        NewerGrows(s.dir.archives.Keys, s.created, a);
      }
    }
  }

  ghost predicate Inv(s: State) {
    FilesInv(s) && NamesInv(s) && PruneInv(s)
  }

  lemma StepInv(s: State, e: Event)
    requires Inv(s) && Enabled(s, e)
    ensures Inv(Next(s, e))
    ensures |Next(s, e).overwritten| == |s.overwritten| + if Collides(s, e) then 1 else 0
  {
    FilesStep(s, e);
    NamesStep(s, e);
    PruneStep(s, e);
  }

  lemma {:induction false} ReachableInv(events: seq<Event>, s: State, collisions: nat)
    requires Reaches(events, s, collisions)
    ensures Inv(s) && |s.overwritten| == collisions
    decreases |events|
  {
    if events != [] {
      var last := |events| - 1;
      var before, c: nat :|
        && Reaches(events[..last], before, c)
        && WellFormedDir(before.dir) && Enabled(before, events[last]) && s == Next(before, events[last])
        && collisions == c + if Collides(before, events[last]) then 1 else 0;
      ReachableInv(events[..last], before, c);
      StepInv(before, events[last]);
    }
  }

  // ---------------------------------------------------------------------------------------
  // Main results
  // ---------------------------------------------------------------------------------------

  /** The place of the `t`-th write among the writes to the same file. */
  function Rank(log: seq<Written>, t: nat): nat
    requires t < |log|
  {
    |LinesOf(log[..t], log[t].file)|
  }

  lemma {:induction false} LinesGrow(log: seq<Written>, t: nat, i: nat)
    requires t <= |log|
    ensures LinesOf(log[..t], i) <= LinesOf(log, i)
    decreases |log|
  {
    if t < |log| {
      LinesGrow(log[..|log| - 1], t, i);
      assert log[..|log| - 1][..t] == log[..t];
    } else {
      assert log[..t] == log;
    }
  }

  /** The writes to a file are one for one its lines. */
  lemma LineAt(log: seq<Written>, t: nat)
    requires t < |log|
    ensures Rank(log, t) < |LinesOf(log, log[t].file)|
    ensures LinesOf(log, log[t].file)[Rank(log, t)] == log[t].line
  {
    var i := log[t].file;
    LinesGrow(log, t + 1, i);
    assert log[..t + 1][..t] == log[..t];
    assert LinesOf(log[..t + 1], i) == LinesOf(log[..t], i) + [log[t].line];
  }

  lemma {:induction false} RankInjective(log: seq<Written>, t: nat, u: nat)
    requires t < u < |log| && log[t].file == log[u].file
    ensures Rank(log, t) < Rank(log, u)
  {
    LineAt(log[..u], t);
    assert log[..u][..t] == log[..t];
  }

  /**
   * Conservation, over every interleaving of any number of processes, with failures anywhere: each
   * written event sits in one file, at a place of its own, and never moves; nothing else is in any
   * file. A file is live, archived or was pruned, unless its archive name was overwritten; that
   * happened to as many files as there were renames onto a taken name.
   */
  lemma EventsConserved(events: seq<Event>, s: State, collisions: nat)
    requires Reaches(events, s, collisions)
    ensures forall t | 0 <= t < |s.log| ::
              s.log[t].file < |s.dir.files|
              && Rank(s.log, t) < |s.dir.files[s.log[t].file]|
              && s.dir.files[s.log[t].file][Rank(s.log, t)] == s.log[t].line
    ensures forall t, u | 0 <= t < u < |s.log| && s.log[t].file == s.log[u].file :: Rank(s.log, t) < Rank(s.log, u)
    ensures forall i | 0 <= i < |s.dir.files| :: s.dir.files[i] == LinesOf(s.log, i)
    ensures collisions == 0 <==> forall i | 0 <= i < |s.dir.files| :: Named(s.dir, i) || i in s.pruned
    ensures forall i | i in s.pruned :: !Named(s.dir, i)
  {
    ReachableInv(events, s, collisions);
    forall t | 0 <= t < |s.log|
      ensures s.log[t].file < |s.dir.files|
           && Rank(s.log, t) < |s.dir.files[s.log[t].file]|
           && s.dir.files[s.log[t].file][Rank(s.log, t)] == s.log[t].line
    {
      LineAt(s.log, t);
    }
    forall t, u | 0 <= t < u < |s.log| && s.log[t].file == s.log[u].file ensures Rank(s.log, t) < Rank(s.log, u) {
      RankInjective(s.log, t, u);
    }
    if collisions > 0 {
      var i :| i in s.overwritten;
      assert i < |s.dir.files| && !Named(s.dir, i) && i !in s.pruned;
    }
  }

  /** A write moves nothing that was written before: every file only grows. */
  lemma FilesOnlyGrow(s: State, e: Event)
    requires WellFormedDir(s.dir) && Enabled(s, e)
    ensures |s.dir.files| <= |Next(s, e).dir.files|
    ensures forall i | 0 <= i < |s.dir.files| :: s.dir.files[i] <= Next(s, e).dir.files[i]
  {
  }

  /**
   * Pruning is safe, whatever the interleaving: it never unnames the live file, and any archive a
   * call with retention `keep` removed has `keep` newer ones among all the archives ever created.
   */
  lemma PruningKeepsNewest(events: seq<Event>, s: State, collisions: nat)
    requires Reaches(events, s, collisions)
    ensures forall r | r in s.removals :: |Newer(s.created, r.name)| >= r.keep
    ensures s.dir.live.Some? ==> s.dir.live.value !in s.pruned
  {
    ReachableInv(events, s, collisions);
    if s.dir.live.Some? { assert Named(s.dir, s.dir.live.value); }
  }
}
