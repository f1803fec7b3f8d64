/**
 * The optimistic-concurrency loop of autodev/pipeline/queue_semantics.py: how one call of
 * `mutate_queue` behaves against any sequence of observations, and what any number of such calls,
 * interleaved step by step over one file, do to the queue.
 */
module QueueSemantics {
  import opened Json

  type Queue = map<string, J>

  const VERSION_KEY := "queue_version"

  /** The version of a queue; a missing, non-integer, boolean or negative one reads as 0. */
  function ReadVersion(q: Queue): nat {
    if VERSION_KEY in q && q[VERSION_KEY].Int? && q[VERSION_KEY].n >= 0 then q[VERSION_KEY].n else 0
  }

  function Bump(q: Queue): (r: Queue)
    ensures ReadVersion(r) == ReadVersion(q) + 1
    ensures r - {VERSION_KEY} == q - {VERSION_KEY}
  {
    q[VERSION_KEY := Int(ReadVersion(q) + 1)]
  }

  /** What the caller's function does with a freshly read queue: bail out, or change it and return a result. */
  datatype Mutation = Abort | Change(data: Queue, result: J)

  type MutateFn = Queue -> Mutation

  datatype Outcome = Committed(result: J) | Aborted | Tampered | Conflict

  /** The function changed the queue and kept its hands off the version. */
  predicate Genuine(fn: MutateFn, q: Queue) {
    fn(q).Change? && ReadVersion(fn(q).data) == ReadVersion(q)
  }

  // ---------------------------------------------------------------------------------------
  // One call against injected observations
  // ---------------------------------------------------------------------------------------

  /** Attempt `i` got as far as the comparison and lost it. */
  ghost predicate Contended(fn: MutateFn, observed: nat -> Queue, versions: nat -> nat, i: nat) {
    Genuine(fn, observed(i)) && versions(i) != ReadVersion(observed(i))
  }

  /** The answer to an attempt on queue `q` that was not contended, and what it writes. */
  ghost predicate Ends(fn: MutateFn, q: Queue, outcome: Outcome, written: Option<Queue>) {
    match outcome
    case Aborted => fn(q).Abort? && written.None?
    case Tampered => fn(q).Change? && ReadVersion(fn(q).data) != ReadVersion(q) && written.None?
    case Committed(result) =>
      && fn(q).Change? && ReadVersion(fn(q).data) == ReadVersion(q) && result == fn(q).result
      && written == Some(fn(q).data["queue_version" := Int(ReadVersion(q) + 1)])
    case Conflict => false
  }

  /** The answer and the write are determined. */
  lemma EndsOneWay(fn: MutateFn, q: Queue, a: Outcome, x: Option<Queue>, b: Outcome, y: Option<Queue>)
    requires Ends(fn, q, a, x) && Ends(fn, q, b, y)
    ensures a == b && x == y
  {
  }

  /** A queue whose version is missing, no integer, a boolean or negative counts as version 0: its first commit is 1. */
  lemma BumpStamps(q: Queue)
    ensures "queue_version" in Bump(q)
    ensures Bump(q)["queue_version"] ==
            if "queue_version" in q && q["queue_version"].Int? && q["queue_version"].n >= 0
            then Int(q["queue_version"].n + 1) else Int(1)
  {
  }

  /**
   * The retry loop, with the `i`-th fresh read and the `i`-th version comparison injected. It gives
   * up exactly when every attempt was contended; otherwise the first attempt that was not decides:
   * quietly, with nothing written, if the function bails out; with an error, and nothing written, if it
   * touches the version; else its result is returned and its queue written under the next version.
   */
  method MutateQueue(observed: nat -> Queue, versions: nat -> nat, fn: MutateFn, maxRetries: nat)
    returns (outcome: Outcome, written: Option<Queue>)
    ensures outcome.Conflict? <==> forall i | 0 <= i < maxRetries :: Contended(fn, observed, versions, i)
    ensures outcome.Conflict? ==> written.None?
    ensures !outcome.Conflict? ==>
      exists k | 0 <= k < maxRetries ::
        !Contended(fn, observed, versions, k) && Ends(fn, observed(k), outcome, written)
        && forall i | 0 <= i < k :: Contended(fn, observed, versions, i)
  {
    for attempt := 0 to maxRetries
      invariant forall i | 0 <= i < attempt :: Contended(fn, observed, versions, i)
    {
      var data := observed(attempt);
      var base := ReadVersion(data);
      var mutation := fn(data);
      if mutation.Abort? {
        assert !Contended(fn, observed, versions, attempt);
        return Aborted, None;
      }
      if ReadVersion(mutation.data) != base {
        assert !Contended(fn, observed, versions, attempt);
        return Tampered, None;
      }
      if versions(attempt) == base {
        assert !Contended(fn, observed, versions, attempt);
        return Committed(mutation.result), Some(Bump(mutation.data));
      }
    }
    return Conflict, None;
  }

  // ---------------------------------------------------------------------------------------
  // Any number of writers, step by step
  // ---------------------------------------------------------------------------------------

  datatype Phase =
    | Idle
    | Reading
    | Mutating(data: Queue)
    | Comparing(base: nat, data: Queue, result: J)
    | Replacing(data: Queue, result: J)
    | Done(outcome: Outcome)

  /**
   * One writer. The last three fields only observe the run: how many commits had happened when its
   * call started, when it last read, and when its comparison held.
   */
  datatype Writer = Writer(fn: MutateFn, max: nat, failed: nat, phase: Phase, startedAt: nat, readAt: nat,
                           comparedAt: nat)

  datatype Commit = Commit(writer: nat, fn: MutateFn)

  /**
   * The file and the writers. `history` holds every content the file ever had, `log` who replaced
   * it, and `overlapped` whether some replace landed between another writer's comparison and its
   * replace.
   */
  datatype State = State(writers: seq<Writer>, history: seq<Queue>, log: seq<Commit>, overlapped: bool) {
    ghost predicate Shaped() {
      |history| == |log| + 1
    }

    function Disk(): Queue
      requires history != []
    {
      history[|history| - 1]
    }
  }

  /** The scheduler's choice: which writer takes its next step; a resting writer starts a new call. */
  datatype Event =
    | Start(w: nat, fn: MutateFn, max: nat)
    | Read(w: nat)
    | Mutate(w: nat)
    | Compare(w: nat)
    | Replace(w: nat)

  predicate Enabled(s: State, e: Event) {
    && e.w < |s.writers|
    && var phase := s.writers[e.w].phase;
       match e
       case Start(_, _, _) => phase.Idle? || phase.Done?
       case Read(_) => phase.Reading?
       case Mutate(_) => phase.Mutating?
       case Compare(_) => phase.Comparing?
       case Replace(_) => phase.Replacing?
  }

  function Next(s: State, e: Event): (s': State)
    requires s.Shaped() && Enabled(s, e)
    ensures s'.Shaped()
  {
    var w := s.writers[e.w];
    var now := |s.log|;
    match e
    case Start(_, fn, max) =>
      s.(writers := s.writers[e.w := Writer(fn, max, 0, if max == 0 then Done(Conflict) else Reading, now, now, now)])
    case Read(_) =>
      s.(writers := s.writers[e.w := w.(phase := Mutating(s.Disk()), readAt := now)])
    case Mutate(_) =>
      var phase :=
        match w.fn(w.phase.data)
        case Abort => Done(Aborted)
        case Change(data, result) =>
          if Genuine(w.fn, w.phase.data) then Comparing(ReadVersion(w.phase.data), data, result) else Done(Tampered);
      s.(writers := s.writers[e.w := w.(phase := phase)])
    case Compare(_) =>
      if ReadVersion(s.Disk()) == w.phase.base then
        s.(writers := s.writers[e.w := w.(phase := Replacing(w.phase.data, w.phase.result), comparedAt := now)])
      else
        var phase := if w.failed + 1 == w.max then Done(Conflict) else Reading;
        s.(writers := s.writers[e.w := w.(phase := phase, failed := w.failed + 1)])
    case Replace(_) =>
      State(s.writers[e.w := w.(phase := Done(Committed(w.phase.result)))],
            s.history + [Bump(w.phase.data)],
            s.log + [Commit(e.w, w.fn)],
            s.overlapped || w.comparedAt != now)
  }

  ghost predicate Initial(s: State, q: Queue) {
    && s.history == [q] && s.log == [] && !s.overlapped
    && forall w | 0 <= w < |s.writers| :: s.writers[w].phase.Idle?
  }

  /** `s'` is reached from a start over queue `q` by some interleaving of any number of writers. */
  ghost predicate Reaches(q: Queue, events: seq<Event>, s': State)
    decreases |events|
  {
    if events == [] then Initial(s', q)
    else
      var last := |events| - 1;
      exists s :: Reaches(q, events[..last], s) && s.Shaped() && Enabled(s, events[last]) && s' == Next(s, events[last])
  }

  // ---------------------------------------------------------------------------------------
  // What every interleaving keeps
  // ---------------------------------------------------------------------------------------

  /** The writer holds what its function made of the queue it read. */
  ghost predicate Holds(s: State, w: Writer, data: Queue, result: J) {
    && w.readAt < |s.history|
    && Genuine(w.fn, s.history[w.readAt])
    && w.fn(s.history[w.readAt]) == Change(data, result)
  }

  ghost predicate WriterInv(s: State, w: Writer) {
    match w.phase
    case Idle => true
    case Reading => w.failed < w.max
    case Mutating(data) => w.failed < w.max && w.readAt < |s.history| && data == s.history[w.readAt]
    case Comparing(base, data, result) =>
      w.failed < w.max && Holds(s, w, data, result) && base == ReadVersion(s.history[w.readAt])
    case Replacing(data, result) =>
      && w.failed < w.max && Holds(s, w, data, result) && w.readAt <= w.comparedAt < |s.history|
      && ReadVersion(s.history[w.comparedAt]) == ReadVersion(s.history[w.readAt])
    case Done(outcome) => outcome.Conflict? ==> w.failed == w.max
  }

  /** The commits of the call so far: every failed comparison has its own, and all are other writers'. */
  ghost predicate ForeignInv(s: State, id: nat)
    requires id < |s.writers|
  {
    var w := s.writers[id];
    (!w.phase.Idle? && !(w.phase.Done? && w.phase.outcome.Committed?)) ==>
      && w.startedAt <= |s.log|
      && (forall i | w.startedAt <= i < |s.log| :: s.log[i].writer != id)
      && w.failed <= |s.log| - w.startedAt
      && (w.phase.Mutating? || w.phase.Comparing? || w.phase.Replacing? ==>
            w.startedAt <= w.readAt && w.failed <= w.readAt - w.startedAt)
  }

  /** Some commit wrote what its function made of a queue that had been current before. */
  ghost predicate GenuineWrite(s: State, i: nat)
    requires s.Shaped() && i < |s.log|
  {
    exists r | 0 <= r <= i ::
      Genuine(s.log[i].fn, s.history[r]) && s.history[i + 1] == Bump(s.log[i].fn(s.history[r]).data)
  }

  /** The `i`-th commit took the queue it found, applied its function and stamped the next version. */
  ghost predicate SerialWrite(s: State, i: nat)
    requires s.Shaped() && i < |s.log|
  {
    && Genuine(s.log[i].fn, s.history[i])
    && s.history[i + 1] == Bump(s.log[i].fn(s.history[i]).data)
  }

  ghost predicate Inv(q: Queue, s: State) {
    && s.Shaped() && s.history[0] == q
    && (forall w | 0 <= w < |s.writers| :: WriterInv(s, s.writers[w]) && ForeignInv(s, w))
    && (forall i | 0 <= i < |s.log| :: GenuineWrite(s, i))
    && (forall i | 0 <= i < |s.history| :: ReadVersion(s.history[i]) <= ReadVersion(q) + i)
    && (s.overlapped <==> ReadVersion(s.Disk()) < ReadVersion(q) + |s.log|)
    && (!s.overlapped ==> forall i | 0 <= i < |s.history| :: ReadVersion(s.history[i]) == ReadVersion(q) + i)
    && (!s.overlapped ==> forall i | 0 <= i < |s.log| :: SerialWrite(s, i))
  }

  /** A comparison either holds, and the queue read is current, or adds a failure and a foreign commit. */
  lemma ComparedWriter(q: Queue, s: State, e: Event)
    requires Inv(q, s) && Enabled(s, e) && e.Compare?
    ensures WriterInv(Next(s, e), Next(s, e).writers[e.w]) && ForeignInv(Next(s, e), e.w)
  {
    assert WriterInv(s, s.writers[e.w]) && ForeignInv(s, e.w);
  }

  /** The mutation works on what was read: a genuine change is held, anything else ends the call. */
  lemma MutatedWriter(q: Queue, s: State, e: Event)
    requires Inv(q, s) && Enabled(s, e) && e.Mutate?
    ensures WriterInv(Next(s, e), Next(s, e).writers[e.w]) && ForeignInv(Next(s, e), e.w)
  {
    assert WriterInv(s, s.writers[e.w]) && ForeignInv(s, e.w);
  }

  /** A step that writes nothing keeps the moving writer's part of the invariant. */
  lemma QuietWriter(q: Queue, s: State, e: Event)
    requires Inv(q, s) && Enabled(s, e) && !e.Replace?
    ensures var s' := Next(s, e);
            && s'.history == s.history && s'.log == s.log && s'.overlapped == s.overlapped
            && |s'.writers| == |s.writers|
            && (forall w | 0 <= w < |s.writers| && w != e.w :: s'.writers[w] == s.writers[w])
            && WriterInv(s', s'.writers[e.w]) && ForeignInv(s', e.w)
  {
    if e.Compare? {
      ComparedWriter(q, s, e);
    } else if e.Mutate? {
      MutatedWriter(q, s, e);
    } else {
      assert WriterInv(s, s.writers[e.w]) && ForeignInv(s, e.w);
    }
  }

  lemma QuietStep(q: Queue, s: State, e: Event)
    requires Inv(q, s) && Enabled(s, e) && !e.Replace?
    ensures Inv(q, Next(s, e))
  {
    var s' := Next(s, e);
    QuietWriter(q, s, e);
    SameFile(q, s, s', e.w);
  }

  lemma SameFile(q: Queue, s: State, s': State, id: nat)
    requires Inv(q, s) && s'.history == s.history && s'.log == s.log && s'.overlapped == s.overlapped
    requires |s'.writers| == |s.writers| && forall w | 0 <= w < |s.writers| && w != id :: s'.writers[w] == s.writers[w]
    requires id < |s.writers| && WriterInv(s', s'.writers[id]) && ForeignInv(s', id)
    ensures Inv(q, s')
  {
    forall w | 0 <= w < |s'.writers| ensures WriterInv(s', s'.writers[w]) && ForeignInv(s', w) {
      if w != id { assert WriterInv(s, s.writers[w]) && ForeignInv(s, w); }
    }
    forall i | 0 <= i < |s'.log| ensures GenuineWrite(s', i) && (!s'.overlapped ==> SerialWrite(s', i)) {
      assert GenuineWrite(s, i);
      assert !s.overlapped ==> SerialWrite(s, i);
    }
  }

  /** What a replace does to the state, in one place. */
  ghost predicate Replaced(s: State, s': State, id: nat) {
    && s.Shaped() && id < |s.writers| && s.writers[id].phase.Replacing?
    && s'.writers == s.writers[id := s.writers[id].(phase := Done(Committed(s.writers[id].phase.result)))]
    && s'.history == s.history + [Bump(s.writers[id].phase.data)]
    && s'.log == s.log + [Commit(id, s.writers[id].fn)]
    && s'.overlapped == (s.overlapped || s.writers[id].comparedAt != |s.log|)
  }

  lemma ReplaceWriters(q: Queue, s: State, s': State, id: nat)
    requires Inv(q, s) && Replaced(s, s', id)
    ensures forall v | 0 <= v < |s'.writers| :: WriterInv(s', s'.writers[v]) && ForeignInv(s', v)
  {
    forall v | 0 <= v < |s'.writers| ensures WriterInv(s', s'.writers[v]) && ForeignInv(s', v) {
      assert WriterInv(s, s.writers[v]) && ForeignInv(s, v);
      assert forall i | 0 <= i < |s.history| :: s'.history[i] == s.history[i];
    }
  }

  lemma ReplaceGenuine(q: Queue, s: State, s': State, id: nat)
    requires Inv(q, s) && Replaced(s, s', id)
    ensures s'.Shaped() && forall i | 0 <= i < |s'.log| :: GenuineWrite(s', i)
  {
    var w := s.writers[id];
    assert WriterInv(s, w);
    assert forall i | 0 <= i < |s.history| :: s'.history[i] == s.history[i];
    forall i | 0 <= i < |s'.log| ensures GenuineWrite(s', i) {
      if i < |s.log| {
        assert GenuineWrite(s, i);
      } else {
        assert Genuine(s'.log[i].fn, s'.history[w.readAt]);
      }
    }
  }

  /** Versions count commits, so without overlap the version it read, compared and found is one queue. */
  lemma ReplaceSerial(q: Queue, s: State, s': State, id: nat)
    requires Inv(q, s) && Replaced(s, s', id) && !s'.overlapped
    ensures forall i | 0 <= i < |s'.log| :: SerialWrite(s', i)
  {
    var w := s.writers[id];
    assert WriterInv(s, w);
    assert w.readAt == w.comparedAt == |s.log|;
    forall i | 0 <= i < |s'.log| ensures SerialWrite(s', i) {
      if i < |s.log| { assert SerialWrite(s, i); }
    }
  }

  lemma ReplaceVersions(q: Queue, s: State, s': State, id: nat)
    requires Inv(q, s) && Replaced(s, s', id)
    ensures s'.Shaped() && s'.history[0] == q
    ensures forall i | 0 <= i < |s'.history| :: ReadVersion(s'.history[i]) <= ReadVersion(q) + i
    ensures s'.overlapped <==> ReadVersion(s'.Disk()) < ReadVersion(q) + |s'.log|
    ensures !s'.overlapped ==> forall i | 0 <= i < |s'.history| :: ReadVersion(s'.history[i]) == ReadVersion(q) + i
  {
    var w := s.writers[id];
    assert WriterInv(s, w);
    assert forall i | 0 <= i < |s.history| :: s'.history[i] == s.history[i];
    assert ReadVersion(s'.Disk()) == ReadVersion(s.history[w.comparedAt]) + 1;
  }

  lemma ReplaceStep(q: Queue, s: State, e: Event)
    requires Inv(q, s) && Enabled(s, e) && e.Replace?
    ensures Inv(q, Next(s, e))
  {
    var s' := Next(s, e);
    assert Replaced(s, s', e.w);
    ReplaceWriters(q, s, s', e.w);
    ReplaceGenuine(q, s, s', e.w);
    ReplaceVersions(q, s, s', e.w);
    if !s'.overlapped { ReplaceSerial(q, s, s', e.w); }
  }

  lemma {:induction false} ReachableInv(q: Queue, events: seq<Event>, s: State)
    requires Reaches(q, events, s)
    ensures Inv(q, s)
    decreases |events|
  {
    if events != [] {
      var last := |events| - 1;
      var before :| Reaches(q, events[..last], before) && before.Shaped() && Enabled(before, events[last])
                    && s == Next(before, events[last]);
      ReachableInv(q, events[..last], before);
      if events[last].Replace? { ReplaceStep(q, before, events[last]); } else { QuietStep(q, before, events[last]); }
    }
  }

  // ---------------------------------------------------------------------------------------
  // Main results
  // ---------------------------------------------------------------------------------------

  /** The committed functions applied one after the other, each to what the previous one left. */
  function Serial(q: Queue, log: seq<Commit>): Option<Queue>
    decreases |log|
  {
    if log == [] then Some(q)
    else
      var last := |log| - 1;
      match Serial(q, log[..last])
      case None => None
      case Some(before) => if Genuine(log[last].fn, before) then Some(Bump(log[last].fn(before).data)) else None
  }

  lemma {:induction false} SerialPrefix(s: State, n: nat)
    requires s.Shaped() && n <= |s.log| && forall i | 0 <= i < |s.log| :: SerialWrite(s, i)
    ensures Serial(s.history[0], s.log[..n]) == Some(s.history[n])
  {
    if n > 0 {
      SerialPrefix(s, n - 1);
      assert s.log[..n][..n - 1] == s.log[..n - 1];
      assert SerialWrite(s, n - 1);
    }
  }

  lemma WithoutOverlap(q: Queue, s: State)
    requires Inv(q, s) && !s.overlapped
    ensures Serial(q, s.log) == Some(s.Disk())
    ensures forall i, j | 0 <= i < |s.history| && 0 <= j < |s.history|
              && ReadVersion(s.history[i]) == ReadVersion(s.history[j]) :: s.history[i] == s.history[j]
  {
    SerialPrefix(s, |s.log|);
    assert s.log[..|s.log|] == s.log;
  }

  /**
   * Serialisability. Over all interleavings of any number of writers: the version counts the
   * commits exactly when no replace landed inside another writer's compare-to-replace window, and
   * then the file is what the committed functions make of it in commit order and a version never
   * names two contents. With such an overlap the version stays behind the number of commits for good.
   */
  lemma Serialisable(q: Queue, events: seq<Event>, s: State)
    requires Reaches(q, events, s)
    ensures s.Shaped()
    ensures !s.overlapped <==> ReadVersion(s.Disk()) == ReadVersion(q) + |s.log|
    ensures ReadVersion(s.Disk()) <= ReadVersion(q) + |s.log|
    ensures !s.overlapped ==> Serial(q, s.log) == Some(s.Disk())
    ensures !s.overlapped ==>
              forall i, j | 0 <= i < |s.history| && 0 <= j < |s.history|
                && ReadVersion(s.history[i]) == ReadVersion(s.history[j]) :: s.history[i] == s.history[j]
  {
    ReachableInv(q, events, s);
    if !s.overlapped { WithoutOverlap(q, s); }
  }

  /** Even with overlaps, nothing but a genuine change of a queue once current is ever written. */
  lemma OnlyGenuineWrites(q: Queue, events: seq<Event>, s: State, i: nat)
    requires Reaches(q, events, s) && i < |s.log|
    ensures s.Shaped() && GenuineWrite(s, i)
  {
    ReachableInv(q, events, s);
  }

  /**
   * Progress. A call that gives up saw, since it started, at least as many commits by other writers
   * as it was allowed attempts.
   */
  lemma ConflictMeansContention(q: Queue, events: seq<Event>, s: State, id: nat)
    requires Reaches(q, events, s) && id < |s.writers| && s.writers[id].phase == Done(Conflict)
    ensures var w := s.writers[id];
            && w.startedAt + w.max <= |s.log|
            && forall i | w.startedAt <= i < |s.log| :: s.log[i].writer != id
  {
    ReachableInv(q, events, s);
    assert WriterInv(s, s.writers[id]) && ForeignInv(s, id);
  }

  // ---------------------------------------------------------------------------------------
  // One call undisturbed
  // ---------------------------------------------------------------------------------------

  /** Steps of one writer only, from `s` to `after`. */
  ghost predicate Alone(s: State, id: nat, events: seq<Event>, after: State)
    decreases |events|
  {
    if events == [] then after == s
    else
      && events[0].w == id && s.Shaped() && Enabled(s, events[0])
      && Alone(Next(s, events[0]), id, events[1..], after)
  }

  lemma AloneStep(s: State, id: nat, e: Event, events: seq<Event>, after: State)
    requires e.w == id && s.Shaped() && Enabled(s, e) && Alone(Next(s, e), id, events, after)
    ensures Alone(s, id, [e] + events, after)
  {
    assert ([e] + events)[1..] == events;
  }

  /** The last two steps of a call whose version nobody moved. */
  lemma CommitAlone(s: State, id: nat) returns (events: seq<Event>, after: State)
    requires s.Shaped() && id < |s.writers| && s.writers[id].phase.Comparing?
    requires s.writers[id].phase.base == ReadVersion(s.Disk())
    ensures Alone(s, id, events, after) && id < |after.writers|
    ensures after.writers[id].phase == Done(Committed(s.writers[id].phase.result))
    ensures after.history == s.history + [Bump(s.writers[id].phase.data)]
  {
    var ready := Next(s, Compare(id));
    after := Next(ready, Replace(id));
    AloneStep(ready, id, Replace(id), [], after);
    AloneStep(s, id, Compare(id), [Replace(id)], after);
    events := [Compare(id)] + [Replace(id)];
    assert [Replace(id)] + [] == [Replace(id)];
  }

  lemma MutateAlone(s: State, id: nat)
    returns (events: seq<Event>, after: State, outcome: Outcome, written: Option<Queue>)
    requires s.Shaped() && id < |s.writers| && s.writers[id].phase == Mutating(s.Disk())
    ensures Alone(s, id, events, after) && id < |after.writers| && after.writers[id].phase == Done(outcome)
    ensures Ends(s.writers[id].fn, s.Disk(), outcome, written)
    ensures after.history == s.history + if written.Some? then [written.value] else []
  {
    var fn, q := s.writers[id].fn, s.Disk();
    var next := Next(s, Mutate(id));
    var rest: seq<Event> := [];
    after, outcome, written := next, Aborted, None;
    if Genuine(fn, q) {
      rest, after := CommitAlone(next, id);
      outcome, written := Committed(fn(q).result), Some(Bump(fn(q).data));
    } else if fn(q).Change? {
      outcome := Tampered;
    }
    AloneStep(s, id, Mutate(id), rest, after);
    events := [Mutate(id)] + rest;
  }

  /**
   * A call that nobody interrupts is one run of the protocol, and ends as the loop does with the file
   * it finds: answered, and written, by its first attempt; given up at once without any attempt.
   */
  lemma UninterruptedCall(s: State, id: nat, fn: MutateFn, max: nat)
    returns (events: seq<Event>, after: State, outcome: Outcome, written: Option<Queue>)
    requires s.Shaped() && id < |s.writers| && (s.writers[id].phase.Idle? || s.writers[id].phase.Done?)
    ensures Alone(s, id, events, after) && id < |after.writers| && after.writers[id].phase == Done(outcome)
    ensures if max == 0 then outcome == Conflict && written.None? else Ends(fn, s.Disk(), outcome, written)
    ensures after.history == s.history + if written.Some? then [written.value] else []
  {
    var start := Start(id, fn, max);
    var started := Next(s, start);
    var rest: seq<Event> := [];
    after, outcome, written := started, Conflict, None;
    if max > 0 {
      var read := Next(started, Read(id));
      rest, after, outcome, written := MutateAlone(read, id);
      AloneStep(started, id, Read(id), rest, after);
      rest := [Read(id)] + rest;
    }
    AloneStep(s, id, start, rest, after);
    events := [start] + rest;
  }

  // ---------------------------------------------------------------------------------------
  // The window the loop leaves open
  // ---------------------------------------------------------------------------------------

  lemma ReachesOn(q: Queue, events: seq<Event>, s: State, e: Event)
    requires Reaches(q, events, s) && s.Shaped() && Enabled(s, e)
    ensures Reaches(q, events + [e], Next(s, e))
  {
    var longer := events + [e];
    assert longer[..|longer| - 1] == events;
  }

  /** A call up to the moment its comparison has held. */
  function Prepare(id: nat, fn: MutateFn): seq<Event> {
    [Start(id, fn, 1), Read(id), Mutate(id), Compare(id)]
  }

  /** Both comparisons hold before either writer replaces the file. */
  function OverlapRun(f: MutateFn, g: MutateFn): seq<Event> {
    Prepare(0, f) + Prepare(1, g) + [Replace(0)] + [Replace(1)]
  }

  function Caller(fn: MutateFn, phase: Phase): Writer {
    Writer(fn, 1, 0, phase, 0, 0, 0)
  }

  /** Two writers, nothing written yet; `mine` is writer `id`. */
  function Unwritten(q: Queue, id: nat, mine: Writer, other: Writer): State {
    State(if id == 0 then [mine, other] else [other, mine], [q], [], false)
  }

  function Ready(q: Queue, fn: MutateFn): Writer
    requires Genuine(fn, q)
  {
    Caller(fn, Replacing(fn(q).data, fn(q).result))
  }

  lemma PreparedStep(q: Queue, events: seq<Event>, id: nat, mine: Writer, other: Writer, e: Event, phase: Phase)
    requires Reaches(q, events, Unwritten(q, id, mine, other)) && id < 2 && e.w == id && !e.Replace?
    requires Enabled(Unwritten(q, id, mine, other), e)
    requires Next(Unwritten(q, id, mine, other), e).writers[id] == Caller(mine.fn, phase)
    requires Next(Unwritten(q, id, mine, other), e).writers[1 - id] == other
    ensures Reaches(q, events + [e], Unwritten(q, id, Caller(mine.fn, phase), other))
  {
    var s' := Next(Unwritten(q, id, mine, other), e);
    ReachesOn(q, events, Unwritten(q, id, mine, other), e);
    PairIs(s'.writers, id, Caller(mine.fn, phase), other);
  }

  lemma PairIs(ws: seq<Writer>, id: nat, mine: Writer, other: Writer)
    requires |ws| == 2 && id < 2 && ws[id] == mine && ws[1 - id] == other
    ensures ws == if id == 0 then [mine, other] else [other, mine]
  {
  }

  lemma StartedStep(q: Queue, events: seq<Event>, id: nat, other: Writer, fn: MutateFn)
    requires Reaches(q, events, Unwritten(q, id, Caller(fn, Idle), other)) && id < 2
    ensures Reaches(q, events + [Start(id, fn, 1)], Unwritten(q, id, Caller(fn, Reading), other))
  {
    PreparedStep(q, events, id, Caller(fn, Idle), other, Start(id, fn, 1), Reading);
  }

  lemma ReadStep(q: Queue, events: seq<Event>, id: nat, other: Writer, fn: MutateFn)
    requires Reaches(q, events, Unwritten(q, id, Caller(fn, Reading), other)) && id < 2
    ensures Reaches(q, events + [Read(id)], Unwritten(q, id, Caller(fn, Mutating(q)), other))
  {
    PreparedStep(q, events, id, Caller(fn, Reading), other, Read(id), Mutating(q));
  }

  lemma MutatedStep(q: Queue, events: seq<Event>, id: nat, other: Writer, fn: MutateFn)
    requires Reaches(q, events, Unwritten(q, id, Caller(fn, Mutating(q)), other)) && id < 2 && Genuine(fn, q)
    ensures Reaches(q, events + [Mutate(id)],
                    Unwritten(q, id, Caller(fn, Comparing(ReadVersion(q), fn(q).data, fn(q).result)), other))
  {
    PreparedStep(q, events, id, Caller(fn, Mutating(q)), other, Mutate(id),
          Comparing(ReadVersion(q), fn(q).data, fn(q).result));
  }

  lemma ComparedStep(q: Queue, events: seq<Event>, id: nat, other: Writer, fn: MutateFn)
    requires id < 2 && Genuine(fn, q)
    requires Reaches(q, events, Unwritten(q, id,
               Caller(fn, Comparing(ReadVersion(q), fn(q).data, fn(q).result)), other))
    ensures Reaches(q, events + [Compare(id)], Unwritten(q, id, Ready(q, fn), other))
  {
    PreparedStep(q, events, id, Caller(fn, Comparing(ReadVersion(q), fn(q).data, fn(q).result)), other,
                 Compare(id), Ready(q, fn).phase);
  }

  lemma PreparedHalf(q: Queue, events: seq<Event>, id: nat, other: Writer, fn: MutateFn)
    requires Reaches(q, events, Unwritten(q, id, Caller(fn, Idle), other)) && id < 2
    ensures Reaches(q, events + [Start(id, fn, 1)] + [Read(id)], Unwritten(q, id, Caller(fn, Mutating(q)), other))
  {
    StartedStep(q, events, id, other, fn);
    ReadStep(q, events + [Start(id, fn, 1)], id, other, fn);
  }

  /** The steps of one writer, the other one standing still. */
  lemma Prepared(q: Queue, events: seq<Event>, id: nat, other: Writer, fn: MutateFn)
    requires Reaches(q, events, Unwritten(q, id, Caller(fn, Idle), other)) && id < 2 && Genuine(fn, q)
    ensures Reaches(q, events + Prepare(id, fn), Unwritten(q, id, Ready(q, fn), other))
  {
    var half := events + [Start(id, fn, 1)] + [Read(id)];
    PreparedHalf(q, events, id, other, fn);
    MutatedStep(q, half, id, other, fn);
    ComparedStep(q, half + [Mutate(id)], id, other, fn);
    FourMore(events, Start(id, fn, 1), Read(id), Mutate(id), Compare(id));
  }

  lemma FourMore<T>(s: seq<T>, a: T, b: T, c: T, d: T)
    ensures s + [a] + [b] + [c] + [d] == s + [a, b, c, d]
  {
  }

  /** The state after both replaces: two commits, one version. */
  function Overlapped(q: Queue, f: MutateFn, g: MutateFn): (s: State)
    requires Genuine(f, q) && Genuine(g, q)
    ensures s.Shaped() && s.overlapped && |s.history| == 3
    ensures s.Disk() == Bump(g(q).data)
    ensures ReadVersion(s.history[1]) == ReadVersion(s.history[2]) == ReadVersion(q) + 1
  {
    State([Caller(f, Done(Committed(f(q).result))), Caller(g, Done(Committed(g(q).result)))],
          [q, Bump(f(q).data), Bump(g(q).data)], [Commit(0, f), Commit(1, g)], true)
  }

  /**
   * Any two genuine changes of any queue can overlap: both calls report success, the first update
   * is gone from the file, and one version names the two contents written.
   */
  lemma OverlapLosesUpdate(q: Queue, f: MutateFn, g: MutateFn)
    requires Genuine(f, q) && Genuine(g, q)
    ensures Reaches(q, OverlapRun(f, g), Overlapped(q, f, g))
  {
    var idle0, idle1 := Caller(f, Idle), Caller(g, Idle);
    assert Reaches(q, [], Unwritten(q, 0, idle0, idle1));
    Prepared(q, [], 0, idle1, f);
    assert [] + Prepare(0, f) == Prepare(0, f);
    assert Unwritten(q, 0, Ready(q, f), idle1) == Unwritten(q, 1, idle1, Ready(q, f));
    Prepared(q, Prepare(0, f), 1, Ready(q, f), g);
    FirstReplace(q, Prepare(0, f) + Prepare(1, g), f, g);
    SecondReplace(q, Prepare(0, f) + Prepare(1, g) + [Replace(0)], f, g);
  }

  function HalfWay(q: Queue, f: MutateFn, g: MutateFn): State
    requires Genuine(f, q) && Genuine(g, q)
  {
    State([Caller(f, Done(Committed(f(q).result))), Ready(q, g)], [q, Bump(f(q).data)], [Commit(0, f)], false)
  }

  lemma FirstReplace(q: Queue, events: seq<Event>, f: MutateFn, g: MutateFn)
    requires Genuine(f, q) && Genuine(g, q) && Reaches(q, events, Unwritten(q, 1, Ready(q, g), Ready(q, f)))
    ensures Reaches(q, events + [Replace(0)], HalfWay(q, f, g))
  {
    ReachesOn(q, events, Unwritten(q, 1, Ready(q, g), Ready(q, f)), Replace(0));
    AfterFirst(q, f, g);
  }

  lemma AfterFirst(q: Queue, f: MutateFn, g: MutateFn)
    requires Genuine(f, q) && Genuine(g, q)
    ensures Next(Unwritten(q, 1, Ready(q, g), Ready(q, f)), Replace(0)) == HalfWay(q, f, g)
  {
    var after := Next(Unwritten(q, 1, Ready(q, g), Ready(q, f)), Replace(0));
    assert after.writers == HalfWay(q, f, g).writers && after.history == HalfWay(q, f, g).history;
    assert after.log == HalfWay(q, f, g).log && !after.overlapped;
  }

  lemma SecondReplace(q: Queue, events: seq<Event>, f: MutateFn, g: MutateFn)
    requires Genuine(f, q) && Genuine(g, q) && Reaches(q, events, HalfWay(q, f, g))
    ensures Reaches(q, events + [Replace(1)], Overlapped(q, f, g))
  {
    ReachesOn(q, events, HalfWay(q, f, g), Replace(1));
    AfterSecond(q, f, g);
  }

  lemma AfterSecond(q: Queue, f: MutateFn, g: MutateFn)
    requires Genuine(f, q) && Genuine(g, q)
    ensures Next(HalfWay(q, f, g), Replace(1)) == Overlapped(q, f, g)
  {
    var after := Next(HalfWay(q, f, g), Replace(1));
    assert after.writers == Overlapped(q, f, g).writers && after.history == Overlapped(q, f, g).history;
    assert after.log == Overlapped(q, f, g).log && after.overlapped;
  }
}
