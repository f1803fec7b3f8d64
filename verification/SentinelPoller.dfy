/** The completion poller, autodev/pipeline/sentinel_poller.py; the world maps loop iterations to their observations. */
module SentinelPoller {
  import opened Json

  /** The answer of a caller's predicate, which may raise. */
  datatype Verdict = Says(yes: bool) | Raises

  /**
   * What one iteration sees. `clock` and `graceClock` are the monotonic clock at the loop guard and
   * at the grace check, `wall` the wall clock at the stall check; an absent `stamp` or `doneMtime`
   * is a missing file or a failing stat.
   */
  datatype Tick = Tick(
    clock: real, stop: bool, loops: Verdict, stamp: Option<real>, wall: real,
    graceClock: real, done: bool, doneMtime: Option<real>, accepts: Verdict)

  type World = nat -> Tick

  datatype Settings = Settings(
    start: real, timeout: int, stopPath: bool, minMtime: Option<real>, stampPath: bool,
    threshold: Option<real>, grace: Option<real>, acceptor: bool, detector: bool)

  datatype Reason = Succeeded | Stalled | NoFirstActivity | Stopped | Timeout | ToolLoop

  datatype PollResult = PollResult(success: bool, reason: Reason, stampMtime: Option<real>)

  /** The stamp is looked at only when both the path and the threshold are given. */
  predicate Watching(c: Settings) {
    c.stampPath && c.threshold.Some?
  }

  // ---------------------------------------------------------------------------------------
  // The specification
  // ---------------------------------------------------------------------------------------

  ghost predicate FirstSeen(w: World, i: nat) {
    w(i).stamp.Some? && forall h: nat | h < i :: w(h).stamp.None?
  }

  /** The stamp strictly passed its first observed value within the first `n` iterations. */
  ghost predicate PassedFirst(w: World, n: nat) {
    exists i: nat, j: nat | i < j < n :: FirstSeen(w, i) && w(j).stamp.Some? && w(j).stamp.value > w(i).stamp.value
  }

  ghost predicate CheckedIn(w: World, c: Settings, n: nat) {
    Watching(c) && PassedFirst(w, n)
  }

  /** The last stamp observed within the first `n` iterations. */
  function LastStamp(w: World, c: Settings, n: nat): Option<real> {
    if n == 0 || !Watching(c) then None
    else if w(n - 1).stamp.Some? then w(n - 1).stamp
    else LastStamp(w, c, n - 1)
  }

  predicate Expired(w: World, c: Settings, k: nat) {
    w(k).clock - c.start >= c.timeout as real
  }

  /** A `.done` known to be older than the attempt. */
  predicate Stale(c: Settings, t: Tick) {
    t.done && c.minMtime.Some? && t.doneMtime.Some? && t.doneMtime.value < c.minMtime.value
  }

  /** The caller's predicate defers the `.done`; one that raises does not. */
  predicate HeldBack(c: Settings, t: Tick) {
    c.acceptor && t.accepts == Says(false)
  }

  /** What an iteration that sees `t` decides, if anything, in the order of the code's checks. */
  function Decided(t: Tick, c: Settings, checkedIn: bool): Option<Reason> {
    if c.stopPath && t.stop then Some(Stopped)
    else if c.detector && t.loops == Says(true) then Some(ToolLoop)
    else if Watching(c) && checkedIn && t.stamp.Some? && t.wall - t.stamp.value > c.threshold.value then Some(Stalled)
    else if c.grace.Some? && !checkedIn && t.graceClock - c.start > c.grace.value then Some(NoFirstActivity)
    else if t.done && !Stale(c, t) && !HeldBack(c, t) then Some(Succeeded)
    else None
  }

  ghost function Decision(w: World, c: Settings, k: nat): Option<Reason> {
    Decided(w(k), c, CheckedIn(w, c, k + 1))
  }

  /** None of the first `n` iterations decides or finds the time used up. */
  ghost predicate Undecided(w: World, c: Settings, n: nat) {
    forall i: nat | i < n :: !Expired(w, c, i) && Decision(w, c, i).None?
  }

  /** Iteration `k` is the first that either decides or finds the time used up. */
  ghost predicate FirstDeciding(w: World, c: Settings, k: nat) {
    (Expired(w, c, k) || Decision(w, c, k).Some?) && Undecided(w, c, k)
  }

  ghost function ReasonAt(w: World, c: Settings, k: nat): Reason
    requires FirstDeciding(w, c, k)
  {
    if Expired(w, c, k) then Timeout else Decision(w, c, k).value
  }

  /** The answer at iteration `k`, with the stamp last observed: its own is read after the first two checks. */
  ghost function AnswerAt(w: World, c: Settings, k: nat): PollResult
    requires FirstDeciding(w, c, k)
  {
    var reason := ReasonAt(w, c, k);
    var seen := if reason in {Stopped, ToolLoop, Timeout} then k else k + 1;
    PollResult(reason == Succeeded, reason, LastStamp(w, c, seen))
  }

  /** The monotonic clock starts no earlier than `start`, and each sleep advances it by two seconds or more. */
  ghost predicate Sleeps(w: World, c: Settings) {
    && w(0).clock >= c.start
    && forall k: nat :: w(k + 1).clock >= w(k).clock + 2.0
  }

  lemma {:induction false} ClockRuns(w: World, c: Settings, k: nat)
    requires Sleeps(w, c)
    ensures w(k).clock >= c.start + 2.0 * (k as real)
  {
    if k > 0 {
      ClockRuns(w, c, k - 1);
      assert w(k - 1 + 1).clock >= w(k - 1).clock + 2.0;
    }
  }

  lemma FewIterations(w: World, c: Settings, k: nat)
    requires Sleeps(w, c) && w(k).clock - c.start < c.timeout as real
    ensures 2 * k < c.timeout
  {
    ClockRuns(w, c, k);
  }

  // ---------------------------------------------------------------------------------------
  // The loop
  // ---------------------------------------------------------------------------------------

  /** The first stamp among `n` iterations, as the loop remembers it. */
  ghost predicate Remembers(w: World, c: Settings, n: nat, bootstrap: Option<real>) {
    if !Watching(c) || forall h: nat | h < n :: w(h).stamp.None? then bootstrap.None?
    else exists i: nat | i < n :: FirstSeen(w, i) && bootstrap == w(i).stamp
  }

  lemma FirstSeenUnique(w: World, i: nat, j: nat)
    requires FirstSeen(w, i) && FirstSeen(w, j)
    ensures i == j
  {
  }

  /** What the loop carries over: the first stamp, whether a later one passed it, and the last one. */
  datatype Latches = Latches(bootstrap: Option<real>, checkedIn: bool, lastStamp: Option<real>)

  ghost predicate Tracks(w: World, c: Settings, n: nat, l: Latches) {
    Remembers(w, c, n, l.bootstrap) && (l.checkedIn <==> CheckedIn(w, c, n)) && l.lastStamp == LastStamp(w, c, n)
  }

  function Observe(l: Latches, c: Settings, t: Tick): Latches {
    if !Watching(c) || t.stamp.None? then l
    else
      var first := if l.bootstrap.None? then t.stamp else l.bootstrap;
      Latches(first, l.checkedIn || t.stamp.value > first.value, t.stamp)
  }

  lemma MemoryFollows(w: World, c: Settings, n: nat, bootstrap: Option<real>)
    requires Watching(c) && Remembers(w, c, n, bootstrap)
    ensures Remembers(w, c, n + 1, if bootstrap.None? then w(n).stamp else bootstrap)
  {
    if bootstrap.None? {
      if w(n).stamp.Some? { assert FirstSeen(w, n); }
    }
  }

  lemma LatchAfter(w: World, c: Settings, n: nat, i: nat)
    requires Watching(c) && i < n && FirstSeen(w, i)
    ensures CheckedIn(w, c, n + 1) <==>
              CheckedIn(w, c, n) || (w(n).stamp.Some? && w(n).stamp.value > w(i).stamp.value)
  {
    if CheckedIn(w, c, n + 1) {
      var a: nat, b: nat :| a < b < n + 1 && FirstSeen(w, a) && w(b).stamp.Some?
            && w(b).stamp.value > w(a).stamp.value;
      FirstSeenUnique(w, a, i);
    }
  }

  lemma LatchFollows(w: World, c: Settings, n: nat, bootstrap: Option<real>)
    requires Watching(c) && Remembers(w, c, n, bootstrap)
    ensures CheckedIn(w, c, n + 1) <==>
              CheckedIn(w, c, n) || (w(n).stamp.Some? && bootstrap.Some? && w(n).stamp.value > bootstrap.value)
  {
    if bootstrap.Some? {
      var i: nat :| i < n && FirstSeen(w, i) && bootstrap == w(i).stamp;
      LatchAfter(w, c, n, i);
    }
  }

  lemma TracksOn(w: World, c: Settings, n: nat, l: Latches)
    requires Tracks(w, c, n, l)
    ensures Tracks(w, c, n + 1, Observe(l, c, w(n)))
    ensures Decision(w, c, n) == Decided(w(n), c, Observe(l, c, w(n)).checkedIn)
  {
    if Watching(c) {
      MemoryFollows(w, c, n, l.bootstrap);
      LatchFollows(w, c, n, l.bootstrap);
    }
  }

  /** The body of the loop: the checks in order, the latches, and whether the `.done` is unlinked. */
  method PollOnce(t: Tick, c: Settings, l: Latches) returns (verdict: Option<PollResult>, after: Latches, unlink: bool)
    ensures verdict.Some? <==> Decided(t, c, Observe(l, c, t).checkedIn).Some?
    ensures verdict.Some? ==>
              && Decided(t, c, Observe(l, c, t).checkedIn) == Some(verdict.value.reason)
              && (verdict.value.success <==> verdict.value.reason == Succeeded)
              && verdict.value.stampMtime ==
                   (if verdict.value.reason in {Stopped, ToolLoop} then l else Observe(l, c, t)).lastStamp
    ensures verdict.None? ==> after == Observe(l, c, t)
    ensures unlink <==> verdict.None? && Stale(c, t)
  {
    var bootstrap, checkedIn, lastStamp := l.bootstrap, l.checkedIn, l.lastStamp;
    after, unlink := l, false;
    if c.stopPath && t.stop { return Some(PollResult(false, Stopped, lastStamp)), after, unlink; }
    if c.detector {
      var looping := t.loops.Says? && t.loops.yes;
      if looping { return Some(PollResult(false, ToolLoop, lastStamp)), after, unlink; }
    }
    if c.stampPath && c.threshold.Some? {
      if t.stamp.Some? {
        lastStamp := t.stamp;
        if bootstrap.None? { bootstrap := t.stamp; }
        if !checkedIn && t.stamp.value > bootstrap.value { checkedIn := true; }
        if checkedIn {
          if t.wall - t.stamp.value > c.threshold.value {
            return Some(PollResult(false, Stalled, t.stamp)), after, unlink;
          }
        }
      }
    }
    after := Latches(bootstrap, checkedIn, lastStamp);
    if c.grace.Some? && !checkedIn && t.graceClock - c.start > c.grace.value {
      return Some(PollResult(false, NoFirstActivity, lastStamp)), after, unlink;
    }
    if t.done {
      if c.minMtime.Some? && t.doneMtime.Some? && t.doneMtime.value < c.minMtime.value {
        unlink := true;
      } else {
        var accepted := !c.acceptor || t.accepts.Raises? || t.accepts.yes;
        if accepted { return Some(PollResult(true, Succeeded, lastStamp)), after, unlink; }
      }
    }
    verdict := None;
  }

  ghost predicate UnlinkedSoFar(w: World, c: Settings, n: nat, unlinked: seq<nat>) {
    && (forall t: nat :: t in unlinked <==> t < n && Stale(c, w(t)))
    && (forall i | 0 <= i < |unlinked| :: unlinked[i] < n)
    && (forall i, j | 0 <= i < j < |unlinked| :: unlinked[i] < unlinked[j])
  }

  lemma UnlinkedOn(w: World, c: Settings, n: nat, unlinked: seq<nat>)
    requires UnlinkedSoFar(w, c, n, unlinked)
    ensures UnlinkedSoFar(w, c, n + 1, if Stale(c, w(n)) then unlinked + [n] else unlinked)
  {
  }

  /** One iteration within the time: it decides, or the loop goes on with everything tracked. */
  lemma IterationOn(w: World, c: Settings, n: nat, l: Latches, unlinked: seq<nat>)
    requires Sleeps(w, c) && Undecided(w, c, n) && !Expired(w, c, n)
    requires Tracks(w, c, n, l) && UnlinkedSoFar(w, c, n, unlinked)
    ensures 2 * n < c.timeout
    ensures Tracks(w, c, n + 1, Observe(l, c, w(n)))
    ensures UnlinkedSoFar(w, c, n + 1, if Stale(c, w(n)) then unlinked + [n] else unlinked)
    ensures var decided := Decided(w(n), c, Observe(l, c, w(n)).checkedIn);
            if decided.None? then Undecided(w, c, n + 1)
            else
              && FirstDeciding(w, c, n)
              && var seen := if decided.value in {Stopped, ToolLoop} then l else Observe(l, c, w(n));
                 AnswerAt(w, c, n) == PollResult(decided.value == Succeeded, decided.value, seen.lastStamp)
  {
    FewIterations(w, c, n);
    TracksOn(w, c, n, l);
    UnlinkedOn(w, c, n, unlinked);
  }

  /**
   * The polling loop. It answers at the first deciding iteration, with the stamp last observed (the
   * iteration's own stamp is read only after the stop and tool-loop checks), and has by then
   * unlinked the `.done` at exactly the iterations that found it stale, in order.
   */
  method PollForSentinel(w: World, c: Settings) returns (result: PollResult, iterations: nat, unlinked: seq<nat>)
    requires Sleeps(w, c)
    ensures FirstDeciding(w, c, iterations)
    ensures result == AnswerAt(w, c, iterations)
    ensures UnlinkedSoFar(w, c, iterations, unlinked)
    ensures iterations <= if c.timeout <= 0 then 0 else (c.timeout + 1) / 2
  {
    var latches := Latches(None, false, None);
    iterations, unlinked := 0, [];
    while w(iterations).clock - c.start < c.timeout as real
      invariant Undecided(w, c, iterations)
      invariant Tracks(w, c, iterations, latches)
      invariant UnlinkedSoFar(w, c, iterations, unlinked)
      invariant iterations <= if c.timeout <= 0 then 0 else (c.timeout + 1) / 2
      decreases c.timeout - 2 * iterations
    {
      IterationOn(w, c, iterations, latches, unlinked);
      var verdict, after, unlink := PollOnce(w(iterations), c, latches);
      if verdict.Some? { return verdict.value, iterations, unlinked; }
      if unlink { unlinked := unlinked + [iterations]; }
      latches := after;
      iterations := iterations + 1;
    }
    result := PollResult(false, Timeout, latches.lastStamp);
  }

  // ---------------------------------------------------------------------------------------
  // What the answer means
  // ---------------------------------------------------------------------------------------

  /** Some observed stamp is strictly above an earlier one. */
  ghost predicate Advances(w: World, n: nat) {
    exists i: nat, j: nat | i < j < n :: w(i).stamp.Some? && w(j).stamp.Some? && w(j).stamp.value > w(i).stamp.value
  }

  ghost predicate NonePasses(w: World, f: nat, n: nat) {
    w(f).stamp.Some? && forall h: nat | h < n && w(h).stamp.Some? :: w(h).stamp.value <= w(f).stamp.value
  }

  /** The stamp falls below its first value and rises again, without ever passing the first value. */
  ghost predicate DipsOnly(w: World, n: nat) {
    exists f: nat, i: nat, j: nat | f < i < j < n ::
      FirstSeen(w, f) && NonePasses(w, f, n) && w(i).stamp.Some? && w(j).stamp.Some?
            && w(i).stamp.value < w(j).stamp.value
  }

  lemma {:induction false} SomeFirst(w: World, i: nat) returns (f: nat)
    requires w(i).stamp.Some?
    ensures f <= i && FirstSeen(w, f)
  {
    f := i;
    if h: nat :| h < i && w(h).stamp.Some? { f := SomeFirst(w, h); }
  }

  lemma AdvanceWithoutPassing(w: World, n: nat, i: nat, j: nat)
    requires i < j < n && w(i).stamp.Some? && w(j).stamp.Some? && w(j).stamp.value > w(i).stamp.value
    requires !PassedFirst(w, n)
    ensures DipsOnly(w, n)
  {
    var f := SomeFirst(w, i);
    FirstTops(w, n, f);
    assert f < i;
  }

  lemma FirstTops(w: World, n: nat, f: nat)
    requires FirstSeen(w, f) && !PassedFirst(w, n)
    ensures NonePasses(w, f, n)
  {
    forall h: nat | h < n && w(h).stamp.Some? ensures w(h).stamp.value <= w(f).stamp.value {
      assert h < f ==> w(h).stamp.None?;
    }
  }

  lemma PassingIsNoDip(w: World, n: nat)
    requires PassedFirst(w, n)
    ensures !DipsOnly(w, n)
  {
    var i: nat, j: nat :| i < j < n && FirstSeen(w, i) && w(j).stamp.Some? && w(j).stamp.value > w(i).stamp.value;
    forall f: nat | FirstSeen(w, f) ensures !NonePasses(w, f, n) { FirstSeenUnique(w, f, i); }
  }

  /** An advance either passes the first value or stays in a dip below it, and never both. */
  lemma AdvanceKinds(w: World, n: nat)
    ensures Advances(w, n) <==> PassedFirst(w, n) || DipsOnly(w, n)
    ensures !(PassedFirst(w, n) && DipsOnly(w, n))
  {
    if PassedFirst(w, n) {
      PassingIsNoDip(w, n);
    } else if Advances(w, n) {
      var i: nat, j: nat :| i < j < n && w(i).stamp.Some? && w(j).stamp.Some? && w(j).stamp.value > w(i).stamp.value;
      AdvanceWithoutPassing(w, n, i, j);
    }
  }

  /**
   * Reported stalled only after an advance, and at the first iteration that finds the stamp silent
   * after passing its first value.
   */
  lemma StalledMeansActivity(w: World, c: Settings, k: nat)
    requires FirstDeciding(w, c, k) && ReasonAt(w, c, k) == Stalled
    ensures Watching(c) && Advances(w, k + 1) && Silent(w, c, k)
    ensures forall i: nat | i < k && PassedFirst(w, i + 1) :: !Silent(w, c, i)
  {
    AdvanceKinds(w, k + 1);
    forall i: nat | i < k && PassedFirst(w, i + 1) ensures !Silent(w, c, i) {
      if Silent(w, c, i) { SilenceEndsPoll(w, c, k, i); }
    }
  }

  /** The stamp, still there, is older than the threshold. */
  predicate Silent(w: World, c: Settings, i: nat) {
    Watching(c) && w(i).stamp.Some? && w(i).wall - w(i).stamp.value > c.threshold.value
  }

  /**
   * Silence after the stamp passed its first value ends the poll there at the latest, and no `.done`,
   * held back or fresh, masks it: only a stop, a tool loop or the time limit come first.
   */
  lemma SilenceEndsPoll(w: World, c: Settings, k: nat, i: nat)
    requires FirstDeciding(w, c, k) && PassedFirst(w, i + 1) && Silent(w, c, i)
    ensures k <= i
    ensures k == i ==> ReasonAt(w, c, k) in {Stalled, Stopped, ToolLoop, Timeout}
  {
    assert Decision(w, c, i).Some?;
  }

  /** The grace check is reached with the time over. */
  predicate GraceOver(w: World, c: Settings, k: nat) {
    && !Expired(w, c, k) && !(c.stopPath && w(k).stop) && !(c.detector && w(k).loops == Says(true))
    && c.grace.Some? && w(k).graceClock - c.start > c.grace.value
  }

  /**
   * "No first activity" of a watched stamp, for all that the stamp did: exactly when the grace is over
   * and no stamp so far passed the first. It follows an advance exactly when the stamp fell below its
   * first value and did not recover beyond it.
   */
  lemma NeverStartedExactly(w: World, c: Settings, k: nat)
    requires FirstDeciding(w, c, k) && Watching(c)
    ensures ReasonAt(w, c, k) == NoFirstActivity && !Advances(w, k + 1) <==> GraceOver(w, c, k) && !Advances(w, k + 1)
    ensures ReasonAt(w, c, k) == NoFirstActivity && Advances(w, k + 1) <==> GraceOver(w, c, k) && DipsOnly(w, k + 1)
  {
    AdvanceKinds(w, k + 1);
    assert CheckedIn(w, c, k + 1) <==> PassedFirst(w, k + 1);
  }

  /** Success is a `.done` present now, not known stale and not held; and every earlier `.done` was stale or held. */
  lemma SucceededIsFresh(w: World, c: Settings, k: nat)
    requires FirstDeciding(w, c, k) && ReasonAt(w, c, k) == Succeeded
    ensures w(k).done && !Stale(c, w(k)) && !HeldBack(c, w(k))
    ensures forall i: nat | i < k && w(i).done :: Stale(c, w(i)) || HeldBack(c, w(i))
    ensures PassedFirst(w, k + 1) ==> !Silent(w, c, k)
  {
    forall i: nat | i < k && w(i).done ensures Stale(c, w(i)) || HeldBack(c, w(i)) {
      assert Decision(w, c, i).None?;
    }
  }

  /** A fresh, accepted `.done` at an iteration that runs ends the poll there at the latest. */
  lemma FreshDoneEndsPoll(w: World, c: Settings, k: nat, i: nat)
    requires FirstDeciding(w, c, k)
    requires w(i).done && !Stale(c, w(i)) && !HeldBack(c, w(i))
    ensures k <= i
  {
    assert Decision(w, c, i).Some?;
  }

  predicate StopSeen(w: World, c: Settings, i: nat) {
    c.stopPath && w(i).stop
  }

  predicate LoopSeen(w: World, c: Settings, i: nat) {
    c.detector && w(i).loops == Says(true)
  }

  /** The stamp passed its first value, and is now older than the threshold. */
  ghost predicate WentSilent(w: World, c: Settings, i: nat) {
    PassedFirst(w, i + 1) && Silent(w, c, i)
  }

  /** The grace is over, and no watched stamp passed its first value. */
  ghost predicate NeverBegan(w: World, c: Settings, i: nat) {
    && c.grace.Some? && w(i).graceClock - c.start > c.grace.value
    && !(c.stampPath && c.threshold.Some? && PassedFirst(w, i + 1))
  }

  /** A `.done` that is not known to be older than `minMtime`, and that no predicate defers. */
  predicate DoneCounts(w: World, c: Settings, i: nat) {
    && w(i).done && !(c.acceptor && w(i).accepts == Says(false))
    && (c.minMtime.None? || w(i).doneMtime.None? || w(i).doneMtime.value >= c.minMtime.value)
  }

  ghost predicate SomethingAt(w: World, c: Settings, i: nat) {
    || w(i).clock - c.start >= c.timeout as real || StopSeen(w, c, i) || LoopSeen(w, c, i)
    || WentSilent(w, c, i) || NeverBegan(w, c, i) || DoneCounts(w, c, i)
  }

  /** The poll ends at the first iteration at which anything happens, whatever else happens there. */
  lemma EndsAtFirst(w: World, c: Settings, k: nat)
    ensures FirstDeciding(w, c, k) <==> SomethingAt(w, c, k) && forall i: nat | i < k :: !SomethingAt(w, c, i)
  {
    forall i: nat ensures SomethingAt(w, c, i) <==> Expired(w, c, i) || Decision(w, c, i).Some? {
      SomethingDecides(w, c, i);
    }
  }

  lemma SomethingDecides(w: World, c: Settings, i: nat)
    ensures SomethingAt(w, c, i) <==> Expired(w, c, i) || Decision(w, c, i).Some?
  {
  }

  /** Its answer is the first, in this order, of the things that happen there. */
  lemma ReasonExactly(w: World, c: Settings, k: nat)
    requires FirstDeciding(w, c, k)
    ensures var r, late := ReasonAt(w, c, k), w(k).clock - c.start >= c.timeout as real;
            var stop, loop, silent := StopSeen(w, c, k), LoopSeen(w, c, k), WentSilent(w, c, k);
            && (r == Timeout <==> late)
            && (r == Stopped <==> !late && stop)
            && (r == ToolLoop <==> !late && !stop && loop)
            && (r == Stalled <==> !late && !stop && !loop && silent)
            && (r == NoFirstActivity <==> !late && !stop && !loop && !silent && NeverBegan(w, c, k))
            && (r == Succeeded <==>
                  !late && !stop && !loop && !silent && !NeverBegan(w, c, k) && DoneCounts(w, c, k))
  {
    SomethingDecides(w, c, k);
  }

  /** The stamp of an observed iteration before `n`, after which none was observed. */
  ghost predicate LastSeen(w: World, n: nat, stamp: Option<real>) {
    exists h: nat | h < n :: w(h).stamp.Some? && w(h).stamp == stamp && forall i: nat | h < i < n :: w(i).stamp.None?
  }

  lemma {:induction false} LastStampSeen(w: World, c: Settings, n: nat)
    ensures if c.stampPath && c.threshold.Some? && exists h: nat | h < n :: w(h).stamp.Some?
            then LastSeen(w, n, LastStamp(w, c, n)) else LastStamp(w, c, n) == None
  {
    if n > 0 && Watching(c) && w(n - 1).stamp.None? {
      LastStampSeen(w, c, n - 1);
      if h: nat :| h < n && w(h).stamp.Some? {
        assert h < n - 1;
        var i: nat :| i < n - 1 && w(i).stamp.Some? && w(i).stamp == LastStamp(w, c, n - 1)
                      && forall j: nat | i < j < n - 1 :: w(j).stamp.None?;
        assert forall j: nat | i < j < n :: w(j).stamp.None?;
      }
    }
  }

  /**
   * The stamp an answer carries: the last one observed, that of the answering iteration included
   * unless the poll ended before reading it; none when path or threshold is missing.
   */
  lemma StampReported(w: World, c: Settings, k: nat)
    requires FirstDeciding(w, c, k)
    ensures var answer := AnswerAt(w, c, k);
            var n := if answer.reason in {Stalled, NoFirstActivity, Succeeded} then k + 1 else k;
            && answer.reason == ReasonAt(w, c, k) && (answer.success <==> answer.reason == Succeeded)
            && if c.stampPath && c.threshold.Some? && exists h: nat | h < n :: w(h).stamp.Some?
               then LastSeen(w, n, answer.stampMtime) else answer.stampMtime == None
  {
    LastStampSeen(w, c, k);
    LastStampSeen(w, c, k + 1);
  }

  /** Everything but the stamps. */
  ghost predicate SameButStamps(w: World, v: World) {
    forall k: nat :: w(k).(stamp := None) == v(k).(stamp := None)
  }

  /**
   * Without a threshold the stamp is never read, so neither answer nor time depends on it: an agent
   * whose stamp keeps advancing is reported as never started once the grace is over. The parameter's
   * description at lines 215-220 promises a grace check independent of the threshold.
   */
  lemma GraceBlindWithoutThreshold(w: World, v: World, c: Settings, k: nat)
    requires !Watching(c) && SameButStamps(w, v)
    ensures FirstDeciding(w, c, k) <==> FirstDeciding(v, c, k)
    ensures FirstDeciding(w, c, k) ==> ReasonAt(w, c, k) == ReasonAt(v, c, k)
  {
    forall i: nat ensures Decision(w, c, i) == Decision(v, c, i) && Expired(w, c, i) == Expired(v, c, i) {
      assert w(i).(stamp := None) == v(i).(stamp := None);
      assert !CheckedIn(w, c, i + 1) && !CheckedIn(v, c, i + 1);
    }
  }

  /** The stamp advances at every iteration, and the grace is over at the second one. */
  ghost function Lively(c: Settings): World
    requires c.grace.Some?
  {
    (k: nat) => Tick(c.start + 2.0 * (k as real), false, Says(false), Some(k as real), k as real,
                     c.start + (k as real) * (c.grace.value + 1.0), false, None, Says(true))
  }

  /** The clock of modification times does not run backwards. */
  ghost predicate NeverFalls(w: World) {
    forall i: nat, j: nat | i < j && w(i).stamp.Some? && w(j).stamp.Some? :: w(i).stamp.value <= w(j).stamp.value
  }

  lemma NoDips(w: World, n: nat)
    requires NeverFalls(w)
    ensures !DipsOnly(w, n)
  {
  }

  /** "No first activity" was reported although the stamp advanced. */
  ghost predicate Misjudged(w: World, c: Settings, k: nat) {
    FirstDeciding(w, c, k) && ReasonAt(w, c, k) == NoFirstActivity && Advances(w, k + 1)
  }

  lemma WatchedIsTrusted(w: World, c: Settings, k: nat)
    requires Watching(c) && NeverFalls(w)
    ensures !Misjudged(w, c, k)
  {
    NoDips(w, k + 1);
    if FirstDeciding(w, c, k) { NeverStartedExactly(w, c, k); }
  }

  /** Where stamps never fall, "no first activity" can be trusted in every world exactly when the stamp is watched. */
  lemma GraceTrustedIffWatching(c: Settings)
    requires c.grace.Some? && c.grace.value >= 0.0 && c.timeout > 2
    ensures Watching(c) <==> forall w: World, k: nat | Sleeps(w, c) && NeverFalls(w) :: !Misjudged(w, c, k)
  {
    if Watching(c) {
      forall w: World, k: nat | Sleeps(w, c) && NeverFalls(w) ensures !Misjudged(w, c, k) { WatchedIsTrusted(w, c, k); }
    } else {
      LivelyMisjudged(c);
    }
  }

  lemma LivelyMisjudged(c: Settings)
    requires c.grace.Some? && c.grace.value >= 0.0 && c.timeout > 2 && !Watching(c)
    ensures Sleeps(Lively(c), c) && NeverFalls(Lively(c)) && Misjudged(Lively(c), c, 1)
  {
    var w := Lively(c);
    assert forall k: nat :: w(k + 1).clock >= w(k).clock + 2.0;
    assert Decision(w, c, 0).None? && !Expired(w, c, 0);
    assert Decision(w, c, 1) == Some(NoFirstActivity) && !Expired(w, c, 1);
    assert w(1).stamp.value > w(0).stamp.value;
  }

  /** Stamps 10, 5 and 7, and the grace is over at the third iteration. */
  ghost function Falling(c: Settings): World
    requires c.grace.Some?
  {
    (k: nat) => Tick(c.start + 2.0 * (k as real), false, Says(false),
                     Some(if k == 0 then 10.0 else if k == 1 then 5.0 else 7.0), 0.0,
                     if k < 2 then c.start else c.start + c.grace.value + 1.0, false, None, Says(true))
  }

  lemma FallingNeverPasses(c: Settings, n: nat)
    requires c.grace.Some?
    ensures !PassedFirst(Falling(c), n)
  {
    var w := Falling(c);
    forall i: nat | FirstSeen(w, i) ensures i == 0 { assert w(0).stamp.Some?; }
  }

  /** With stamps that fall it cannot be trusted even when the stamp is watched: 10, 5, 7 advances at the end. */
  lemma FallingMisjudged(c: Settings)
    requires Watching(c) && c.grace.Some? && c.grace.value >= 0.0 && c.timeout > 4
    ensures Sleeps(Falling(c), c) && Misjudged(Falling(c), c, 2)
  {
    var w := Falling(c);
    FallingSleeps(c);
    FallingUndecided(c);
    FallingNeverPasses(c, 3);
    assert Decision(w, c, 2) == Some(NoFirstActivity) && !Expired(w, c, 2);
    assert w(2).stamp.value > w(1).stamp.value;
  }

  lemma FallingSleeps(c: Settings)
    requires c.grace.Some?
    ensures Sleeps(Falling(c), c)
  {
    var w := Falling(c);
    assert forall k: nat :: w(k + 1).clock >= w(k).clock + 2.0;
  }

  lemma FallingUndecided(c: Settings)
    requires Watching(c) && c.grace.Some? && c.grace.value >= 0.0 && c.timeout > 4
    ensures forall i: nat | i < 2 :: !Expired(Falling(c), c, i) && Decision(Falling(c), c, i).None?
  {
    FallingNeverPasses(c, 1);
    FallingNeverPasses(c, 2);
    assert Decision(Falling(c), c, 0).None? && Decision(Falling(c), c, 1).None?;
  }
}
