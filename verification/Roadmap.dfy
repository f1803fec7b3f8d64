/**
 * The two readers of roadmap.md: the resolver of autodev/pipeline/gate_scripts/phase_resolver.py,
 * which slices the file and stops at the first unfinished phase, and the streaming parser of
 * ui/roadmap_parser.py. A line is given by what the patterns of the two make of it.
 */
module Roadmap {
  import opened Json
  import opened Text

  /** The checkbox of a phase header: blank, `x`, `-` or `!`. */
  datatype Mark = Unticked | Ticked | Skipped | Blocked

  datatype Header = Header(mark: Mark, id: string, goal: string)

  datatype Field = UserObservable | HowToCheck | FailureLanguage

  datatype Kind = EntryCriteria | ExitCriteria | TddRequirements | DoneCriteria

  /**
   * A line by its shape; the shapes exclude one another. A line shaped like a phase header is read
   * by each parser's own pattern (they differ in indentation, spacing and the middle column); a
   * quote line has the text after `>`, and the text after its label when the UI pattern accepts it.
   */
  datatype Line =
    | Phase(resolver: Option<Header>, ui: Option<Header>)
    | Section(kind: Kind)
    | BvHead
    | Bullet(field: Field, text: string)
    | Quote(whole: string, labelled: Option<string>)
    | Blank
    | Other(text: string)

  datatype Behaviour = Behaviour(userObservable: string, howToCheck: string, failureLanguage: string)

  function LastBullet(lines: seq<Line>, field: Field): Option<string> {
    if lines == [] then None
    else
      var last := lines[|lines| - 1];
      if last.Bullet? && last.field == field then Some(last.text) else LastBullet(lines[..|lines| - 1], field)
  }

  lemma LastBulletOn(lines: seq<Line>, l: Line, field: Field)
    ensures LastBullet(lines + [l], field) ==
            if l.Bullet? && l.field == field then Some(l.text) else LastBullet(lines, field)
  {
    assert (lines + [l])[..|lines|] == lines;
  }

  // ---------------------------------------------------------------------------------------
  // The resolver: specification
  // ---------------------------------------------------------------------------------------

  predicate IsHead(l: Line) {
    l.Phase? && l.resolver.Some?
  }

  predicate Ends(l: Line) {
    IsHead(l) || l.Section? || l.BvHead?
  }

  /** The first index at or after `from` whose line satisfies the test, or the length. */
  function FirstFrom(lines: seq<Line>, from: nat, test: Line -> bool): (n: nat)
    requires from <= |lines|
    ensures from <= n <= |lines| && (n < |lines| ==> test(lines[n]))
    ensures forall k | from <= k < n :: !test(lines[k])
    decreases |lines| - from
  {
    if from == |lines| || test(lines[from]) then from else FirstFrom(lines, from + 1, test)
  }

  lemma FirstUnique(lines: seq<Line>, from: nat, test: Line -> bool, n: nat)
    requires from <= n <= |lines| && (n < |lines| ==> test(lines[n]))
    requires forall k | from <= k < n :: !test(lines[k])
    ensures FirstFrom(lines, from, test) == n
  {
  }

  /** The lines from the header at `i` to the next header. */
  function Body(lines: seq<Line>, i: nat): seq<Line>
    requires i < |lines|
  {
    lines[i + 1..FirstFrom(lines, i + 1, IsHead)]
  }

  /** The lines after the first behavioural header, up to the next section header. */
  function BvRegion(body: seq<Line>): seq<Line> {
    var start := FirstFrom(body, 0, (l: Line) => l.BvHead?);
    if start == |body| then []
    else body[start + 1..FirstFrom(body, start + 1, (l: Line) => l.Section? || IsHead(l))]
  }

  function ResolverBv(body: seq<Line>): Option<Behaviour> {
    var u, h, f := LastBullet(BvRegion(body), UserObservable), LastBullet(BvRegion(body), HowToCheck),
                   LastBullet(BvRegion(body), FailureLanguage);
    if u.Some? && h.Some? && f.Some? then Some(Behaviour(u.value, h.value, f.value)) else None
  }

  /** The quotes before the first line that is neither blank nor a quote. */
  function LeadingQuotes(body: seq<Line>): seq<string> {
    if body == [] then []
    else if body[0].Quote? then [body[0].whole] + LeadingQuotes(body[1..])
    else if body[0].Blank? then LeadingQuotes(body[1..])
    else []
  }

  /** The lines under the first header of this kind, up to the next structured header. */
  function SectionLines(body: seq<Line>, kind: Kind): seq<Line> {
    var start := FirstFrom(body, 0, (l: Line) => l == Section(kind));
    if start == |body| then [] else body[start + 1..FirstFrom(body, start + 1, Ends)]
  }

  datatype Prior = Prior(id: string, howToCheck: Option<string>)

  datatype Current = Current(
    number: nat, id: string, goal: string, category: string, blocked: bool, exitCriteria: seq<string>,
    behaviour: Option<Behaviour>, entryBlock: seq<Line>, exitBlock: seq<Line>, tdd: seq<Line>, done: seq<Line>,
    prior: Option<Prior>)

  predicate Unfinished(l: Line) {
    IsHead(l) && (l.resolver.value.mark == Unticked || l.resolver.value.mark == Blocked)
  }

  function Headers(lines: seq<Line>): nat {
    if lines == [] then 0 else Headers(lines[..|lines| - 1]) + if IsHead(lines[|lines| - 1]) then 1 else 0
  }

  lemma HeadersOn(lines: seq<Line>, i: nat)
    requires i < |lines|
    ensures Headers(lines[..i + 1]) == Headers(lines[..i]) + if IsHead(lines[i]) then 1 else 0
  {
    assert lines[..i + 1][..i] == lines[..i];
  }

  /** The last completed header before `n`. */
  function LastTicked(lines: seq<Line>, n: nat): Option<nat>
    requires n <= |lines|
    ensures LastTicked(lines, n).Some? ==>
              LastTicked(lines, n).value < n && IsHead(lines[LastTicked(lines, n).value])
  {
    if n == 0 then None
    else if IsHead(lines[n - 1]) && lines[n - 1].resolver.value.mark == Ticked then Some(n - 1)
    else LastTicked(lines, n - 1)
  }

  function PriorAt(lines: seq<Line>, i: nat): Prior
    requires i < |lines| && IsHead(lines[i])
  {
    var bv := ResolverBv(Body(lines, i));
    Prior(lines[i].resolver.value.id, if bv.Some? then Some(bv.value.howToCheck) else None)
  }

  /** The most recent completed phase before `i`. */
  function PriorOf(lines: seq<Line>, i: nat): Option<Prior>
    requires i <= |lines|
  {
    var last := LastTicked(lines, i);
    if last.Some? then Some(PriorAt(lines, last.value)) else None
  }

  /** The text before the first dash, if there is one. */
  function Category(id: string): string {
    if '-' in id then UntilDash(id) else "GENERAL"
  }

  function UntilDash(id: string): string {
    if id == [] || id[0] == '-' then [] else [id[0]] + UntilDash(id[1..])
  }

  /** The category is the id's first dash-separated part, and GENERAL for an id without a dash. */
  lemma {:induction false} CategoryIsFirstPart(first: string, rest: string)
    requires '-' !in first
    ensures Category(first + "-" + rest) == first && Category(first) == "GENERAL"
  {
    assert (first + "-" + rest)[|first|] == '-';
    UntilDashAt(first, rest);
  }

  lemma {:induction false} UntilDashAt(first: string, rest: string)
    requires '-' !in first
    ensures UntilDash(first + "-" + rest) == first
    decreases |first|
  {
    if first != "" {
      assert (first + "-" + rest)[1..] == first[1..] + "-" + rest;
      UntilDashAt(first[1..], rest);
    }
  }

  function CurrentAt(lines: seq<Line>, i: nat): Current
    requires i < |lines| && IsHead(lines[i])
  {
    var h, body := lines[i].resolver.value, Body(lines, i);
    Current(
      Headers(lines[..i]), h.id, Strip(h.goal), Category(h.id), h.mark == Blocked, LeadingQuotes(body),
      ResolverBv(body), SectionLines(body, EntryCriteria), SectionLines(body, ExitCriteria),
      SectionLines(body, TddRequirements), SectionLines(body, DoneCriteria),
      PriorOf(lines, i))
  }

  /** The first unfinished phase of the roadmap. */
  function Resolve(lines: seq<Line>): Option<Current> {
    var i := FirstFrom(lines, 0, Unfinished);
    if i == |lines| then None else Some(CurrentAt(lines, i))
  }

  // ---------------------------------------------------------------------------------------
  // The resolver: loops
  // ---------------------------------------------------------------------------------------

  method BodyLines(lines: seq<Line>, i: nat) returns (body: seq<Line>)
    requires i < |lines|
    ensures body == Body(lines, i)
  {
    var end, j := |lines|, i + 1;
    while j < |lines|
      invariant i + 1 <= j <= |lines| && end == |lines|
      invariant forall k | i + 1 <= k < j :: !IsHead(lines[k])
    {
      if IsHead(lines[j]) {
        end := j;
        break;
      }
      j := j + 1;
    }
    FirstUnique(lines, i + 1, IsHead, end);
    body := lines[i + 1..end];
  }

  lemma LastBulletWithin(body: seq<Line>, from: nat, j: nat, field: Field)
    requires from <= j < |body|
    ensures LastBullet(body[from..j + 1], field) ==
            if body[j].Bullet? && body[j].field == field then Some(body[j].text)
            else LastBullet(body[from..j], field)
  {
    assert body[from..j + 1] == body[from..j] + [body[j]];
    LastBulletOn(body[from..j], body[j], field);
  }

  method ExtractBehavioralVerification(body: seq<Line>) returns (bv: Option<Behaviour>)
    ensures bv == ResolverBv(body)
  {
    var start := FirstFrom(body, 0, (l: Line) => l.BvHead?);
    if start == |body| { return None; }
    var end := FirstFrom(body, start + 1, (l: Line) => l.Section? || IsHead(l));
    var user, how, failure: Option<string> := None, None, None;
    var j := start + 1;
    while j < |body|
      invariant start + 1 <= j <= end
      invariant user == LastBullet(body[start + 1..j], UserObservable)
      invariant how == LastBullet(body[start + 1..j], HowToCheck)
      invariant failure == LastBullet(body[start + 1..j], FailureLanguage)
    {
      if body[j].Section? || IsHead(body[j]) { break; }
      LastBulletWithin(body, start + 1, j, UserObservable);
      LastBulletWithin(body, start + 1, j, HowToCheck);
      LastBulletWithin(body, start + 1, j, FailureLanguage);
      if body[j].Bullet? {
        match body[j].field {
          case UserObservable => user := Some(body[j].text);
          case HowToCheck => how := Some(body[j].text);
          case FailureLanguage => failure := Some(body[j].text);
        }
      }
      j := j + 1;
    }
    assert j == end;
    if user.Some? && how.Some? && failure.Some? {
      return Some(Behaviour(user.value, how.value, failure.value));
    }
    bv := None;
  }

  method ScrapeExitCriteria(body: seq<Line>) returns (quotes: seq<string>)
    ensures quotes == LeadingQuotes(body)
  {
    quotes := [];
    var j := 0;
    while j < |body|
      invariant 0 <= j <= |body|
      invariant LeadingQuotes(body) == quotes + LeadingQuotes(body[j..])
    {
      if body[j].Quote? {
        quotes := quotes + [body[j].whole];
      } else if !body[j].Blank? {
        assert LeadingQuotes(body[j..]) == [];
        return;
      }
      j := j + 1;
    }
  }

  method SliceUntilNextSection(body: seq<Line>, start: nat) returns (slice: seq<Line>)
    requires start <= |body|
    ensures slice == body[start..FirstFrom(body, start, Ends)]
  {
    var j := start;
    while j < |body|
      invariant start <= j <= |body|
      invariant forall k | start <= k < j :: !Ends(body[k])
    {
      if IsHead(body[j]) || body[j].Section? || body[j].BvHead? {
        FirstUnique(body, start, Ends, j);
        return body[start..j];
      }
      j := j + 1;
    }
    FirstUnique(body, start, Ends, |body|);
    slice := body[start..];
  }

  method ExtractSection(body: seq<Line>, kind: Kind) returns (slice: seq<Line>)
    ensures slice == SectionLines(body, kind)
  {
    var i := 0;
    while i < |body|
      invariant 0 <= i <= |body|
      invariant forall k | 0 <= k < i :: body[k] != Section(kind)
    {
      if body[i] == Section(kind) {
        FirstUnique(body, 0, (l: Line) => l == Section(kind), i);
        slice := SliceUntilNextSection(body, i + 1);
        return;
      }
      i := i + 1;
    }
    FirstUnique(body, 0, (l: Line) => l == Section(kind), |body|);
    slice := [];
  }

  method BuildCurrent(lines: seq<Line>, i: nat, number: nat, prior: Option<Prior>) returns (current: Current)
    requires i < |lines| && IsHead(lines[i]) && number == Headers(lines[..i])
    requires prior == PriorOf(lines, i)
    ensures current == CurrentAt(lines, i)
  {
    var h := lines[i].resolver.value;
    var body := BodyLines(lines, i);
    var quotes := ScrapeExitCriteria(body);
    var bv := ExtractBehavioralVerification(body);
    var entry := ExtractSection(body, EntryCriteria);
    var exit := ExtractSection(body, ExitCriteria);
    var tdd := ExtractSection(body, TddRequirements);
    var done := ExtractSection(body, DoneCriteria);
    current := Current(number, h.id, Strip(h.goal), Category(h.id), h.mark == Blocked, quotes, bv,
                       entry, exit, tdd, done, prior);
  }

  method BuildPrior(lines: seq<Line>, i: nat) returns (prior: Prior)
    requires i < |lines| && IsHead(lines[i])
    ensures prior == PriorAt(lines, i)
  {
    var body := BodyLines(lines, i);
    var bv := ExtractBehavioralVerification(body);
    prior := Prior(lines[i].resolver.value.id, if bv.Some? then Some(bv.value.howToCheck) else None);
  }

  method ParseRoadmap(lines: seq<Line>) returns (current: Option<Current>)
    ensures current == Resolve(lines)
  {
    var globalIdx: nat, lastCompleted: Option<Prior>, i := 0, None, 0;
    while i < |lines|
      invariant 0 <= i <= |lines| && globalIdx == Headers(lines[..i])
      invariant forall k | 0 <= k < i :: !Unfinished(lines[k])
      invariant lastCompleted == PriorOf(lines, i)
    {
      HeadersOn(lines, i);
      if IsHead(lines[i]) {
        var h, number := lines[i].resolver.value, globalIdx;
        globalIdx := globalIdx + 1;
        if h.mark == Ticked {
          var completed := BuildPrior(lines, i);
          lastCompleted := Some(completed);
        } else if h.mark != Skipped {
          FirstUnique(lines, 0, Unfinished, i);
          var built := BuildCurrent(lines, i, number, lastCompleted);
          return Some(built);
        }
      }
      i := i + 1;
    }
    FirstUnique(lines, 0, Unfinished, i);
    current := None;
  }

  // ---------------------------------------------------------------------------------------
  // The streaming parser
  // ---------------------------------------------------------------------------------------

  datatype Status = Pending | Complete | SkippedPhase | BlockedPhase

  function StatusOf(mark: Mark): Status {
    match mark
    case Unticked => Pending
    case Ticked => Complete
    case Skipped => SkippedPhase
    case Blocked => BlockedPhase
  }

  datatype UiPhase = UiPhase(id: string, goal: string, status: Status, exits: seq<string>, behaviour: Option<Behaviour>)

  predicate IsUiHead(l: Line) {
    l.Phase? && l.ui.Some?
  }

  function Labelled(body: seq<Line>): seq<string> {
    if body == [] then []
    else
      var last := body[|body| - 1];
      Labelled(body[..|body| - 1]) + if last.Quote? && last.labelled.Some? then [last.labelled.value] else []
  }

  function Complete3(u: Option<string>, h: Option<string>, f: Option<string>): Option<Behaviour> {
    if u.Some? && u.value != "" && h.Some? && h.value != "" && f.Some? && f.value != ""
    then Some(Behaviour(u.value, h.value, f.value)) else None
  }

  function UiBv(body: seq<Line>): Option<Behaviour> {
    Complete3(LastBullet(body, UserObservable), LastBullet(body, HowToCheck), LastBullet(body, FailureLanguage))
  }

  function UiPhaseOf(h: Header, body: seq<Line>): UiPhase {
    UiPhase(Strip(h.id), Strip(h.goal), StatusOf(h.mark), Labelled(body), UiBv(body))
  }

  /** The last header, if any. */
  function LastUiHead(lines: seq<Line>): (h: Option<nat>)
    ensures h.Some? ==> h.value < |lines| && IsUiHead(lines[h.value])
    ensures forall k | (if h.Some? then h.value + 1 else 0) <= k < |lines| :: !IsUiHead(lines[k])
  {
    if lines == [] then None
    else if IsUiHead(lines[|lines| - 1]) then Some(|lines| - 1)
    else LastUiHead(lines[..|lines| - 1])
  }

  /** One phase a header, each from its own lines. */
  function UiPhases(lines: seq<Line>): seq<UiPhase>
    decreases |lines|
  {
    var h := LastUiHead(lines);
    if h.None? then []
    else UiPhases(lines[..h.value]) + [UiPhaseOf(lines[h.value].ui.value, lines[h.value + 1..])]
  }

  /** The buffered phase: its header, the collected exit criteria and the three bullets. */
  datatype Buffer = Buffer(head: Header, exits: seq<string>, user: Option<string>, how: Option<string>,
                           failure: Option<string>)

  function Finished(b: Buffer): UiPhase {
    UiPhase(Strip(b.head.id), Strip(b.head.goal), StatusOf(b.head.mark), b.exits, Complete3(b.user, b.how, b.failure))
  }

  function BufferOf(head: Header, body: seq<Line>): Buffer {
    Buffer(head, Labelled(body), LastBullet(body, UserObservable), LastBullet(body, HowToCheck),
           LastBullet(body, FailureLanguage))
  }

  predicate Buffers(lines: seq<Line>, phases: seq<UiPhase>, current: Option<Buffer>) {
    var h := LastUiHead(lines);
    if h.None? then phases == [] && current.None?
    else
      && phases == UiPhases(lines[..h.value])
      && current == Some(BufferOf(lines[h.value].ui.value, lines[h.value + 1..]))
  }

  /** What one line that is no header adds to the buffered phase. */
  function Absorb(b: Buffer, l: Line): Buffer {
    if l.Quote? && l.labelled.Some? then b.(exits := b.exits + [l.labelled.value])
    else if l.Bullet? && l.field == UserObservable then b.(user := Some(l.text))
    else if l.Bullet? && l.field == HowToCheck then b.(how := Some(l.text))
    else if l.Bullet? && l.field == FailureLanguage then b.(failure := Some(l.text))
    else b
  }

  lemma AbsorbOn(head: Header, body: seq<Line>, l: Line)
    ensures BufferOf(head, body + [l]) == Absorb(BufferOf(head, body), l)
  {
    LastBulletOn(body, l, UserObservable);
    LastBulletOn(body, l, HowToCheck);
    LastBulletOn(body, l, FailureLanguage);
    assert (body + [l])[..|body|] == body;
  }

  lemma LastHeadStays(lines: seq<Line>, l: Line)
    requires !IsUiHead(l)
    ensures LastUiHead(lines + [l]) == LastUiHead(lines)
  {
    assert (lines + [l])[..|lines|] == lines;
  }

  lemma AppendedAround<T>(s: seq<T>, x: T, h: nat)
    requires h < |s|
    ensures (s + [x])[..h] == s[..h] && (s + [x])[h] == s[h] && (s + [x])[h + 1..] == s[h + 1..] + [x]
  {
  }

  lemma BuffersLine(lines: seq<Line>, phases: seq<UiPhase>, current: Option<Buffer>, l: Line)
    requires Buffers(lines, phases, current) && !IsUiHead(l)
    ensures Buffers(lines + [l], phases, if current.Some? then Some(Absorb(current.value, l)) else None)
  {
    var h := LastUiHead(lines);
    LastHeadStays(lines, l);
    if h.Some? {
      AbsorbOn(lines[h.value].ui.value, lines[h.value + 1..], l);
      AppendedAround(lines, l, h.value);
    }
  }

  lemma BuffersFlush(lines: seq<Line>, phases: seq<UiPhase>, current: Option<Buffer>)
    requires Buffers(lines, phases, current)
    ensures phases + (if current.Some? then [Finished(current.value)] else []) == UiPhases(lines)
  {
  }

  lemma BuffersHeader(lines: seq<Line>, l: Line)
    requires IsUiHead(l)
    ensures Buffers(lines + [l], UiPhases(lines), Some(Buffer(l.ui.value, [], None, None, None)))
  {
    assert (lines + [l])[..|lines|] == lines && (lines + [l])[|lines| + 1..] == [];
  }

  /** One line, in the order of the code's tests. */
  method Feed(current: Buffer, line: Line) returns (next: Buffer)
    requires !IsUiHead(line)
    ensures next == Absorb(current, line)
  {
    next := current;
    if line.Quote? && line.labelled.Some? {
      next := current.(exits := current.exits + [line.labelled.value]);
    } else if line.Bullet? {
      match line.field {
        case UserObservable => next := current.(user := Some(line.text));
        case HowToCheck => next := current.(how := Some(line.text));
        case FailureLanguage => next := current.(failure := Some(line.text));
      }
    }
  }

  /** One turn of the loop, after the lines `before`. */
  method TakeLine(ghost before: seq<Line>, phases: seq<UiPhase>, current: Option<Buffer>, line: Line)
    returns (nextPhases: seq<UiPhase>, nextCurrent: Option<Buffer>)
    requires Buffers(before, phases, current)
    ensures Buffers(before + [line], nextPhases, nextCurrent)
  {
    nextPhases, nextCurrent := phases, current;
    if IsUiHead(line) {
      BuffersFlush(before, phases, current);
      BuffersHeader(before, line);
      nextPhases := Flush(phases, current);
      nextCurrent := Some(Buffer(line.ui.value, [], None, None, None));
    } else {
      BuffersLine(before, phases, current, line);
      if current.Some? {
        var next := Feed(current.value, line);
        nextCurrent := Some(next);
      }
    }
  }

  method ParseUi(lines: seq<Line>) returns (phases: seq<UiPhase>)
    ensures phases == UiPhases(lines)
  {
    phases := [];
    var current: Option<Buffer> := None;
    var i := 0;
    assert lines[..0] == [];
    while i < |lines|
      invariant 0 <= i <= |lines|
      invariant Buffers(lines[..i], phases, current)
    {
      OneMore(lines, i);
      phases, current := TakeLine(lines[..i], phases, current, lines[i]);
      i := i + 1;
    }
    BuffersFlush(lines[..i], phases, current);
    assert lines[..i] == lines;
    phases := Flush(phases, current);
  }

  lemma OneMore<T>(s: seq<T>, i: nat)
    requires i < |s|
    ensures s[..i + 1] == s[..i] + [s[i]]
  {
  }

  method Flush(phases: seq<UiPhase>, current: Option<Buffer>) returns (flushed: seq<UiPhase>)
    ensures flushed == phases + if current.Some? then [Finished(current.value)] else []
  {
    flushed := if current.Some? then phases + [Finished(current.value)] else phases;
  }
}
