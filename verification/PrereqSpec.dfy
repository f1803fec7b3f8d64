/**
 * The value-safe parser of the `## Prerequisites` block (autodev/pipeline/prereq_spec.py:107-248).
 * A line is given by its shape (heading, bullet, other); the text of a bullet is parsed as written.
 */
module PrereqSpec {
  import opened Json
  import opened Text

  const EM := '\U{2014}'
  const SEP := [' ', '\U{2014}', ' ']

  // ---------------------------------------------------------------------------------------
  // Strings
  // ---------------------------------------------------------------------------------------

  /** The first index at or after `from` that holds the character, or the length. */
  function IndexFrom(s: string, from: nat, c: char): (n: nat)
    requires from <= |s|
    ensures from <= n <= |s| && (n < |s| ==> s[n] == c) && forall k | from <= k < n :: s[k] != c
    decreases |s| - from
  {
    if from == |s| || s[from] == c then from else IndexFrom(s, from + 1, c)
  }

  lemma IndexAt(s: string, from: nat, c: char, n: nat)
    requires from <= n <= |s| && (n < |s| ==> s[n] == c) && forall k | from <= k < n :: s[k] != c
    ensures IndexFrom(s, from, c) == n
  {
  }

  function LowerChar(c: char): char {
    if 'A' <= c <= 'Z' then c - 'A' + 'a' else c
  }

  function Lower(s: string): (r: string)
    ensures |r| == |s| && forall i | 0 <= i < |s| :: r[i] == LowerChar(s[i])
  {
    seq(|s|, i requires 0 <= i < |s| => LowerChar(s[i]))
  }

  /** `body.split(EM)`. */
  function Split(s: string): (r: seq<string>)
    ensures r != []
    decreases |s|
  {
    var n := IndexFrom(s, 0, EM);
    if n == |s| then [s] else [s[..n]] + Split(s[n + 1..])
  }

  function StripAll(parts: seq<string>): (r: seq<string>)
    ensures |r| == |parts| && forall i | 0 <= i < |parts| :: r[i] == Strip(parts[i])
  {
    seq(|parts|, i requires 0 <= i < |parts| => Strip(parts[i]))
  }

  function Segments(body: string): (r: seq<string>)
    ensures r != []
  {
    StripAll(Split(body))
  }

  /** `" EM ".join(parts)`. */
  function Join(parts: seq<string>): string {
    if parts == [] then "" else if |parts| == 1 then parts[0] else parts[0] + SEP + Join(parts[1..])
  }

  // ---------------------------------------------------------------------------------------
  // One bullet
  // ---------------------------------------------------------------------------------------

  datatype Tool = Tool(name: string, description: string, neededBy: string)

  datatype EnvKind = Config | Secret

  datatype Env = Env(name: string, kind: EnvKind, purpose: string, usedBy: string)

  datatype Warning = ValueStripped(name: string) | Malformed(body: string) | UnknownKind(kind: string, name: string)

  /** The body without the text from the first `=` up to the next em-dash. */
  function CutValue(body: string): string {
    var n := IndexFrom(body, 0, '=');
    if n == |body| then body else body[..n] + body[IndexFrom(body, n, EM)..]
  }

  /** The leading run of characters that can name a key. */
  function LeadRun(s: string): string {
    if s == "" || IsSpace(s[0]) || s[0] in {'(', '=', EM} then "" else [s[0]] + LeadRun(s[1..])
  }

  function NameGuess(body: string): string {
    var run := LeadRun(StripLeft(body));
    if run == "" then "?" else run
  }

  function ValueWarning(body: string): Option<Warning> {
    if '=' in body then Some(ValueStripped(NameGuess(body))) else None
  }

  predicate IsNone(s: string) {
    Lower(s) in {"none", "na", "n/a", [EM], "-"}
  }

  function Middle(segs: seq<string>): string
    requires |segs| >= 2
  {
    Strip(Join(segs[1..|segs| - 1]))
  }

  function StripScope(segment: string, prefix: string): string {
    var s := Strip(segment);
    if |s| >= |prefix| && Lower(s[..|prefix|]) == prefix then Strip(s[|prefix|..]) else s
  }

  const NEEDED_BY := "needed by"
  const USED_BY := "used by"

  function OrMalformed(warning: Option<Warning>, body: string): Option<Warning> {
    if warning.Some? then warning else Some(Malformed(body))
  }

  datatype Parsed<T> = Parsed(entry: Option<T>, warning: Option<Warning>)

  function ParseToolLine(body: string): Parsed<Tool> {
    var cleaned, warning := CutValue(body), ValueWarning(body);
    if IsNone(Strip(cleaned)) then Parsed(None, None)
    else
      var segs := Segments(cleaned);
      if |segs| < 3 || segs[0] == "" then Parsed(None, OrMalformed(warning, body))
      else Parsed(Some(Tool(segs[0], Middle(segs), StripScope(segs[|segs| - 1], NEEDED_BY))), warning)
  }

  function NameRun(s: string): (n: nat)
    ensures n <= |s|
  {
    if s == "" || IsSpace(s[0]) || s[0] in {'(', ')'} then 0 else 1 + NameRun(s[1..])
  }

  /** `NAME` or `NAME (kind)`: the name and the text in the parentheses. */
  function NameAndKind(s: string): Option<(string, Option<string>)> {
    var n := NameRun(s);
    var rest := StripLeft(s[n..]);
    if n == 0 then None
    else if rest == "" then Some((s[..n], None))
    else if rest[0] != '(' then None
    else
      var close := IndexFrom(rest, 0, ')');
      if close == |rest| || close == 1 || !Blank(rest[close + 1..]) then None
      else Some((s[..n], Some(rest[1..close])))
  }

  function KindOf(text: Option<string>): Option<EnvKind> {
    if text.None? then Some(Config)
    else
      var kind := Lower(Strip(text.value));
      if kind == "config" then Some(Config) else if kind == "secret" then Some(Secret) else None
  }

  function ParseEnvLine(body: string): Parsed<Env> {
    var cleaned, warning := CutValue(body), ValueWarning(body);
    if IsNone(Strip(cleaned)) then Parsed(None, None)
    else
      var segs := Segments(cleaned);
      if |segs| < 3 || segs[0] == "" || NameAndKind(segs[0]).None? then Parsed(None, OrMalformed(warning, body))
      else
        var (name, text) := NameAndKind(segs[0]).value;
        var kind := KindOf(text);
        var entry := Env(name, if kind.Some? then kind.value else Config, Middle(segs),
                         StripScope(segs[|segs| - 1], USED_BY));
        Parsed(Some(entry),
               if kind.Some? || warning.Some? then warning
               else Some(UnknownKind(Lower(Strip(if text.Some? then text.value else "")), name)))
  }

  // ---------------------------------------------------------------------------------------
  // The block
  // ---------------------------------------------------------------------------------------

  datatype Line = Prerequisites | OtherSection | Tools | Environment | OtherSubsection | Bullet(body: string) | Prose

  datatype Section = InTools | InEnv | Outside

  datatype Spec = Spec(tools: seq<Tool>, env: seq<Env>, warnings: seq<Warning>, blockPresent: bool)

  function Noted(warnings: seq<Warning>, warning: Option<Warning>): seq<Warning> {
    if warning.Some? then warnings + [warning.value] else warnings
  }

  datatype State = State(current: Section, spec: Spec)

  function AddTool(st: State, p: Parsed<Tool>): State {
    st.(spec := st.spec.(tools := st.spec.tools + if p.entry.Some? then [p.entry.value] else [],
                         warnings := Noted(st.spec.warnings, p.warning)))
  }

  function AddEnv(st: State, p: Parsed<Env>): State {
    st.(spec := st.spec.(env := st.spec.env + if p.entry.Some? then [p.entry.value] else [],
                         warnings := Noted(st.spec.warnings, p.warning)))
  }

  function TakeBullet(st: State, body: string): State {
    match st.current
    case InTools => AddTool(st, ParseToolLine(body))
    case InEnv => AddEnv(st, ParseEnvLine(body))
    case Outside => st
  }

  /** One line of the block. */
  function Take(st: State, l: Line): State {
    match l
    case Tools => st.(current := InTools)
    case Environment => st.(current := InEnv)
    case OtherSubsection => st.(current := Outside)
    case Bullet(body) => TakeBullet(st, body)
    case _ => st
  }

  function TakeAll(st: State, lines: seq<Line>): State {
    if lines == [] then st else Take(TakeAll(st, lines[..|lines| - 1]), lines[|lines| - 1])
  }

  lemma TakeAllOn(st: State, lines: seq<Line>, l: Line)
    ensures TakeAll(st, lines + [l]) == Take(TakeAll(st, lines), l)
  {
    assert (lines + [l])[..|lines|] == lines;
  }

  lemma SliceOn<T>(s: seq<T>, from: nat, i: nat)
    requires from <= i < |s|
    ensures s[from..i + 1] == s[from..i] + [s[i]]
  {
  }

  predicate IsHeading(l: Line) {
    l.Prerequisites?
  }

  predicate IsSection(l: Line) {
    l.Prerequisites? || l.OtherSection?
  }

  function FirstLine(lines: seq<Line>, from: nat, test: Line -> bool): (n: nat)
    requires from <= |lines|
    ensures from <= n <= |lines| && (n < |lines| ==> test(lines[n])) && forall k | from <= k < n :: !test(lines[k])
    decreases |lines| - from
  {
    if from == |lines| || test(lines[from]) then from else FirstLine(lines, from + 1, test)
  }

  lemma FirstLineAt(lines: seq<Line>, from: nat, test: Line -> bool, n: nat)
    requires from <= n <= |lines| && (n < |lines| ==> test(lines[n])) && forall k | from <= k < n :: !test(lines[k])
    ensures FirstLine(lines, from, test) == n
  {
  }

  const EMPTY := Spec([], [], [], false)

  const START := State(Outside, Spec([], [], [], true))

  /** The lines from the heading to the next section. */
  function BlockOf(lines: seq<Line>): Option<seq<Line>> {
    var start := FirstLine(lines, 0, IsHeading);
    if start == |lines| then None else Some(lines[start + 1..FirstLine(lines, start + 1, IsSection)])
  }

  function Parse(lines: seq<Line>): Spec {
    var block := BlockOf(lines);
    if block.None? then EMPTY else TakeAll(START, block.value).spec
  }

  lemma TakenOneMore(first: State, lines: seq<Line>, from: nat, i: nat)
    requires from <= i < |lines|
    ensures TakeAll(first, lines[from..i + 1]) == Take(TakeAll(first, lines[from..i]), lines[i])
  {
    TakeAllOn(first, lines[from..i], lines[i]);
    SliceOn(lines, from, i);
  }

  /** A bullet, by the subsection it stands in. */
  method ReadBullet(st: State, body: string) returns (next: State)
    ensures next == TakeBullet(st, body)
  {
    next := st;
    var spec := st.spec;
    if st.current.InTools? {
      var p := ParseToolLine(body);
      if p.entry.Some? { spec := spec.(tools := spec.tools + [p.entry.value]); }
      next := st.(spec := spec.(warnings := Noted(spec.warnings, p.warning)));
    } else if st.current.InEnv? {
      var p := ParseEnvLine(body);
      if p.entry.Some? { spec := spec.(env := spec.env + [p.entry.value]); }
      next := st.(spec := spec.(warnings := Noted(spec.warnings, p.warning)));
    }
    assert st.spec.tools + [] == st.spec.tools && st.spec.env + [] == st.spec.env;
  }

  /** One line, in the order of the code's tests. */
  method TakeLine(st: State, l: Line) returns (next: State)
    ensures next == Take(st, l)
  {
    next := st;
    match l {
      case Tools => next := st.(current := InTools);
      case Environment => next := st.(current := InEnv);
      case OtherSubsection => next := st.(current := Outside);
      case Bullet(body) => next := ReadBullet(st, body);
      case _ =>
    }
  }

  method FindBlock(lines: seq<Line>) returns (start: nat)
    ensures start == FirstLine(lines, 0, IsHeading)
  {
    start := 0;
    while start < |lines| && !lines[start].Prerequisites?
      invariant 0 <= start <= |lines| && forall k | 0 <= k < start :: !lines[k].Prerequisites?
    {
      start := start + 1;
    }
    FirstLineAt(lines, 0, IsHeading, start);
  }

  lemma BlockIs(lines: seq<Line>, start: nat, end: nat)
    requires start == FirstLine(lines, 0, IsHeading) && start < end <= |lines|
    requires forall k | start + 1 <= k < end :: !IsSection(lines[k])
    requires end < |lines| ==> IsSection(lines[end])
    ensures BlockOf(lines) == Some(lines[start + 1..end])
  {
    FirstLineAt(lines, start + 1, IsSection, end);
  }

  /** The loop over the lines below the heading. */
  method TakeBlock(lines: seq<Line>, from: nat) returns (st: State, i: nat)
    requires from <= |lines|
    ensures from <= i <= |lines| && forall k | from <= k < i :: !IsSection(lines[k])
    ensures i < |lines| ==> IsSection(lines[i])
    ensures st == TakeAll(START, lines[from..i])
  {
    st, i := START, from;
    while i < |lines|
      invariant from <= i <= |lines| && forall k | from <= k < i :: !IsSection(lines[k])
      invariant st == TakeAll(START, lines[from..i])
    {
      if IsSection(lines[i]) { break; }
      TakenOneMore(START, lines, from, i);
      st := TakeLine(st, lines[i]);
      i := i + 1;
    }
  }

  method ParsePrerequisites(lines: seq<Line>) returns (spec: Spec)
    ensures spec == Parse(lines)
  {
    var start := FindBlock(lines);
    if start == |lines| { return EMPTY; }
    var st, end := TakeBlock(lines, start + 1);
    BlockIs(lines, start, end);
    spec := st.spec;
  }

  // ---------------------------------------------------------------------------------------
  // The payload leaves no trace
  // ---------------------------------------------------------------------------------------

  lemma {:induction false} LeadRunStops(a: string, x: string)
    requires '=' !in a
    ensures LeadRun(StripLeft(a + "=" + x)) == LeadRun(StripLeft(a))
    decreases |a|
  {
    var s := a + "=" + x;
    if a != "" && IsSpace(a[0]) {
      assert s[1..] == a[1..] + "=" + x;
      LeadRunStops(a[1..], x);
    } else if a != "" {
      RunStops(a, x);
    }
  }

  lemma {:induction false} RunStops(a: string, x: string)
    requires '=' !in a
    ensures LeadRun(a + "=" + x) == LeadRun(a)
    decreases |a|
  {
    if a != "" {
      assert (a + "=" + x)[1..] == a[1..] + "=" + x;
      RunStops(a[1..], x);
    }
  }

  lemma CutAt(a: string, payload: string, rest: string)
    requires '=' !in a && EM !in payload && (rest != "" ==> rest[0] == EM)
    ensures CutValue(a + "=" + payload + rest) == a + rest
  {
    var body := a + "=" + payload + rest;
    IndexAt(body, 0, '=', |a|);
    assert body == a + ("=" + payload) + rest;
    IndexAt(body, |a|, EM, |a| + 1 + |payload|);
    assert body[..|a|] == a && body[|a| + 1 + |payload|..] == rest;
  }

  lemma SameToolLeftovers(x: string, y: string)
    requires CutValue(x) == CutValue(y) && ValueWarning(x) == ValueWarning(y) && ValueWarning(x).Some?
    ensures ParseToolLine(x) == ParseToolLine(y)
  {
  }

  lemma SameEnvLeftovers(x: string, y: string)
    requires CutValue(x) == CutValue(y) && ValueWarning(x) == ValueWarning(y) && ValueWarning(x).Some?
    ensures ParseEnvLine(x) == ParseEnvLine(y)
  {
  }

  lemma WarningAt(a: string, x: string)
    requires '=' !in a
    ensures ValueWarning(a + "=" + x) == Some(ValueStripped(NameGuess(a)))
  {
    LeadRunStops(a, x);
    assert (a + "=" + x)[|a|] == '=';
  }

  lemma CutAndWarning(a: string, payload: string, rest: string)
    requires '=' !in a && EM !in payload && (rest != "" ==> rest[0] == EM)
    ensures CutValue(a + "=" + payload + rest) == a + rest
    ensures ValueWarning(a + "=" + payload + rest) == Some(ValueStripped(NameGuess(a)))
  {
    CutAt(a, payload, rest);
    WarningAt(a, payload + rest);
    assert a + "=" + payload + rest == a + "=" + (payload + rest);
  }

  /**
   * The first `=` payload of a bullet, up to the next em-dash, is not seen: two bullets that differ
   * only there give the same entry and the same warning, whatever the section.
   */
  lemma PayloadUnseen(a: string, payload: string, other: string, rest: string)
    requires '=' !in a && EM !in payload && EM !in other && (rest != "" ==> rest[0] == EM)
    ensures ParseToolLine(a + "=" + payload + rest) == ParseToolLine(a + "=" + other + rest)
    ensures ParseEnvLine(a + "=" + payload + rest) == ParseEnvLine(a + "=" + other + rest)
  {
    CutAndWarning(a, payload, rest);
    CutAndWarning(a, other, rest);
    SameToolLeftovers(a + "=" + payload + rest, a + "=" + other + rest);
    SameEnvLeftovers(a + "=" + payload + rest, a + "=" + other + rest);
  }

  /** Only the first payload goes: a later `=` behind an em-dash is stored. */
  ghost predicate SecondValue(body: string) {
    exists i, j, k | 0 <= i < j < k < |body| :: body[i] == '=' && body[j] == EM && body[k] == '='
  }

  lemma CutKeepsSecond(body: string)
    ensures '=' in CutValue(body) <==> SecondValue(body)
  {
    var n := IndexFrom(body, 0, '=');
    if n < |body| {
      var m := IndexFrom(body, n, EM);
      var cut := body[..n] + body[m..];
      if '=' in cut {
        var k :| 0 <= k < |cut| && cut[k] == '=';
        assert k >= n && body[k - n + m] == '=';
        assert body[n] == '=' && body[m] == EM && m < k - n + m;
      }
      if SecondValue(body) {
        var i, j, k :| 0 <= i < j < k < |body| && body[i] == '=' && body[j] == EM && body[k] == '=';
        assert n <= i && m <= j;
        assert cut[k - m + n] == '=';
      }
    } else {
      assert SecondValue(body) ==> '=' in body;
    }
  }

  lemma StripKeeps(s: string, c: char)
    requires !IsSpace(c)
    ensures c in Strip(s) <==> c in s
  {
    StripLeftKeeps(s, c);
    StripRightKeeps(StripLeft(s), c);
  }

  lemma {:induction false} StripLeftKeeps(s: string, c: char)
    requires !IsSpace(c)
    ensures c in StripLeft(s) <==> c in s
    decreases |s|
  {
    if s != "" && IsSpace(s[0]) {
      StripLeftKeeps(s[1..], c);
      assert s == [s[0]] + s[1..];
    }
  }

  lemma {:induction false} StripRightKeeps(s: string, c: char)
    requires !IsSpace(c)
    ensures c in StripRight(s) <==> c in s
    decreases |s|
  {
    if s != "" && IsSpace(s[|s| - 1]) {
      StripRightKeeps(s[..|s| - 1], c);
      assert s == s[..|s| - 1] + [s[|s| - 1]];
    }
  }

  predicate AnyHas(parts: seq<string>, c: char) {
    exists i | 0 <= i < |parts| :: c in parts[i]
  }

  lemma AnyFront(part: string, rest: seq<string>, c: char)
    ensures AnyHas([part] + rest, c) <==> c in part || AnyHas(rest, c)
  {
    var all := [part] + rest;
    if c in part { assert c in all[0]; }
    if AnyHas(rest, c) {
      var i :| 0 <= i < |rest| && c in rest[i];
      assert c in all[i + 1];
    }
    if AnyHas(all, c) {
      var i :| 0 <= i < |all| && c in all[i];
      assert i > 0 ==> c in rest[i - 1];
    }
  }

  lemma {:induction false} SplitKeeps(s: string, c: char)
    requires c != EM
    ensures AnyHas(Split(s), c) <==> c in s
    decreases |s|
  {
    var n := IndexFrom(s, 0, EM);
    if n == |s| {
      AnyFront(s, [], c);
      assert [s] + [] == [s];
    } else {
      SplitKeeps(s[n + 1..], c);
      AnyFront(s[..n], Split(s[n + 1..]), c);
      assert s == s[..n] + [EM] + s[n + 1..];
    }
  }

  lemma {:induction false} JoinKeeps(parts: seq<string>, c: char)
    requires c !in SEP
    ensures c in Join(parts) <==> AnyHas(parts, c)
    decreases |parts|
  {
    if |parts| == 1 {
      AnyFront(parts[0], [], c);
      assert [parts[0]] + [] == parts;
    } else if parts != [] {
      JoinKeeps(parts[1..], c);
      AnyFront(parts[0], parts[1..], c);
      assert [parts[0]] + parts[1..] == parts;
    }
  }

  lemma SegmentsKeep(s: string)
    ensures AnyHas(Segments(s), '=') <==> '=' in s
  {
    SplitKeeps(s, '=');
    var parts := Split(s);
    forall i | 0 <= i < |parts| ensures '=' in Segments(s)[i] <==> '=' in parts[i] { StripKeeps(parts[i], '='); }
  }

  lemma ScopeKeeps(segment: string, prefix: string)
    requires '=' !in prefix
    ensures '=' in StripScope(segment, prefix) <==> '=' in segment
  {
    StripKeeps(segment, '=');
    var s, n := Strip(segment), |prefix|;
    if |s| >= n && Lower(s[..n]) == prefix {
      StripKeeps(s[n..], '=');
      assert '=' !in s[..n] by {
        assert forall i | 0 <= i < n :: prefix[i] == LowerChar(s[..n][i]);
        assert LowerChar('=') == '=';
      }
      assert s == s[..n] + s[n..];
    }
  }

  lemma AnySplit(segs: seq<string>)
    requires |segs| >= 3
    ensures AnyHas(segs, '=') <==> '=' in segs[0] || AnyHas(segs[1..|segs| - 1], '=') || '=' in segs[|segs| - 1]
  {
    var mid := segs[1..|segs| - 1];
    if AnyHas(segs, '=') {
      var i :| 0 <= i < |segs| && '=' in segs[i];
      if 0 < i < |segs| - 1 { assert '=' in mid[i - 1]; }
    }
    if AnyHas(mid, '=') {
      var i :| 0 <= i < |mid| && '=' in mid[i];
      assert '=' in segs[i + 1];
    }
  }

  /** Of the first segment nothing behind the first `=` is left. */
  lemma FirstSegmentClean(body: string)
    ensures '=' !in Segments(CutValue(body))[0]
  {
    var cut, n := CutValue(body), IndexFrom(body, 0, '=');
    var m := IndexFrom(cut, 0, EM);
    assert Split(cut)[0] == cut[..m];
    assert m <= n by { if n < |cut| && n < |body| { assert cut[n] == EM; } }
    assert forall i | 0 <= i < m :: cut[i] == body[i];
    StripKeeps(cut[..m], '=');
  }

  /** What the two kinds of entries store of the segments after the first. */
  lemma StoredKeeps(segs: seq<string>, prefix: string)
    requires |segs| >= 3 && '=' !in segs[0] && '=' !in prefix
    ensures '=' in Middle(segs) || '=' in StripScope(segs[|segs| - 1], prefix) <==> AnyHas(segs, '=')
  {
    AnySplit(segs);
    JoinKeeps(segs[1..|segs| - 1], '=');
    StripKeeps(Join(segs[1..|segs| - 1]), '=');
    ScopeKeeps(segs[|segs| - 1], prefix);
  }

  lemma LeftoversKeep(body: string, prefix: string)
    requires |Segments(CutValue(body))| >= 3 && '=' !in prefix
    ensures var segs := Segments(CutValue(body));
            && '=' !in segs[0]
            && ('=' in Middle(segs) || '=' in StripScope(segs[|segs| - 1], prefix) <==> SecondValue(body))
  {
    FirstSegmentClean(body);
    StoredKeeps(Segments(CutValue(body)), prefix);
    SegmentsKeep(CutValue(body));
    CutKeepsSecond(body);
  }

  lemma ToolStored(body: string)
    requires ParseToolLine(body).entry.Some?
    ensures var segs, tool := Segments(CutValue(body)), ParseToolLine(body).entry.value;
            && |segs| >= 3 && tool.name == segs[0]
            && tool.description == Middle(segs) && tool.neededBy == StripScope(segs[|segs| - 1], NEEDED_BY)
  {
  }

  /**
   * A tool bullet that is stored holds an `=` exactly when a second one stands behind an em-dash; never
   * in its name.
   */
  lemma ToolHoldsValueIff(body: string)
    requires ParseToolLine(body).entry.Some?
    ensures var tool := ParseToolLine(body).entry.value;
            && '=' !in tool.name
            && ('=' in tool.description || '=' in tool.neededBy <==> SecondValue(body))
  {
    ToolStored(body);
    LeftoversKeep(body, NEEDED_BY);
  }

  /** The name is a piece of the first segment. */
  lemma NamePart(s: string)
    requires NameAndKind(s).Some? && '=' !in s
    ensures '=' !in NameAndKind(s).value.0
  {
  }

  lemma EnvStored(body: string)
    requires ParseEnvLine(body).entry.Some?
    ensures var segs, env := Segments(CutValue(body)), ParseEnvLine(body).entry.value;
            && |segs| >= 3 && NameAndKind(segs[0]).Some? && env.name == NameAndKind(segs[0]).value.0
            && env.purpose == Middle(segs) && env.usedBy == StripScope(segs[|segs| - 1], USED_BY)
  {
  }

  /** The same for environment bullets, where secrets are declared. */
  lemma EnvHoldsValueIff(body: string)
    requires ParseEnvLine(body).entry.Some?
    ensures var env := ParseEnvLine(body).entry.value;
            && '=' !in env.name
            && ('=' in env.purpose || '=' in env.usedBy <==> SecondValue(body))
  {
    EnvStored(body);
    LeftoversKeep(body, USED_BY);
    NamePart(Segments(CutValue(body))[0]);
  }
}
