/**
 * The lines of a roadmap as text (phase_resolver.py:23-42 and 186-259; ui/roadmap_parser.py:7-10 and
 * 62-65): what each pattern accepts, written out by hand, which of the resolver's header lines the UI
 * parser takes, and printed text read back. Word characters are the ASCII ones.
 */
module RoadmapText {
  import opened Json
  import opened Text
  import opened Roadmap
  import opened RoadmapLaws
  import opened RoadmapRun

  // ---------------------------------------------------------------------------------------
  // The patterns
  // ---------------------------------------------------------------------------------------

  /** The first index that holds the character, or the length. */
  function Find(s: string, c: char): (n: nat)
    ensures n <= |s| && (n < |s| ==> s[n] == c) && forall k | 0 <= k < n :: s[k] != c
  {
    if s == "" || s[0] == c then 0 else 1 + Find(s[1..], c)
  }

  lemma FindAt(s: string, c: char, n: nat)
    requires n < |s| && s[n] == c && forall k | 0 <= k < n :: s[k] != c
    ensures Find(s, c) == n
  {
    assert !(Find(s, c) < n) && !(n < Find(s, c));
  }

  predicate IsWordChar(c: char) {
    'a' <= c <= 'z' || 'A' <= c <= 'Z' || '0' <= c <= '9' || c == '_'
  }

  /** `\w+`, all of it. */
  predicate IsWord(s: string) {
    s != "" && forall i | 0 <= i < |s| :: IsWordChar(s[i])
  }

  function MarkAt(c: char): Option<Mark> {
    if c == ' ' then Some(Unticked) else if c == 'x' then Some(Ticked)
    else if c == '-' then Some(Skipped) else if c == '!' then Some(Blocked) else None
  }

  /** What the resolver's header pattern captures: the header, and the middle column. */
  datatype Row = Row(head: Header, risk: string)

  /** The part behind the id: a middle column, and the goal. */
  function RowRest(mark: Mark, id: string, rest: string): Option<Row> {
    var m := Find(rest, '|');
    if m < 2 || m + 2 >= |rest| || rest[m - 1] != ' ' || rest[m + 1] != ' ' then None
    else Some(Row(Header(mark, id, rest[m + 2..]), rest[..m - 1]))
  }

  /** From the id on. */
  function RowId(mark: Mark, t: string): Option<Row> {
    var n := Find(t, '`');
    if n == 0 || n + 4 > |t| || t[n..n + 4] != "` | " then None else RowRest(mark, t[..n], t[n + 4..])
  }

  /** `_PHASE_HEADER_RE` on a line without outer whitespace. */
  function RowOf(s: string): Option<Row> {
    if |s| < 7 || s[..3] != "- [" || MarkAt(s[3]).None? || s[4..7] != "] `" then None
    else RowId(MarkAt(s[3]).value, s[7..])
  }

  function ResolverRow(line: string): Option<Row> {
    RowOf(Strip(line))
  }

  function ResolverHead(line: string): Option<Header> {
    var row := ResolverRow(line);
    if row.Some? then Some(row.value.head) else None
  }

  /** `\s*(.+)$`: what the group captures. */
  function Captured(r: string): string
    requires r != ""
  {
    if Text.Blank(r) then r[|r| - 1..] else StripLeft(r)
  }

  /** From the first column separator on: a word between the separators, and the goal. */
  function UiRest(mark: Mark, id: string, rest: string): Option<Header> {
    if rest == "" || rest[0] != '|' then None
    else
      var columns := rest[1..];
      var m := Find(columns, '|');
      if m + 1 >= |columns| || !IsWord(Strip(columns[..m])) then None
      else Some(Header(mark, id, Captured(columns[m + 1..])))
  }

  /** From the id on. */
  function UiId(mark: Mark, t: string): Option<Header> {
    if t == "" || t[0] != '`' then None
    else
      var n := Find(t[1..], '`');
      if n == 0 || n + 1 >= |t| then None else UiRest(mark, t[1..n + 1], StripLeft(t[n + 2..]))
  }

  /** From the checkbox on. */
  function UiBox(s: string): Option<Header> {
    if |s| < 3 || s[0] != '[' || MarkAt(s[1]).None? || s[2] != ']' then None
    else UiId(MarkAt(s[1]).value, StripLeft(s[3..]))
  }

  /** `phase_pattern` of the UI parser. */
  function UiHead(line: string): Option<Header> {
    if line == "" || line[0] != '-' then None
    else UiBox(StripLeft(line[1..]))
  }

  // ---------------------------------------------------------------------------------------
  // When the two header patterns agree
  // ---------------------------------------------------------------------------------------

  function MarkChar(mark: Mark): char {
    match mark case Unticked => ' ' case Ticked => 'x' case Skipped => '-' case Blocked => '!'
  }

  function Box(mark: Mark): (s: string)
    ensures |s| == 7
  {
    ['-', ' ', '[', MarkChar(mark), ']', ' ', '`']
  }

  function FrontPart(mark: Mark, t: string): string {
    Box(mark) + t
  }

  function IdPart(id: string, rest: string): string {
    id + ("` | " + rest)
  }

  function RestPart(risk: string, goal: string): string {
    risk + (" | " + goal)
  }

  /** A header line. */
  function HeadText(mark: Mark, id: string, risk: string, goal: string): string {
    FrontPart(mark, IdPart(id, RestPart(risk, goal)))
  }

  predicate Fits(id: string, risk: string, goal: string) {
    id != "" && '`' !in id && risk != "" && '|' !in risk && goal != ""
  }

  lemma FrontReads(mark: Mark, t: string)
    ensures RowOf(FrontPart(mark, t)) == RowId(mark, t)
  {
    PrefixSlices(Box(mark), t);
    assert Box(mark)[..3] == "- [" && Box(mark)[3] == MarkChar(mark) && Box(mark)[4..7] == "] `";
  }

  lemma PrefixSlices(front: string, t: string)
    requires |front| == 7
    ensures var s := front + t; s[..3] == front[..3] && s[3] == front[3] && s[4..7] == front[4..7] && s[7..] == t
  {
  }

  lemma FrontBack(s: string)
    requires RowOf(s).Some?
    ensures var mark := MarkAt(s[3]).value; s == FrontPart(mark, s[7..]) && RowOf(s) == RowId(mark, s[7..])
  {
    assert s[..7] == s[..3] + [s[3]] + s[4..7];
    assert s == s[..7] + s[7..];
  }

  lemma IdCut(id: string, rest: string)
    requires '`' !in id
    ensures var t := IdPart(id, rest);
            && Find(t, '`') == |id| && |id| + 4 <= |t|
            && t[..|id|] == id && t[|id|..|id| + 4] == "` | " && t[|id| + 4..] == rest && t[|id| + 1..] == " | " + rest
  {
    var t := IdPart(id, rest);
    assert forall k | 0 <= k < |id| :: t[k] == id[k] && id[k] in id;
    FindAt(t, '`', |id|);
  }

  lemma IdReads(mark: Mark, id: string, rest: string)
    requires id != "" && '`' !in id
    ensures RowId(mark, IdPart(id, rest)) == RowRest(mark, id, rest)
  {
    IdCut(id, rest);
  }

  lemma IdBack(mark: Mark, t: string) returns (id: string, rest: string)
    requires RowId(mark, t).Some?
    ensures id != "" && '`' !in id && t == IdPart(id, rest) && RowId(mark, t) == RowRest(mark, id, rest)
  {
    var n := Find(t, '`');
    id, rest := t[..n], t[n + 4..];
    assert t == t[..n] + (t[n..n + 4] + t[n + 4..]);
  }

  lemma RestReads(mark: Mark, id: string, risk: string, goal: string)
    requires risk != "" && '|' !in risk && goal != ""
    ensures RowRest(mark, id, RestPart(risk, goal)) == Some(Row(Header(mark, id, goal), risk))
  {
    var rest := RestPart(risk, goal);
    assert forall k | 0 <= k < |risk| :: rest[k] == risk[k] && risk[k] in risk;
    FindAt(rest, '|', |risk| + 1);
    assert rest[..|risk|] == risk && rest[|risk| + 3..] == goal;
  }

  lemma RestBack(mark: Mark, id: string, rest: string)
    requires RowRest(mark, id, rest).Some?
    ensures var row := RowRest(mark, id, rest).value;
            && row.head.mark == mark && row.head.id == id
            && row.risk != "" && '|' !in row.risk && row.head.goal != "" && rest == RestPart(row.risk, row.head.goal)
  {
    var m := Find(rest, '|');
    assert rest == rest[..m - 1] + ([rest[m - 1], rest[m], rest[m + 1]] + rest[m + 2..]);
  }

  lemma RowReads(mark: Mark, id: string, risk: string, goal: string)
    requires Fits(id, risk, goal)
    ensures RowOf(HeadText(mark, id, risk, goal)) == Some(Row(Header(mark, id, goal), risk))
  {
    FrontReads(mark, IdPart(id, RestPart(risk, goal)));
    IdReads(mark, id, RestPart(risk, goal));
    RestReads(mark, id, risk, goal);
  }

  /** Every line the resolver's pattern accepts is such a header line. */
  lemma RowIsText(s: string)
    requires RowOf(s).Some?
    ensures var row := RowOf(s).value;
            Fits(row.head.id, row.risk, row.head.goal)
                  && s == HeadText(row.head.mark, row.head.id, row.risk, row.head.goal)
  {
    var mark := MarkAt(s[3]).value;
    FrontBack(s);
    var id, rest := IdBack(mark, s[7..]);
    RestBack(mark, id, rest);
  }

  lemma SpacesGone(s: string)
    ensures Strip(" " + s + " ") == Strip(s)
  {
    assert " " + s + " " == " " + (s + " ") && (" " + (s + " "))[1..] == s + " ";
    RightSpaceGone(s);
  }

  lemma {:induction false} LeftKeepsSpace(s: string)
    ensures StripLeft(s + " ") == if StripLeft(s) == "" then "" else StripLeft(s) + " "
    decreases |s|
  {
    if s == "" {
      assert (s + " ")[1..] == "";
    } else if IsSpace(s[0]) {
      assert (s + " ")[1..] == s[1..] + " ";
      LeftKeepsSpace(s[1..]);
    }
  }

  lemma RightSpaceGone(s: string)
    ensures Strip(s + " ") == Strip(s)
  {
    LeftKeepsSpace(s);
    var left := StripLeft(s);
    assert (left + " ")[..|left|] == left;
  }

  lemma SpaceSkipped(s: string)
    requires s != "" && !IsSpace(s[0])
    ensures StripLeft(" " + s) == s
  {
    assert (" " + s)[1..] == s;
  }

  lemma UiFrontReads(mark: Mark, t: string)
    ensures UiHead(FrontPart(mark, t)) == UiId(mark, "`" + t)
  {
    var w := ['[', MarkChar(mark), ']', ' '] + ("`" + t);
    assert FrontPart(mark, t)[1..] == " " + w;
    SpaceSkipped(w);
    BoxReads(mark, "`" + t);
  }

  lemma BoxReads(mark: Mark, t: string)
    requires t != "" && !IsSpace(t[0])
    ensures UiBox(['[', MarkChar(mark), ']', ' '] + t) == UiId(mark, t)
  {
    var w := ['[', MarkChar(mark), ']', ' '] + t;
    assert w[0] == '[' && w[1] == MarkChar(mark) && w[2] == ']' && w[3] == ' ';
    assert w[3..] == " " + t;
    SpaceSkipped(t);
    MarkRead(mark);
    BoxOf(w, mark, t);
  }

  lemma MarkRead(mark: Mark)
    ensures MarkAt(MarkChar(mark)) == Some(mark)
  {
  }

  lemma BoxOf(w: string, mark: Mark, t: string)
    requires |w| >= 3 && w[0] == '[' && MarkAt(w[1]) == Some(mark) && w[2] == ']' && StripLeft(w[3..]) == t
    ensures UiBox(w) == UiId(mark, t)
  {
  }

  lemma UiIdReads(mark: Mark, id: string, rest: string)
    requires id != "" && '`' !in id
    ensures UiId(mark, "`" + IdPart(id, rest)) == UiRest(mark, id, "| " + rest)
  {
    var t := "`" + IdPart(id, rest);
    IdCut(id, rest);
    assert t[1..] == IdPart(id, rest);
    assert t[1..|id| + 1] == t[1..][..|id|] && t[|id| + 2..] == t[1..][|id| + 1..];
    assert " | " + rest == " " + ("| " + rest);
    SpaceSkipped("| " + rest);
  }

  lemma UiRestReads(mark: Mark, id: string, risk: string, goal: string)
    requires '|' !in risk && goal != ""
    ensures UiRest(mark, id, "| " + RestPart(risk, goal)) ==
            if IsWord(Strip(risk)) then Some(Header(mark, id, Captured(" " + goal))) else None
  {
    var rest := "| " + RestPart(risk, goal);
    var column := " " + risk + " ";
    assert rest[1..] == column + ("|" + (" " + goal));
    forall k | 0 <= k < |column| ensures column[k] != '|' {
      if 1 <= k <= |risk| { assert column[k] == risk[k - 1] && risk[k - 1] in risk; }
    }
    ColumnReads(mark, id, rest, column, " " + goal);
    SpacesGone(risk);
  }

  lemma ColumnReads(mark: Mark, id: string, rest: string, column: string, goal: string)
    requires rest != "" && rest[0] == '|' && rest[1..] == column + ("|" + goal) && goal != ""
    requires forall k | 0 <= k < |column| :: column[k] != '|'
    ensures UiRest(mark, id, rest) == if IsWord(Strip(column)) then Some(Header(mark, id, Captured(goal))) else None
  {
    ColumnCut(column, goal);
  }

  lemma ColumnCut(column: string, rest: string)
    requires forall k | 0 <= k < |column| :: column[k] != '|'
    ensures var columns := column + ("|" + rest);
            && Find(columns, '|') == |column| && |column| < |columns|
            && columns[..|column|] == column && columns[|column| + 1..] == rest
  {
    var columns := column + ("|" + rest);
    FindAt(columns, '|', |column|);
  }

  lemma UiReads(mark: Mark, id: string, risk: string, goal: string)
    requires Fits(id, risk, goal)
    ensures UiHead(HeadText(mark, id, risk, goal)) ==
            if IsWord(Strip(risk)) then Some(Header(mark, id, Captured(" " + goal))) else None
  {
    UiFrontReads(mark, IdPart(id, RestPart(risk, goal)));
    UiIdReads(mark, id, RestPart(risk, goal));
    UiRestReads(mark, id, risk, goal);
  }

  lemma TailGone(s: string, tail: string)
    requires Text.Blank(tail)
    ensures Strip(s + tail) == Strip(s)
  {
    StripLeftAppend(s, tail);
    if !Text.Blank(s) { StripRightAppend(StripLeft(s), tail); }
  }

  /** What the group captures is the text up to outer whitespace. */
  lemma CapturedStrips(r: string)
    requires r != ""
    ensures Strip(Captured(r)) == Strip(r)
  {
    if Text.Blank(r) {
      assert Text.Blank(r[|r| - 1..]);
    } else {
      assert StripLeft(StripLeft(r)) == StripLeft(r);
    }
  }

  lemma {:induction false} RightPart(s: string) returns (tail: string)
    ensures s == StripRight(s) + tail && Text.Blank(tail)
    decreases |s|
  {
    if s == "" || !IsSpace(s[|s| - 1]) {
      tail := "";
    } else {
      tail := RightPart(s[..|s| - 1]);
      tail := tail + [s[|s| - 1]];
      assert s == s[..|s| - 1] + [s[|s| - 1]];
    }
  }

  lemma TextWithTail(mark: Mark, id: string, risk: string, goal: string, tail: string)
    ensures HeadText(mark, id, risk, goal) + tail == HeadText(mark, id, risk, goal + tail)
  {
    assert RestPart(risk, goal) + tail == RestPart(risk, goal + tail);
    assert IdPart(id, RestPart(risk, goal)) + tail == IdPart(id, RestPart(risk, goal) + tail);
  }

  /**
   * Of the lines the resolver takes for a header, the UI parser takes just those that are not indented
   * and whose middle column is a single word, and then both read the same mark, id and goal.
   */
  lemma HeadersAgree(line: string)
    requires ResolverRow(line).Some?
    ensures line != ""
    ensures UiHead(line).Some? <==> !IsSpace(line[0]) && IsWord(Strip(ResolverRow(line).value.risk))
    ensures UiHead(line).Some? ==> Alike(ResolverRow(line).value.head, UiHead(line).value)
  {
    var row := ResolverRow(line).value;
    assert Strip("") == "";
    if !IsSpace(line[0]) {
      var h := row.head;
      var tail := RightPart(line);
      RowIsText(Strip(line));
      TextWithTail(h.mark, h.id, row.risk, h.goal, tail);
      UiReads(h.mark, h.id, row.risk, h.goal + tail);
      CapturedStrips(" " + (h.goal + tail));
      SpaceInFront(h.goal + tail);
      TailGone(h.goal, tail);
    }
  }

  lemma SpaceInFront(s: string)
    ensures Strip(" " + s) == Strip(s)
  {
    assert (" " + s)[1..] == s;
  }

  // ---------------------------------------------------------------------------------------
  // Whole lines
  // ---------------------------------------------------------------------------------------

  function KindText(kind: Kind): string {
    match kind
    case EntryCriteria => "**Entry Criteria:**"
    case ExitCriteria => "**Exit Criteria:**"
    case TddRequirements => "**TDD Requirements:**"
    case DoneCriteria => "**Done Criteria:**"
  }

  const BV_HEAD := "**Behavioral Verification:**"

  function LabelText(field: Field): string {
    match field
    case UserObservable => "**User-observable:**"
    case HowToCheck => "**How we'll check:**"
    case FailureLanguage => "**If this fails, the user sees:**"
  }

  /** The text of a bullet behind its label, whitespace and at least one more character. */
  function BulletText(u: string, field: Field): Option<string> {
    if LabelText(field) <= u then
      var r := u[|LabelText(field)|..];
      if |r| >= 2 && IsSpace(r[0]) then Some(Strip(r)) else None
    else None
  }

  function BulletOf(line: string): Option<Line> {
    var s := StripLeft(line);
    if s == "" || s[0] != '-' || |StripLeft(s[1..])| == |s| - 1 then None
    else
      var u := StripLeft(s[1..]);
      if BulletText(u, UserObservable).Some? then Some(Bullet(UserObservable, BulletText(u, UserObservable).value))
      else if BulletText(u, HowToCheck).Some? then Some(Bullet(HowToCheck, BulletText(u, HowToCheck).value))
      else if BulletText(u, FailureLanguage).Some?
        then Some(Bullet(FailureLanguage, BulletText(u, FailureLanguage).value))
      else None
  }

  /** `exit_criteria_pattern` of the UI parser, behind the `>`. */
  function LabelOf(t: string): Option<string> {
    var n := Find(t, ':');
    if n + 1 < |t| && IsWord(t[..n]) then Some(Captured(t[n + 1..])) else None
  }

  function SectionOf(s: string): Option<Line> {
    if s == BV_HEAD then Some(BvHead)
    else if s == KindText(EntryCriteria) then Some(Section(EntryCriteria))
    else if s == KindText(ExitCriteria) then Some(Section(ExitCriteria))
    else if s == KindText(TddRequirements) then Some(Section(TddRequirements))
    else if s == KindText(DoneCriteria) then Some(Section(DoneCriteria))
    else None
  }

  /** What the patterns of both parsers make of a line. */
  function ReadLine(line: string): Line {
    var s := Strip(line);
    if ResolverHead(line).Some? || UiHead(line).Some? then Phase(ResolverHead(line), UiHead(line))
    else if s == "" then Line.Blank
    else if s[0] == '>' then Quote(Strip(s[1..]), LabelOf(StripLeft(StripLeft(line)[1..])))
    else if SectionOf(s).Some? then SectionOf(s).value
    else if BulletOf(line).Some? then BulletOf(line).value
    else Other(line)
  }

  function ReadAll(lines: seq<string>): (r: seq<Line>)
    ensures |r| == |lines| && forall i | 0 <= i < |r| :: r[i] == ReadLine(lines[i])
  {
    seq(|lines|, i requires 0 <= i < |lines| => ReadLine(lines[i]))
  }

  // ---------------------------------------------------------------------------------------
  // Printed lines
  // ---------------------------------------------------------------------------------------

  /** A line of a printed roadmap, with this middle column in the headers. */
  function TextOf(l: Line, risk: string): string {
    match l
    case Phase(Some(h), _) => HeadText(h.mark, h.id, risk, h.goal)
    case Section(kind) => KindText(kind)
    case BvHead => BV_HEAD
    case Bullet(field, text) => "- " + (LabelText(field) + (" " + text))
    case Quote(whole, _) => "> " + whole
    case Other(other) => other
    case _ => ""
  }

  predicate Spelled(text: string) {
    text != "" && Trimmed(text)
  }

  predicate SpelledHead(h: Header) {
    Spelled(h.id) && '`' !in h.id && Spelled(h.goal)
  }

  /** The lines that printing makes, when every text in them is spelled out. */
  predicate Spellable(tag: string, l: Line) {
    match l
    case Phase(h, ui) => h.Some? && ui == h && SpelledHead(h.value)
    case Bullet(_, text) => Spelled(text)
    case Quote(whole, own) => own.Some? && Spelled(own.value) && whole == tag + ": " + own.value
    case Other(text) => ReadLine(text) == l
    case _ => true
  }

  lemma HeadEnds(mark: Mark, id: string, risk: string, goal: string)
    requires goal != ""
    ensures var s := HeadText(mark, id, risk, goal); s != "" && s[0] == '-' && s[|s| - 1] == goal[|goal| - 1]
  {
    var rest := RestPart(risk, goal);
    var t := IdPart(id, rest);
    assert rest[|rest| - 1] == goal[|goal| - 1];
    assert t[|t| - 1] == rest[|rest| - 1];
  }

  lemma WordIsSpelled(s: string)
    requires IsWord(s)
    ensures Spelled(s) && '|' !in s && ':' !in s && Strip(s) == s
  {
    StripTrimmed(s);
  }

  lemma CapturedText(text: string)
    requires Spelled(text)
    ensures Captured(" " + text) == text && Strip(" " + text) == text && Strip(text) == text
  {
    SpaceSkipped(text);
    SpaceInFront(text);
    StripTrimmed(text);
    assert !Text.Blank(" " + text) by { assert (" " + text)[1] == text[0]; }
  }

  lemma HeadRead(h: Header, risk: string)
    requires SpelledHead(h) && IsWord(risk)
    ensures ReadLine(HeadText(h.mark, h.id, risk, h.goal)) == Phase(Some(h), Some(h))
  {
    var line := HeadText(h.mark, h.id, risk, h.goal);
    WordIsSpelled(risk);
    HeadEnds(h.mark, h.id, risk, h.goal);
    StripTrimmed(line);
    RowReads(h.mark, h.id, risk, h.goal);
    UiReads(h.mark, h.id, risk, h.goal);
    CapturedText(h.goal);
  }

  /** A line that starts with neither a dash nor blanks is no header. */
  lemma NoHead(line: string)
    requires Trimmed(line) && (line != "" ==> line[0] != '-')
    ensures Strip(line) == line && ResolverHead(line).None? && UiHead(line).None?
  {
    StripTrimmed(line);
    if |line| >= 7 { assert line[..3][0] == line[0]; }
  }

  lemma QuoteRead(tag: string, text: string)
    requires IsWord(tag) && Spelled(text)
    ensures ReadLine("> " + (tag + ": " + text)) == Quote(tag + ": " + text, Some(text))
  {
    var body := tag + ": " + text;
    var line := "> " + body;
    WordIsSpelled(tag);
    assert body[0] == tag[0] && body[|body| - 1] == text[|text| - 1];
    assert line[0] == '>' && line[|line| - 1] == body[|body| - 1] && line[1..] == " " + body;
    NoHead(line);
    CapturedText(body);
    SpaceSkipped(body);
    LabelRead(tag, text);
  }

  lemma LabelRead(tag: string, text: string)
    requires IsWord(tag) && Spelled(text)
    ensures LabelOf(tag + ": " + text) == Some(text)
  {
    var t := tag + ": " + text;
    WordIsSpelled(tag);
    assert forall k | 0 <= k < |tag| :: t[k] == tag[k] && tag[k] in tag;
    FindAt(t, ':', |tag|);
    assert t[..|tag|] == tag && t[|tag| + 1..] == " " + text;
    CapturedText(text);
  }

  lemma SectionRead(s: string)
    requires SectionOf(s).Some? && Spelled(s) && s[0] == '*'
    ensures ReadLine(s) == SectionOf(s).value
  {
    NoHead(s);
  }

  lemma KindRead(kind: Kind)
    ensures Spelled(KindText(kind)) && KindText(kind)[0] == '*' && SectionOf(KindText(kind)) == Some(Section(kind))
  {
    assert KindText(EntryCriteria)[3] == 'n' && KindText(ExitCriteria)[3] == 'x' && KindText(TddRequirements)[3] == 'D';
    assert KindText(DoneCriteria)[3] == 'o' && BV_HEAD[3] == 'e';
  }

  lemma BvHeadRead()
    ensures ReadLine(BV_HEAD) == BvHead
  {
    SectionRead(BV_HEAD);
  }

  lemma PrefixDiffers(a: string, u: string, i: nat)
    requires i < |a| && i < |u| && a[i] != u[i]
    ensures !(a <= u)
  {
  }

  /** The labels differ in their first letter. */
  function Letter(field: Field): char {
    match field case UserObservable => 'U' case HowToCheck => 'H' case FailureLanguage => 'I'
  }

  lemma LabelLetter(field: Field)
    ensures |LabelText(field)| > 2 && LabelText(field)[2] == Letter(field)
  {
  }

  lemma OwnLabel(field: Field, text: string)
    requires Spelled(text)
    ensures BulletText(LabelText(field) + (" " + text), field) == Some(text)
  {
    var u := LabelText(field) + (" " + text);
    assert u[|LabelText(field)|..] == " " + text;
    CapturedText(text);
  }

  lemma OtherLabel(field: Field, text: string, other: Field)
    requires other != field
    ensures BulletText(LabelText(field) + (" " + text), other).None?
  {
    LabelLetter(field);
    LabelLetter(other);
    assert (LabelText(field) + (" " + text))[2] == LabelText(field)[2];
    PrefixDiffers(LabelText(other), LabelText(field) + (" " + text), 2);
  }

  /** Behind the dash of a bullet line there is its label and its text, and no other label fits. */
  lemma LabelsApart(field: Field, text: string, other: Field)
    requires Spelled(text)
    ensures BulletText(LabelText(field) + (" " + text), other) == if other == field then Some(text) else None
  {
    if other == field { OwnLabel(field, text); } else { OtherLabel(field, text, other); }
  }

  lemma LabelStarts(field: Field)
    ensures |LabelText(field)| > 2 && LabelText(field)[0] == '*'
  {
  }

  lemma SectionStarts(s: string)
    requires SectionOf(s).Some?
    ensures s != "" && s[0] == '*'
  {
    KindRead(EntryCriteria);
    KindRead(ExitCriteria);
    KindRead(TddRequirements);
    KindRead(DoneCriteria);
  }

  /** A dash, a blank and a star start no header. */
  lemma NoBulletHead(u: string)
    requires u != "" && u[0] == '*' && !IsSpace(u[|u| - 1])
    ensures var line := "- " + u;
            && Strip(line) == line && StripLeft(line) == line && StripLeft(line[1..]) == u
            && ResolverHead(line).None? && UiHead(line).None?
  {
    var line := "- " + u;
    assert line[0] == '-' && line[2] == '*' && line[|line| - 1] == u[|u| - 1] && line[1..] == " " + u;
    StripTrimmed(line);
    SpaceSkipped(u);
    if |line| >= 7 { assert line[..3][2] == line[2]; }
  }

  lemma BulletFound(line: string, u: string, field: Field, text: string)
    requires line != "" && line[0] == '-' && StripLeft(line) == line && StripLeft(line[1..]) == u && |u| + 2 == |line|
    requires forall other: Field :: BulletText(u, other) == if other == field then Some(text) else None
    ensures BulletOf(line) == Some(Bullet(field, text))
  {
  }

  lemma BulletRead(field: Field, text: string)
    requires Spelled(text)
    ensures ReadLine("- " + (LabelText(field) + (" " + text))) == Bullet(field, text)
  {
    var u := LabelText(field) + (" " + text);
    var line := "- " + u;
    LabelStarts(field);
    assert u[0] == LabelText(field)[0] && u[|u| - 1] == text[|text| - 1];
    NoBulletHead(u);
    forall other: Field ensures BulletText(u, other) == if other == field then Some(text) else None {
      LabelsApart(field, text, other);
    }
    BulletFound(line, u, field, text);
    NoSection(line);
    NoSpecial(line, Bullet(field, text));
  }

  lemma NoSection(line: string)
    requires line != "" && line[0] == '-'
    ensures SectionOf(line).None?
  {
    if SectionOf(line).Some? { SectionStarts(line); }
  }

  lemma NoSpecial(line: string, l: Line)
    requires Strip(line) == line && line != "" && line[0] == '-' && ResolverHead(line).None? && UiHead(line).None?
    requires SectionOf(line).None? && BulletOf(line) == Some(l)
    ensures ReadLine(line) == l
  {
  }

  lemma BlankRead()
    ensures ReadLine("") == Line.Blank
  {
    NoHead("");
  }

  /** Every printed line is read back as the line it was printed from. */
  lemma LineRead(tag: string, risk: string, l: Line)
    requires IsWord(tag) && IsWord(risk) && Spellable(tag, l)
    ensures ReadLine(TextOf(l, risk)) == l
  {
    match l
    case Phase(h, _) => HeadRead(h.value, risk);
    case Section(kind) =>
      KindRead(kind);
      SectionRead(KindText(kind));
    case BvHead => BvHeadRead();
    case Bullet(field, text) => BulletRead(field, text);
    case Quote(_, own) => QuoteRead(tag, own.value);
    case Blank => BlankRead();
    case Other(_) =>
  }

  lemma BoxSpelled(mark: Mark, box: string, id: string, risk: string, goal: string)
    requires box == Box(mark)
    ensures box + id + "` | " + risk + " | " + goal == HeadText(mark, id, risk, goal)
  {
  }

  /** The four boxes: open, ticked, skipped and blocked. */
  lemma BoxRead(mark: Mark, id: string, risk: string, goal: string)
    requires Spelled(id) && '`' !in id && Spelled(goal) && IsWord(risk)
    ensures var box :=
              match mark
              case Unticked => "- [ ] `"
              case Ticked => "- [x] `"
              case Skipped => "- [-] `"
              case Blocked => "- [!] `";
            var h := Header(mark, id, goal);
            ReadLine(box + id + "` | " + risk + " | " + goal) == Phase(Some(h), Some(h))
  {
    BoxSpelled(mark, Box(mark), id, risk, goal);
    HeadRead(Header(mark, id, goal), risk);
    match mark
    case Unticked => assert Box(mark) == "- [ ] `";
    case Ticked => assert Box(mark) == "- [x] `";
    case Skipped => assert Box(mark) == "- [-] `";
    case Blocked => assert Box(mark) == "- [!] `";
  }

  /** The titles of the section blocks. */
  lemma TitleRead(kind: Kind)
    ensures var title :=
              match kind
              case EntryCriteria => "**Entry Criteria:**"
              case ExitCriteria => "**Exit Criteria:**"
              case TddRequirements => "**TDD Requirements:**"
              case DoneCriteria => "**Done Criteria:**";
            ReadLine(title) == Section(kind)
  {
    KindRead(kind);
    SectionRead(KindText(kind));
  }

  lemma BehaviourTitleRead()
    ensures ReadLine("**Behavioral Verification:**") == BvHead
  {
    BvHeadRead();
  }

  /** The labels of the three bullets. */
  lemma LabelsRead(text: string)
    requires Spelled(text)
    ensures ReadLine("- " + ("**User-observable:**" + (" " + text))) == Bullet(UserObservable, text)
    ensures ReadLine("- " + ("**How we'll check:**" + (" " + text))) == Bullet(HowToCheck, text)
    ensures ReadLine("- " + ("**If this fails, the user sees:**" + (" " + text))) == Bullet(FailureLanguage, text)
  {
    BulletRead(UserObservable, text);
    BulletRead(HowToCheck, text);
    BulletRead(FailureLanguage, text);
  }

  // ---------------------------------------------------------------------------------------
  // Printed roadmaps
  // ---------------------------------------------------------------------------------------

  /** Everything in the phase is spelled out. */
  predicate SpelledPhase(p: UiPhase) {
    && SpelledHead(Header(MarkOf(p.status), p.id, p.goal))
    && (forall i | 0 <= i < |p.exits| :: Spelled(p.exits[i]))
    && (p.behaviour.Some? ==>
          var b := p.behaviour.value; Spelled(b.userObservable) && Spelled(b.howToCheck) && Spelled(b.failureLanguage))
  }

  /** The content of a section block is text that no pattern takes for anything else. */
  predicate SpelledLines(lines: seq<Line>) {
    forall i | 0 <= i < |lines| :: lines[i].Blank? || (lines[i].Other? && ReadLine(lines[i].text) == lines[i])
  }

  predicate SpelledPage(page: Page) {
    && SpelledPhase(page.phase)
    && SpelledLines(page.sections.entry) && SpelledLines(page.sections.exit)
    && SpelledLines(page.sections.tdd) && SpelledLines(page.sections.done)
  }

  lemma SectionsSpellable(tag: string, x: Sections)
    requires SpelledLines(x.entry) && SpelledLines(x.exit) && SpelledLines(x.tdd) && SpelledLines(x.done)
    ensures forall i | 0 <= i < |PrintSections(x)| :: Spellable(tag, PrintSections(x)[i])
  {
    var a, b := SectionBlock(EntryCriteria, x.entry), SectionBlock(ExitCriteria, x.exit);
    var c, d := SectionBlock(TddRequirements, x.tdd), SectionBlock(DoneCriteria, x.done);
    forall l: Line | l in a + b + c + d ensures Spellable(tag, l) {
      assert l in a || l in b || l in c || l in d;
    }
  }

  lemma BodySpellable(tag: string, page: Page)
    requires SpelledPage(page)
    ensures forall i | 0 <= i < |PrintBody(tag, page)| :: Spellable(tag, PrintBody(tag, page)[i])
  {
    QuotesAt(tag, page.phase.exits);
    SectionsSpellable(tag, page.sections);
  }

  lemma {:induction false} PrintSpellable(tag: string, pages: seq<Page>)
    requires forall k | 0 <= k < |pages| :: SpelledPage(pages[k])
    ensures forall i | 0 <= i < |Print(tag, pages)| :: Spellable(tag, Print(tag, pages)[i])
    decreases |pages|
  {
    if pages != [] {
      PrintSpellable(tag, pages[..|pages| - 1]);
      BodySpellable(tag, pages[|pages| - 1]);
    }
  }

  /** The text of a printed roadmap. */
  function PrintText(tag: string, risk: string, pages: seq<Page>): (r: seq<string>)
    ensures |r| == |Print(tag, pages)| && forall i | 0 <= i < |r| :: r[i] == TextOf(Print(tag, pages)[i], risk)
  {
    var lines := Print(tag, pages);
    seq(|lines|, i requires 0 <= i < |lines| => TextOf(lines[i], risk))
  }

  /**
   * Round trip on text: the streaming parser recovers every phase list from its printed text, and the
   * resolver's answer on the same text is the first page neither complete nor skipped.
   */
  lemma PrintedTextRead(tag: string, risk: string, pages: seq<Page>)
    requires IsWord(tag) && IsWord(risk) && forall k | 0 <= k < |pages| :: SpelledPage(pages[k])
    ensures ReadBack(ReadAll(PrintText(tag, risk, pages)), tag, pages)
  {
    PrintSpellable(tag, pages);
    TextIsPrint(tag, risk, pages);
    PrintedRoadmapRead(tag, pages);
  }

  lemma TextIsPrint(tag: string, risk: string, pages: seq<Page>)
    requires IsWord(tag) && IsWord(risk)
    requires forall i | 0 <= i < |Print(tag, pages)| :: Spellable(tag, Print(tag, pages)[i])
    ensures ReadAll(PrintText(tag, risk, pages)) == Print(tag, pages)
  {
    var lines := Print(tag, pages);
    forall i | 0 <= i < |lines| ensures ReadLine(TextOf(lines[i], risk)) == lines[i] { LineRead(tag, risk, lines[i]); }
  }
}
