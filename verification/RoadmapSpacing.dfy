/**
 * The UI parser's header pattern lets whitespace of any width, none included, stand where the resolver
 * wants single blanks (ui/roadmap_parser.py:62-64; phase_resolver.py:23): which of its lines the
 * resolver takes too.
 */
module RoadmapSpacing {
  import opened Json
  import opened Text
  import opened Roadmap
  import opened RoadmapText

  /** A header line in its parts: the gaps around the checkbox, behind the id and around the middle column. */
  datatype Parts = Parts(mark: Mark, id: string, word: string, goal: string,
                         box: string, tick: string, bar: string, before: string, after: string)

  function ColumnText(before: string, word: string, after: string): string {
    before + (word + after)
  }

  function TailText(column: string, goal: string): string {
    "|" + (column + ("|" + goal))
  }

  function TickText(id: string, bar: string, tail: string): string {
    "`" + (id + ("`" + (bar + tail)))
  }

  function BoxText(mark: Mark, tick: string, t: string): string {
    ['[', MarkChar(mark), ']'] + (tick + t)
  }

  function LineText(box: string, u: string): string {
    "-" + (box + u)
  }

  function SpacedText(p: Parts): string {
    var tail := TailText(ColumnText(p.before, p.word, p.after), p.goal);
    LineText(p.box, BoxText(p.mark, p.tick, TickText(p.id, p.bar, tail)))
  }

  predicate Proper(p: Parts) {
    && p.id != "" && '`' !in p.id && IsWord(p.word) && p.goal != ""
    && Text.Blank(p.box) && Text.Blank(p.tick) && Text.Blank(p.bar) && Text.Blank(p.before) && Text.Blank(p.after)
  }

  ghost predicate SpacedAs(line: string, p: Parts) {
    Proper(p) && line == SpacedText(p)
  }

  /** A goal behind a blank that is more than whitespace. */
  predicate BlankThenText(goal: string) {
    goal != "" && goal[0] == ' ' && !Text.Blank(goal)
  }

  /** A blank, and a blank next to each bar; the goal is more than that blank. */
  predicate SinglySpaced(p: Parts) {
    && p.box == " " && p.tick == " " && p.bar == " "
    && p.before != "" && p.before[0] == ' ' && p.after != "" && p.after[|p.after| - 1] == ' '
    && BlankThenText(p.goal)
  }

  // ---------------------------------------------------------------------------------------
  // What the UI pattern takes
  // ---------------------------------------------------------------------------------------

  lemma GapLonger(s: string, gap: string, t: string)
    requires s != "" && IsSpace(s[0]) && Text.Blank(gap) && s[1..] == gap + t
    ensures s == ([s[0]] + gap) + t && Text.Blank([s[0]] + gap)
  {
    assert s == [s[0]] + s[1..];
  }

  lemma {:induction false} LeftGap(s: string) returns (gap: string)
    ensures s == gap + StripLeft(s) && Text.Blank(gap)
    decreases |s|
  {
    if s == "" || !IsSpace(s[0]) {
      gap := "";
      assert s == "" + s;
    } else {
      var rest := LeftGap(s[1..]);
      GapLonger(s, rest, StripLeft(s));
      gap := [s[0]] + rest;
    }
  }

  lemma GapSkipped(gap: string, t: string)
    requires Text.Blank(gap) && t != "" && !IsSpace(t[0])
    ensures StripLeft(gap + t) == t
  {
    StripLeftAppend(gap, t);
  }

  /** A column is whitespace, its text and whitespace. */
  lemma ColumnParts(column: string) returns (before: string, after: string)
    ensures column == before + (Strip(column) + after) && Text.Blank(before) && Text.Blank(after)
  {
    before := LeftGap(column);
    after := RightPart(StripLeft(column));
  }

  lemma TailCut(rest: string, column: string, goal: string)
    requires rest != "" && rest[0] == '|' && rest[1..] == column + ("|" + goal)
    ensures rest == TailText(column, goal)
  {
    assert rest == "|" + rest[1..];
  }

  lemma BarCut(columns: string, m: nat)
    requires m < |columns| && columns[m] == '|'
    ensures columns == columns[..m] + ("|" + columns[m + 1..])
  {
  }

  lemma RestTaken(mark: Mark, id: string, rest: string)
    returns (before: string, word: string, after: string, goal: string)
    requires UiRest(mark, id, rest).Some?
    ensures rest == TailText(ColumnText(before, word, after), goal) && IsWord(word) && goal != ""
    ensures Text.Blank(before) && Text.Blank(after)
  {
    var columns := rest[1..];
    var m := Find(columns, '|');
    word, goal := Strip(columns[..m]), columns[m + 1..];
    before, after := ColumnParts(columns[..m]);
    BarCut(columns, m);
    TailCut(rest, columns[..m], goal);
  }

  lemma TickCut(t: string, n: nat)
    requires n + 1 < |t| && t[0] == '`' && t[n + 1] == '`'
    ensures t == "`" + (t[1..n + 1] + ("`" + t[n + 2..]))
  {
  }

  lemma TickEnds(t: string)
    requires t != "" && Find(t[1..], '`') + 1 < |t|
    ensures var n := Find(t[1..], '`'); t[n + 1] == '`' && '`' !in t[1..n + 1]
  {
    var n := Find(t[1..], '`');
    assert t[1..][n] == t[n + 1];
    forall k | 1 <= k < n + 1 ensures t[k] != '`' { assert t[1..][k - 1] == t[k]; }
  }

  lemma IdTaken(mark: Mark, t: string) returns (id: string, bar: string, tail: string)
    requires UiId(mark, t).Some?
    ensures t == TickText(id, bar, tail) && id != "" && '`' !in id && Text.Blank(bar)
    ensures UiId(mark, t) == UiRest(mark, id, tail)
  {
    var n := Find(t[1..], '`');
    id, tail := t[1..n + 1], StripLeft(t[n + 2..]);
    bar := LeftGap(t[n + 2..]);
    TickEnds(t);
    TickCut(t, n);
  }

  lemma BoxCut(s: string, mark: Mark)
    requires |s| >= 3 && s[0] == '[' && MarkAt(s[1]) == Some(mark) && s[2] == ']'
    ensures s == ['[', MarkChar(mark), ']'] + s[3..]
  {
  }

  lemma DashCut(line: string)
    requires line != "" && line[0] == '-'
    ensures line == "-" + line[1..]
  {
  }

  lemma BoxTaken(s: string) returns (mark: Mark, tick: string, t: string)
    requires UiBox(s).Some?
    ensures s == BoxText(mark, tick, t) && Text.Blank(tick) && UiBox(s) == UiId(mark, t)
  {
    mark, t := MarkAt(s[1]).value, StripLeft(s[3..]);
    tick := LeftGap(s[3..]);
    BoxCut(s, mark);
  }

  /** Every line the UI pattern takes has these parts. */
  lemma LineTaken(line: string) returns (p: Parts)
    requires UiHead(line).Some?
    ensures SpacedAs(line, p)
  {
    var box := LeftGap(line[1..]);
    var mark, tick, t := BoxTaken(StripLeft(line[1..]));
    var id, bar, tail := IdTaken(mark, t);
    var before, word, after, goal := RestTaken(mark, id, tail);
    DashCut(line);
    p := Parts(mark, id, word, goal, box, tick, bar, before, after);
  }

  lemma NoBar(s: string)
    requires Text.Blank(s) || IsWord(s)
    ensures '|' !in s
  {
    assert !IsSpace('|') && !IsWordChar('|');
  }

  lemma WordTrimmed(word: string)
    requires IsWord(word)
    ensures Trimmed(word) && !Text.Blank(word)
  {
    assert IsWordChar(word[0]) && IsWordChar(word[|word| - 1]);
    assert forall c | IsWordChar(c) :: !IsSpace(c);
  }

  lemma WordInColumn(before: string, word: string, after: string)
    requires IsWord(word) && Text.Blank(before) && Text.Blank(after)
    ensures Strip(ColumnText(before, word, after)) == word && '|' !in ColumnText(before, word, after)
  {
    NoBar(before);
    NoBar(word);
    NoBar(after);
    WordTrimmed(word);
    GapSkipped(before, word + after);
    StripRightAppend(word, after);
    StripTrimmed(word);
  }

  lemma TailTaken(mark: Mark, id: string, column: string, goal: string)
    requires '|' !in column && IsWord(Strip(column)) && goal != ""
    ensures UiRest(mark, id, TailText(column, goal)) == Some(Header(mark, id, Captured(goal)))
  {
    var rest := TailText(column, goal);
    assert rest[1..] == column + ("|" + goal);
    ColumnReads(mark, id, rest, column, goal);
  }

  lemma TickSlices(id: string, bar: string, tail: string)
    requires '`' !in id
    ensures var t := TickText(id, bar, tail);
            && |t| == |id| + 2 + |bar + tail| && t[0] == '`' && Find(t[1..], '`') == |id|
            && t[1..|id| + 1] == id && t[|id| + 2..] == bar + tail && t[1..] == id + ("`" + (bar + tail))
  {
    var u := id + ("`" + (bar + tail));
    assert forall k | 0 <= k < |id| :: u[k] == id[k] && id[k] in id;
    FindAt(u, '`', |id|);
    assert TickText(id, bar, tail)[1..] == u;
  }

  lemma TickTaken(mark: Mark, id: string, bar: string, tail: string)
    requires id != "" && '`' !in id && Text.Blank(bar) && tail != "" && tail[0] == '|'
    ensures UiId(mark, TickText(id, bar, tail)) == UiRest(mark, id, tail)
  {
    TickSlices(id, bar, tail);
    GapSkipped(bar, tail);
  }

  lemma FrontTaken(box: string, mark: Mark, tick: string, t: string)
    requires Text.Blank(box) && Text.Blank(tick) && t != "" && t[0] == '`'
    ensures UiHead(LineText(box, BoxText(mark, tick, t))) == UiId(mark, t)
  {
    var u := BoxText(mark, tick, t);
    assert LineText(box, u)[1..] == box + u;
    GapSkipped(box, u);
    assert u[3..] == tick + t;
    GapSkipped(tick, t);
    MarkRead(mark);
    BoxOf(u, mark, t);
  }

  /** And every line of that form is taken, and read part by part. */
  lemma PartsTaken(p: Parts)
    requires Proper(p)
    ensures UiHead(SpacedText(p)) == Some(Header(p.mark, p.id, Captured(p.goal)))
  {
    var column := ColumnText(p.before, p.word, p.after);
    var tail := TailText(column, p.goal);
    WordInColumn(p.before, p.word, p.after);
    TailTaken(p.mark, p.id, column, p.goal);
    TickTaken(p.mark, p.id, p.bar, tail);
    FrontTaken(p.box, p.mark, p.tick, TickText(p.id, p.bar, tail));
  }

  // ---------------------------------------------------------------------------------------
  // Which of them the resolver takes
  // ---------------------------------------------------------------------------------------

  /** Behind a gap there is something else than whitespace, so a blank there is the whole gap. */
  lemma OneBlank(gap: string, t: string)
    requires Text.Blank(gap) && t != "" && !IsSpace(t[0])
    ensures var s := gap + t; |s| >= 2 && s[0] == ' ' && s[1] == t[0] <==> gap == " "
  {
    var s := gap + t;
    if gap == "" {
      assert s[0] == t[0];
    } else if |gap| >= 2 {
      assert s[1] == gap[1];
    }
  }

  lemma FrontSingle(box: string, mark: Mark, tick: string, t: string)
    requires Text.Blank(box) && Text.Blank(tick) && t != "" && t[0] == '`'
    ensures var line := LineText(box, BoxText(mark, tick, t));
            RowOf(line) == if box == " " && tick == " " then RowId(mark, t[1..]) else None
  {
    var u := BoxText(mark, tick, t);
    var line := LineText(box, u);
    OneBlank(box, u);
    assert line[1..] == box + u;
    if RowOf(line).Some? {
      assert line[..3][1] == line[1] && line[..3][2] == line[2];
      assert (box + u)[0] == line[1] && (box + u)[1] == line[2];
    }
    if box == " " { TickSingle(line, mark, tick, t); }
  }

  lemma BoxSlices(mark: Mark, v: string)
    ensures var line := LineText(" ", ['[', MarkChar(mark), ']'] + v);
            |line| == 5 + |v| && line[3] == MarkChar(mark) && forall k | 0 <= k < |v| :: line[5 + k] == v[k]
  {
  }

  lemma TickGap(line: string)
    requires |line| >= 7 && line[4..7] == "] `"
    ensures line[5] == ' ' && line[6] == '`'
  {
    assert line[4..7][1] == line[5] && line[4..7][2] == line[6];
  }

  lemma TickIsFront(mark: Mark, t: string)
    requires t != "" && t[0] == '`'
    ensures LineText(" ", BoxText(mark, " ", t)) == FrontPart(mark, t[1..])
  {
    assert t == "`" + t[1..];
  }

  lemma TickSingle(line: string, mark: Mark, tick: string, t: string)
    requires Text.Blank(tick) && t != "" && t[0] == '`' && line == LineText(" ", BoxText(mark, tick, t))
    ensures RowOf(line) == if tick == " " then RowId(mark, t[1..]) else None
  {
    OneBlank(tick, t);
    if tick == " " {
      TickIsFront(mark, t);
      FrontReads(mark, t[1..]);
    } else {
      BoxSlices(mark, tick + t);
      assert line[5 + 0] == (tick + t)[0] && (|tick + t| >= 2 ==> line[5 + 1] == (tick + t)[1]);
      if |line| >= 7 && line[4..7] == "] `" { TickGap(line); }
    }
  }

  /** From the id on: a blank on either side of the first bar. */
  lemma IdSingle(mark: Mark, id: string, bar: string, tail: string)
    requires id != "" && '`' !in id && Text.Blank(bar) && tail != "" && tail[0] == '|'
    ensures RowId(mark, TickText(id, bar, tail)[1..]) ==
            if bar == " " && |tail| >= 2 && tail[1] == ' ' then RowRest(mark, id, tail[2..]) else None
  {
    TickSlices(id, bar, tail);
    var t := id + ("`" + (bar + tail));
    assert t[..|id|] == id && t[|id|..] == "`" + (bar + tail);
    BarSlices(t, |id|, bar, tail);
  }

  lemma BarSlices(t: string, n: nat, bar: string, tail: string)
    requires n <= |t| && t[n..] == "`" + (bar + tail) && Text.Blank(bar) && tail != "" && tail[0] == '|'
    ensures n + 4 <= |t| && t[n..n + 4] == "` | " <==> bar == " " && |tail| >= 2 && tail[1] == ' '
    ensures bar == " " && |tail| >= 2 ==> t[n + 4..] == tail[2..]
  {
    var u := t[n..];
    OneBlank(bar, tail);
    assert u[1..] == bar + tail;
    if n + 4 <= |t| {
      assert t[n..n + 4] == u[..4];
      assert t[n + 4..] == u[4..];
      if u[..4] == "` | " {
        assert u[..4][1] == u[1] == (bar + tail)[0] && u[..4][2] == u[2] == (bar + tail)[1];
        assert u[..4][3] == u[3] == (bar + tail)[2];
      }
    }
  }

  /** From the middle column on: a blank on either side of the second bar. */
  lemma RestSingle(mark: Mark, id: string, column: string, goal: string)
    requires |column| >= 1 && '|' !in column
    ensures var row := RowRest(mark, id, TailText(column, goal)[2..]);
            && (row.Some? <==> |column| >= 3 && column[|column| - 1] == ' ' && |goal| >= 2 && goal[0] == ' ')
            && (row.Some? ==> row.value.head.goal == goal[1..])
  {
    var rest := column[1..] + ("|" + goal);
    assert TailText(column, goal)[2..] == rest;
    var m := |column| - 1;
    assert forall k | 0 <= k < m :: rest[k] == column[k + 1] && column[k + 1] in column;
    FindAt(rest, '|', m);
    assert rest[m + 1..] == goal;
    if m >= 1 { assert rest[m - 1] == column[m]; }
    if goal != "" { assert rest[m + 1] == goal[0] && rest[m + 2..] == goal[1..]; }
  }

  /** A column of a word has blanks at both ends exactly when its gaps have them there. */
  lemma ColumnSingle(before: string, word: string, after: string)
    requires IsWord(word) && Text.Blank(before) && Text.Blank(after)
    ensures var column := ColumnText(before, word, after);
            && column != ""
            && (column[0] == ' ' <==> before != "" && before[0] == ' ')
            && (column[|column| - 1] == ' ' <==> after != "" && after[|after| - 1] == ' ')
            && (before != "" && after != "" ==> |column| >= 3)
  {
    assert IsWordChar(word[0]) && IsWordChar(word[|word| - 1]);
    var column := ColumnText(before, word, after);
    if before == "" { assert column[0] == word[0]; } else { assert column[0] == before[0]; }
    if after == "" {
      assert column[|column| - 1] == word[|word| - 1];
    } else {
      assert column[|column| - 1] == after[|after| - 1];
    }
  }

  predicate Told(row: Option<Row>) {
    row.Some? && !Text.Blank(row.value.head.goal)
  }

  lemma RestOfParts(mark: Mark, id: string, before: string, word: string, after: string, goal: string)
    requires IsWord(word) && Text.Blank(before) && Text.Blank(after)
    ensures var tail := TailText(ColumnText(before, word, after), goal);
            && |tail| >= 2 && (tail[1] == ' ' <==> before != "" && before[0] == ' ')
            && (tail[1] == ' ' ==>
                  (Told(RowRest(mark, id, tail[2..])) <==>
                     after != "" && after[|after| - 1] == ' ' && BlankThenText(goal)))
  {
    var column := ColumnText(before, word, after);
    var tail := TailText(column, goal);
    WordInColumn(before, word, after);
    ColumnSingle(before, word, after);
    RestSingle(mark, id, column, goal);
    assert tail[1] == column[0];
    if goal != "" && goal[0] == ' ' { GoalBlank(goal); }
  }

  /** The resolver's pattern on the line as it is, trailing whitespace included. */
  lemma RowOfParts(p: Parts)
    requires Proper(p)
    ensures Told(RowOf(SpacedText(p))) <==> SinglySpaced(p)
  {
    var tail := TailText(ColumnText(p.before, p.word, p.after), p.goal);
    RestOfParts(p.mark, p.id, p.before, p.word, p.after, p.goal);
    IdSingle(p.mark, p.id, p.bar, tail);
    FrontSingle(p.box, p.mark, p.tick, TickText(p.id, p.bar, tail));
  }

  lemma GoalBlank(goal: string)
    requires goal != "" && goal[0] == ' '
    ensures Text.Blank(goal) <==> Text.Blank(goal[1..])
  {
    BlankTail(goal);
  }

  /** Trailing whitespace is gone before the resolver looks: it only must not be all of the goal. */
  lemma RowStripped(line: string)
    requires line != "" && !IsSpace(line[0])
    ensures ResolverRow(line).Some? <==> Told(RowOf(line))
  {
    if ResolverRow(line).Some? { StrippedRowIsRow(line); }
    if Told(RowOf(line)) { RowIsStrippedRow(line); }
  }

  lemma StrippedRowIsRow(line: string)
    requires line != "" && !IsSpace(line[0]) && ResolverRow(line).Some?
    ensures Told(RowOf(line))
  {
    var row := ResolverRow(line).value;
    var h := row.head;
    var tail := RightPart(line);
    RowIsText(Strip(line));
    TextWithTail(h.mark, h.id, row.risk, h.goal, tail);
    RowReads(h.mark, h.id, row.risk, h.goal + tail);
    LastIsGoals(h.mark, h.id, row.risk, h.goal);
    assert (h.goal + tail)[|h.goal| - 1] == h.goal[|h.goal| - 1];
  }

  lemma LastIsGoals(mark: Mark, id: string, risk: string, goal: string)
    requires goal != ""
    ensures var s := HeadText(mark, id, risk, goal); s != "" && s[|s| - 1] == goal[|goal| - 1]
  {
  }

  lemma RowIsStrippedRow(line: string)
    requires line != "" && !IsSpace(line[0]) && Told(RowOf(line))
    ensures ResolverRow(line).Some?
  {
    var row := RowOf(line).value;
    var h := row.head;
    RowIsText(line);
    var front := HeadText(h.mark, h.id, row.risk, "");
    TextWithTail(h.mark, h.id, row.risk, "", h.goal);
    TextWithTail(h.mark, h.id, row.risk, "", StripRight(h.goal));
    assert "" + h.goal == h.goal && "" + StripRight(h.goal) == StripRight(h.goal);
    StripRightAppend(front, h.goal);
    RowReads(h.mark, h.id, row.risk, StripRight(h.goal));
  }

  /** Of the lines the UI parser takes, the resolver takes just those with its single blanks. */
  lemma UiHeadersSinglySpaced(p: Parts)
    requires Proper(p)
    ensures UiHead(SpacedText(p)) == Some(Header(p.mark, p.id, Captured(p.goal)))
    ensures ResolverRow(SpacedText(p)).Some? <==> SinglySpaced(p)
  {
    PartsTaken(p);
    RowOfParts(p);
    RowStripped(SpacedText(p));
  }

  /** The middle column is one word, and the line is not indented. */
  predicate OneWord(line: string)
    requires ResolverRow(line).Some?
  {
    line != "" && !IsSpace(line[0]) && IsWord(Strip(ResolverRow(line).value.risk))
  }

  /**
   * For every line: the two parsers agree on whether it is a header if and only if its spacing, should
   * the UI pattern take it, is the resolver's, and its middle column, should the resolver's take it, is
   * one word of a line that is not indented.
   */
  lemma HeadersCoincide(line: string)
    ensures (UiHead(line).Some? <==> ResolverRow(line).Some?) <==>
              && (forall p | SpacedAs(line, p) :: SinglySpaced(p))
              && (ResolverRow(line).Some? ==> OneWord(line))
  {
    forall p | SpacedAs(line, p)
      ensures UiHead(line).Some? && (ResolverRow(line).Some? <==> SinglySpaced(p))
    {
      UiHeadersSinglySpaced(p);
    }
    if UiHead(line).Some? { var p := LineTaken(line); }
    if ResolverRow(line).Some? { HeadersAgree(line); }
  }

  /** A header without any blanks is a phase to the UI that the pipeline never runs. */
  lemma TightHeaderParts(mark: Mark, id: string, word: string, goal: string)
    requires id != "" && '`' !in id && IsWord(word) && Spelled(goal)
    ensures var line := SpacedText(Parts(mark, id, word, goal, "", "", "", "", ""));
            UiHead(line) == Some(Header(mark, id, goal)) && ResolverRow(line).None?
  {
    UiHeadersSinglySpaced(Parts(mark, id, word, goal, "", "", "", "", ""));
    assert !Text.Blank(goal) && StripLeft(goal) == goal;
  }
}
