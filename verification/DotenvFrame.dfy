/**
 * What rewriting a `.env` file leaves alone, and where it writes (autodev/installer/setup_helpers.py:
 * 446-447, 466-487): lines that assign no forced key stay as they are and in their order, and a
 * forced key's entry stands where the key was first assigned.
 */
module DotenvFrame {
  import opened Json
  import opened Dotenv
  import opened DotenvLaws

  predicate AssignsForced(line: string, clean: map<string, string>) {
    KeyOf(line).Some? && KeyOf(line).value in clean
  }

  /** The lines that assign no forced key: comments, blank lines, other keys. */
  function Others(lines: seq<string>, clean: map<string, string>): seq<string> {
    if lines == [] then []
    else
      var last := lines[|lines| - 1];
      Others(lines[..|lines| - 1], clean) + if AssignsForced(last, clean) then [] else [last]
  }

  lemma {:induction false} OthersConcat(a: seq<string>, b: seq<string>, clean: map<string, string>)
    ensures Others(a + b, clean) == Others(a, clean) + Others(b, clean)
    decreases |b|
  {
    if b == [] {
      assert a + b == a;
    } else {
      assert (a + b)[..|a + b| - 1] == a + b[..|b| - 1];
      OthersConcat(a, b[..|b| - 1], clean);
    }
  }

  lemma OthersOne(line: string, clean: map<string, string>)
    ensures Others([line], clean) == if AssignsForced(line, clean) then [] else [line]
  {
    assert [line][..0] == [];
  }

  lemma EntryForced(k: string, clean: map<string, string>)
    requires WellFormed(clean) && k in clean
    ensures AssignsForced(Entry(k, clean[k]), clean) && EndsLine(Entry(k, clean[k]))
  {
    EntryReads(k, clean[k]);
  }

  lemma RewriteOthers(line: string, clean: map<string, string>, have: set<string>)
    requires WellFormed(clean)
    ensures Others(Rewrite(line, clean, have), clean) == if AssignsForced(line, clean) then [] else [line]
  {
    if AssignsForced(line, clean) {
      var k := KeyOf(line).value;
      EntryForced(k, clean);
      OthersOne(Entry(k, clean[k]), clean);
    } else {
      OthersOne(line, clean);
    }
  }

  lemma {:induction false} ReplacedOthers(lines: seq<string>, clean: map<string, string>)
    requires WellFormed(clean)
    ensures Others(Replaced(lines, clean), clean) == Others(lines, clean)
    decreases |lines|
  {
    if lines != [] {
      var init, last := lines[..|lines| - 1], lines[|lines| - 1];
      var more := Rewrite(last, clean, Assigned(init));
      ReplacedOthers(init, clean);
      RewriteOthers(last, clean, Assigned(init));
      OthersConcat(Replaced(init, clean), more, clean);
    }
  }

  lemma {:induction false} MissingOthers(order: seq<string>, clean: map<string, string>, have: set<string>)
    requires WellFormed(clean) && forall i | 0 <= i < |order| :: order[i] in clean
    ensures Others(Missing(order, clean, have), clean) == []
    decreases |order|
  {
    if order != [] {
      var init, last := order[..|order| - 1], order[|order| - 1];
      MissingOthers(init, clean, have);
      EntryForced(last, clean);
      OthersOne(Entry(last, clean[last]), clean);
      OthersConcat(Missing(init, clean, have), if last in have then [] else [Entry(last, clean[last])], clean);
    }
  }

  /** What one more line leaves at the end. */
  lemma RewriteEnds(line: string, clean: map<string, string>, have: set<string>)
    ensures var more := Rewrite(line, clean, have);
            && |more| <= 1 && (!AssignsForced(line, clean) ==> more == [line])
            && (AssignsForced(line, clean) && more != [] ==> EndsLine(more[0]))
            && (AssignsForced(line, clean) && more == [] ==> KeyOf(line).value in have)
  {
  }

  lemma FileLinesBefore(lines: seq<string>)
    requires FileLines(lines) && lines != []
    ensures var init := lines[..|lines| - 1]; FileLines(init) && forall i | 0 <= i < |init| :: EndsLine(init[i])
  {
    var init := lines[..|lines| - 1];
    forall i | 0 <= i < |init| ensures WholeLine(init[i]) { assert init[i] == lines[i]; }
  }

  predicate AllEnd(lines: seq<string>) {
    forall i | 0 <= i < |lines| :: EndsLine(lines[i])
  }

  /** The last line is the file's own, or an entry if that assigns a forced key; the ones before are whole. */
  predicate LastAs(lines: seq<string>, out: seq<string>, clean: map<string, string>) {
    if lines == [] then out == []
    else
      var last := lines[|lines| - 1];
      && out != [] && AllEnd(out[..|out| - 1])
      && if AssignsForced(last, clean) then EndsLine(out[|out| - 1]) else out[|out| - 1] == last
  }

  lemma AllEndOn(out: seq<string>)
    requires out != [] && AllEnd(out[..|out| - 1]) && EndsLine(out[|out| - 1])
    ensures AllEnd(out)
  {
    forall i | 0 <= i < |out| ensures EndsLine(out[i]) {
      assert i < |out| - 1 ==> out[i] == out[..|out| - 1][i];
    }
  }

  lemma {:induction false} ReplacedEnds(lines: seq<string>, clean: map<string, string>)
    requires FileLines(lines)
    ensures LastAs(lines, Replaced(lines, clean), clean)
    decreases |lines|
  {
    if lines != [] {
      var init, last := lines[..|lines| - 1], lines[|lines| - 1];
      var out, more := Replaced(init, clean), Rewrite(last, clean, Assigned(init));
      FileLinesBefore(lines);
      ReplacedEnds(init, clean);
      RewriteEnds(last, clean, Assigned(init));
      if init != [] { AllEndOn(out); }
      if more != [] {
        assert (out + more)[..|out + more| - 1] == out;
      } else {
        assert init != [] && out + more == out;
        assert AllEnd(out[..|out| - 1]) && EndsLine(out[|out| - 1]);
      }
    }
  }

  lemma TerminatedOthers(out: seq<string>, clean: map<string, string>)
    requires out != []
    ensures var last, was := out[|out| - 1], Others(out, clean);
            Others(Terminated(out), clean) ==
              if EndsLine(last) || AssignsForced(last, clean) then was else was[..|was| - 1] + [last + "\n"]
  {
    var init, last := out[..|out| - 1], out[|out| - 1];
    assert out == init + [last];
    OthersConcat(init, [last], clean);
    OthersConcat(init, [last + "\n"], clean);
    OthersOne(last, clean);
    OthersOne(last + "\n", clean);
    KeyWithBreak(last);
  }

  ghost predicate AllAssigned(lines: seq<string>, clean: map<string, string>) {
    forall k | k in clean :: exists i | 0 <= i < |lines| :: KeyOf(lines[i]) == Some(k)
  }

  lemma NoneMissing(lines: seq<string>, order: seq<string>, clean: map<string, string>)
    requires WellFormed(clean) && Orders(order, clean)
    ensures Missing(order, clean, Assigned(lines)) == [] <==> AllAssigned(lines, clean)
  {
    forall k | k in clean ensures k in Assigned(lines) <==> exists i | 0 <= i < |lines| :: KeyOf(lines[i]) == Some(k) {
      if k in Assigned(lines) { var i := AssignedWhere(lines, k); }
      if i :| 0 <= i < |lines| && KeyOf(lines[i]) == Some(k) { AssignedAt(lines, i); }
    }
    if AllAssigned(lines, clean) {
      NothingMissing(order, clean, Assigned(lines));
    } else {
      var k :| k in clean && k !in Assigned(lines);
      MissingAssigned(order, clean, Assigned(lines), k);
      assert Assigned([]) == {};
    }
  }

  lemma OthersForced(lines: seq<string>, order: seq<string>, clean: map<string, string>)
    requires WellFormed(clean) && Orders(order, clean)
    ensures Others(Forced(lines, order, clean), clean) ==
            if Missing(order, clean, Assigned(lines)) == [] then Others(lines, clean)
            else Others(Terminated(Replaced(lines, clean)), clean)
  {
    var out, missing := Replaced(lines, clean), Missing(order, clean, Assigned(lines));
    ReplacedOthers(lines, clean);
    MissingOthers(order, clean, Assigned(lines));
    OthersConcat(Terminated(out), missing, clean);
  }

  lemma HeaderAlone(clean: map<string, string>)
    ensures Terminated([]) == [HEADER] && Others([HEADER], clean) == [HEADER]
  {
    CommentReads(HEADER);
    OthersOne(HEADER, clean);
  }

  lemma LastOther(out: seq<string>, clean: map<string, string>)
    requires out != [] && !AssignsForced(out[|out| - 1], clean)
    ensures var was := Others(out, clean); was != [] && was[|was| - 1] == out[|out| - 1]
  {
  }

  /** What the line break at the end does to them, by the file's own last line. */
  lemma EndedOthers(out: seq<string>, last: string, clean: map<string, string>)
    requires out != [] && last != ""
    requires if AssignsForced(last, clean) then EndsLine(out[|out| - 1]) else out[|out| - 1] == last
    ensures var was, now := Others(out, clean), Others(Terminated(out), clean);
            if last[|last| - 1] == '\n' || AssignsForced(last, clean) then now == was
            else was != [] && was[|was| - 1] == last && now == was[..|was| - 1] + [last + "\n"]
  {
    if !EndsLine(out[|out| - 1]) {
      LastOther(out, clean);
      TerminatedOthers(out, clean);
    }
  }

  /**
   * Every line that assigns no forced key is preserved, in order. Only when a key has to be added does
   * anything else happen to them: an unfinished last line gets its line break, an empty file a header.
   */
  lemma OthersKept(lines: seq<string>, order: seq<string>, clean: map<string, string>)
    requires WellFormed(clean) && Orders(order, clean) && FileLines(lines)
    ensures var was, now := Others(lines, clean), Others(Forced(lines, order, clean), clean);
            if AllAssigned(lines, clean) then now == was
            else if lines == []
              then now == ["# Lullabeast " + "environment " + "(written by " + "the container " + "entrypoint)" + "\n"]
            else
              var last := lines[|lines| - 1];
              if last[|last| - 1] == '\n' || AssignsForced(last, clean) then now == was
              else was != [] && was[|was| - 1] == last && now == was[..|was| - 1] + [last + "\n"]
  {
    NoneMissing(lines, order, clean);
    OthersForced(lines, order, clean);
    if lines == [] {
      HeaderAlone(clean);
    } else if !AllAssigned(lines, clean) {
      ReplacedOthers(lines, clean);
      ReplacedEnds(lines, clean);
      EndedOthers(Replaced(lines, clean), lines[|lines| - 1], clean);
    }
  }

  lemma {:induction false} ReplacedPrefix(lines: seq<string>, i: nat, clean: map<string, string>)
    requires i <= |lines|
    ensures Replaced(lines[..i], clean) <= Replaced(lines, clean)
    decreases |lines|
  {
    if i < |lines| {
      ReplacedPrefix(lines[..|lines| - 1], i, clean);
      assert lines[..|lines| - 1][..i] == lines[..i];
    } else {
      assert lines[..i] == lines;
    }
  }

  /** A line of the file that no earlier line assigns the same key as. */
  ghost predicate FirstOf(lines: seq<string>, i: nat, k: string) {
    i < |lines| && KeyOf(lines[i]) == Some(k) && forall j | 0 <= j < i :: KeyOf(lines[j]) != Some(k)
  }

  lemma FirstReplaced(lines: seq<string>, clean: map<string, string>, i: nat, k: string)
    requires k in clean && FirstOf(lines, i, k)
    ensures Replaced(lines[..i + 1], clean) == Replaced(lines[..i], clean) + [Entry(k, clean[k])]
  {
    if k in Assigned(lines[..i]) { var j := AssignedWhere(lines[..i], k); }
    ReplacedOn(lines, i, clean);
  }

  /** A line that has its line break is final. */
  lemma TerminatedStarts(out: seq<string>, n: nat)
    requires n < |out| && EndsLine(out[n])
    ensures |Terminated(out)| == |out| && Terminated(out)[n] == out[n] && Terminated(out)[..n] == out[..n]
  {
  }

  lemma ForcedStarts(lines: seq<string>, order: seq<string>, clean: map<string, string>, n: nat)
    requires Orders(order, clean)
    requires n < |Replaced(lines, clean)| && EndsLine(Replaced(lines, clean)[n])
    ensures var out, forced := Replaced(lines, clean), Forced(lines, order, clean);
            n < |forced| && forced[n] == out[n] && forced[..n] == out[..n]
  {
    var out, missing := Replaced(lines, clean), Missing(order, clean, Assigned(lines));
    TerminatedStarts(out, n);
    PrefixOf(Terminated(out), missing, n);
  }

  lemma PrefixOf(a: seq<string>, b: seq<string>, n: nat)
    requires n < |a|
    ensures (a + b)[n] == a[n] && (a + b)[..n] == a[..n]
  {
  }

  lemma StepOf(before: seq<string>, line: string, out: seq<string>)
    requires before + [line] <= out
    ensures |before| < |out| && out[|before|] == line && out[..|before|] == before
  {
    assert (before + [line])[|before|] == line && (before + [line])[..|before|] == before;
  }

  /** A forced key's first assignment is replaced in place: behind the other lines that stood before it. */
  lemma ReplacedInPlace(lines: seq<string>, order: seq<string>, clean: map<string, string>, i: nat, k: string)
    requires WellFormed(clean) && Orders(order, clean) && k in clean && FirstOf(lines, i, k)
    ensures var out, n := Forced(lines, order, clean), |Replaced(lines[..i], clean)|;
            n < |out| && out[n] == k + "=" + clean[k] + "\n" && Others(out[..n], clean) == Others(lines[..i], clean)
  {
    var before, out := Replaced(lines[..i], clean), Replaced(lines, clean);
    FirstReplaced(lines, clean, i, k);
    ReplacedPrefix(lines, i + 1, clean);
    EntryForced(k, clean);
    StepOf(before, Entry(k, clean[k]), out);
    ReplacedOthers(lines[..i], clean);
    ForcedStarts(lines, order, clean, |before|);
  }
}
