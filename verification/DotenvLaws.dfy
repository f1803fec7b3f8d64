/**
 * What rewriting a `.env` file does to its two readers (autodev/installer/setup_helpers.py:441-501,
 * 526-547; autodev/pipeline/env_resolvers.py:66-106): forced keys are read as given by both, other
 * keys as before, and a second rewrite changes nothing.
 */
module DotenvLaws {
  import opened Json
  import opened Text
  import opened Dotenv

  // ---------------------------------------------------------------------------------------
  // What the rewrite does to the readers
  // ---------------------------------------------------------------------------------------

  ghost predicate WellFormed(clean: map<string, string>) {
    forall k | k in clean :: WellFormedKey(k)
  }

  /** Every line that assigns a forced key is that key's entry. */
  ghost predicate OnlyEntries(lines: seq<string>, clean: map<string, string>) {
    forall i, k | 0 <= i < |lines| && KeyOf(lines[i]) == Some(k) && k in clean :: lines[i] == Entry(k, clean[k])
  }

  lemma {:induction false} ValuesConcat(a: seq<string>, b: seq<string>, key: string)
    ensures LastValue(a + b, key) == if LastValue(b, key).Some? then LastValue(b, key) else LastValue(a, key)
    ensures FirstValue(a + b, key) == if FirstValue(a, key).Some? then FirstValue(a, key) else FirstValue(b, key)
    decreases |b|
  {
    if b == [] {
      assert a + b == a;
    } else {
      assert (a + b)[..|a + b| - 1] == a + b[..|b| - 1];
      ValuesConcat(a, b[..|b| - 1], key);
    }
  }

  lemma {:induction false} AssignedHasValue(lines: seq<string>, key: string)
    ensures key in Assigned(lines) <==> LastValue(lines, key).Some?
    ensures key in Assigned(lines) <==> FirstValue(lines, key).Some?
    decreases |lines|
  {
    if lines != [] {
      AssignedHasValue(lines[..|lines| - 1], key);
      KeysAgree(lines[|lines| - 1]);
    }
  }

  lemma {:induction false} EntriesValue(lines: seq<string>, clean: map<string, string>, k: string)
    requires WellFormed(clean) && OnlyEntries(lines, clean) && k in clean
    ensures LastValue(lines, k) == FirstValue(lines, k)
    ensures LastValue(lines, k).Some? ==> LastValue(lines, k) == Some(Strip(clean[k]))
    decreases |lines|
  {
    if lines != [] {
      var init, last := lines[..|lines| - 1], lines[|lines| - 1];
      assert OnlyEntries(init, clean) by { assert forall i | 0 <= i < |init| :: init[i] == lines[i]; }
      EntriesValue(init, clean, k);
      KeysAgree(last);
      EntryReads(k, clean[k]);
    }
  }

  lemma OnlyEntriesConcat(a: seq<string>, line: string, clean: map<string, string>)
    requires OnlyEntries(a, clean)
    requires forall k | KeyOf(line) == Some(k) && k in clean :: line == Entry(k, clean[k])
    ensures OnlyEntries(a + [line], clean)
  {
  }

  lemma {:induction false} ReplacedEntries(lines: seq<string>, clean: map<string, string>)
    requires WellFormed(clean)
    ensures OnlyEntries(Replaced(lines, clean), clean)
    decreases |lines|
  {
    if lines != [] {
      var init, last := lines[..|lines| - 1], lines[|lines| - 1];
      var key, out := KeyOf(last), Replaced(init, clean);
      ReplacedEntries(init, clean);
      if key.None? || key.value !in clean {
        OnlyEntriesConcat(out, last, clean);
      } else {
        EntryReads(key.value, clean[key.value]);
        OnlyEntriesConcat(out, Entry(key.value, clean[key.value]), clean);
        assert Replaced(lines, clean) == out || Replaced(lines, clean) == out + [Entry(key.value, clean[key.value])];
      }
    }
  }

  lemma OneValue(line: string, key: string)
    ensures LastValue([line], key) == FirstValue([line], key)
    ensures FirstValue([line], key) ==
            if Reads(line).Some? && Reads(line).value.key == key then Some(Reads(line).value.value) else None
  {
    assert [line][..0] == [];
  }

  /** Other keys keep their values in both orders, and a forced key stays assigned if it was. */
  lemma {:induction false} ReplacedValues(lines: seq<string>, clean: map<string, string>, k: string)
    requires WellFormed(clean)
    ensures k !in clean ==> LastValue(Replaced(lines, clean), k) == LastValue(lines, k)
    ensures k !in clean ==> FirstValue(Replaced(lines, clean), k) == FirstValue(lines, k)
    ensures k in clean ==> (FirstValue(Replaced(lines, clean), k).Some? <==> k in Assigned(lines))
    decreases |lines|
  {
    if lines != [] {
      var init, last := lines[..|lines| - 1], lines[|lines| - 1];
      ReplacedValues(init, clean, k);
      KeysAgree(last);
      var key := KeyOf(last);
      if key.None? || key.value !in clean {
        ValuesConcat(Replaced(init, clean), [last], k);
        OneValue(last, k);
      } else if key.value in Assigned(init) {
        assert Replaced(lines, clean) == Replaced(init, clean);
      } else {
        var entry := Entry(key.value, clean[key.value]);
        ValuesConcat(Replaced(init, clean), [entry], k);
        OneValue(entry, k);
        EntryReads(key.value, clean[key.value]);
      }
    }
  }

  lemma TerminatedReads(out: seq<string>, k: string)
    ensures LastValue(Terminated(out), k) == LastValue(out, k) && FirstValue(Terminated(out), k) == FirstValue(out, k)
  {
    if out == [] {
      CommentReads(HEADER);
      OneValue(HEADER, k);
    } else if !EndsLine(out[|out| - 1]) {
      var last := out[|out| - 1];
      NewlineIgnored(last);
      assert Terminated(out)[..|out| - 1] == out[..|out| - 1];
    }
  }

  lemma {:induction false} MissingValues(order: seq<string>, clean: map<string, string>, have: set<string>, k: string)
    requires WellFormed(clean) && forall i | 0 <= i < |order| :: order[i] in clean
    ensures FirstValue(Missing(order, clean, have), k).Some? <==> k in order && k !in have
    ensures FirstValue(Missing(order, clean, have), k).None? <==> LastValue(Missing(order, clean, have), k).None?
    decreases |order|
  {
    if order != [] {
      var init, last := order[..|order| - 1], order[|order| - 1];
      assert k in order <==> k in init || k == last by { assert order == init + [last]; }
      MissingValues(init, clean, have, k);
      if last !in have {
        EntryReads(last, clean[last]);
        ValuesConcat(Missing(init, clean, have), [Entry(last, clean[last])], k);
        OneValue(Entry(last, clean[last]), k);
      } else {
        assert Missing(order, clean, have) == Missing(init, clean, have);
      }
    }
  }

  lemma {:induction false} MissingEntries(order: seq<string>, clean: map<string, string>, have: set<string>)
    requires WellFormed(clean) && forall i | 0 <= i < |order| :: order[i] in clean
    ensures OnlyEntries(Missing(order, clean, have), clean)
    decreases |order|
  {
    if order != [] {
      var init, last := order[..|order| - 1], order[|order| - 1];
      MissingEntries(init, clean, have);
      EntryReads(last, clean[last]);
      OnlyEntriesConcat(Missing(init, clean, have), Entry(last, clean[last]), clean);
      assert Missing(order, clean, have) == Missing(init, clean, have)
          || Missing(order, clean, have) == Missing(init, clean, have) + [Entry(last, clean[last])];
    }
  }

  /** A line break at the end leaves the entries entries. */
  lemma TerminatedEntries(out: seq<string>, clean: map<string, string>)
    requires OnlyEntries(out, clean) && WellFormed(clean)
    ensures OnlyEntries(Terminated(out), clean)
  {
    if out == [] {
      CommentReads(HEADER);
    } else if !EndsLine(out[|out| - 1]) {
      var init, last := out[..|out| - 1], out[|out| - 1];
      KeyWithBreak(last);
      assert OnlyEntries(init, clean) by { assert forall i | 0 <= i < |init| :: init[i] == out[i]; }
      assert forall k | KeyOf(last) == Some(k) && k in clean :: EndsLine(last);
      OnlyEntriesConcat(init, last + "\n", clean);
    }
  }

  lemma ForcedEntries(lines: seq<string>, order: seq<string>, clean: map<string, string>)
    requires WellFormed(clean) && Orders(order, clean)
    ensures OnlyEntries(Forced(lines, order, clean), clean)
  {
    var out, missing := Replaced(lines, clean), Missing(order, clean, Assigned(lines));
    ReplacedEntries(lines, clean);
    if missing != [] {
      MissingEntries(order, clean, Assigned(lines));
      TerminatedEntries(out, clean);
      assert forall i | 0 <= i < |missing| :: (Terminated(out) + missing)[|Terminated(out)| + i] == missing[i];
    }
  }

  lemma ForcedValues(lines: seq<string>, order: seq<string>, clean: map<string, string>, k: string)
    requires WellFormed(clean) && Orders(order, clean)
    ensures k !in clean ==> LastValue(Forced(lines, order, clean), k) == LastValue(lines, k)
    ensures k !in clean ==> FirstValue(Forced(lines, order, clean), k) == FirstValue(lines, k)
    ensures k in clean ==> FirstValue(Forced(lines, order, clean), k).Some?
  {
    var out, missing := Replaced(lines, clean), Missing(order, clean, Assigned(lines));
    ReplacedValues(lines, clean, k);
    MissingValues(order, clean, Assigned(lines), k);
    if missing != [] {
      TerminatedReads(out, k);
      ValuesConcat(Terminated(out), missing, k);
    } else {
      assert FirstValue(missing, k).None?;
    }
  }

  /**
   * After the rewrite both readers see, for every forced key, the value given, and for every other
   * key what they saw before.
   */
  lemma ForcedIsRead(lines: seq<string>, order: seq<string>, clean: map<string, string>, k: string)
    requires WellFormed(clean) && Orders(order, clean)
    ensures var out := Forced(lines, order, clean);
            && (k in clean ==> LastValue(out, k) == FirstValue(out, k) == Some(Strip(clean[k])))
            && (k !in clean ==> LastValue(out, k) == LastValue(lines, k) && FirstValue(out, k) == FirstValue(lines, k))
  {
    ForcedEntries(lines, order, clean);
    ForcedValues(lines, order, clean, k);
    if k in clean { EntriesValue(Forced(lines, order, clean), clean, k); }
  }

  /** No outer whitespace, no outer quote, not empty. */
  predicate Plain(v: string) {
    v != "" && Trimmed(v) && v[0] !in {'\'', '"'} && v[|v| - 1] !in {'\'', '"'}
  }

  lemma PlainIsBare(v: string)
    requires Plain(v)
    ensures Bare(v) == Some(v) && Unwrapped(v) == v && Strip(v) == v
  {
    StripTrimmed(v);
  }

  predicate Wrapped(v: string, c: char) {
    |v| >= 2 && v[0] == c && v[|v| - 1] == c
  }

  predicate Outer(u: string, c: char) {
    u != "" && (u[0] == c || u[|u| - 1] == c)
  }

  /**
   * When the two readers make the same of a value: what is left without its wrapping quotes is not
   * empty and has no outer double quote, nor, unless double quotes wrapped it, an outer single one.
   */
  predicate QuotesAgree(v: string) {
    var u := Unwrapped(v);
    u != "" && !Outer(u, '"') && (Wrapped(v, '"') || !Outer(u, '\''))
  }

  lemma {:induction false} LeftShortens(s: string, c: char)
    ensures |StripCharLeft(s, c)| <= |s| && (StripCharLeft(s, c) == s <==> s == "" || s[0] != c)
    ensures StripCharLeft(s, c) != "" ==> StripCharLeft(s, c)[|StripCharLeft(s, c)| - 1] == s[|s| - 1]
  {
    if s != "" && s[0] == c { LeftShortens(s[1..], c); }
  }

  lemma {:induction false} RightShortens(s: string, c: char)
    ensures |StripCharRight(s, c)| <= |s| && (StripCharRight(s, c) == s <==> s == "" || s[|s| - 1] != c)
  {
    if s != "" && s[|s| - 1] == c { RightShortens(s[..|s| - 1], c); }
  }

  /** Stripping never lengthens, and shortens exactly where there is something to strip. */
  lemma StripShortens(s: string, c: char)
    ensures |StripChar(s, c)| <= |s| && (|StripChar(s, c)| == |s| ==> StripChar(s, c) == s)
    ensures StripChar(s, c) == s <==> !Outer(s, c)
  {
    var l := StripCharLeft(s, c);
    LeftShortens(s, c);
    RightShortens(l, c);
    if |l| == |s| { assert l == s by { if s != "" && s[0] == c { LeftShortens(s[1..], c); } } }
    if |StripCharRight(l, c)| == |l| {
      assert StripCharRight(l, c) == l by { if l != "" && l[|l| - 1] == c { RightShortens(l[..|l| - 1], c); } }
    }
  }

  lemma {:induction false} LeftOf(u: string, c: char)
    ensures StripCharRight(StripCharLeft(u + [c], c), c) == StripCharRight(StripCharLeft(u, c), c)
    decreases |u|
  {
    var w := u + [c];
    if u == "" {
      assert w[1..] == "";
    } else if u[0] == c {
      assert w[1..] == u[1..] + [c];
      LeftOf(u[1..], c);
    } else {
      assert w[0] == u[0] && w[|w| - 1] == c && w[..|w| - 1] == u;
    }
  }

  /** A wrapping pair does not matter to the reader that strips. */
  lemma PairGone(u: string, c: char)
    ensures StripChar([c] + u + [c], c) == StripChar(u, c)
  {
    var all := [c] + u + [c];
    assert all[1..] == u + [c];
    LeftOf(u, c);
  }

  lemma StripBoth(u: string)
    ensures StripChar(StripChar(u, '\''), '"') == u <==> !Outer(u, '\'') && !Outer(u, '"')
  {
    var x := StripChar(u, '\'');
    StripShortens(u, '\'');
    StripShortens(x, '"');
  }

  lemma BareIffQuotesAgree(v: string)
    ensures Bare(v) == Some(Unwrapped(v)) <==> QuotesAgree(v)
  {
    var u := Unwrapped(v);
    if Wrapped(v, '"') {
      assert v == ['"'] + u + ['"'];
      StripShortens(v, '\'');
      PairGone(u, '"');
      StripShortens(u, '"');
    } else if Wrapped(v, '\'') {
      assert v == ['\''] + u + ['\''];
      PairGone(u, '\'');
      StripBoth(u);
    } else {
      StripBoth(v);
    }
  }

  /**
   * After a rewrite, in any environment with the key unset, the last-wins parser and the first-wins
   * loader give the same value exactly under that condition; a plain value is given back as forced.
   */
  lemma ReadersAgree(lines: seq<string>, order: seq<string>, clean: map<string, string>, k: string,
                     was: map<string, string>)
    requires WellFormed(clean) && Orders(order, clean) && k in clean && k !in was
    ensures var out := Forced(lines, order, clean);
            && k in Loaded(out, was) && Loaded(out, was)[k] == Unwrapped(Strip(clean[k]))
            && (Parsed(out, k) == Some(Loaded(out, was)[k]) <==> QuotesAgree(Strip(clean[k])))
            && (Plain(clean[k]) ==> Parsed(out, k) == Some(clean[k]) && Loaded(out, was)[k] == clean[k])
  {
    var out := Forced(lines, order, clean);
    ForcedIsRead(lines, order, clean, k);
    LoadIsFirstWins(out, was, k);
    BareIffQuotesAgree(Strip(clean[k]));
    if Plain(clean[k]) { PlainIsBare(clean[k]); }
  }

  /** Two ways to part: nested quotes lose one pair or both, and a lone outer quote stays or goes. */
  lemma OuterQuotesPart(v: string)
    requires Plain(v)
    ensures var inner := ['"'] + v + ['"'];
            Bare(['\''] + inner + ['\'']) == Some(v) && Unwrapped(['\''] + inner + ['\'']) == inner
    ensures Bare(v + ['"']) == Some(v) && Unwrapped(v + ['"']) == v + ['"']
  {
    var inner := ['"'] + v + ['"'];
    PairGone(inner, '\'');
    PairGone(v, '"');
    StripShortens(inner, '\'');
    StripShortens(v, '"');
    var w := v + ['"'];
    StripShortens(w, '\'');
    assert w[0] == v[0] && w[..|w| - 1] == v;
  }

  // ---------------------------------------------------------------------------------------
  // Idempotence
  // ---------------------------------------------------------------------------------------

  /** At most one line assigns each forced key. */
  ghost predicate Once(lines: seq<string>, clean: map<string, string>) {
    forall i, j | 0 <= i < j < |lines| && KeyOf(lines[i]).Some? && KeyOf(lines[i]).value in clean ::
      KeyOf(lines[j]) != KeyOf(lines[i])
  }

  lemma {:induction false} AssignedAt(lines: seq<string>, i: nat)
    requires i < |lines| && KeyOf(lines[i]).Some?
    ensures KeyOf(lines[i]).value in Assigned(lines)
    decreases |lines|
  {
    if i < |lines| - 1 { AssignedAt(lines[..|lines| - 1], i); }
  }

  lemma {:induction false} AssignedWhere(lines: seq<string>, key: string) returns (i: nat)
    requires key in Assigned(lines)
    ensures i < |lines| && KeyOf(lines[i]) == Some(key)
    decreases |lines|
  {
    var init := lines[..|lines| - 1];
    if key in Assigned(init) {
      i := AssignedWhere(init, key);
      assert lines[i] == init[i];
    } else {
      i := |lines| - 1;
    }
  }

  lemma {:induction false} AssignedConcat(a: seq<string>, b: seq<string>)
    ensures Assigned(a + b) == Assigned(a) + Assigned(b)
    decreases |b|
  {
    if b == [] {
      assert a + b == a;
    } else {
      assert (a + b)[..|a + b| - 1] == a + b[..|b| - 1];
      AssignedConcat(a, b[..|b| - 1]);
    }
  }

  lemma OnceConcat(a: seq<string>, b: seq<string>, clean: map<string, string>)
    requires Once(a, clean) && Once(b, clean)
    requires forall k | k in clean && k in Assigned(a) :: k !in Assigned(b)
    ensures Once(a + b, clean)
  {
    var all := a + b;
    forall i, j | 0 <= i < j < |all| && KeyOf(all[i]).Some? && KeyOf(all[i]).value in clean
      ensures KeyOf(all[j]) != KeyOf(all[i])
    {
      if i < |a| <= j {
        AssignedAt(a, i);
        if KeyOf(b[j - |a|]).Some? { AssignedAt(b, j - |a|); }
      } else if |a| <= i {
        assert all[i] == b[i - |a|] && all[j] == b[j - |a|];
      }
    }
  }

  lemma AssignedOne(line: string)
    ensures Assigned([line]) == if KeyOf(line).Some? then {KeyOf(line).value} else {}
  {
    assert [line][..0] == [];
  }

  lemma {:induction false} ReplacedOnce(lines: seq<string>, clean: map<string, string>)
    requires WellFormed(clean)
    ensures Once(Replaced(lines, clean), clean) && Assigned(Replaced(lines, clean)) == Assigned(lines)
    decreases |lines|
  {
    if lines != [] {
      var init, last := lines[..|lines| - 1], lines[|lines| - 1];
      var more := Rewrite(last, clean, Assigned(init));
      ReplacedOnce(init, clean);
      RewriteOnce(last, clean, Assigned(init));
      AssignedConcat(Replaced(init, clean), more);
      OnceConcat(Replaced(init, clean), more, clean);
    }
  }

  /** What becomes of one line: at most one line, which assigns a forced key only if none did before. */
  lemma RewriteOnce(line: string, clean: map<string, string>, have: set<string>)
    requires WellFormed(clean)
    ensures var more, key := Rewrite(line, clean, have), KeyOf(line);
            && Once(more, clean) && (forall k | k in clean && k in have :: k !in Assigned(more))
            && have + Assigned(more) == have + if key.Some? then {key.value} else {}
  {
    var key := KeyOf(line);
    if key.None? || key.value !in clean {
      AssignedOne(line);
    } else if key.value !in have {
      EntryReads(key.value, clean[key.value]);
      AssignedOne(Entry(key.value, clean[key.value]));
    }
    FewOnce(Rewrite(line, clean, have), clean);
  }

  lemma FewOnce(lines: seq<string>, clean: map<string, string>)
    requires |lines| <= 1
    ensures Once(lines, clean)
  {
  }

  lemma {:induction false} MissingAssigned(order: seq<string>, clean: map<string, string>, have: set<string>, k: string)
    requires WellFormed(clean) && forall i | 0 <= i < |order| :: order[i] in clean
    ensures k in Assigned(Missing(order, clean, have)) <==> k in order && k !in have
  {
    MissingValues(order, clean, have, k);
    AssignedHasValue(Missing(order, clean, have), k);
  }

  lemma {:induction false} MissingOnce(order: seq<string>, clean: map<string, string>, have: set<string>)
    requires WellFormed(clean) && forall i | 0 <= i < |order| :: order[i] in clean
    requires forall i, j | 0 <= i < j < |order| :: order[i] != order[j]
    ensures Once(Missing(order, clean, have), clean)
    decreases |order|
  {
    if order != [] {
      var init, last := order[..|order| - 1], order[|order| - 1];
      MissingOnce(init, clean, have);
      if last !in have {
        EntryReads(last, clean[last]);
        AssignedOne(Entry(last, clean[last]));
        MissingAssigned(init, clean, have, last);
        OnceConcat(Missing(init, clean, have), [Entry(last, clean[last])], clean);
      } else {
        assert Missing(order, clean, have) == Missing(init, clean, have);
      }
    }
  }

  lemma {:induction false} SameKeys(a: seq<string>, b: seq<string>)
    requires |a| == |b| && forall i | 0 <= i < |a| :: KeyOf(a[i]) == KeyOf(b[i])
    ensures Assigned(a) == Assigned(b)
    decreases |a|
  {
    if a != [] { SameKeys(a[..|a| - 1], b[..|b| - 1]); }
  }

  lemma SameKeysOnce(a: seq<string>, b: seq<string>, clean: map<string, string>)
    requires |a| == |b| && (forall i | 0 <= i < |a| :: KeyOf(a[i]) == KeyOf(b[i])) && Once(a, clean)
    ensures Once(b, clean)
  {
    forall i, j | 0 <= i < j < |b| && KeyOf(b[i]).Some? && KeyOf(b[i]).value in clean
      ensures KeyOf(b[j]) != KeyOf(b[i])
    {
      assert KeyOf(a[i]) == KeyOf(b[i]) && KeyOf(a[j]) == KeyOf(b[j]);
    }
  }

  lemma KeyWithBreak(line: string)
    ensures KeyOf(line + "\n") == KeyOf(line)
  {
    NewlineIgnored(line);
    KeysAgree(line);
    KeysAgree(line + "\n");
  }

  lemma TerminatedKey(out: seq<string>, i: nat)
    requires i < |out|
    ensures |Terminated(out)| == |out| && KeyOf(Terminated(out)[i]) == KeyOf(out[i])
  {
    if !EndsLine(out[|out| - 1]) && i == |out| - 1 {
      KeyWithBreak(out[i]);
      assert Terminated(out)[i] == out[i] + "\n";
    } else {
      assert Terminated(out)[i] == out[i];
    }
  }

  lemma TerminatedOnce(out: seq<string>, clean: map<string, string>)
    requires Once(out, clean)
    ensures Once(Terminated(out), clean) && Assigned(Terminated(out)) == Assigned(out)
  {
    if out == [] {
      CommentReads(HEADER);
      AssignedOne(HEADER);
    } else {
      var ended := Terminated(out);
      forall i | 0 <= i < |out| ensures |ended| == |out| && KeyOf(out[i]) == KeyOf(ended[i]) {
        TerminatedKey(out, i);
      }
      TerminatedKey(out, 0);
      SameKeys(out, ended);
      SameKeysOnce(out, ended, clean);
    }
  }

  lemma ForcedOnce(lines: seq<string>, order: seq<string>, clean: map<string, string>)
    requires WellFormed(clean) && Orders(order, clean)
    ensures Once(Forced(lines, order, clean), clean)
    ensures forall k | k in clean :: k in Assigned(Forced(lines, order, clean))
  {
    var out, missing := Replaced(lines, clean), Missing(order, clean, Assigned(lines));
    ReplacedOnce(lines, clean);
    MissingOnce(order, clean, Assigned(lines));
    forall k: string ensures k in Assigned(missing) <==> k in order && k !in Assigned(lines) {
      MissingAssigned(order, clean, Assigned(lines), k);
    }
    if missing != [] {
      TerminatedOnce(out, clean);
      OnceConcat(Terminated(out), missing, clean);
      AssignedConcat(Terminated(out), missing);
    } else {
      assert Assigned(missing) == {};
    }
  }

  lemma OnceBefore(lines: seq<string>, clean: map<string, string>)
    requires lines != [] && OnlyEntries(lines, clean) && Once(lines, clean)
    ensures OnlyEntries(lines[..|lines| - 1], clean) && Once(lines[..|lines| - 1], clean)
    ensures var key := KeyOf(lines[|lines| - 1]);
            key.Some? && key.value in clean ==> key.value !in Assigned(lines[..|lines| - 1])
  {
    var init, key := lines[..|lines| - 1], KeyOf(lines[|lines| - 1]);
    assert forall i | 0 <= i < |init| :: init[i] == lines[i];
    if key.Some? && key.value in clean && key.value in Assigned(init) {
      var i := AssignedWhere(init, key.value);
      assert false;
    }
  }

  /** Entries that occur once are left as they are. */
  lemma {:induction false} ReplacedFixed(lines: seq<string>, clean: map<string, string>)
    requires OnlyEntries(lines, clean) && Once(lines, clean)
    ensures Replaced(lines, clean) == lines
    decreases |lines|
  {
    if lines != [] {
      OnceBefore(lines, clean);
      ReplacedFixed(lines[..|lines| - 1], clean);
      assert Rewrite(lines[|lines| - 1], clean, Assigned(lines[..|lines| - 1])) == [lines[|lines| - 1]];
      assert lines == lines[..|lines| - 1] + [lines[|lines| - 1]];
    }
  }

  lemma {:induction false} NothingMissing(order: seq<string>, clean: map<string, string>, have: set<string>)
    requires forall i | 0 <= i < |order| :: order[i] in clean && order[i] in have
    ensures Missing(order, clean, have) == []
    decreases |order|
  {
    if order != [] { NothingMissing(order[..|order| - 1], clean, have); }
  }

  // ---------------------------------------------------------------------------------------
  // Reading the written file back
  // ---------------------------------------------------------------------------------------

  function FirstBreak(t: string): (n: nat)
    ensures n <= |t| && (n < |t| ==> t[n] == '\n') && forall i | 0 <= i < n :: t[i] != '\n'
  {
    if t == "" || t[0] == '\n' then 0 else 1 + FirstBreak(t[1..])
  }

  /** `readlines()`: the lines with their line breaks. */
  function ReadLines(t: string): seq<string>
    decreases |t|
  {
    var n := FirstBreak(t);
    if t == "" then [] else if n == |t| then [t] else [t[..n + 1]] + ReadLines(t[n + 1..])
  }

  /** A line with its break at the end and nowhere else. */
  predicate WholeLine(l: string) {
    EndsLine(l) && '\n' !in l[..|l| - 1]
  }

  /** Whole lines, of which the last may lack its break. */
  predicate FileLines(lines: seq<string>) {
    && (forall i | 0 <= i < |lines| - 1 :: WholeLine(lines[i]))
    && (lines != [] ==> var l := lines[|lines| - 1]; WholeLine(l) || (l != "" && '\n' !in l))
  }

  lemma BreakAt(t: string, n: nat)
    requires n <= |t| && (n < |t| ==> t[n] == '\n') && forall i | 0 <= i < n :: t[i] != '\n'
    ensures FirstBreak(t) == n
  {
  }

  lemma FirstLine(l: string, t: string)
    requires WholeLine(l)
    ensures FirstBreak(l + t) == |l| - 1 && (l + t)[..|l|] == l && (l + t)[|l|..] == t
  {
    assert forall i | 0 <= i < |l| - 1 :: (l + t)[i] == l[..|l| - 1][i];
    BreakAt(l + t, |l| - 1);
  }

  lemma FileLinesTail(lines: seq<string>)
    requires lines != [] && FileLines(lines)
    ensures FileLines(lines[1..]) && (|lines| > 1 ==> WholeLine(lines[0]))
  {
    assert forall i | 0 <= i < |lines| - 1 :: lines[1..][i] == lines[i + 1];
  }

  lemma {:induction false} JoinedReadsBack(lines: seq<string>)
    requires FileLines(lines)
    ensures ReadLines(Join(lines)) == lines
    decreases |lines|
  {
    if lines != [] {
      var l, rest := lines[0], lines[1..];
      FileLinesTail(lines);
      JoinedReadsBack(rest);
      assert lines == [l] + rest;
      if WholeLine(l) {
        FirstLine(l, Join(rest));
      } else {
        assert Join(lines) == l;
        BreakAt(l, |l|);
      }
    }
  }

  lemma FileLinesFront(l: string, rest: seq<string>)
    requires WholeLine(l) && FileLines(rest)
    ensures FileLines([l] + rest) && Join([l] + rest) == l + Join(rest)
  {
    assert ([l] + rest)[1..] == rest;
    assert forall i | 0 < i < |rest| + 1 :: ([l] + rest)[i] == rest[i - 1];
  }

  lemma LastLine(t: string)
    requires t != "" && forall i | 0 <= i < |t| :: t[i] != '\n'
    ensures FileLines([t]) && Join([t]) == t
  {
    assert [t][1..] == [] && Join([t]) == t + Join([]);
  }

  lemma {:induction false} ReadIsFile(t: string)
    ensures FileLines(ReadLines(t)) && Join(ReadLines(t)) == t
    decreases |t|
  {
    var n := FirstBreak(t);
    if n < |t| {
      var l, rest := t[..n + 1], t[n + 1..];
      ReadIsFile(rest);
      assert l[..|l| - 1] == t[..n] && l + rest == t;
      FileLinesFront(l, ReadLines(rest));
    } else if t != "" {
      LastLine(t);
    }
  }

  ghost predicate OneLiners(clean: map<string, string>) {
    forall k | k in clean :: OneLine(clean[k])
  }

  lemma EntryWhole(k: string, v: string)
    requires WellFormedKey(k) && OneLine(v)
    ensures WholeLine(Entry(k, v))
  {
    var l := Entry(k, v);
    assert l[..|l| - 1] == k + "=" + v;
  }

  predicate AllWhole(lines: seq<string>) {
    forall i | 0 <= i < |lines| :: WholeLine(lines[i])
  }

  lemma {:induction false} ReplacedWhole(lines: seq<string>, clean: map<string, string>)
    requires WellFormed(clean) && OneLiners(clean) && AllWhole(lines)
    ensures AllWhole(Replaced(lines, clean))
    decreases |lines|
  {
    if lines != [] {
      var init, last := lines[..|lines| - 1], lines[|lines| - 1];
      ReplacedWhole(init, clean);
      RewriteWhole(last, clean, Assigned(init));
      WholeConcat(Replaced(init, clean), Rewrite(last, clean, Assigned(init)));
    }
  }

  lemma RewriteWhole(line: string, clean: map<string, string>, have: set<string>)
    requires WellFormed(clean) && OneLiners(clean) && WholeLine(line)
    ensures AllWhole(Rewrite(line, clean, have))
  {
    var key := KeyOf(line);
    if key.Some? && key.value in clean { EntryWhole(key.value, clean[key.value]); }
  }

  lemma WholeConcat(a: seq<string>, b: seq<string>)
    requires AllWhole(a) && AllWhole(b)
    ensures AllWhole(a + b)
  {
  }

  lemma {:induction false} MissingWhole(order: seq<string>, clean: map<string, string>, have: set<string>)
    requires WellFormed(clean) && OneLiners(clean) && forall i | 0 <= i < |order| :: order[i] in clean
    ensures AllWhole(Missing(order, clean, have))
    decreases |order|
  {
    if order != [] {
      MissingWhole(order[..|order| - 1], clean, have);
      EntryWhole(order[|order| - 1], clean[order[|order| - 1]]);
    }
  }

  lemma FileLinesEnd(whole: seq<string>, end: seq<string>)
    requires AllWhole(whole) && |end| <= 1 && FileLines(end)
    ensures FileLines(whole + end)
  {
  }

  lemma RewriteFile(line: string, clean: map<string, string>, have: set<string>)
    requires WellFormed(clean) && OneLiners(clean) && FileLines([line])
    ensures |Rewrite(line, clean, have)| <= 1 && FileLines(Rewrite(line, clean, have))
  {
    var key := KeyOf(line);
    if key.Some? && key.value in clean { EntryWhole(key.value, clean[key.value]); }
  }

  lemma ReplacedFile(lines: seq<string>, clean: map<string, string>)
    requires WellFormed(clean) && OneLiners(clean) && FileLines(lines)
    ensures FileLines(Replaced(lines, clean))
  {
    if lines != [] {
      var init, last := lines[..|lines| - 1], lines[|lines| - 1];
      ReplacedWhole(init, clean);
      RewriteFile(last, clean, Assigned(init));
      FileLinesEnd(Replaced(init, clean), Rewrite(last, clean, Assigned(init)));
    }
  }

  lemma HeaderWhole()
    ensures WholeLine(HEADER)
  {
    assert '\n' !in "# Lullabeast " && '\n' !in "environment " && '\n' !in "(written by ";
    assert '\n' !in "the container " && '\n' !in "entrypoint)";
    assert HEADER[..|HEADER| - 1] == HEADER_TEXT;
  }

  lemma TerminatedWhole(out: seq<string>)
    requires FileLines(out)
    ensures AllWhole(Terminated(out))
  {
    if out == [] {
      HeaderWhole();
    } else if !EndsLine(out[|out| - 1]) {
      var l := out[|out| - 1];
      assert (l + "\n")[..|l|] == l;
    }
  }

  lemma ForcedFile(lines: seq<string>, order: seq<string>, clean: map<string, string>)
    requires WellFormed(clean) && OneLiners(clean) && Orders(order, clean) && FileLines(lines)
    ensures FileLines(Forced(lines, order, clean))
  {
    ReplacedFile(lines, clean);
    MissingWhole(order, clean, Assigned(lines));
    TerminatedWhole(Replaced(lines, clean));
  }

  /**
   * A second rewrite with the same one-line values finds nothing to do: the file written reads back
   * as the lines written, and rewriting those changes nothing.
   */
  lemma SecondForceIsUnchanged(text: string, order: seq<string>, clean: map<string, string>)
    requires WellFormed(clean) && OneLiners(clean) && Orders(order, clean)
    ensures var out := Forced(ReadLines(text), order, clean);
            ReadLines(Join(out)) == out && Forced(ReadLines(Join(out)), order, clean) == out
  {
    var lines := ReadLines(text);
    var out := Forced(lines, order, clean);
    ReadIsFile(text);
    ForcedFile(lines, order, clean);
    JoinedReadsBack(out);
    ForcedEntries(lines, order, clean);
    ForcedOnce(lines, order, clean);
    ReplacedFixed(out, clean);
    NothingMissing(order, clean, Assigned(out));
  }
}
