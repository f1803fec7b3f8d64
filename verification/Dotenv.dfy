/**
 * Rewriting a `.env` file and the two readers of it: `force_dotenv_keys` and `parse_dotenv_value`
 * (autodev/installer/setup_helpers.py:441-501, 526-547), the last-wins reader, and
 * `load_repo_env_file` (autodev/pipeline/env_resolvers.py:66-106), the first-wins one.
 *
 * A file is the sequence of its lines, each with its line break if it has one. The two readers make
 * the same thing of a line; the rewriter looks at it in its own way and finds the same key. They
 * part only over which of several assignments counts, and over quotes around the value.
 */
module Dotenv {
  import opened Json
  import opened Text

  /** The first line of a file written afresh, in pieces short enough for the solver to look into. */
  const HEADER_TEXT := "# Lullabeast " + "environment " + "(written by " + "the container " + "entrypoint)"
  const HEADER := HEADER_TEXT + "\n"

  // ---------------------------------------------------------------------------------------
  // Stripping
  // ---------------------------------------------------------------------------------------

  /** The two ends are stripped independently. */
  lemma {:induction false} StripsCommute(s: string)
    ensures StripLeft(StripRight(s)) == StripRight(StripLeft(s))
    decreases |s|
  {
    if s != "" && IsSpace(s[0]) {
      StripsCommute(s[1..]);
      StripRightAppend([s[0]], s[1..]);
      assert s == [s[0]] + s[1..];
      BlankTail(s);
    } else if s != "" {
      StripRightAppend([s[0]], s[1..]);
      assert s == [s[0]] + s[1..];
    }
  }

  lemma {:induction false} StripRightTwice(s: string)
    ensures StripRight(StripRight(s)) == StripRight(s)
    decreases |s|
  {
  }

  lemma StripOfStripRight(s: string)
    ensures Strip(StripRight(s)) == Strip(s)
  {
    StripsCommute(s);
    StripRightTwice(StripLeft(s));
  }

  // ---------------------------------------------------------------------------------------
  // Lines
  // ---------------------------------------------------------------------------------------

  datatype Assignment = Assignment(key: string, value: string)

  /** The index of the first `=`, or the length. */
  function FirstEquals(s: string): (n: nat)
    ensures n <= |s| && (n < |s| ==> s[n] == '=') && '=' !in s[..n]
    ensures n == |s| <==> '=' !in s
  {
    if s == "" || s[0] == '=' then 0
    else
      assert s == [s[0]] + s[1..];
      1 + FirstEquals(s[1..])
  }

  /** What both readers make of a line: `split("=", 1)` of the stripped line, both parts stripped. */
  function Reads(line: string): Option<Assignment> {
    var s := Strip(line);
    if s == "" || s[0] == '#' || '=' !in s then None
    else Some(Assignment(Strip(s[..FirstEquals(s)]), Strip(s[FirstEquals(s) + 1..])))
  }

  /** The key as the rewriter finds it: it strips the line on the left only. */
  function KeyOf(line: string): Option<string> {
    var s := StripLeft(line);
    if s == "" || s[0] == '#' || '=' !in s then None else Some(Strip(s[..FirstEquals(s)]))
  }

  lemma FirstEqualsAt(s: string, n: nat)
    requires n < |s| && s[n] == '=' && '=' !in s[..n]
    ensures FirstEquals(s) == n
  {
    var m := FirstEquals(s);
    assert forall i | 0 <= i < n :: s[..n][i] == s[i];
    assert forall i | 0 <= i < m :: s[..m][i] == s[i];
  }

  /** The rewriter and the readers find the same key. */
  lemma KeysAgree(line: string)
    ensures KeyOf(line) == if Reads(line).Some? then Some(Reads(line).value.key) else None
  {
    var l := StripLeft(line);
    var s := StripRight(l);
    StripRightPrefix(l);
    if s != "" {
      assert s[0] == l[0];
      if '=' in l {
        var n := FirstEquals(l);
        EqualsSurvives(l, n);
        assert s[n] == '=' && s[..n] == l[..n];
        FirstEqualsAt(s, n);
      } else {
        assert forall i | 0 <= i < |s| :: s[i] == l[i];
      }
    }
  }

  lemma StripRightPrefix(l: string)
    ensures StripRight(l) <= l
  {
  }

  lemma {:induction false} EqualsSurvives(l: string, n: nat)
    requires n < |l| && l[n] == '='
    ensures n < |StripRight(l)|
    decreases |l|
  {
    if IsSpace(l[|l| - 1]) { EqualsSurvives(l[..|l| - 1], n); }
  }

  lemma StripNewline(s: string)
    ensures Strip(s + "\n") == Strip(s)
  {
    StripLeftAppend(s, "\n");
    assert Blank("\n") && StripLeft("\n") == "";
    if !Blank(s) { StripRightAppend(StripLeft(s), "\n"); }
  }

  lemma NewlineIgnored(line: string)
    ensures Reads(line + "\n") == Reads(line)
  {
    StripNewline(line);
  }

  predicate OneLine(s: string) {
    '\n' !in s && '\r' !in s
  }

  /** A key that can be written and found again. */
  predicate WellFormedKey(k: string) {
    k != "" && Trimmed(k) && k[0] != '#' && '=' !in k && OneLine(k)
  }

  function Entry(k: string, v: string): string {
    k + "=" + v + "\n"
  }

  lemma StartKept(s: string)
    requires s != "" && !IsSpace(s[0])
    ensures StripLeft(s) == s && !Blank(s)
  {
  }

  lemma StrippedEntry(k: string, v: string)
    requires WellFormedKey(k)
    ensures Strip(Entry(k, v)) == k + "=" + StripRight(v)
  {
    var start := k + "=";
    assert start[0] == k[0] && start[|start| - 1] == '=';
    assert StripRight(start) == start;
    StripNewline(start + v);
    StartKept(start + v);
    StripRightAppend(start, v);
  }

  lemma EntryReads(k: string, v: string)
    requires WellFormedKey(k)
    ensures Reads(Entry(k, v)) == Some(Assignment(k, Strip(v))) && KeyOf(Entry(k, v)) == Some(k)
  {
    var s := k + "=" + StripRight(v);
    StrippedEntry(k, v);
    assert s[..|k|] == k && s[|k|] == '=' && s[|k| + 1..] == StripRight(v);
    FirstEqualsAt(s, |k|);
    StripTrimmed(k);
    StripOfStripRight(v);
    KeysAgree(Entry(k, v));
  }

  lemma CommentReads(line: string)
    requires line != "" && line[0] == '#'
    ensures Reads(line).None? && KeyOf(line).None?
  {
    StripRightPrefix(line);
    assert !Blank(line) by { assert !IsSpace(line[0]); }
  }

  // ---------------------------------------------------------------------------------------
  // The two readers
  // ---------------------------------------------------------------------------------------

  /** The value of the last assignment to the key. */
  function LastValue(lines: seq<string>, key: string): Option<string> {
    if lines == [] then None
    else
      var last := Reads(lines[|lines| - 1]);
      if last.Some? && last.value.key == key then Some(last.value.value) else LastValue(lines[..|lines| - 1], key)
  }

  /** The value of the first. */
  function FirstValue(lines: seq<string>, key: string): Option<string> {
    if lines == [] then None
    else
      var earlier := FirstValue(lines[..|lines| - 1], key);
      var last := Reads(lines[|lines| - 1]);
      if earlier.Some? then earlier
      else if last.Some? && last.value.key == key then Some(last.value.value)
      else None
  }

  function StripCharLeft(s: string, c: char): string {
    if s == "" || s[0] != c then s else StripCharLeft(s[1..], c)
  }

  function StripCharRight(s: string, c: char): string {
    if s == "" || s[|s| - 1] != c then s else StripCharRight(s[..|s| - 1], c)
  }

  /** `s.strip(c)`. */
  function StripChar(s: string, c: char): string {
    StripCharRight(StripCharLeft(s, c), c)
  }

  /** What the last-wins reader makes of a value: all outer quotes gone, and nothing for an empty one. */
  function Bare(v: string): Option<string> {
    var bare := StripChar(StripChar(v, '\''), '"');
    if bare == "" then None else Some(bare)
  }

  /** What the first-wins reader makes of it: one wrapping pair gone. */
  function Unwrapped(v: string): string {
    if |v| >= 2 && v[0] == v[|v| - 1] && v[0] in {'\'', '"'} then v[1..|v| - 1] else v
  }

  function Parsed(lines: seq<string>, key: string): Option<string> {
    var v := LastValue(lines, key);
    if v.None? then None else Bare(v.value)
  }

  /** The line tests that both readers make. */
  method ReadLine(line: string) returns (read: Option<Assignment>)
    ensures read == Reads(line)
  {
    var s := Strip(line);
    if s == "" || s[0] == '#' { return None; }
    if '=' !in s { return None; }
    var n := FirstEquals(s);
    read := Some(Assignment(Strip(s[..n]), Strip(s[n + 1..])));
  }

  lemma LastValueOn(lines: seq<string>, i: nat, key: string)
    requires i < |lines|
    ensures LastValue(lines[..i + 1], key) ==
            if Reads(lines[i]).Some? && Reads(lines[i]).value.key == key then Some(Reads(lines[i]).value.value)
            else LastValue(lines[..i], key)
  {
    assert lines[..i + 1][..i] == lines[..i];
  }

  /** `parse_dotenv_value` on the lines of the file. */
  method ParseDotenvValue(lines: seq<string>, key: string) returns (last: Option<string>)
    ensures last == Parsed(lines, key)
  {
    last := None;
    var i := 0;
    while i < |lines|
      invariant 0 <= i <= |lines| && last == Parsed(lines[..i], key)
    {
      LastValueOn(lines, i, key);
      var read := ReadLine(lines[i]);
      if read.Some? && read.value.key == key {
        var val := StripChar(StripChar(read.value.value, '\''), '"');
        last := if val != "" then Some(val) else None;
      }
      i := i + 1;
    }
    assert lines[..i] == lines;
  }

  /** `setdefault` for one more line. */
  function WithDefault(now: map<string, string>, read: Option<Assignment>): map<string, string> {
    if read.None? || read.value.key == "" || read.value.key in now then now
    else now[read.value.key := Unwrapped(read.value.value)]
  }

  function Loaded(lines: seq<string>, was: map<string, string>): map<string, string> {
    if lines == [] then was else WithDefault(Loaded(lines[..|lines| - 1], was), Reads(lines[|lines| - 1]))
  }

  /** A load keeps the variables that were set, and gives each other one its first assignment, if any. */
  lemma {:induction false} LoadIsFirstWins(lines: seq<string>, was: map<string, string>, k: string)
    requires k != ""
    ensures k in was ==> k in Loaded(lines, was) && Loaded(lines, was)[k] == was[k]
    ensures k !in was ==> (k in Loaded(lines, was) <==> FirstValue(lines, k).Some?)
    ensures k !in was && k in Loaded(lines, was) ==> Loaded(lines, was)[k] == Unwrapped(FirstValue(lines, k).value)
    decreases |lines|
  {
    if lines != [] { LoadIsFirstWins(lines[..|lines| - 1], was, k); }
  }

  lemma LoadedOn(lines: seq<string>, i: nat, was: map<string, string>)
    requires i < |lines|
    ensures Loaded(lines[..i + 1], was) == WithDefault(Loaded(lines[..i], was), Reads(lines[i]))
  {
    assert lines[..i + 1][..i] == lines[..i];
  }

  method Unwrap(value: string) returns (r: string)
    ensures r == Unwrapped(value)
  {
    r := value;
    if |value| >= 2 && value[0] == value[|value| - 1] && value[0] in {'\'', '"'} {
      r := value[1..|value| - 1];
    }
  }

  /** The process environment. */
  class Environment {
    var vars: map<string, string>

    method SetDefault(key: string, value: string)
      modifies this
      ensures vars == if key in old(vars) then old(vars) else old(vars)[key := value]
    {
      if key !in vars { vars := vars[key := value]; }
    }

    method LoadLine(line: string)
      modifies this
      ensures vars == WithDefault(old(vars), Reads(line))
    {
      var read := ReadLine(line);
      if read.Some? && read.value.key != "" {
        var value := Unwrap(read.value.value);
        SetDefault(read.value.key, value);
      }
    }

    method LoadRepoEnvFile(lines: seq<string>)
      modifies this
      ensures vars == Loaded(lines, old(vars))
    {
      var i := 0;
      while i < |lines|
        invariant 0 <= i <= |lines| && vars == Loaded(lines[..i], old(vars))
      {
        LoadedOn(lines, i, old(vars));
        LoadLine(lines[i]);
        i := i + 1;
      }
      assert lines[..i] == lines;
    }
  }

  // ---------------------------------------------------------------------------------------
  // The rewriter
  // ---------------------------------------------------------------------------------------

  /** The keys some line assigns. */
  function Assigned(lines: seq<string>): set<string> {
    if lines == [] then {}
    else
      var key := KeyOf(lines[|lines| - 1]);
      Assigned(lines[..|lines| - 1]) + if key.Some? then {key.value} else {}
  }

  /** One line more of the rewrite. */
  function Rewrite(line: string, clean: map<string, string>, have: set<string>): seq<string> {
    var key := KeyOf(line);
    if key.None? || key.value !in clean then [line]
    else if key.value in have then []
    else [Entry(key.value, clean[key.value])]
  }

  /** The lines with each forced key's first assignment replaced and its further ones dropped. */
  function Replaced(lines: seq<string>, clean: map<string, string>): seq<string> {
    if lines == [] then []
    else
      var init, last := lines[..|lines| - 1], lines[|lines| - 1];
      Replaced(init, clean) + Rewrite(last, clean, Assigned(init))
  }

  /** The entries for the keys no line assigned, in order. */
  function Missing(order: seq<string>, clean: map<string, string>, have: set<string>): seq<string>
    requires forall i | 0 <= i < |order| :: order[i] in clean
  {
    if order == [] then []
    else
      var k := order[|order| - 1];
      Missing(order[..|order| - 1], clean, have) + if k in have then [] else [Entry(k, clean[k])]
  }

  predicate EndsLine(line: string) {
    line != "" && line[|line| - 1] == '\n'
  }

  /** A line break after the last line, and the header line in front of an empty file. */
  function Terminated(out: seq<string>): seq<string> {
    if out == [] then [HEADER]
    else if EndsLine(out[|out| - 1]) then out
    else out[..|out| - 1] + [out[|out| - 1] + "\n"]
  }

  function Forced(lines: seq<string>, order: seq<string>, clean: map<string, string>): seq<string>
    requires forall i | 0 <= i < |order| :: order[i] in clean
  {
    var out, missing := Replaced(lines, clean), Missing(order, clean, Assigned(lines));
    if missing == [] then out else Terminated(out) + missing
  }

  datatype Status = Created | Updated | Unchanged | NoKeys

  /** The keys of a dict, in its order. */
  predicate Orders(order: seq<string>, clean: map<string, string>) {
    && (forall i | 0 <= i < |order| :: order[i] in clean)
    && (forall k | k in clean :: k in order)
    && (forall i, j | 0 <= i < j < |order| :: order[i] != order[j])
  }

  function Join(lines: seq<string>): string {
    if lines == [] then "" else lines[0] + Join(lines[1..])
  }

  /** The rewriter's line test. */
  method FindKey(line: string) returns (key: Option<string>)
    ensures key == KeyOf(line)
  {
    var s := StripLeft(line);
    if s == "" || s[0] == '#' { return None; }
    if '=' !in s { return None; }
    key := Some(Strip(s[..FirstEquals(s)]));
  }

  lemma ReplacedOn(lines: seq<string>, i: nat, clean: map<string, string>)
    requires i < |lines|
    ensures Replaced(lines[..i + 1], clean) ==
              Replaced(lines[..i], clean) + Rewrite(lines[i], clean, Assigned(lines[..i]))
    ensures Assigned(lines[..i + 1]) == Assigned(lines[..i]) + if KeyOf(lines[i]).Some?
              then {KeyOf(lines[i]).value} else {}
  {
    assert lines[..i + 1][..i] == lines[..i];
  }

  method RewriteLines(lines: seq<string>, clean: map<string, string>) returns (out: seq<string>, replaced: set<string>)
    ensures out == Replaced(lines, clean)
    ensures forall k :: k in replaced <==> k in clean && k in Assigned(lines)
  {
    out, replaced := [], {};
    var i := 0;
    while i < |lines|
      invariant 0 <= i <= |lines| && out == Replaced(lines[..i], clean)
      invariant forall k :: k in replaced <==> k in clean && k in Assigned(lines[..i])
    {
      ReplacedOn(lines, i, clean);
      var key := FindKey(lines[i]);
      if key.Some? && key.value in clean {
        if key.value !in replaced {
          out := out + [Entry(key.value, clean[key.value])];
          replaced := replaced + {key.value};
        }
      } else {
        out := out + [lines[i]];
      }
      i := i + 1;
    }
    assert lines[..i] == lines;
  }

  method MissingEntriesFor(order: seq<string>, clean: map<string, string>, replaced: set<string>,
                           ghost have: set<string>)
    returns (missing: seq<string>)
    requires forall i | 0 <= i < |order| :: order[i] in clean
    requires forall k :: k in replaced <==> k in clean && k in have
    ensures missing == Missing(order, clean, have)
  {
    missing := [];
    var i := 0;
    while i < |order|
      invariant 0 <= i <= |order| && missing == Missing(order[..i], clean, have)
    {
      assert order[..i + 1][..i] == order[..i];
      if order[i] !in replaced { missing := missing + [Entry(order[i], clean[order[i]])]; }
      i := i + 1;
    }
    assert order[..i] == order;
  }

  /** `force_dotenv_keys`; `None` is a missing file. */
  method ForceDotenvKeys(file: Option<seq<string>>, order: seq<string>, clean: map<string, string>)
    returns (status: Status, out: seq<string>)
    requires Orders(order, clean)
    ensures order == [] ==> status == NoKeys
    ensures order != [] ==>
              var lines := if file.Some? then file.value else [];
              && out == Forced(lines, order, clean)
              && status == (if file.None? then Created else if Join(out) == Join(lines) then Unchanged else Updated)
  {
    out := [];
    if order == [] { return NoKeys, []; }
    var lines := if file.Some? then file.value else [];
    var replaced;
    out, replaced := RewriteLines(lines, clean);
    var missing := MissingEntriesFor(order, clean, replaced, Assigned(lines));
    if missing != [] { out := Terminated(out) + missing; }
    status := if file.None? then Created else if Join(out) == Join(lines) then Unchanged else Updated;
  }
}
