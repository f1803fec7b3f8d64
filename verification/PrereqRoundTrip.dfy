/**
 * Printing a prerequisites declaration in the documented format and parsing it back
 * (autodev/pipeline/prereq_spec.py:21-32 and 107-248): nothing is lost and nothing warned about,
 * even when a description contains the separator itself.
 */
module PrereqRoundTrip {
  import opened Json
  import opened Text
  import opened PrereqSpec

  // ---------------------------------------------------------------------------------------
  // What can be declared
  // ---------------------------------------------------------------------------------------

  /** Text with neither separator nor value, and no outer whitespace. */
  predicate Clean(s: string) {
    Trimmed(s) && EM !in s && '=' !in s
  }

  /** Free text without a value, its separators spaced as the parser rebuilds them. */
  predicate Normal(text: string) {
    Trimmed(text) && '=' !in text && Join(Segments(text)) == text
  }

  predicate WellFormedTool(t: Tool) {
    t.name != "" && Clean(t.name) && Normal(t.description) && t.neededBy != "" && Clean(t.neededBy)
  }

  /** A variable name and its users, whatever the purpose says. */
  predicate WellNamed(e: Env) {
    && e.name != "" && Clean(e.name)
    && (forall i | 0 <= i < |e.name| :: !IsSpace(e.name[i]) && e.name[i] !in {'(', ')'})
    && e.usedBy != "" && Clean(e.usedBy)
  }

  predicate WellFormedEnv(e: Env) {
    WellNamed(e) && Normal(e.purpose)
  }

  function KindText(kind: EnvKind): string {
    match kind case Config => "config" case Secret => "secret"
  }

  function Fields(first: string, text: string, scope: string): seq<string> {
    [first] + Segments(text) + [scope]
  }

  /** The line `first EM text EM scope`. */
  function PrintLine(first: string, text: string, scope: string): string {
    first + SEP + text + SEP + scope
  }

  function PrintTool(t: Tool): string {
    PrintLine(t.name, t.description, NEEDED_BY + " " + t.neededBy)
  }

  function NameField(e: Env): string {
    e.name + " (" + KindText(e.kind) + ")"
  }

  function UsedBy(e: Env): string {
    USED_BY + " " + e.usedBy
  }

  function PrintEnv(e: Env): string {
    PrintLine(NameField(e), e.purpose, UsedBy(e))
  }

  // ---------------------------------------------------------------------------------------
  // Splitting and joining
  // ---------------------------------------------------------------------------------------

  ghost predicate AllClean(segs: seq<string>) {
    forall i | 0 <= i < |segs| :: Trimmed(segs[i]) && EM !in segs[i]
  }

  lemma SplitFront(head: string, rest: string)
    requires EM !in head
    ensures Split(head + [EM] + rest) == [head] + Split(rest)
  {
    var s := head + [EM] + rest;
    IndexAt(s, 0, EM, |head|);
    assert s[..|head|] == head && s[|head| + 1..] == rest;
  }

  lemma SplitOne(s: string)
    requires EM !in s
    ensures Split(s) == [s]
  {
    IndexAt(s, 0, EM, |s|);
  }

  lemma StripSpaces(s: string)
    ensures Strip(" " + s) == Strip(s) && Strip(s + " ") == Strip(s)
  {
    assert (" " + s)[1..] == s;
    assert (s + " ")[..|s|] == s;
    StripRightSpace(s);
  }

  lemma StripRightSpace(s: string)
    ensures Strip(s + " ") == Strip(s)
  {
    LeftAppend(s);
    if !Blank(s) {
      assert (StripLeft(s) + " ")[..|StripLeft(s)|] == StripLeft(s);
    }
  }

  lemma {:induction false} LeftAppend(s: string)
    ensures StripLeft(s + " ") == if Blank(s) then "" else StripLeft(s) + " "
    decreases |s|
  {
    if s == "" {
      assert (s + " ")[1..] == "";
    } else if IsSpace(s[0]) {
      assert (s + " ")[1..] == s[1..] + " ";
      LeftAppend(s[1..]);
      assert forall i | 1 <= i < |s| :: s[i] == s[1..][i - 1];
    }
  }

  lemma SegmentsHead(head: string, rest: string)
    requires EM !in head
    ensures Segments(head + [EM] + rest) == [Strip(head)] + Segments(rest)
  {
    SplitFront(head, rest);
    assert StripAll([head] + Split(rest)) == [Strip(head)] + StripAll(Split(rest));
  }

  lemma SegmentsOne(s: string)
    requires EM !in s
    ensures Segments(s) == [Strip(s)]
  {
    SplitOne(s);
  }

  /** A leading blank makes no difference to the segments. */
  lemma SegmentsSpaced(s: string)
    ensures Segments(" " + s) == Segments(s)
  {
    var n := IndexFrom(s, 0, EM);
    if n == |s| {
      StripSpaces(s);
      SegmentsOne(s);
      SegmentsOne(" " + s);
    } else {
      HeadSpaced(s[..n], s[n + 1..]);
      assert s == s[..n] + [EM] + s[n + 1..];
    }
  }

  lemma HeadSpaced(head: string, rest: string)
    requires EM !in head
    ensures Segments(" " + (head + [EM] + rest)) == Segments(head + [EM] + rest)
  {
    StripSpaces(head);
    assert " " + (head + [EM] + rest) == (" " + head) + [EM] + rest;
    SegmentsHead(head, rest);
    SegmentsHead(" " + head, rest);
  }

  lemma SegmentsFront(seg: string, rest: string)
    requires Trimmed(seg) && EM !in seg
    ensures Segments(seg + SEP + rest) == [seg] + Segments(rest)
  {
    var head := seg + " ";
    assert seg + SEP + rest == head + [EM] + (" " + rest);
    SegmentsHead(head, " " + rest);
    SegmentsSpaced(rest);
    StripSpaces(seg);
    StripTrimmed(seg);
  }

  /** Joined clean segments come apart again. */
  lemma {:induction false} SegmentsOfJoin(segs: seq<string>)
    requires segs != [] && AllClean(segs)
    ensures Segments(Join(segs)) == segs
    decreases |segs|
  {
    if |segs| == 1 {
      SplitOne(segs[0]);
      StripTrimmed(segs[0]);
    } else {
      SegmentsOfJoin(segs[1..]);
      SegmentsFront(segs[0], Join(segs[1..]));
    }
  }

  lemma {:induction false} SplitHasNone(s: string)
    ensures forall i | 0 <= i < |Split(s)| :: EM !in Split(s)[i]
    decreases |s|
  {
    var n := IndexFrom(s, 0, EM);
    if n < |s| { SplitHasNone(s[n + 1..]); }
  }

  lemma SegmentsAreClean(s: string)
    ensures AllClean(Segments(s))
  {
    SplitHasNone(s);
    forall i | 0 <= i < |Split(s)| ensures Trimmed(Segments(s)[i]) && EM !in Segments(s)[i] {
      StripBlank(Split(s)[i]);
      StripKeeps(Split(s)[i], EM);
    }
  }

  lemma {:induction false} JoinLast(segs: seq<string>, last: string)
    requires segs != []
    ensures Join(segs + [last]) == Join(segs) + SEP + last
    decreases |segs|
  {
    var all := segs + [last];
    if |segs| == 1 {
      assert all[1..] == [last];
    } else {
      assert all[1..] == segs[1..] + [last];
      JoinLast(segs[1..], last);
      assert Join(all) == segs[0] + SEP + (Join(segs[1..]) + SEP + last);
    }
  }

  /** A printed line is its fields joined. */
  lemma PrintedIsJoin(first: string, text: string, scope: string)
    requires Normal(text)
    ensures PrintLine(first, text, scope) == Join(Fields(first, text, scope))
  {
    var mid := Segments(text);
    assert ([first] + mid)[1..] == mid;
    JoinLast([first] + mid, scope);
    assert [first] + mid + [scope] == Fields(first, text, scope);
  }

  lemma FieldsClean(first: string, text: string, scope: string)
    requires Trimmed(first) && EM !in first && Trimmed(scope) && EM !in scope
    ensures AllClean(Fields(first, text, scope))
  {
    SegmentsAreClean(text);
  }

  lemma NoValue(first: string, text: string, scope: string)
    requires '=' !in first && '=' !in text && '=' !in scope
    ensures CutValue(PrintLine(first, text, scope)) == PrintLine(first, text, scope)
    ensures ValueWarning(PrintLine(first, text, scope)) == None
  {
    assert '=' !in PrintLine(first, text, scope);
  }

  lemma NotNone(first: string, text: string, scope: string)
    requires first != "" && Trimmed(first) && scope != "" && Trimmed(scope)
    ensures !IsNone(Strip(PrintLine(first, text, scope)))
  {
    var body := PrintLine(first, text, scope);
    assert body[0] == first[0] && body[|body| - 1] == scope[|scope| - 1];
    StripTrimmed(body);
    assert |Lower(body)| >= 8;
  }

  /** The fields of a printed line, as the line parsers see them. */
  lemma PrintedFields(first: string, text: string, scope: string)
    requires first != "" && Clean(first) && Normal(text) && scope != "" && Clean(scope)
    ensures var body := PrintLine(first, text, scope);
            && CutValue(body) == body && ValueWarning(body) == None && !IsNone(Strip(body))
            && Segments(body) == Fields(first, text, scope) && |Segments(body)| >= 3
            && Middle(Segments(body)) == text
  {
    var fields := Fields(first, text, scope);
    NoValue(first, text, scope);
    NotNone(first, text, scope);
    PrintedIsJoin(first, text, scope);
    FieldsClean(first, text, scope);
    SegmentsOfJoin(fields);
    assert fields[1..|fields| - 1] == Segments(text);
    StripTrimmed(text);
  }

  lemma WordsClean(first: string, second: string)
    requires first != "" && second != "" && Clean(first) && Clean(second)
    ensures Clean(first + " " + second)
  {
    var s := first + " " + second;
    assert s[0] == first[0] && s[|s| - 1] == second[|second| - 1];
  }

  lemma ScopeRead(phrase: string, scope: string)
    requires phrase != "" && Clean(phrase) && Lower(phrase) == phrase && scope != "" && Clean(scope)
    ensures StripScope(phrase + " " + scope, phrase) == scope
  {
    var s := phrase + " " + scope;
    WordsClean(phrase, scope);
    StripTrimmed(s);
    assert s[..|phrase|] == phrase && s[|phrase|..] == " " + scope;
    StripSpaces(scope);
    StripTrimmed(scope);
  }

  lemma PhrasesClean()
    ensures Clean(NEEDED_BY) && Lower(NEEDED_BY) == NEEDED_BY && Clean(USED_BY) && Lower(USED_BY) == USED_BY
  {
    var n, u := NEEDED_BY, USED_BY;
    assert EM !in n && '=' !in n && EM !in u && '=' !in u;
    assert forall i | 0 <= i < 9 :: LowerChar(n[i]) == n[i];
    assert forall i | 0 <= i < 7 :: LowerChar(u[i]) == u[i];
  }

  // ---------------------------------------------------------------------------------------
  // One line each
  // ---------------------------------------------------------------------------------------

  lemma ToolRead(t: Tool)
    requires WellFormedTool(t)
    ensures ParseToolLine(PrintTool(t)) == Parsed(Some(t), None)
    ensures PrintTool(t) == t.name + SEP + t.description + SEP + ("needed by" + " " + t.neededBy)
  {
    var scope := NEEDED_BY + " " + t.neededBy;
    PhrasesClean();
    ScopeRead(NEEDED_BY, t.neededBy);
    WordsClean(NEEDED_BY, t.neededBy);
    PrintedFields(t.name, t.description, scope);
  }

  lemma {:induction false} NameRunAll(name: string, rest: string)
    requires forall i | 0 <= i < |name| :: !IsSpace(name[i]) && name[i] !in {'(', ')'}
    requires rest != "" && IsSpace(rest[0])
    ensures NameRun(name + rest) == |name|
    decreases |name|
  {
    if name == "" {
      assert name + rest == rest;
    } else {
      assert (name + rest)[1..] == name[1..] + rest;
      NameRunAll(name[1..], rest);
    }
  }

  lemma KindsClean(kind: EnvKind)
    ensures var text := KindText(kind);
            Clean(text) && text != "" && ')' !in text && Lower(text) == text && KindOf(Some(text)) == Some(kind)
  {
    var text := KindText(kind);
    assert forall i | 0 <= i < 6 :: LowerChar(text[i]) == text[i];
    StripTrimmed(text);
  }

  /** `(kind)` after the name. */
  lemma ParenthesesRead(name: string, kind: string)
    requires name != "" && forall i | 0 <= i < |name| :: !IsSpace(name[i]) && name[i] !in {'(', ')'}
    requires kind != "" && ')' !in kind
    ensures NameAndKind(name + " (" + kind + ")") == Some((name, Some(kind)))
  {
    var rest := "(" + kind + ")";
    var s := name + " (" + kind + ")";
    assert s == name + (" " + rest);
    NameRunAll(name, " " + rest);
    NameThenBlank(name, rest);
    IndexAt(rest, 0, ')', |rest| - 1);
    assert rest[1..|rest| - 1] == kind && rest[|rest|..] == "";
  }

  lemma NameThenBlank(name: string, rest: string)
    requires rest != "" && !IsSpace(rest[0])
    ensures (name + (" " + rest))[..|name|] == name && StripLeft((name + (" " + rest))[|name|..]) == rest
  {
    assert (name + (" " + rest))[|name|..] == " " + rest && (" " + rest)[1..] == rest;
    assert StripLeft(rest) == rest;
  }

  lemma NameFieldClean(name: string, kind: string)
    requires name != "" && Clean(name) && Clean(kind)
    ensures Clean(name + " (" + kind + ")")
  {
    var s := name + " (" + kind + ")";
    assert s[0] == name[0] && s[|s| - 1] == ')';
  }

  lemma EnvFields(e: Env)
    requires WellNamed(e)
    ensures NameField(e) != "" && Clean(NameField(e)) && |UsedBy(e)| > 4 && Clean(UsedBy(e))
    ensures NameAndKind(NameField(e)) == Some((e.name, Some(KindText(e.kind))))
              && KindOf(Some(KindText(e.kind))) == Some(e.kind)
    ensures StripScope(UsedBy(e), USED_BY) == e.usedBy
  {
    KindsClean(e.kind);
    ParenthesesRead(e.name, KindText(e.kind));
    NameFieldClean(e.name, KindText(e.kind));
    PhrasesClean();
    ScopeRead(USED_BY, e.usedBy);
    WordsClean(USED_BY, e.usedBy);
  }

  /** An environment line is read from its segments. */
  lemma EnvFromFields(body: string, segs: seq<string>, e: Env)
    requires !IsNone(Strip(CutValue(body))) && Segments(CutValue(body)) == segs && |segs| >= 3
    requires segs[0] != "" && NameAndKind(segs[0]) == Some((e.name, Some(KindText(e.kind))))
    requires KindOf(Some(KindText(e.kind))) == Some(e.kind)
    requires Middle(segs) == e.purpose && StripScope(segs[|segs| - 1], USED_BY) == e.usedBy
    ensures ParseEnvLine(body) == Parsed(Some(e), ValueWarning(body))
  {
  }

  lemma EnvRead(e: Env)
    requires WellFormedEnv(e)
    ensures ParseEnvLine(PrintEnv(e)) == Parsed(Some(e), None)
  {
    EnvFields(e);
    PrintedFields(NameField(e), e.purpose, UsedBy(e));
    EnvFromFields(PrintEnv(e), Fields(NameField(e), e.purpose, UsedBy(e)), e);
  }

  // ---------------------------------------------------------------------------------------
  // Kinds, and lines that declare nothing
  // ---------------------------------------------------------------------------------------

  /** An environment line with any name field in front. */
  function EnvLine(field: string, purpose: string, usedBy: string): string {
    field + SEP + purpose + SEP + ("used by" + " " + usedBy)
  }

  /** What an environment line says, given the parts of its name field. */
  function EnvSaid(name: string, kind: Option<string>, purpose: string, usedBy: string): Parsed<Env> {
    Parsed(Some(Env(name, if KindOf(kind) == Some(Secret) then Secret else Config, purpose, usedBy)),
           if KindOf(kind).Some? then None
           else Some(UnknownKind(Lower(Strip(if kind.Some? then kind.value else "")), name)))
  }

  lemma EnvFromSegments(body: string, segs: seq<string>, name: string, kind: Option<string>)
    requires !IsNone(Strip(CutValue(body))) && Segments(CutValue(body)) == segs && |segs| >= 3
    requires segs[0] != "" && NameAndKind(segs[0]) == Some((name, kind)) && ValueWarning(body) == None
    ensures ParseEnvLine(body) == EnvSaid(name, kind, Middle(segs), StripScope(segs[|segs| - 1], USED_BY))
  {
  }

  lemma EnvLineRead(field: string, purpose: string, usedBy: string, name: string, kind: Option<string>)
    requires field != "" && Clean(field) && Normal(purpose) && usedBy != "" && Clean(usedBy)
    requires NameAndKind(field) == Some((name, kind))
    ensures ParseEnvLine(EnvLine(field, purpose, usedBy)) == EnvSaid(name, kind, purpose, usedBy)
  {
    PhrasesClean();
    ScopeRead(USED_BY, usedBy);
    WordsClean(USED_BY, usedBy);
    PrintedFields(field, purpose, USED_BY + " " + usedBy);
    EnvFromSegments(EnvLine(field, purpose, usedBy), Fields(field, purpose, USED_BY + " " + usedBy), name, kind);
  }

  /** The kind in the parentheses, in any spelling: "secret" and "config", and anything else is noted. */
  lemma KindRead(e: Env, kind: string)
    requires WellFormedEnv(e) && kind != "" && Clean(kind) && ')' !in kind
    ensures var word, line := Lower(kind), EnvLine(e.name + " (" + kind + ")", e.purpose, e.usedBy);
            ParseEnvLine(line) ==
              if word == "secret" then Parsed(Some(e.(kind := Secret)), None)
              else if word == "config" then Parsed(Some(e.(kind := Config)), None)
              else Parsed(Some(e.(kind := Config)), Some(UnknownKind(word, e.name)))
  {
    StripTrimmed(kind);
    ParenthesesRead(e.name, kind);
    NameFieldClean(e.name, kind);
    EnvLineRead(e.name + " (" + kind + ")", e.purpose, e.usedBy, e.name, Some(kind));
  }

  /** Without parentheses the variable is an ordinary one. */
  lemma NoKindRead(e: Env)
    requires WellFormedEnv(e)
    ensures ParseEnvLine(EnvLine(e.name, e.purpose, e.usedBy)) == Parsed(Some(e.(kind := Config)), None)
  {
    NameRunEnd(e.name);
    assert e.name[..|e.name|] == e.name && e.name[|e.name|..] == "";
    EnvLineRead(e.name, e.purpose, e.usedBy, e.name, None);
  }

  lemma {:induction false} NameRunEnd(name: string)
    requires forall i | 0 <= i < |name| :: !IsSpace(name[i]) && name[i] !in {'(', ')'}
    ensures NameRun(name) == |name|
    decreases |name|
  {
    if name != "" { NameRunEnd(name[1..]); }
  }

  /** A line with fewer than two em-dashes declares nothing and is noted as it stands. */
  lemma TooFewDashes(body: string, a: string, b: string)
    requires EM !in a && EM !in b && (body == a || body == a + [EM] + b) && '=' !in body && !IsNone(Strip(body))
    ensures ParseToolLine(body) == Parsed(None, Some(Malformed(body)))
    ensures ParseEnvLine(body) == Parsed(None, Some(Malformed(body)))
  {
    IndexAt(body, 0, '=', |body|);
    if body == a {
      SegmentsOne(a);
    } else {
      SegmentsHead(a, b);
      SegmentsOne(b);
    }
    assert |Segments(body)| <= 2;
  }

  /** Nor does one that starts with an em-dash, whatever follows. */
  lemma NoName(body: string, rest: string)
    requires body == [EM] + rest && '=' !in body && !IsNone(Strip(body))
    ensures ParseToolLine(body) == Parsed(None, Some(Malformed(body)))
    ensures ParseEnvLine(body) == Parsed(None, Some(Malformed(body)))
  {
    IndexAt(body, 0, '=', |body|);
    assert body == "" + [EM] + rest;
    SegmentsHead("", rest);
  }

  /** The words for an intentionally empty section, in any spelling. */
  lemma EmptyWords(body: string)
    requires '=' !in body && Lower(Strip(body)) in {"none", "na", "n/a", [EM], "-"}
    ensures ParseToolLine(body) == Parsed(None, None) && ParseEnvLine(body) == Parsed(None, None)
  {
    IndexAt(body, 0, '=', |body|);
  }

  // ---------------------------------------------------------------------------------------
  // A line that leaks
  // ---------------------------------------------------------------------------------------

  /** A line whose name is followed by a value, and whose purpose may hold another one. */
  function PrintValued(e: Env, value: string): string {
    NameField(e) + "=" + value + SEP + e.purpose + SEP + UsedBy(e)
  }

  lemma ValuedCut(first: string, value: string, text: string, scope: string)
    requires '=' !in first && EM !in value
    ensures CutValue(first + "=" + value + SEP + text + SEP + scope) == first + [EM] + (" " + (text + SEP + scope))
  {
    var rest := [EM] + (" " + (text + SEP + scope));
    assert first + "=" + value + SEP + text + SEP + scope == first + "=" + (value + " ") + rest;
    CutAt(first, value + " ", rest);
  }

  lemma ValuedSegments(first: string, text: string, scope: string)
    requires Trimmed(first) && EM !in first && Trimmed(text) && EM !in text && Trimmed(scope) && EM !in scope
    ensures Segments(first + [EM] + (" " + (text + SEP + scope))) == [first, text, scope]
  {
    SegmentsHead(first, " " + (text + SEP + scope));
    SegmentsSpaced(text + SEP + scope);
    SegmentsFront(text, scope);
    SegmentsOne(scope);
    StripTrimmed(first);
    StripTrimmed(scope);
  }

  lemma ValuedNotNone(first: string, text: string, scope: string)
    requires first != "" && Trimmed(first) && |scope| > 4 && Trimmed(scope)
    ensures !IsNone(Strip(first + [EM] + (" " + (text + SEP + scope))))
  {
    var cut := first + [EM] + (" " + (text + SEP + scope));
    assert cut[0] == first[0] && cut[|cut| - 1] == scope[|scope| - 1];
    StripTrimmed(cut);
    assert |Lower(cut)| > 4;
  }

  lemma MiddleOfThree(a: string, b: string, c: string)
    requires Trimmed(b)
    ensures Middle([a, b, c]) == b
  {
    assert [a, b, c][1..2] == [b];
    StripTrimmed(b);
  }

  /** Lines that leak: the value behind the name is cut, and the one in the purpose, say a secret, is stored. */
  lemma SecondValueLeaks(e: Env, value: string)
    requires WellNamed(e) && EM !in value
    requires Trimmed(e.purpose) && EM !in e.purpose && '=' in e.purpose
    ensures ParseEnvLine(PrintValued(e, value)).entry == Some(e)
  {
    var segs := [NameField(e), e.purpose, UsedBy(e)];
    EnvFields(e);
    ValuedCut(NameField(e), value, e.purpose, UsedBy(e));
    ValuedSegments(NameField(e), e.purpose, UsedBy(e));
    ValuedNotNone(NameField(e), e.purpose, UsedBy(e));
    MiddleOfThree(NameField(e), e.purpose, UsedBy(e));
    EnvFromFields(PrintValued(e, value), segs, e);
  }

  // ---------------------------------------------------------------------------------------
  // The whole block
  // ---------------------------------------------------------------------------------------

  function ToolBullets(tools: seq<Tool>): seq<Line> {
    if tools == [] then [] else ToolBullets(tools[..|tools| - 1]) + [Bullet(PrintTool(tools[|tools| - 1]))]
  }

  function EnvBullets(env: seq<Env>): seq<Line> {
    if env == [] then [] else EnvBullets(env[..|env| - 1]) + [Bullet(PrintEnv(env[|env| - 1]))]
  }

  /** A section's bullets, or the word for an intentionally empty one. */
  function OrNone(bullets: seq<Line>): seq<Line> {
    if bullets == [] then [Bullet("none")] else bullets
  }

  function BlockLines(tools: seq<Tool>, env: seq<Env>): seq<Line> {
    ([Prose, Tools] + OrNone(ToolBullets(tools))) + ([Prose, Environment] + OrNone(EnvBullets(env)))
  }

  lemma {:induction false} TakeConcat(st: State, a: seq<Line>, b: seq<Line>)
    ensures TakeAll(st, a + b) == TakeAll(TakeAll(st, a), b)
    decreases |b|
  {
    if b == [] {
      assert a + b == a;
    } else {
      assert (a + b)[..|a + b| - 1] == a + b[..|b| - 1];
      TakeConcat(st, a, b[..|b| - 1]);
    }
  }

  function WithTools(st: State, tools: seq<Tool>): State {
    st.(spec := st.spec.(tools := st.spec.tools + tools))
  }

  function WithEnv(st: State, env: seq<Env>): State {
    st.(spec := st.spec.(env := st.spec.env + env))
  }

  lemma AddParsedTool(st: State, p: Parsed<Tool>, t: Tool)
    requires p == Parsed(Some(t), None)
    ensures AddTool(st, p) == WithTools(st, [t])
  {
  }

  lemma AddParsedEnv(st: State, p: Parsed<Env>, e: Env)
    requires p == Parsed(Some(e), None)
    ensures AddEnv(st, p) == WithEnv(st, [e])
  {
  }

  lemma TakeBulletLine(st: State, body: string)
    ensures Take(st, Bullet(body)) == TakeBullet(st, body)
  {
  }

  lemma InitLast<T>(s: seq<T>)
    requires s != []
    ensures s[..|s| - 1] + [s[|s| - 1]] == s
  {
  }

  lemma TakeTool(st: State, t: Tool)
    requires st.current.InTools? && WellFormedTool(t)
    ensures Take(st, Bullet(PrintTool(t))) == WithTools(st, [t])
  {
    var body := PrintTool(t);
    ToolRead(t);
    AddParsedTool(st, ParseToolLine(body), t);
    TakeBulletLine(st, body);
  }

  lemma TakeVariable(st: State, e: Env)
    requires st.current.InEnv? && WellFormedEnv(e)
    ensures Take(st, Bullet(PrintEnv(e))) == WithEnv(st, [e])
  {
    var body := PrintEnv(e);
    EnvRead(e);
    AddParsedEnv(st, ParseEnvLine(body), e);
    TakeBulletLine(st, body);
  }

  lemma WithMoreTools(st: State, init: seq<Tool>, last: Tool)
    ensures WithTools(WithTools(st, init), [last]) == WithTools(st, init + [last])
  {
    assert st.spec.tools + init + [last] == st.spec.tools + (init + [last]);
  }

  lemma WithMoreEnv(st: State, init: seq<Env>, last: Env)
    ensures WithEnv(WithEnv(st, init), [last]) == WithEnv(st, init + [last])
  {
    assert st.spec.env + init + [last] == st.spec.env + (init + [last]);
  }

  lemma {:induction false} TakeTools(st: State, tools: seq<Tool>)
    requires st.current.InTools? && forall i | 0 <= i < |tools| :: WellFormedTool(tools[i])
    ensures TakeAll(st, ToolBullets(tools)) == WithTools(st, tools)
    decreases |tools|
  {
    if tools != [] {
      var init, last := tools[..|tools| - 1], tools[|tools| - 1];
      TakeTools(st, init);
      TakeTool(WithTools(st, init), last);
      TakeAllOn(st, ToolBullets(init), Bullet(PrintTool(last)));
      WithMoreTools(st, init, last);
      InitLast(tools);
    } else {
      assert st.spec.tools + tools == st.spec.tools;
    }
  }

  lemma {:induction false} TakeEnv(st: State, env: seq<Env>)
    requires st.current.InEnv? && forall i | 0 <= i < |env| :: WellFormedEnv(env[i])
    ensures TakeAll(st, EnvBullets(env)) == WithEnv(st, env)
    decreases |env|
  {
    if env != [] {
      var init, last := env[..|env| - 1], env[|env| - 1];
      TakeEnv(st, init);
      TakeVariable(WithEnv(st, init), last);
      TakeAllOn(st, EnvBullets(init), Bullet(PrintEnv(last)));
      WithMoreEnv(st, init, last);
      InitLast(env);
    } else {
      assert st.spec.env + env == st.spec.env;
    }
  }

  lemma NoneRead()
    ensures ParseToolLine("none") == Parsed(None, None) && ParseEnvLine("none") == Parsed(None, None)
  {
    StripTrimmed("none");
    IndexAt("none", 0, '=', 4);
    assert Lower("none") == "none";
  }

  /** A bullet that says nothing leaves no trace. */
  lemma TakeNothing(st: State, body: string)
    requires ParseToolLine(body) == Parsed(None, None) && ParseEnvLine(body) == Parsed(None, None)
    ensures Take(st, Bullet(body)) == st
  {
    assert st.spec.tools + [] == st.spec.tools && st.spec.env + [] == st.spec.env;
  }

  lemma TakeNone(st: State)
    ensures Take(st, Bullet("none")) == st
  {
    NoneRead();
    TakeNothing(st, "none");
  }

  lemma TakeOrNone(st: State, bullets: seq<Line>)
    ensures TakeAll(st, OrNone(bullets)) == TakeAll(st, bullets)
  {
    TakeNone(st);
    TakeAllOn(st, [], Bullet("none"));
    assert [] + [Bullet("none")] == [Bullet("none")];
  }

  lemma TakeTwo(st: State, a: Line, b: Line)
    ensures TakeAll(st, [a, b]) == Take(Take(st, a), b)
  {
    TakeAllOn(st, [a], b);
    TakeAllOn(st, [], a);
    assert [a] + [b] == [a, b] && [] + [a] == [a];
  }

  lemma ToolsTaken(st: State, tools: seq<Tool>)
    requires forall i | 0 <= i < |tools| :: WellFormedTool(tools[i])
    ensures TakeAll(st, [Prose, Tools] + OrNone(ToolBullets(tools))) == WithTools(st.(current := InTools), tools)
  {
    var inside := st.(current := InTools);
    TakeConcat(st, [Prose, Tools], OrNone(ToolBullets(tools)));
    TakeTwo(st, Prose, Tools);
    TakeOrNone(inside, ToolBullets(tools));
    TakeTools(inside, tools);
  }

  lemma EnvTaken(st: State, env: seq<Env>)
    requires forall i | 0 <= i < |env| :: WellFormedEnv(env[i])
    ensures TakeAll(st, [Prose, Environment] + OrNone(EnvBullets(env))) == WithEnv(st.(current := InEnv), env)
  {
    var inside := st.(current := InEnv);
    TakeConcat(st, [Prose, Environment], OrNone(EnvBullets(env)));
    TakeTwo(st, Prose, Environment);
    TakeOrNone(inside, EnvBullets(env));
    TakeEnv(inside, env);
  }

  lemma BlockTaken(st: State, tools: seq<Tool>, env: seq<Env>)
    requires st.spec.tools == [] && st.spec.env == []
    requires forall i | 0 <= i < |tools| :: WellFormedTool(tools[i])
    requires forall i | 0 <= i < |env| :: WellFormedEnv(env[i])
    ensures TakeAll(st, BlockLines(tools, env)).spec == st.spec.(tools := tools, env := env)
  {
    var a, b := [Prose, Tools] + OrNone(ToolBullets(tools)), [Prose, Environment] + OrNone(EnvBullets(env));
    TakeConcat(st, a, b);
    ToolsTaken(st, tools);
    EnvTaken(WithTools(st.(current := InTools), tools), env);
    assert [] + tools == tools && [] + env == env;
  }

  lemma {:induction false} BulletsOnly(tools: seq<Tool>, env: seq<Env>)
    ensures forall i | 0 <= i < |ToolBullets(tools)| :: ToolBullets(tools)[i].Bullet?
    ensures forall i | 0 <= i < |EnvBullets(env)| :: EnvBullets(env)[i].Bullet?
    decreases |tools| + |env|
  {
    if tools != [] { BulletsOnly(tools[..|tools| - 1], env); }
    if env != [] { BulletsOnly(tools, env[..|env| - 1]); }
  }

  lemma ParseBlock(pre: seq<Line>, block: seq<Line>, post: seq<Line>)
    requires Prerequisites !in pre && (post != [] ==> IsSection(post[0]))
    requires forall i | 0 <= i < |block| :: !IsSection(block[i])
    ensures Parse(pre + [Prerequisites] + block + post) ==
            TakeAll(START, block).spec
  {
    var lines, n := pre + [Prerequisites] + block + post, |pre|;
    HeadingFound(pre, block, post);
    BlockEnds(pre, block, post);
    assert lines[n + 1..n + 1 + |block|] == block;
  }

  lemma HeadingFound(pre: seq<Line>, block: seq<Line>, post: seq<Line>)
    requires Prerequisites !in pre
    ensures FirstLine(pre + [Prerequisites] + block + post, 0, IsHeading) == |pre|
  {
    var lines := pre + [Prerequisites] + block + post;
    assert forall i | 0 <= i < |pre| :: lines[i] == pre[i];
    FirstLineAt(lines, 0, IsHeading, |pre|);
  }

  lemma BlockEnds(pre: seq<Line>, block: seq<Line>, post: seq<Line>)
    requires (post != [] ==> IsSection(post[0])) && forall i | 0 <= i < |block| :: !IsSection(block[i])
    ensures FirstLine(pre + [Prerequisites] + block + post, |pre| + 1, IsSection) == |pre| + 1 + |block|
  {
    var lines, n := pre + [Prerequisites] + block + post, |pre|;
    assert forall i | n + 1 <= i < n + 1 + |block| :: lines[i] == block[i - n - 1];
    FirstLineAt(lines, n + 1, IsSection, n + 1 + |block|);
  }

  lemma BlockHoldsNoSection(tools: seq<Tool>, env: seq<Env>)
    ensures forall i | 0 <= i < |BlockLines(tools, env)| :: !IsSection(BlockLines(tools, env)[i])
  {
    BulletsOnly(tools, env);
  }

  /**
   * Round trip: a well-formed declaration, printed anywhere in a document whose earlier lines hold no
   * other such heading and which goes on with another section or ends, parses to just that.
   */
  lemma DeclarationRead(pre: seq<Line>, tools: seq<Tool>, env: seq<Env>, post: seq<Line>)
    requires Prerequisites !in pre && (post != [] ==> IsSection(post[0]))
    requires forall i | 0 <= i < |tools| :: WellFormedTool(tools[i])
    requires forall i | 0 <= i < |env| :: WellFormedEnv(env[i])
    ensures Parse(pre + [Prerequisites] + BlockLines(tools, env) + post) == Spec(tools, env, [], true)
  {
    BlockHoldsNoSection(tools, env);
    ParseBlock(pre, BlockLines(tools, env), post);
    BlockTaken(START, tools, env);
  }
}
