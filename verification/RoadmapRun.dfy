/**
 * Whole roadmaps: printing and reading back (ui/roadmap_parser.py:54-126), and the run that ticks
 * off one selected phase after another (phase_resolver.py:165-274; the tick itself is the
 * orchestrator's and is given here as a step).
 */
module RoadmapRun {
  import opened Json
  import opened Text
  import opened Roadmap
  import opened RoadmapLaws

  // ---------------------------------------------------------------------------------------
  // Printing
  // ---------------------------------------------------------------------------------------

  function MarkOf(status: Status): Mark {
    match status
    case Pending => Unticked
    case Complete => Ticked
    case SkippedPhase => Skipped
    case BlockedPhase => Blocked
  }

  function Quotes(tag: string, exits: seq<string>): seq<Line> {
    if exits == [] then []
    else
      var last := exits[|exits| - 1];
      Quotes(tag, exits[..|exits| - 1]) + [Quote(tag + ": " + last, Some(last))]
  }

  /** What stands in the four section blocks of a phase. */
  datatype Sections = Sections(entry: seq<Line>, exit: seq<Line>, tdd: seq<Line>, done: seq<Line>)

  /** A phase as the UI shows it, with the blocks that only the resolver reads. */
  datatype Page = Page(phase: UiPhase, sections: Sections)

  function PhasesOf(pages: seq<Page>): seq<UiPhase> {
    if pages == [] then [] else PhasesOf(pages[..|pages| - 1]) + [pages[|pages| - 1].phase]
  }

  function SectionBlock(kind: Kind, content: seq<Line>): (r: seq<Line>)
    ensures r != [] && r[0] == Section(kind)
  {
    [Section(kind)] + content
  }

  function PrintSections(x: Sections): seq<Line> {
    SectionBlock(EntryCriteria, x.entry) + SectionBlock(ExitCriteria, x.exit)
    + SectionBlock(TddRequirements, x.tdd) + SectionBlock(DoneCriteria, x.done)
  }

  function PrintBlock(b: Option<Behaviour>): seq<Line> {
    if b.Some? then [BvHead] + Bullets(b.value) else []
  }

  function PrintBody(tag: string, page: Page): seq<Line> {
    (Quotes(tag, page.phase.exits) + [Blank] + PrintSections(page.sections)) + PrintBlock(page.phase.behaviour)
  }

  function PrintHead(p: UiPhase): Line {
    var h := Header(MarkOf(p.status), p.id, p.goal);
    Phase(Some(h), Some(h))
  }

  /**
   * One header, the exit criteria under a label, a blank line, the four section blocks, and the
   * behavioural block if any.
   */
  function Print(tag: string, pages: seq<Page>): seq<Line> {
    if pages == [] then []
    else
      var last := pages[|pages| - 1];
      Print(tag, pages[..|pages| - 1]) + [PrintHead(last.phase)] + PrintBody(tag, last)
  }

  /** Content of a section block: text of no other kind, and blank lines. */
  predicate Inert(lines: seq<Line>) {
    forall i | 0 <= i < |lines| :: lines[i].Other? || lines[i].Blank?
  }

  predicate InertSections(x: Sections) {
    Inert(x.entry) && Inert(x.exit) && Inert(x.tdd) && Inert(x.done)
  }

  /** What a canonical roadmap can hold: trimmed ids and goals, and text in every bullet. */
  predicate Printable(page: Page) {
    && Trimmed(page.phase.id) && Trimmed(page.phase.goal) && InertSections(page.sections)
    && (page.phase.behaviour.Some? ==>
          var b := page.phase.behaviour.value;
          b.userObservable != "" && b.howToCheck != "" && b.failureLanguage != "")
  }

  /** Nothing but section headers and inert lines. */
  lemma SectionLinesInert(x: Sections)
    requires InertSections(x)
    ensures forall i | 0 <= i < |PrintSections(x)| ::
              PrintSections(x)[i].Section? || PrintSections(x)[i].Other? || PrintSections(x)[i].Blank?
  {
    var a, b := SectionBlock(EntryCriteria, x.entry), SectionBlock(ExitCriteria, x.exit);
    var c, d := SectionBlock(TddRequirements, x.tdd), SectionBlock(DoneCriteria, x.done);
    forall l: Line | l in a + b + c + d ensures l.Section? || l.Other? || l.Blank? {
      assert l in a || l in b || l in c || l in d;
    }
  }

  lemma {:induction false} QuotesRead(tag: string, exits: seq<string>)
    ensures Labelled(Quotes(tag, exits)) == exits && NoBullets(Quotes(tag, exits))
    ensures forall i | 0 <= i < |Quotes(tag, exits)| :: Quotes(tag, exits)[i].Quote?
    decreases |exits|
  {
    if exits != [] {
      QuotesRead(tag, exits[..|exits| - 1]);
      var l := Quotes(tag, exits);
      assert l[..|l| - 1] == Quotes(tag, exits[..|exits| - 1]);
    }
  }

  lemma {:induction false} NoQuotesAfter(a: seq<Line>, b: seq<Line>)
    requires forall i | 0 <= i < |b| :: !b[i].Quote?
    ensures Labelled(a + b) == Labelled(a)
    decreases |b|
  {
    if b == [] {
      assert a + b == a;
    } else {
      assert (a + b)[..|a + b| - 1] == a + b[..|b| - 1];
      NoQuotesAfter(a, b[..|b| - 1]);
    }
  }

  lemma BodySplit(tag: string, page: Page) returns (post: seq<Line>)
    requires InertSections(page.sections)
    ensures PrintBody(tag, page) == Quotes(tag, page.phase.exits) + post
    ensures post != [] && post[0] == Blank && forall i | 0 <= i < |post| :: !post[i].Quote? && !post[i].Phase?
  {
    SectionLinesInert(page.sections);
    post := [Blank] + PrintSections(page.sections) + PrintBlock(page.phase.behaviour);
  }

  /** A printed body holds no header, and its exit criteria read back. */
  lemma PrintedBody(tag: string, page: Page)
    requires InertSections(page.sections)
    ensures forall i | 0 <= i < |PrintBody(tag, page)| :: !PrintBody(tag, page)[i].Phase?
    ensures Labelled(PrintBody(tag, page)) == page.phase.exits
  {
    var post := BodySplit(tag, page);
    QuotesRead(tag, page.phase.exits);
    NoQuotesAfter(Quotes(tag, page.phase.exits), post);
  }

  /** What stands in front of the behavioural block. */
  function Front(tag: string, page: Page): seq<Line> {
    Quotes(tag, page.phase.exits) + [Blank] + PrintSections(page.sections)
  }

  lemma FrontFacts(tag: string, page: Page)
    requires InertSections(page.sections)
    ensures NoBullets(Front(tag, page)) && forall i | 0 <= i < |Front(tag, page)| :: !Front(tag, page)[i].BvHead?
  {
    QuotesRead(tag, page.phase.exits);
    SectionLinesInert(page.sections);
  }

  lemma PrintedPlaces(tag: string, page: Page)
    requires Printable(page)
    ensures WellPlaced(PrintBody(tag, page))
  {
    FrontFacts(tag, page);
    if page.phase.behaviour.Some? {
      BlockPlaces(Front(tag, page), page.phase.behaviour.value);
    } else {
      assert PrintBody(tag, page) == Front(tag, page);
    }
  }

  lemma BlockPlaces(pre: seq<Line>, b: Behaviour)
    requires NoBullets(pre) && forall i | 0 <= i < |pre| :: !pre[i].BvHead?
    requires b.userObservable != "" && b.howToCheck != "" && b.failureLanguage != ""
    ensures WellPlaced(pre + ([BvHead] + Bullets(b)))
  {
    var body := pre + ([BvHead] + Bullets(b));
    FirstUnique(body, 0, (l: Line) => l.BvHead?, |pre|);
    FirstUnique(body, |pre| + 1, (l: Line) => l.Section? || IsHead(l), |body|);
  }

  function LabelAll(tag: string, exits: seq<string>): seq<string> {
    seq(|exits|, i requires 0 <= i < |exits| => tag + ": " + exits[i])
  }

  lemma {:induction false} QuotesLead(quotes: seq<Line>, post: seq<Line>)
    requires (forall i | 0 <= i < |quotes| :: quotes[i].Quote?) && forall i | 0 <= i < |post| :: !post[i].Quote?
    ensures |LeadingQuotes(quotes + post)| == |quotes|
    ensures forall i | 0 <= i < |quotes| :: LeadingQuotes(quotes + post)[i] == quotes[i].whole
    decreases |quotes| + |post|
  {
    if quotes != [] {
      assert (quotes + post)[1..] == quotes[1..] + post;
      QuotesLead(quotes[1..], post);
    } else if post != [] {
      assert quotes + post == post && (quotes + post)[1..] == quotes + post[1..];
      QuotesLead(quotes, post[1..]);
    }
  }

  lemma {:induction false} QuotesAt(tag: string, exits: seq<string>)
    ensures |Quotes(tag, exits)| == |exits|
    ensures forall i | 0 <= i < |exits| :: Quotes(tag, exits)[i] == Quote(tag + ": " + exits[i], Some(exits[i]))
    decreases |exits|
  {
    if exits != [] { QuotesAt(tag, exits[..|exits| - 1]); }
  }

  /** The resolver's exit criteria keep the label that the UI parser takes off. */
  lemma PrintedExitCriteria(tag: string, page: Page)
    requires InertSections(page.sections)
    ensures LeadingQuotes(PrintBody(tag, page)) == LabelAll(tag, page.phase.exits)
  {
    var post := BodySplit(tag, page);
    QuotesAt(tag, page.phase.exits);
    QuotesLead(Quotes(tag, page.phase.exits), post);
  }

  lemma PrintedBehaviour(tag: string, page: Page)
    requires Printable(page)
    ensures UiBv(PrintBody(tag, page)) == page.phase.behaviour
  {
    var b := page.phase.behaviour;
    FrontFacts(tag, page);
    forall field: Field
      ensures LastBullet(PrintBody(tag, page), field) == if b.Some? then LastBullet(Bullets(b.value), field) else None
    {
      FrontAside(Front(tag, page), b, field);
    }
    if b.Some? { BulletsRead(b.value); }
  }

  lemma FrontAside(front: seq<Line>, b: Option<Behaviour>, field: Field)
    requires NoBullets(front)
    ensures LastBullet(front + PrintBlock(b), field) == if b.Some? then LastBullet(Bullets(b.value), field) else None
  {
    if b.Some? {
      LastBulletAmong(front + [BvHead], Bullets(b.value), [], field);
      assert (front + [BvHead]) + Bullets(b.value) + [] == front + PrintBlock(b);
    } else {
      LastBulletAmong(front, [], [], field);
      assert front + [] + [] == front + PrintBlock(b);
    }
  }

  lemma {:induction false} PrintedCanonical(tag: string, pages: seq<Page>)
    requires forall k | 0 <= k < |pages| :: Printable(pages[k])
    ensures Canonical(Print(tag, pages))
    decreases |pages|
  {
    if pages != [] {
      PrintedCanonical(tag, pages[..|pages| - 1]);
      PrintedBody(tag, pages[|pages| - 1]);
    }
  }

  lemma {:induction false} PrintedRecovered(tag: string, pages: seq<Page>)
    requires forall k | 0 <= k < |pages| :: Printable(pages[k])
    ensures UiPhases(Print(tag, pages)) == PhasesOf(pages)
    decreases |pages|
  {
    if pages != [] {
      var init, last := pages[..|pages| - 1], pages[|pages| - 1];
      PrintedRecovered(tag, init);
      PrintedBody(tag, last);
      AddSegment(Print(tag, init), PrintHead(last.phase), PrintBody(tag, last));
      PrintedPhase(tag, last);
    }
  }

  lemma PrintedPhase(tag: string, page: Page)
    requires Printable(page)
    ensures UiPhaseOf(PrintHead(page.phase).ui.value, PrintBody(tag, page)) == page.phase
  {
    PrintedBody(tag, page);
    PrintedBehaviour(tag, page);
    StripTrimmed(page.phase.id);
    StripTrimmed(page.phase.goal);
  }

  lemma AddSegment(before: seq<Line>, head: Line, body: seq<Line>)
    requires IsUiHead(head) && forall i | 0 <= i < |body| :: !body[i].Phase?
    ensures UiPhases(before + [head] + body) == UiPhases(before) + [UiPhaseOf(head.ui.value, body)]
  {
    var all, h := before + [head] + body, |before|;
    assert forall k | h < k < |all| :: all[k] == body[k - h - 1];
    LastUiHeadUnique(all, h);
    assert all[..h] == before && all[h + 1..] == body;
  }

  lemma {:induction false} PrintedWellPlaced(tag: string, pages: seq<Page>)
    requires forall k | 0 <= k < |pages| :: Printable(pages[k])
    ensures SegmentsWellPlaced(Print(tag, pages))
    decreases |pages|
  {
    if pages != [] {
      var init, last := pages[..|pages| - 1], pages[|pages| - 1];
      var before, head, body := Print(tag, init), PrintHead(last.phase), PrintBody(tag, last);
      PrintedCanonical(tag, pages);
      PrintedWellPlaced(tag, init);
      PrintedBody(tag, last);
      PrintedPlaces(tag, last);
      SegmentBodies(before, head, body);
    }
  }

  lemma SegmentBodies(before: seq<Line>, head: Line, body: seq<Line>)
    requires Canonical(before + [head] + body) && IsHead(head)
    requires forall i | 0 <= i < |body| :: !body[i].Phase?
    requires SegmentsWellPlaced(before) && WellPlaced(body)
    ensures SegmentsWellPlaced(before + [head] + body)
  {
    var all, h := before + [head] + body, |before|;
    LastBody(before, head, body);
    assert all[..h] == before && forall k | h < k < |all| :: all[k] == body[k - h - 1];
    forall i | 0 <= i < |all| && IsHead(all[i]) ensures WellPlaced(Body(all, i)) {
      if i < h {
        BodyInPrefix(all, i, h);
        assert before[i] == all[i];
      }
    }
  }

  lemma LastBody(before: seq<Line>, head: Line, body: seq<Line>)
    requires forall i | 0 <= i < |body| :: !body[i].Phase?
    ensures Body(before + [head] + body, |before|) == body
  {
    var all, h := before + [head] + body, |before|;
    assert forall k | h < k < |all| :: all[k] == body[k - h - 1];
    FirstUnique(all, h + 1, IsHead, |all|);
    assert all[h + 1..] == body;
  }

  lemma Pieces<T>(pre: seq<T>, x: T, content: seq<T>, post: seq<T>)
    ensures var all, n := pre + [x] + content + post, |pre| + 1;
            && (forall i | 0 <= i < |pre| :: all[i] == pre[i]) && all[|pre|] == x
            && (forall i | n <= i < n + |content| :: all[i] == content[i - n])
            && all[n..n + |content|] == content && all[n + |content|..] == post
  {
  }

  /** A section block is read back whole: from its first header to the next structured header. */
  lemma SectionRead(pre: seq<Line>, kind: Kind, content: seq<Line>, post: seq<Line>)
    requires Section(kind) !in pre
    requires forall i | 0 <= i < |content| :: !Ends(content[i])
    requires post == [] || Ends(post[0])
    ensures SectionLines(pre + [Section(kind)] + content + post, kind) == content
  {
    var body, n := pre + [Section(kind)] + content + post, |pre|;
    Pieces(pre, Section(kind), content, post);
    FirstUnique(body, 0, (l: Line) => l == Section(kind), n);
    assert post != [] ==> body[n + 1 + |content|] == body[n + 1 + |content|..][0];
    FirstUnique(body, n + 1, Ends, n + 1 + |content|);
  }

  lemma SectionAbsent(body: seq<Line>, kind: Kind)
    requires Section(kind) !in body
    ensures SectionLines(body, kind) == []
  {
    FirstUnique(body, 0, (l: Line) => l == Section(kind), |body|);
  }

  // ---------------------------------------------------------------------------------------
  // The resolver's answer, part by part
  // ---------------------------------------------------------------------------------------

  /** What stands in front of the id's first dash, and GENERAL for an id without one. */
  predicate CategoryOf(category: string, id: string) {
    if '-' in id
    then '-' !in category && |category| < |id| && id[..|category|] == category && id[|category|] == '-'
    else category == "GENERAL"
  }

  lemma {:induction false} UntilDashIs(id: string)
    requires '-' in id
    ensures var c := UntilDash(id); '-' !in c && |c| < |id| && id[..|c|] == c && id[|c|] == '-'
    decreases |id|
  {
    if id[0] != '-' {
      UntilDashIs(id[1..]);
      var c := UntilDash(id[1..]);
      assert id == [id[0]] + id[1..];
      assert id[..|c| + 1] == [id[0]] + id[1..][..|c|];
    }
  }

  lemma CategoryIs(id: string)
    ensures CategoryOf(Category(id), id)
  {
    if '-' in id { UntilDashIs(id); }
  }

  /**
   * The answer is about the first header that is neither ticked nor skipped: its id and what stands in
   * front of the id's first dash, its goal without outer whitespace, whether it is blocked, how many
   * headers stand before it, and the quotes its body starts with.
   */
  lemma AnswerIs(lines: seq<Line>, i: nat)
    requires i < |lines| && IsHead(lines[i])
    requires lines[i].resolver.value.mark == Unticked || lines[i].resolver.value.mark == Blocked
    requires forall k | 0 <= k < i && IsHead(lines[k]) ::
               lines[k].resolver.value.mark == Ticked || lines[k].resolver.value.mark == Skipped
    ensures Resolve(lines).Some?
    ensures var c, h := Resolve(lines).value, lines[i].resolver.value;
            && c.id == h.id && c.goal == Strip(h.goal) && (c.blocked <==> h.mark == Blocked)
            && c.number == Headers(lines[..i]) && CategoryOf(c.category, h.id)
            && c.exitCriteria == LeadingQuotes(Body(lines, i))
  {
    FirstUnique(lines, 0, Unfinished, i);
    CategoryIs(lines[i].resolver.value.id);
  }

  /** A section that its body lacks is empty in the answer. */
  lemma AnswerLacks(lines: seq<Line>, i: nat, kind: Kind)
    requires i < |lines| && Unfinished(lines[i]) && forall k | 0 <= k < i :: !Unfinished(lines[k])
    requires Section(kind) !in Body(lines, i)
    ensures Resolve(lines).Some?
    ensures kind == EntryCriteria ==> Resolve(lines).value.entryBlock == []
    ensures kind == ExitCriteria ==> Resolve(lines).value.exitBlock == []
    ensures kind == TddRequirements ==> Resolve(lines).value.tdd == []
    ensures kind == DoneCriteria ==> Resolve(lines).value.done == []
  {
    FirstUnique(lines, 0, Unfinished, i);
    SectionAbsent(Body(lines, i), kind);
  }

  /** One that its body has is the lines up to the next structured header. */
  lemma AnswerHolds(lines: seq<Line>, i: nat, pre: seq<Line>, kind: Kind, content: seq<Line>, post: seq<Line>)
    requires i < |lines| && Unfinished(lines[i]) && forall k | 0 <= k < i :: !Unfinished(lines[k])
    requires Body(lines, i) == pre + [Section(kind)] + content + post
    requires Section(kind) !in pre && (post == [] || Ends(post[0]))
    requires forall k | 0 <= k < |content| :: !Ends(content[k])
    ensures Resolve(lines).Some?
    ensures kind == EntryCriteria ==> Resolve(lines).value.entryBlock == content
    ensures kind == ExitCriteria ==> Resolve(lines).value.exitBlock == content
    ensures kind == TddRequirements ==> Resolve(lines).value.tdd == content
    ensures kind == DoneCriteria ==> Resolve(lines).value.done == content
  {
    FirstUnique(lines, 0, Unfinished, i);
    SectionRead(pre, kind, content, post);
  }

  // ---------------------------------------------------------------------------------------
  // The round trip
  // ---------------------------------------------------------------------------------------

  lemma BlockIn(before: seq<Line>, kind: Kind, content: seq<Line>, after: seq<Line>, body: seq<Line>)
    requires body == (before + ([Section(kind)] + content)) + after
    requires Section(kind) !in before && (after == [] || Ends(after[0])) && Inert(content)
    ensures SectionLines(body, kind) == content
  {
    assert before + ([Section(kind)] + content) == before + [Section(kind)] + content;
    SectionRead(before, kind, content, after);
  }

  predicate OtherThan(lines: seq<Line>, kind: Kind) {
    Section(kind) !in lines
  }

  lemma BlockIsOther(kind: Kind, content: seq<Line>, other: Kind)
    requires Inert(content) && other != kind
    ensures OtherThan(SectionBlock(kind, content), other)
  {
  }

  lemma FourBlocks<T>(pre: seq<T>, a: seq<T>, b: seq<T>, c: seq<T>, d: seq<T>, post: seq<T>)
    ensures (pre + (a + b + c + d)) + post == (pre + a) + (b + c + d + post)
    ensures (pre + (a + b + c + d)) + post == (pre + a + b) + (c + d + post)
    ensures (pre + (a + b + c + d)) + post == (pre + a + b + c) + (d + post)
    ensures (pre + (a + b + c + d)) + post == (pre + a + b + c + d) + post
  {
  }

  lemma OtherConcat(a: seq<Line>, b: seq<Line>, kind: Kind)
    requires OtherThan(a, kind) && OtherThan(b, kind)
    ensures OtherThan(a + b, kind)
  {
  }

  lemma StartsWithSection(kind: Kind, content: seq<Line>, rest: seq<Line>)
    ensures SectionBlock(kind, content) + rest != [] && Ends((SectionBlock(kind, content) + rest)[0])
  {
  }

  lemma EntryRead(pre: seq<Line>, x: Sections, rest: seq<Line>, body: seq<Line>)
    requires Inert(x.entry) && OtherThan(pre, EntryCriteria) && (rest == [] || Ends(rest[0]))
    requires body == (pre + SectionBlock(EntryCriteria, x.entry)) + rest
    ensures SectionLines(body, EntryCriteria) == x.entry
  {
    BlockIn(pre, EntryCriteria, x.entry, rest, body);
  }

  lemma ExitRead(pre: seq<Line>, x: Sections, rest: seq<Line>, body: seq<Line>)
    requires Inert(x.entry) && Inert(x.exit) && OtherThan(pre, ExitCriteria) && (rest == [] || Ends(rest[0]))
    requires body == ((pre + SectionBlock(EntryCriteria, x.entry)) + SectionBlock(ExitCriteria, x.exit)) + rest
    ensures SectionLines(body, ExitCriteria) == x.exit
  {
    BlockIsOther(EntryCriteria, x.entry, ExitCriteria);
    OtherConcat(pre, SectionBlock(EntryCriteria, x.entry), ExitCriteria);
    BlockIn(pre + SectionBlock(EntryCriteria, x.entry), ExitCriteria, x.exit, rest, body);
  }

  lemma TddRead(pre: seq<Line>, x: Sections, rest: seq<Line>, body: seq<Line>)
    requires Inert(x.entry) && Inert(x.exit) && Inert(x.tdd) && OtherThan(pre, TddRequirements)
    requires rest == [] || Ends(rest[0])
    requires var a, b := SectionBlock(EntryCriteria, x.entry), SectionBlock(ExitCriteria, x.exit);
             body == ((pre + a + b) + SectionBlock(TddRequirements, x.tdd)) + rest
    ensures SectionLines(body, TddRequirements) == x.tdd
  {
    var a, b := SectionBlock(EntryCriteria, x.entry), SectionBlock(ExitCriteria, x.exit);
    BlockIsOther(EntryCriteria, x.entry, TddRequirements);
    BlockIsOther(ExitCriteria, x.exit, TddRequirements);
    OtherConcat(pre, a, TddRequirements);
    OtherConcat(pre + a, b, TddRequirements);
    BlockIn(pre + a + b, TddRequirements, x.tdd, rest, body);
  }

  lemma DoneRead(pre: seq<Line>, x: Sections, rest: seq<Line>, body: seq<Line>)
    requires InertSections(x) && OtherThan(pre, DoneCriteria) && (rest == [] || Ends(rest[0]))
    requires var a, b := SectionBlock(EntryCriteria, x.entry), SectionBlock(ExitCriteria, x.exit);
             var c := SectionBlock(TddRequirements, x.tdd);
             body == ((pre + a + b + c) + SectionBlock(DoneCriteria, x.done)) + rest
    ensures SectionLines(body, DoneCriteria) == x.done
  {
    var a, b := SectionBlock(EntryCriteria, x.entry), SectionBlock(ExitCriteria, x.exit);
    var c := SectionBlock(TddRequirements, x.tdd);
    BlockIsOther(EntryCriteria, x.entry, DoneCriteria);
    BlockIsOther(ExitCriteria, x.exit, DoneCriteria);
    BlockIsOther(TddRequirements, x.tdd, DoneCriteria);
    OtherConcat(pre, a, DoneCriteria);
    OtherConcat(pre + a, b, DoneCriteria);
    OtherConcat(pre + a + b, c, DoneCriteria);
    BlockIn(pre + a + b + c, DoneCriteria, x.done, rest, body);
  }

  lemma BlocksRead(pre: seq<Line>, x: Sections, post: seq<Line>)
    requires InertSections(x) && (forall kind: Kind :: OtherThan(pre, kind)) && (post == [] || Ends(post[0]))
    ensures var body := (pre + PrintSections(x)) + post;
            && SectionLines(body, EntryCriteria) == x.entry && SectionLines(body, ExitCriteria) == x.exit
            && SectionLines(body, TddRequirements) == x.tdd && SectionLines(body, DoneCriteria) == x.done
  {
    var a, b := SectionBlock(EntryCriteria, x.entry), SectionBlock(ExitCriteria, x.exit);
    var c, d := SectionBlock(TddRequirements, x.tdd), SectionBlock(DoneCriteria, x.done);
    var body := (pre + (a + b + c + d)) + post;
    FourBlocks(pre, a, b, c, d, post);
    assert b + c + d + post == b + (c + d + post) && c + d + post == c + (d + post);
    StartsWithSection(ExitCriteria, x.exit, c + d + post);
    EntryRead(pre, x, b + c + d + post, body);
    StartsWithSection(TddRequirements, x.tdd, d + post);
    ExitRead(pre, x, c + d + post, body);
    StartsWithSection(DoneCriteria, x.done, post);
    TddRead(pre, x, d + post, body);
    DoneRead(pre, x, post, body);
  }

  /** The page's four blocks are read back whole, each as what it is. */
  lemma SectionsRead(tag: string, page: Page)
    requires InertSections(page.sections)
    ensures var body, x := PrintBody(tag, page), page.sections;
            && SectionLines(body, EntryCriteria) == x.entry && SectionLines(body, ExitCriteria) == x.exit
            && SectionLines(body, TddRequirements) == x.tdd && SectionLines(body, DoneCriteria) == x.done
  {
    QuotesRead(tag, page.phase.exits);
    BlocksRead(Quotes(tag, page.phase.exits) + [Blank], page.sections, PrintBlock(page.phase.behaviour));
  }

  /** At line `i` there is the head of the page with the number of headers in front of it, and its body. */
  predicate PageStands(lines: seq<Line>, tag: string, pages: seq<Page>, i: nat)
    requires i < |lines|
  {
    var n := Headers(lines[..i]);
    n < |pages| && lines[i] == PrintHead(pages[n].phase) && Body(lines, i) == PrintBody(tag, pages[n])
  }

  lemma LastStands(tag: string, init: seq<Page>, last: Page, lines: seq<Line>, i: nat)
    requires forall k | 0 <= k < |init| :: Printable(init[k])
    requires forall k | 0 <= k < |PrintBody(tag, last)| :: !PrintBody(tag, last)[k].Phase?
    requires lines == Print(tag, init) + [PrintHead(last.phase)] + PrintBody(tag, last)
    requires |Print(tag, init)| <= i < |lines| && IsHead(lines[i])
    ensures PageStands(lines, tag, init + [last], i)
  {
    LastSegment(Print(tag, init), PrintHead(last.phase), PrintBody(tag, last), i);
    PageCount(tag, init);
  }

  lemma EarlierStands(tag: string, init: seq<Page>, last: Page, before: seq<Line>, lines: seq<Line>, i: nat)
    requires lines == before + [PrintHead(last.phase)] + PrintBody(tag, last) && Canonical(lines)
    requires i < |before| && PageStands(before, tag, init, i)
    ensures PageStands(lines, tag, init + [last], i)
  {
    EarlierSegment(before, PrintHead(last.phase), PrintBody(tag, last), i);
  }

  /** The body of the printed header at each number is that page's. */
  lemma {:induction false} PageAt(tag: string, pages: seq<Page>, i: nat)
    requires forall k | 0 <= k < |pages| :: Printable(pages[k])
    requires i < |Print(tag, pages)| && IsHead(Print(tag, pages)[i])
    ensures PageStands(Print(tag, pages), tag, pages, i)
    decreases |pages|
  {
    var init, last := pages[..|pages| - 1], pages[|pages| - 1];
    var before, lines := Print(tag, init), Print(tag, pages);
    PrintedSplit(tag, init, last);
    assert pages == init + [last];
    if i < |before| {
      PageAt(tag, init, i);
      EarlierStands(tag, init, last, before, lines, i);
    } else {
      LastStands(tag, init, last, lines, i);
    }
  }

  lemma PrintedSplit(tag: string, init: seq<Page>, last: Page)
    requires (forall k | 0 <= k < |init| :: Printable(init[k])) && Printable(last)
    ensures Print(tag, init + [last]) == Print(tag, init) + [PrintHead(last.phase)] + PrintBody(tag, last)
    ensures Canonical(Print(tag, init + [last]))
    ensures forall k | 0 <= k < |PrintBody(tag, last)| :: !PrintBody(tag, last)[k].Phase?
  {
    assert (init + [last])[..|init|] == init;
    PrintedBody(tag, last);
    PrintedCanonical(tag, init + [last]);
  }

  lemma EarlierSegment(before: seq<Line>, head: Line, body: seq<Line>, i: nat)
    requires Canonical(before + [head] + body) && IsHead(head) && i < |before|
    ensures var lines := before + [head] + body;
            && lines[i] == before[i] && lines[..i] == before[..i] && Body(lines, i) == Body(before, i)
  {
    var lines, h := before + [head] + body, |before|;
    assert lines[..h] == before && lines[h] == head;
    SameHeads(lines, h);
    BodyInPrefix(lines, i, h);
    PrefixTwice(lines, h, i);
  }

  lemma LastSegment(before: seq<Line>, head: Line, body: seq<Line>, i: nat)
    requires forall k | 0 <= k < |body| :: !body[k].Phase?
    requires |before| <= i < |before + [head] + body| && IsHead((before + [head] + body)[i])
    ensures var lines := before + [head] + body;
            i == |before| && lines[i] == head && lines[..i] == before && Body(lines, i) == body
  {
    var lines := before + [head] + body;
    assert forall k | |before| < k < |lines| :: lines[k] == body[k - |before| - 1];
    LastBody(before, head, body);
  }

  lemma {:induction false} PageCount(tag: string, pages: seq<Page>)
    requires forall k | 0 <= k < |pages| :: Printable(pages[k])
    ensures Headers(Print(tag, pages)) == |pages|
    decreases |pages|
  {
    PrintedCanonical(tag, pages);
    PrintedRecovered(tag, pages);
    PhaseCount(Print(tag, pages));
    PagesCount(pages);
  }

  lemma {:induction false} PagesCount(pages: seq<Page>)
    ensures |PhasesOf(pages)| == |pages|
    ensures forall k | 0 <= k < |pages| :: PhasesOf(pages)[k] == pages[k].phase
    decreases |pages|
  {
    if pages != [] { PagesCount(pages[..|pages| - 1]); }
  }

  /** The answer is this page, part by part. */
  predicate AnswersPage(c: Current, tag: string, page: Page) {
    && c.id == page.phase.id && c.goal == page.phase.goal && CategoryOf(c.category, page.phase.id)
    && (c.blocked <==> page.phase.status == BlockedPhase)
    && c.exitCriteria == LabelAll(tag, page.phase.exits) && c.behaviour == page.phase.behaviour
    && c.entryBlock == page.sections.entry && c.exitBlock == page.sections.exit
    && c.tdd == page.sections.tdd && c.done == page.sections.done
  }

  /** What the two parsers make of the pages' lines. */
  ghost predicate ReadBack(lines: seq<Line>, tag: string, pages: seq<Page>) {
    && UiPhases(lines) == PhasesOf(pages)
    && (Resolve(lines).None? <==> AllOver(PhasesOf(pages), |pages|))
    && (Resolve(lines).Some? ==>
          var c := Resolve(lines).value;
          && c.number < |pages| && AllOver(PhasesOf(pages), c.number) && Shows(c, PhasesOf(pages))
          && AnswersPage(c, tag, pages[c.number]))
  }

  /**
   * Round trip: the streaming parser recovers every printed phase list, and the resolver's answer on
   * the same file is the first page neither complete nor skipped, with its exit criteria, its behavioural
   * block and its four section blocks.
   */
  lemma PrintedRoadmapRead(tag: string, pages: seq<Page>)
    requires forall k | 0 <= k < |pages| :: Printable(pages[k])
    ensures ReadBack(Print(tag, pages), tag, pages)
  {
    var lines, ps := Print(tag, pages), PhasesOf(pages);
    PrintedCanonical(tag, pages);
    PrintedRecovered(tag, pages);
    PrintedWellPlaced(tag, pages);
    PagesCount(pages);
    FirstOpenPhase(lines, ps);
    if Resolve(lines).Some? { FirstOpenPage(tag, pages); }
  }

  lemma FirstOpenPage(tag: string, pages: seq<Page>)
    requires forall k | 0 <= k < |pages| :: Printable(pages[k])
    requires Resolve(Print(tag, pages)).Some?
    ensures var c := Resolve(Print(tag, pages)).value; c.number < |pages| && AnswersPage(c, tag, pages[c.number])
  {
    var lines := Print(tag, pages);
    var i := FirstFrom(lines, 0, Unfinished);
    PageAt(tag, pages, i);
    PageBodyRead(tag, pages[Headers(lines[..i])]);
    PageAnswered(lines, i, tag, pages[Headers(lines[..i])]);
  }

  /** What the resolver reads in the body of a page. */
  predicate BodyReads(body: seq<Line>, tag: string, page: Page) {
    && LeadingQuotes(body) == LabelAll(tag, page.phase.exits) && ResolverBv(body) == page.phase.behaviour
    && var x := page.sections;
       && SectionLines(body, EntryCriteria) == x.entry && SectionLines(body, ExitCriteria) == x.exit
       && SectionLines(body, TddRequirements) == x.tdd && SectionLines(body, DoneCriteria) == x.done
  }

  lemma PageBodyRead(tag: string, page: Page)
    requires Printable(page)
    ensures BodyReads(PrintBody(tag, page), tag, page)
  {
    PrintedExitCriteria(tag, page);
    SectionsRead(tag, page);
    PageBehaviour(tag, page);
  }

  /** The rest of the answer. */
  lemma AnswerParts(lines: seq<Line>, i: nat)
    requires i == FirstFrom(lines, 0, Unfinished) && i < |lines|
    ensures Resolve(lines).Some?
    ensures var c, body := Resolve(lines).value, Body(lines, i);
            && c.behaviour == ResolverBv(body)
            && c.entryBlock == SectionLines(body, EntryCriteria) && c.exitBlock == SectionLines(body, ExitCriteria)
            && c.tdd == SectionLines(body, TddRequirements) && c.done == SectionLines(body, DoneCriteria)
  {
  }

  /** The answer is about this header and reads this body. */
  predicate Reports(c: Current, h: Header, body: seq<Line>) {
    && c.id == h.id && c.goal == Strip(h.goal) && (c.blocked <==> h.mark == Blocked) && CategoryOf(c.category, h.id)
    && c.exitCriteria == LeadingQuotes(body) && c.behaviour == ResolverBv(body)
    && c.entryBlock == SectionLines(body, EntryCriteria) && c.exitBlock == SectionLines(body, ExitCriteria)
    && c.tdd == SectionLines(body, TddRequirements) && c.done == SectionLines(body, DoneCriteria)
  }

  lemma ReportsPage(c: Current, h: Header, body: seq<Line>, tag: string, page: Page)
    requires h.id == page.phase.id && Strip(h.goal) == page.phase.goal
    requires h.mark == Blocked <==> page.phase.status == BlockedPhase
    requires BodyReads(body, tag, page) && Reports(c, h, body)
    ensures AnswersPage(c, tag, page)
  {
  }

  lemma HeadOf(p: UiPhase)
    requires Trimmed(p.goal)
    ensures var h := PrintHead(p).resolver.value;
            h.id == p.id && Strip(h.goal) == p.goal && (h.mark == Blocked <==> p.status == BlockedPhase)
  {
    StripTrimmed(p.goal);
  }

  lemma PageAnswered(lines: seq<Line>, i: nat, tag: string, page: Page)
    requires Printable(page) && i == FirstFrom(lines, 0, Unfinished) && i < |lines|
    requires lines[i] == PrintHead(page.phase) && BodyReads(Body(lines, i), tag, page)
    ensures Resolve(lines).Some? && AnswersPage(Resolve(lines).value, tag, page)
  {
    HeadOf(page.phase);
    AnswerIs(lines, i);
    AnswerParts(lines, i);
    ReportsPage(Resolve(lines).value, lines[i].resolver.value, Body(lines, i), tag, page);
  }

  lemma PageBehaviour(tag: string, page: Page)
    requires Printable(page)
    ensures ResolverBv(PrintBody(tag, page)) == page.phase.behaviour
  {
    PrintedPlaces(tag, page);
    PrintedBehaviour(tag, page);
    SameBehaviourExactly(PrintBody(tag, page));
    SameBehaviour(PrintBody(tag, page));
  }

  lemma FirstOpenPhase(lines: seq<Line>, ps: seq<UiPhase>)
    requires Canonical(lines) && SegmentsWellPlaced(lines) && UiPhases(lines) == ps
    ensures Resolve(lines).None? <==> AllOver(ps, |ps|)
    ensures Resolve(lines).Some? ==> AllOver(ps, Resolve(lines).value.number) && Shows(Resolve(lines).value, ps)
  {
    ParsersAgree(lines);
  }

  // ---------------------------------------------------------------------------------------
  // The run
  // ---------------------------------------------------------------------------------------

  function Tick(l: Line): Line
    requires IsHead(l)
  {
    Phase(Some(l.resolver.value.(mark := Ticked)), if l.ui.Some? then Some(l.ui.value.(mark := Ticked)) else None)
  }

  predicate IsPending(l: Line) {
    IsHead(l) && l.resolver.value.mark == Unticked
  }

  /** The roadmap with its selected phase ticked off, if that phase is pending. */
  function Advance(lines: seq<Line>): seq<Line> {
    var i := FirstFrom(lines, 0, Unfinished);
    if i < |lines| && IsPending(lines[i]) then lines[i := Tick(lines[i])] else lines
  }

  function After(lines: seq<Line>, steps: nat): seq<Line> {
    if steps == 0 then lines else Advance(After(lines, steps - 1))
  }

  /** The pending headers in front of the first blocked one, from `from` on. */
  function Plan(lines: seq<Line>, from: nat): seq<nat>
    requires from <= |lines|
    decreases |lines| - from
  {
    if from == |lines| then []
    else if IsPending(lines[from]) then [from] + Plan(lines, from + 1)
    else if Unfinished(lines[from]) then []
    else Plan(lines, from + 1)
  }

  /** The same file but for pending headers ticked off. */
  ghost predicate TickedOff(now: seq<Line>, was: seq<Line>) {
    && |now| == |was|
    && forall i | 0 <= i < |was| :: now[i] == was[i] || (IsPending(was[i]) && now[i] == Tick(was[i]))
  }

  lemma {:induction false} PlanHead(lines: seq<Line>, from: nat)
    requires from <= |lines|
    ensures var i := FirstFrom(lines, from, Unfinished);
            && (Plan(lines, from) == [] <==> i == |lines| || !IsPending(lines[i]))
            && (Plan(lines, from) != [] ==>
                  Plan(lines, from)[0] == i && i < |lines| && IsPending(lines[i])
                  && Plan(lines[i := Tick(lines[i])], from) == Plan(lines, from)[1..])
    decreases |lines| - from
  {
    if from < |lines| && IsPending(lines[from]) {
      var ticked := lines[from := Tick(lines[from])];
      SamePlan(lines, ticked, from + 1);
    } else if from < |lines| && !Unfinished(lines[from]) {
      PlanHead(lines, from + 1);
    }
  }

  lemma {:induction false} SamePlan(a: seq<Line>, b: seq<Line>, from: nat)
    requires |a| == |b| && from <= |a| && forall i | from <= i < |a| :: a[i] == b[i]
    ensures Plan(a, from) == Plan(b, from)
    decreases |a| - from
  {
    if from < |a| { SamePlan(a, b, from + 1); }
  }

  lemma {:induction false} PlanShrinks(lines: seq<Line>, steps: nat)
    requires steps <= |Plan(lines, 0)|
    ensures Plan(After(lines, steps), 0) == Plan(lines, 0)[steps..]
    ensures TickedOff(After(lines, steps), lines)
    decreases steps
  {
    if steps > 0 {
      PlanShrinks(lines, steps - 1);
      PlanHead(After(lines, steps - 1), 0);
    }
  }

  lemma {:induction false} TickedHeaders(now: seq<Line>, was: seq<Line>, n: nat)
    requires TickedOff(now, was) && n <= |was|
    ensures Headers(now[..n]) == Headers(was[..n])
    decreases n
  {
    if n > 0 {
      TickedHeaders(now, was, n - 1);
      HeadersOn(now, n - 1);
      HeadersOn(was, n - 1);
    }
  }

  lemma TickedBody(now: seq<Line>, was: seq<Line>, i: nat)
    requires TickedOff(now, was) && i < |was|
    ensures Body(now, i) == Body(was, i)
  {
    var next := FirstFrom(was, i + 1, IsHead);
    FirstUnique(now, i + 1, IsHead, next);
    assert now[i + 1..next] == was[i + 1..next];
  }

  /** The nearest header before `n` that is not skipped. */
  function NearestKept(lines: seq<Line>, n: nat): (h: Option<nat>)
    requires n <= |lines|
    ensures h.Some? ==> h.value < n && IsHead(lines[h.value])
  {
    if n == 0 then None
    else if IsHead(lines[n - 1]) && lines[n - 1].resolver.value.mark != Skipped then Some(n - 1)
    else NearestKept(lines, n - 1)
  }

  lemma {:induction false} TickedIsKept(now: seq<Line>, was: seq<Line>, n: nat)
    requires TickedOff(now, was) && n <= |was| && forall i | 0 <= i < n :: !Unfinished(now[i])
    ensures LastTicked(now, n) == NearestKept(was, n)
    decreases n
  {
    if n > 0 { TickedIsKept(now, was, n - 1); }
  }

  lemma PriorIsNearest(now: seq<Line>, was: seq<Line>, n: nat)
    requires TickedOff(now, was) && n <= |was| && forall i | 0 <= i < n :: !Unfinished(now[i])
    ensures var kept := NearestKept(was, n);
            PriorOf(now, n) == if kept.Some? then Some(PriorAt(was, kept.value)) else None
  {
    TickedIsKept(now, was, n);
    var kept := NearestKept(was, n);
    if kept.Some? { TickedBody(now, was, kept.value); }
  }

  /** Step `k` of the run selects the `k`-th planned header, with everything read as from the untouched file. */
  lemma StepSelects(lines: seq<Line>, k: nat)
    requires k < |Plan(lines, 0)|
    ensures var i := Plan(lines, 0)[k];
            && i < |lines| && IsPending(lines[i]) && Resolve(After(lines, k)).Some?
            && var c, kept := Resolve(After(lines, k)).value, NearestKept(lines, i);
               && !c.blocked && c.id == lines[i].resolver.value.id && c.number == Headers(lines[..i])
               && c.behaviour == ResolverBv(Body(lines, i))
               && c.prior == if kept.Some? then Some(PriorAt(lines, kept.value)) else None
  {
    var now := After(lines, k);
    PlanShrinks(lines, k);
    PlanHead(now, 0);
    var i := FirstFrom(now, 0, Unfinished);
    assert Plan(lines, 0)[k] == Plan(lines, 0)[k..][0] == i;
    assert now[i] == lines[i];
    TickedHeaders(now, lines, i);
    TickedBody(now, lines, i);
    PriorIsNearest(now, lines, i);
  }

  lemma {:induction false} PlanAscends(lines: seq<Line>, from: nat)
    requires from <= |lines|
    ensures forall k | 0 <= k < |Plan(lines, from)| :: from <= Plan(lines, from)[k] < |lines|
    ensures forall j, k | 0 <= j < k < |Plan(lines, from)| :: Plan(lines, from)[j] < Plan(lines, from)[k]
    decreases |lines| - from
  {
    if from < |lines| { PlanAscends(lines, from + 1); }
  }

  lemma {:induction false} PlanComplete(lines: seq<Line>, from: nat, i: nat)
    requires from <= i < |lines| && IsPending(lines[i])
    requires forall j | from <= j < i :: !(IsHead(lines[j]) && lines[j].resolver.value.mark == Blocked)
    ensures i in Plan(lines, from)
    decreases i - from
  {
    if from < i { PlanComplete(lines, from + 1, i); }
  }

  predicate IsBlocked(l: Line) {
    IsHead(l) && l.resolver.value.mark == Blocked
  }

  /**
   * The run visits the pending headers before the first blocked one, all of them, once each, in file
   * order, with strictly increasing phase numbers; each time the prior phase is the nearest earlier
   * header that is not skipped. After exactly that many steps it is complete, or stuck for good on
   * the first blocked phase, as the roadmap has none or some.
   */
  lemma RunVisitsInOrder(lines: seq<Line>)
    ensures var plan := Plan(lines, 0);
            && (forall k | 0 <= k < |plan| ::
                  && plan[k] < |lines| && IsPending(lines[plan[k]]) && Resolve(After(lines, k)).Some?
                  && Resolve(After(lines, k)).value.id == lines[plan[k]].resolver.value.id)
            && (forall j, k | 0 <= j < k < |plan| ::
                  Resolve(After(lines, j)).Some? && Resolve(After(lines, k)).Some?
                  && Resolve(After(lines, j)).value.number < Resolve(After(lines, k)).value.number)
            && (forall i | 0 <= i < |lines| && IsPending(lines[i]) && (forall j | 0 <= j < i :: !IsBlocked(lines[j])) ::
                  i in plan)
    ensures var last, b := After(lines, |Plan(lines, 0)|), FirstFrom(lines, 0, IsBlocked);
            && Advance(last) == last
            && (b == |lines| ==> Resolve(last) == None)
            && (b < |lines| ==> Resolve(last).Some? && Resolve(last).value.blocked
                                && Resolve(last).value.number == Headers(lines[..b]))
  {
    var plan := Plan(lines, 0);
    forall k | 0 <= k < |plan|
      ensures plan[k] < |lines| && IsPending(lines[plan[k]]) && Resolve(After(lines, k)).Some?
      ensures Resolve(After(lines, k)).value.id == lines[plan[k]].resolver.value.id
      ensures Resolve(After(lines, k)).value.number == Headers(lines[..plan[k]])
    {
      StepSelects(lines, k);
    }
    PlanAscends(lines, 0);
    forall j, k | 0 <= j < k < |plan|
      ensures Resolve(After(lines, j)).value.number < Resolve(After(lines, k)).value.number
    {
      HeadersGrow(lines, plan[j], plan[k]);
    }
    forall i | 0 <= i < |lines| && IsPending(lines[i]) && (forall j | 0 <= j < i :: !IsBlocked(lines[j]))
      ensures i in plan
    {
      PlanComplete(lines, 0, i);
    }
    RunEnds(lines);
  }

  lemma RunEnds(lines: seq<Line>)
    ensures var last, b := After(lines, |Plan(lines, 0)|), FirstFrom(lines, 0, IsBlocked);
            && Advance(last) == last
            && (b == |lines| ==> Resolve(last) == None)
            && (b < |lines| ==> Resolve(last).Some? && Resolve(last).value.blocked
                                && Resolve(last).value.number == Headers(lines[..b]))
  {
    var plan := Plan(lines, 0);
    var last, b := After(lines, |plan|), FirstFrom(lines, 0, IsBlocked);
    PlanShrinks(lines, |plan|);
    PlanHead(last, 0);
    var i := FirstFrom(last, 0, Unfinished);
    if i < |lines| {
      assert last[i] == lines[i] && IsBlocked(lines[i]);
      forall j | 0 <= j < i ensures !IsBlocked(lines[j]) {
        assert !Unfinished(last[j]);
      }
      FirstUnique(lines, 0, IsBlocked, i);
      TickedHeaders(last, lines, i);
    }
  }
}
