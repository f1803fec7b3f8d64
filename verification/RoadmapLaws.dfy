/**
 * What ties the two roadmap readers together (phase_resolver.py:56-80, 165-274;
 * ui/roadmap_parser.py:54-126): they agree on canonical roadmaps, a printed roadmap is recovered,
 * and ticking off the selected phase again and again visits the pending phases in order.
 */
module RoadmapLaws {
  import opened Json
  import opened Text
  import opened Roadmap

  // ---------------------------------------------------------------------------------------
  // Agreement
  // ---------------------------------------------------------------------------------------

  /** Two readings of a header that come to the same phase. */
  predicate Alike(a: Header, b: Header) {
    a.mark == b.mark && a.id == b.id && Strip(a.goal) == Strip(b.goal)
  }

  /** Both header patterns accept the same lines and read them alike, and ids carry no outer whitespace. */
  ghost predicate Canonical(lines: seq<Line>) {
    forall i | 0 <= i < |lines| && lines[i].Phase? ::
      && lines[i].resolver.Some? && lines[i].ui.Some? && Alike(lines[i].resolver.value, lines[i].ui.value)
      && Trimmed(lines[i].resolver.value.id)
  }

  predicate NoBullets(lines: seq<Line>) {
    forall i | 0 <= i < |lines| :: !lines[i].Bullet?
  }

  function BvStart(body: seq<Line>): (n: nat)
    ensures n <= |body|
  {
    FirstFrom(body, 0, (l: Line) => l.BvHead?)
  }

  function BvEnd(body: seq<Line>): (n: nat)
    requires BvStart(body) < |body|
    ensures BvStart(body) < n <= |body|
  {
    FirstFrom(body, BvStart(body) + 1, (l: Line) => l.Section? || IsHead(l))
  }

  /** Every bullet has text, and lies between the first behavioural header and the next section. */
  predicate WellPlaced(body: seq<Line>) {
    && (forall i | 0 <= i < |body| && body[i].Bullet? :: body[i].text != "")
    && (forall i | 0 <= i < |body| && body[i].Bullet? ::
          BvStart(body) < |body| && BvStart(body) < i < BvEnd(body))
  }

  lemma {:induction false} LastBulletAmong(pre: seq<Line>, mid: seq<Line>, post: seq<Line>, field: Field)
    requires NoBullets(pre) && NoBullets(post)
    ensures LastBullet(pre + mid + post, field) == LastBullet(mid, field)
    decreases |mid| + |post| + |pre|
  {
    var all := pre + mid + post;
    if post != [] {
      assert all == (pre + mid + post[..|post| - 1]) + [post[|post| - 1]];
      LastBulletOn(pre + mid + post[..|post| - 1], post[|post| - 1], field);
      LastBulletAmong(pre, mid, post[..|post| - 1], field);
    } else if mid != [] {
      var init, last := mid[..|mid| - 1], mid[|mid| - 1];
      assert all == (pre + init + post) + [last] && mid == init + [last];
      LastBulletOn(pre + init + post, last, field);
      LastBulletOn(init, last, field);
      LastBulletAmong(pre, init, post, field);
    } else if pre != [] {
      assert all == (pre[..|pre| - 1] + mid + post) + [pre[|pre| - 1]];
      LastBulletOn(pre[..|pre| - 1] + mid + post, pre[|pre| - 1], field);
      LastBulletAmong(pre[..|pre| - 1], mid, post, field);
    } else {
      assert all == mid;
    }
  }

  lemma {:induction false} LastBulletIsOne(lines: seq<Line>, field: Field)
    ensures LastBullet(lines, field).Some? ==>
              exists i | 0 <= i < |lines| :: lines[i] == Bullet(field, LastBullet(lines, field).value)
    decreases |lines|
  {
    if lines != [] {
      LastBulletIsOne(lines[..|lines| - 1], field);
      var init := lines[..|lines| - 1];
      if LastBullet(lines, field) == LastBullet(init, field) && LastBullet(init, field).Some? {
        var i :| 0 <= i < |init| && init[i] == Bullet(field, LastBullet(init, field).value);
        assert lines[i] == init[i];
      } else if LastBullet(lines, field).Some? {
        assert lines[|lines| - 1] == Bullet(field, LastBullet(lines, field).value);
      }
    }
  }

  lemma RangeHoldsBullets(body: seq<Line>, from: nat, to: nat, field: Field)
    requires from <= to <= |body| && forall i | 0 <= i < |body| && body[i].Bullet? :: from <= i < to
    ensures LastBullet(body[from..to], field) == LastBullet(body, field)
  {
    var pre, mid, post := body[..from], body[from..to], body[to..];
    assert forall i | 0 <= i < |post| :: post[i] == body[to + i];
    LastBulletAmong(pre, mid, post, field);
    assert pre + mid + post == body;
  }

  lemma RegionHoldsBullets(body: seq<Line>, field: Field)
    requires WellPlaced(body)
    ensures LastBullet(BvRegion(body), field) == LastBullet(body, field)
  {
    if BvStart(body) == |body| {
      RangeHoldsBullets(body, 0, 0, field);
    } else {
      RangeHoldsBullets(body, BvStart(body) + 1, BvEnd(body), field);
    }
  }

  lemma BulletsHaveText(body: seq<Line>, field: Field)
    requires WellPlaced(body)
    ensures LastBullet(body, field) != Some("")
  {
    LastBulletIsOne(body, field);
  }

  predicate AllThere(lines: seq<Line>) {
    && LastBullet(lines, UserObservable).Some? && LastBullet(lines, HowToCheck).Some?
    && LastBullet(lines, FailureLanguage).Some?
  }

  predicate AllText(lines: seq<Line>) {
    && AllThere(lines)
    && LastBullet(lines, UserObservable) != Some("") && LastBullet(lines, HowToCheck) != Some("")
    && LastBullet(lines, FailureLanguage) != Some("")
  }

  /** The last bullet under the block header is the last one anywhere. */
  predicate SameBullet(body: seq<Line>, field: Field) {
    LastBullet(BvRegion(body), field) == LastBullet(body, field)
  }

  /**
   * When the two readers see the same behavioural block: the last bullets under the block header are
   * the last ones anywhere in the segment and have text, or some bullet is missing under the header and
   * one, possibly another, is missing or empty anywhere.
   */
  predicate BlocksAgree(body: seq<Line>) {
    if AllThere(BvRegion(body))
    then
      && AllText(body) && SameBullet(body, UserObservable) && SameBullet(body, HowToCheck)
      && SameBullet(body, FailureLanguage)
    else !AllText(body)
  }

  /** When they see the same way to check. */
  predicate ChecksAgree(body: seq<Line>) {
    if AllThere(BvRegion(body))
    then AllText(body) && SameBullet(body, HowToCheck)
    else !AllText(body)
  }

  function CheckOf(b: Option<Behaviour>): Option<string> {
    if b.Some? then Some(b.value.howToCheck) else None
  }

  /** The same block, and the same way to check, for exactly these segments. */
  lemma SameBehaviourExactly(body: seq<Line>)
    ensures ResolverBv(body) == UiBv(body) <==> BlocksAgree(body)
    ensures CheckOf(ResolverBv(body)) == CheckOf(UiBv(body)) <==> ChecksAgree(body)
  {
    assert AllThere(BvRegion(body)) <==> ResolverBv(body).Some?;
    assert AllText(body) <==> UiBv(body).Some?;
  }

  // The same condition, bullet by bullet.

  predicate IsBullet(l: Line, field: Field) {
    l.Bullet? && l.field == field
  }

  /** The last bullet of the field between two places. */
  predicate LastIn(body: seq<Line>, lo: nat, hi: nat, field: Field, i: int) {
    && lo <= i < hi <= |body| && IsBullet(body[i], field)
    && forall j | i < j < hi :: !IsBullet(body[j], field)
  }

  lemma {:induction false} LastInReads(body: seq<Line>, lo: nat, hi: nat, field: Field)
    requires lo <= hi <= |body|
    ensures LastBullet(body[lo..hi], field).None? ==> forall i | lo <= i < hi :: !IsBullet(body[i], field)
    ensures LastBullet(body[lo..hi], field).Some? ==>
              exists i :: LastIn(body, lo, hi, field, i) && body[i].text == LastBullet(body[lo..hi], field).value
    decreases hi
  {
    if lo < hi {
      LastInReads(body, lo, hi - 1, field);
      assert body[lo..hi] == body[lo..hi - 1] + [body[hi - 1]];
      LastBulletOn(body[lo..hi - 1], body[hi - 1], field);
      if IsBullet(body[hi - 1], field) {
        assert LastIn(body, lo, hi, field, hi - 1);
      } else if LastBullet(body[lo..hi - 1], field).Some? {
        var i :| LastIn(body, lo, hi - 1, field, i) && body[i].text == LastBullet(body[lo..hi - 1], field).value;
        assert LastIn(body, lo, hi, field, i);
      }
    }
  }

  lemma LastInUnique(body: seq<Line>, lo: nat, hi: nat, field: Field, i: int)
    requires LastIn(body, lo, hi, field, i)
    ensures LastBullet(body[lo..hi], field) == Some(body[i].text)
  {
    LastInReads(body, lo, hi, field);
    var j :| LastIn(body, lo, hi, field, j) && body[j].text == LastBullet(body[lo..hi], field).value;
    assert i == j;
  }

  /** A bullet of the field stands under the block header. */
  predicate UnderHeader(body: seq<Line>, field: Field) {
    BvStart(body) < |body| && exists i | BvStart(body) < i < BvEnd(body) :: IsBullet(body[i], field)
  }

  /** The last such bullet and the last one of the field anywhere have the same text, and have text. */
  predicate LastsAlike(body: seq<Line>, field: Field) {
    BvStart(body) < |body| && forall i, j | 0 <= i < |body| && 0 <= j < |body|
          && LastIn(body, BvStart(body) + 1, BvEnd(body), field, i) && LastIn(body, 0, |body|, field, j) ::
      body[i].text == body[j].text && body[j].text != ""
  }

  /** The last bullet of the field anywhere is there and has text. */
  predicate LastHasText(body: seq<Line>, field: Field) {
    exists j | 0 <= j < |body| :: LastIn(body, 0, |body|, field, j) && body[j].text != ""
  }

  lemma TextByPlace(body: seq<Line>, field: Field)
    ensures LastHasText(body, field) <==> LastBullet(body, field).Some? && LastBullet(body, field) != Some("")
    ensures forall j | LastIn(body, 0, |body|, field, j) :: LastBullet(body, field) == Some(body[j].text)
  {
    assert body[0..|body|] == body;
    LastInReads(body, 0, |body|, field);
    forall j | LastIn(body, 0, |body|, field, j) ensures LastBullet(body, field) == Some(body[j].text) {
      LastInUnique(body, 0, |body|, field, j);
    }
  }

  lemma RegionByPlace(body: seq<Line>, field: Field)
    requires BvStart(body) < |body|
    ensures UnderHeader(body, field) <==> LastBullet(BvRegion(body), field).Some?
    ensures forall i | LastIn(body, BvStart(body) + 1, BvEnd(body), field, i) ::
              LastBullet(BvRegion(body), field) == Some(body[i].text)
  {
    var lo, hi := BvStart(body) + 1, BvEnd(body);
    LastInReads(body, lo, hi, field);
    forall i | LastIn(body, lo, hi, field, i) ensures LastBullet(BvRegion(body), field) == Some(body[i].text) {
      LastInUnique(body, lo, hi, field, i);
    }
  }

  lemma LastsByPlace(body: seq<Line>, field: Field)
    requires UnderHeader(body, field)
    ensures LastsAlike(body, field) <==> SameBullet(body, field) && LastHasText(body, field)
  {
    var lo, hi := BvStart(body) + 1, BvEnd(body);
    TextByPlace(body, field);
    RegionByPlace(body, field);
    LastInReads(body, lo, hi, field);
    var i :| LastIn(body, lo, hi, field, i);
    assert body[0..|body|] == body;
    LastInReads(body, 0, |body|, field);
    var j :| LastIn(body, 0, |body|, field, j);
    forall n, m | LastIn(body, lo, hi, field, n) && LastIn(body, 0, |body|, field, m) ensures n == i && m == j {
    }
  }

  predicate EachUnderHeader(body: seq<Line>) {
    forall field: Field :: UnderHeader(body, field)
  }

  predicate EachHasText(body: seq<Line>) {
    forall field: Field :: LastHasText(body, field)
  }

  predicate EachAlike(body: seq<Line>) {
    forall field: Field :: LastsAlike(body, field)
  }

  lemma ThereByPlace(body: seq<Line>)
    ensures AllThere(BvRegion(body)) <==> EachUnderHeader(body)
  {
    forall field: Field ensures UnderHeader(body, field) <==> LastBullet(BvRegion(body), field).Some? {
      if BvStart(body) < |body| { RegionByPlace(body, field); }
    }
    if AllThere(BvRegion(body)) {
      forall field: Field ensures UnderHeader(body, field) {
        match field case UserObservable => case HowToCheck => case FailureLanguage =>
      }
    }
  }

  lemma AllTextByPlace(body: seq<Line>)
    ensures AllText(body) <==> EachHasText(body)
  {
    TextByPlace(body, UserObservable);
    TextByPlace(body, HowToCheck);
    TextByPlace(body, FailureLanguage);
    if AllText(body) {
      forall field: Field ensures LastHasText(body, field) {
        match field case UserObservable => case HowToCheck => case FailureLanguage =>
      }
    }
  }

  lemma AlikeByPlace(body: seq<Line>)
    requires EachUnderHeader(body)
    ensures EachAlike(body) <==>
              && EachHasText(body) && SameBullet(body, UserObservable) && SameBullet(body, HowToCheck)
              && SameBullet(body, FailureLanguage)
  {
    forall field: Field ensures LastsAlike(body, field) <==> SameBullet(body, field) && LastHasText(body, field) {
      LastsByPlace(body, field);
    }
    if EachHasText(body) && SameBullet(body, UserObservable) && SameBullet(body, HowToCheck)
       && SameBullet(body, FailureLanguage) {
      forall field: Field ensures LastsAlike(body, field) {
        match field case UserObservable => case HowToCheck => case FailureLanguage =>
      }
    }
  }

  /**
   * The two readers see the same block if and only if: should every field have a bullet under the block
   * header, the last one there and the last one anywhere say the same, and something; otherwise, the last
   * bullet of some field anywhere is missing or empty.
   */
  lemma BlocksAgreeByPlace(body: seq<Line>)
    ensures ResolverBv(body) == UiBv(body) <==>
            if EachUnderHeader(body) then EachAlike(body) else !EachHasText(body)
  {
    SameBehaviourExactly(body);
    ThereByPlace(body);
    AllTextByPlace(body);
    if EachUnderHeader(body) { AlikeByPlace(body); }
  }

  /** With well-placed bullets they always do. */
  lemma SameBehaviour(body: seq<Line>)
    requires WellPlaced(body)
    ensures BlocksAgree(body)
  {
    forall field: Field ensures SameBullet(body, field) && LastBullet(body, field) != Some("") {
      RegionHoldsBullets(body, field);
      BulletsHaveText(body, field);
    }
  }

  lemma {:induction false} HeadersGrow(lines: seq<Line>, i: nat, j: nat)
    requires i <= j <= |lines|
    ensures Headers(lines[..i]) <= Headers(lines[..j])
    ensures i < j && IsHead(lines[i]) ==> Headers(lines[..i]) < Headers(lines[..j])
    decreases j - i
  {
    if i < j {
      HeadersOn(lines, i);
      HeadersGrow(lines, i + 1, j);
    }
  }

  lemma SameHeads(lines: seq<Line>, i: nat)
    requires Canonical(lines) && i < |lines|
    ensures IsHead(lines[i]) <==> IsUiHead(lines[i])
    ensures Body(lines, i) == lines[i + 1..FirstFrom(lines, i + 1, IsUiHead)]
  {
    FirstUnique(lines, i + 1, IsUiHead, FirstFrom(lines, i + 1, IsHead));
  }

  lemma LastUiHeadUnique(lines: seq<Line>, h: nat)
    requires h < |lines| && IsUiHead(lines[h]) && forall k | h < k < |lines| :: !IsUiHead(lines[k])
    ensures LastUiHead(lines) == Some(h)
  {
  }

  /** Nothing but the last header's phase comes after the phases before it. */
  lemma {:induction false} HeadersAreUi(lines: seq<Line>, n: nat)
    requires Canonical(lines) && n <= |lines| && forall k | n <= k < |lines| :: !IsUiHead(lines[k])
    ensures Headers(lines) == Headers(lines[..n])
    decreases |lines|
  {
    if n < |lines| {
      var init := lines[..|lines| - 1];
      SameHeads(lines, |lines| - 1);
      assert forall k | 0 <= k < |init| :: init[k] == lines[k];
      HeadersAreUi(init, n);
      assert init[..n] == lines[..n];
    } else {
      assert lines[..n] == lines;
    }
  }

  lemma LastHeaderCounts(lines: seq<Line>, h: nat)
    requires Canonical(lines) && LastUiHead(lines) == Some(h)
    ensures Headers(lines) == Headers(lines[..h]) + 1
  {
    HeadersAreUi(lines, h + 1);
    HeadersOn(lines, h);
    SameHeads(lines, h);
  }

  lemma {:induction false} PhaseCount(lines: seq<Line>)
    requires Canonical(lines)
    ensures |UiPhases(lines)| == Headers(lines)
    decreases |lines|
  {
    var h := LastUiHead(lines);
    if h.None? {
      HeadersAreUi(lines, 0);
      assert lines[..0] == [];
    } else {
      LastHeaderCounts(lines, h.value);
      PhaseCount(lines[..h.value]);
    }
  }

  lemma PrefixTwice<T>(s: seq<T>, h: nat, i: nat)
    requires i <= h <= |s|
    ensures s[..h][..i] == s[..i] && forall k | 0 <= k < h :: s[..h][k] == s[k]
  {
  }

  /** The phase at a header's position is read from that header and the lines up to the next one. */
  lemma {:induction false} PhaseAt(lines: seq<Line>, i: nat)
    requires Canonical(lines) && i < |lines| && IsHead(lines[i])
    ensures Headers(lines[..i]) < |UiPhases(lines)|
    ensures UiPhases(lines)[Headers(lines[..i])] == UiPhaseOf(lines[i].resolver.value, Body(lines, i))
    decreases |lines|
  {
    SameHeads(lines, i);
    var h := LastUiHead(lines).value;
    if i < h {
      BodyInPrefix(lines, i, h);
      PhaseAt(lines[..h], i);
      PrefixTwice(lines, h, i);
      EarlierPhases(lines, h, Headers(lines[..i]));
    } else {
      LastPhase(lines, i);
    }
  }

  lemma EarlierPhases(lines: seq<Line>, h: nat, k: nat)
    requires LastUiHead(lines) == Some(h) && k < |UiPhases(lines[..h])|
    ensures k < |UiPhases(lines)| && UiPhases(lines)[k] == UiPhases(lines[..h])[k]
  {
  }

  lemma PhaseStatus(lines: seq<Line>, i: nat)
    requires Canonical(lines) && i < |lines| && IsHead(lines[i])
    ensures Headers(lines[..i]) < |UiPhases(lines)|
    ensures UiPhases(lines)[Headers(lines[..i])].status == StatusOf(lines[i].resolver.value.mark)
  {
    PhaseAt(lines, i);
  }

  lemma LastPhase(lines: seq<Line>, h: nat)
    requires Canonical(lines) && h < |lines| && LastUiHead(lines) == Some(h)
    ensures Headers(lines[..h]) == |UiPhases(lines)| - 1
    ensures UiPhases(lines)[Headers(lines[..h])] == UiPhaseOf(lines[h].resolver.value, Body(lines, h))
  {
    PhaseCount(lines[..h]);
    LastBodyIs(lines, h);
    LastUiPhase(lines, h);
    AlikeSamePhase(lines[h].resolver.value, lines[h].ui.value, lines[h + 1..]);
  }

  lemma NoHeadAfter(lines: seq<Line>, h: nat)
    requires LastUiHead(lines) == Some(h)
    ensures h < |lines| && FirstFrom(lines, h + 1, IsUiHead) == |lines|
  {
    FirstUnique(lines, h + 1, IsUiHead, |lines|);
  }

  lemma ToTheEnd<T>(s: seq<T>, i: nat)
    requires i <= |s|
    ensures s[i..|s|] == s[i..]
  {
  }

  lemma LastBodyIs(lines: seq<Line>, h: nat)
    requires Canonical(lines) && h < |lines| && LastUiHead(lines) == Some(h)
    ensures Body(lines, h) == lines[h + 1..]
  {
    SameHeads(lines, h);
    NoHeadAfter(lines, h);
    ToTheEnd(lines, h + 1);
  }

  lemma AlikeSamePhase(a: Header, b: Header, body: seq<Line>)
    requires Alike(a, b)
    ensures UiPhaseOf(a, body) == UiPhaseOf(b, body)
  {
  }

  lemma LastUiPhase(lines: seq<Line>, h: nat)
    requires h < |lines| && LastUiHead(lines) == Some(h)
    ensures IsUiHead(lines[h]) && UiPhases(lines) ==
              UiPhases(lines[..h]) + [UiPhaseOf(lines[h].ui.value, lines[h + 1..])]
  {
  }

  lemma BodyBeforeHead(lines: seq<Line>, i: nat, h: nat)
    requires i < h < |lines| && IsHead(lines[h])
    ensures Body(lines[..h], i) == Body(lines, i)
  {
    var next := FirstFrom(lines, i + 1, IsHead);
    FirstUnique(lines[..h], i + 1, IsHead, next);
    assert lines[..h][i + 1..next] == lines[i + 1..next];
  }

  lemma BodyInPrefix(lines: seq<Line>, i: nat, h: nat)
    requires Canonical(lines) && i < h < |lines| && IsUiHead(lines[h])
    ensures Canonical(lines[..h]) && Body(lines[..h], i) == Body(lines, i)
  {
    SameHeads(lines, h);
    BodyBeforeHead(lines, i, h);
  }

  lemma LastOfPhases(lines: seq<Line>) returns (h: nat)
    requires Canonical(lines) && UiPhases(lines) != []
    ensures h < |lines| && IsHead(lines[h]) && Canonical(lines[..h])
    ensures |UiPhases(lines)| == |UiPhases(lines[..h])| + 1 && Headers(lines[..h]) == |UiPhases(lines[..h])|
  {
    h := LastUiHead(lines).value;
    SameHeads(lines, h);
    PhaseCount(lines[..h]);
  }

  /** Every phase of the list has a header. */
  lemma {:induction false} HeaderOf(lines: seq<Line>, k: nat) returns (i: nat)
    requires Canonical(lines) && k < |UiPhases(lines)|
    ensures i < |lines| && IsHead(lines[i]) && Headers(lines[..i]) == k
    decreases |lines|
  {
    var h := LastOfPhases(lines);
    if k == |UiPhases(lines[..h])| {
      i := h;
    } else {
      i := HeaderOf(lines[..h], k);
      PrefixTwice(lines, h, i);
    }
  }

  predicate Over(p: UiPhase) {
    p.status == Complete || p.status == SkippedPhase
  }

  ghost predicate SegmentsWellPlaced(lines: seq<Line>) {
    forall i | 0 <= i < |lines| && IsHead(lines[i]) :: WellPlaced(Body(lines, i))
  }

  lemma PhaseMatches(lines: seq<Line>, i: nat)
    requires Canonical(lines) && i < |lines| && IsHead(lines[i])
    ensures Headers(lines[..i]) < |UiPhases(lines)|
    ensures var p, h := UiPhases(lines)[Headers(lines[..i])], lines[i].resolver.value;
            && p.id == h.id && p.goal == Strip(h.goal) && p.status == StatusOf(h.mark)
            && p.behaviour == UiBv(Body(lines, i))
  {
    PhaseAt(lines, i);
    StripTrimmed(lines[i].resolver.value.id);
  }

  lemma OverBefore(lines: seq<Line>, n: nat, k: nat)
    requires Canonical(lines) && n <= |lines| && k < |UiPhases(lines)| && k < Headers(lines[..n])
    requires forall i | 0 <= i < n :: !Unfinished(lines[i])
    ensures Over(UiPhases(lines)[k])
  {
    var i := HeaderOf(lines, k);
    assert i < n by { if i >= n { HeadersGrow(lines, n, i); } }
    FinishedIsOver(lines, i);
  }

  lemma FinishedIsOver(lines: seq<Line>, i: nat)
    requires Canonical(lines) && i < |lines| && IsHead(lines[i]) && !Unfinished(lines[i])
    ensures Headers(lines[..i]) < |UiPhases(lines)| && Over(UiPhases(lines)[Headers(lines[..i])])
  {
    PhaseStatus(lines, i);
  }

  /** The UI phase that the resolver's record of the prior phase is about. */
  predicate Names(prior: Prior, p: UiPhase) {
    p.status == Complete && p.id == prior.id
  }

  lemma NoneCompleteSince(lines: seq<Line>, n: nat, j: nat)
    requires Canonical(lines) && n <= |lines| && j < |UiPhases(lines)| && j < Headers(lines[..n])
    requires var last := LastTicked(lines, n); last.Some? ==> Headers(lines[..last.value]) < j
    ensures UiPhases(lines)[j].status != Complete
  {
    NoneTickedSince(lines, n);
    var i := HeaderOf(lines, j);
    var last := LastTicked(lines, n);
    if n <= i { HeadersGrow(lines, n, i); }
    if last.Some? && i <= last.value { HeadersGrow(lines, i, last.value); }
    PhaseStatus(lines, i);
  }

  lemma CountInRange(lines: seq<Line>, n: nat)
    requires Canonical(lines) && n <= |lines|
    ensures Headers(lines[..n]) <= |UiPhases(lines)|
  {
    PhaseCount(lines);
    HeadersGrow(lines, n, |lines|);
    assert lines[..|lines|] == lines;
  }

  /** `k` is the last complete phase before the first `count`, and the one the record names. */
  ghost predicate LastComplete(prior: Prior, phases: seq<UiPhase>, count: nat, k: nat)
    requires count <= |phases|
  {
    k < count && Names(prior, phases[k]) && forall j | k < j < count :: phases[j].status != Complete
  }

  lemma PriorMatches(lines: seq<Line>, n: nat)
    requires Canonical(lines) && n <= |lines|
    ensures var last, phases, count := LastTicked(lines, n), UiPhases(lines), Headers(lines[..n]);
            && count <= |phases|
            && (last.None? ==> forall k | 0 <= k < count :: phases[k].status != Complete)
            && (last.Some? ==>
                  var k, prior := Headers(lines[..last.value]), PriorAt(lines, last.value);
                  && LastComplete(prior, phases, count, k)
                  && (prior.howToCheck == CheckOf(phases[k].behaviour) <==> ChecksAgree(Body(lines, last.value))))
  {
    var last := LastTicked(lines, n);
    CountInRange(lines, n);
    if last.None? {
      NoneCompleteFrom(lines, n, 0);
    } else {
      HeadersGrow(lines, last.value, n);
      NoneCompleteFrom(lines, n, Headers(lines[..last.value]) + 1);
      NoneTickedSince(lines, n);
      PhaseMatches(lines, last.value);
      SameBehaviourExactly(Body(lines, last.value));
    }
  }

  lemma NoneCompleteFrom(lines: seq<Line>, n: nat, from: nat)
    requires Canonical(lines) && n <= |lines| && Headers(lines[..n]) <= |UiPhases(lines)|
    requires var last := LastTicked(lines, n); last.Some? ==> Headers(lines[..last.value]) < from
    ensures forall j | from <= j < Headers(lines[..n]) :: UiPhases(lines)[j].status != Complete
  {
    forall j | from <= j < Headers(lines[..n]) ensures UiPhases(lines)[j].status != Complete {
      NoneCompleteSince(lines, n, j);
    }
  }

  lemma {:induction false} NoneTickedSince(lines: seq<Line>, n: nat)
    requires n <= |lines|
    ensures var last := LastTicked(lines, n);
            && (last.Some? ==> lines[last.value].resolver.value.mark == Ticked)
            && forall i | (if last.Some? then last.value + 1 else 0) <= i < n ::
                 !(IsHead(lines[i]) && lines[i].resolver.value.mark == Ticked)
    decreases n
  {
    if n > 0 { NoneTickedSince(lines, n - 1); }
  }

  /**
   * On a canonical roadmap the resolver answers what the UI list shows: nothing exactly when every
   * phase is complete or skipped; otherwise the first other one, at its index, with the same id and
   * goal. The behavioural block is the same exactly when its bullets are placed alike.
   */
  lemma ParsersAgree(lines: seq<Line>)
    requires Canonical(lines)
    ensures Resolve(lines).None? <==> AllOver(UiPhases(lines), |UiPhases(lines)|)
    ensures var phases, n, c := UiPhases(lines), FirstFrom(lines, 0, Unfinished), Resolve(lines);
            c.Some? ==>
              && Shows(c.value, phases) && AllOver(phases, c.value.number)
              && (phases[c.value.number].behaviour == c.value.behaviour <==> BlocksAgree(Body(lines, n)))
  {
    var n := FirstFrom(lines, 0, Unfinished);
    AllOverBefore(lines, n);
    if n < |lines| { ShownAt(lines, n); }
  }

  predicate AllOver(phases: seq<UiPhase>, count: nat) {
    count <= |phases| && forall k | 0 <= k < count :: Over(phases[k])
  }

  /** The UI phase at the current phase's number is not over, and has its id and goal. */
  predicate Shows(c: Current, phases: seq<UiPhase>) {
    && c.number < |phases|
    && phases[c.number].status == (if c.blocked then BlockedPhase else Pending)
    && phases[c.number].id == c.id && phases[c.number].goal == c.goal
  }

  lemma ShownAt(lines: seq<Line>, n: nat)
    requires Canonical(lines) && n < |lines| && Unfinished(lines[n])
    ensures var phases, c := UiPhases(lines), CurrentAt(lines, n);
            Shows(c, phases) && (phases[c.number].behaviour == c.behaviour <==> BlocksAgree(Body(lines, n)))
  {
    PhaseMatches(lines, n);
    SameBehaviourExactly(Body(lines, n));
  }

  /**
   * The prior phase the resolver reports is the last complete one before the current phase in the UI
   * list, and there is none exactly when that list has none; its way to check is the same exactly
   * when the bullets of its segment are placed alike.
   */
  lemma PriorAgrees(lines: seq<Line>)
    requires Canonical(lines) && Resolve(lines).Some?
    ensures var phases, n, c := UiPhases(lines), FirstFrom(lines, 0, Unfinished), Resolve(lines).value;
            var last, count := LastTicked(lines, n), c.number;
            && count <= |phases| && (c.prior.None? <==> last.None?)
            && (c.prior.None? ==> forall k | 0 <= k < count :: phases[k].status != Complete)
            && (c.prior.Some? ==>
                  var k := Headers(lines[..last.value]);
                  && LastComplete(c.prior.value, phases, count, k)
                  && (c.prior.value.howToCheck == CheckOf(phases[k].behaviour) <==>
                        ChecksAgree(Body(lines, last.value))))
  {
    PriorMatches(lines, FirstFrom(lines, 0, Unfinished));
  }

  lemma AllOverBefore(lines: seq<Line>, n: nat)
    requires Canonical(lines) && n == FirstFrom(lines, 0, Unfinished)
    ensures AllOver(UiPhases(lines), Headers(lines[..n]))
    ensures n == |lines| ==> Headers(lines[..n]) == |UiPhases(lines)|
  {
    CountInRange(lines, n);
    PhaseCount(lines);
    assert lines[..|lines|] == lines;
    forall k | 0 <= k < Headers(lines[..n]) ensures Over(UiPhases(lines)[k]) { OverBefore(lines, n, k); }
  }

  function Bullets(b: Behaviour): seq<Line> {
    [Bullet(UserObservable, b.userObservable), Bullet(HowToCheck, b.howToCheck),
     Bullet(FailureLanguage, b.failureLanguage)]
  }

  lemma BulletsRead(b: Behaviour)
    ensures LastBullet(Bullets(b), UserObservable) == Some(b.userObservable)
    ensures LastBullet(Bullets(b), HowToCheck) == Some(b.howToCheck)
    ensures LastBullet(Bullets(b), FailureLanguage) == Some(b.failureLanguage)
  {
    var l := Bullets(b);
    assert l[..2] + [l[2]] == l && l[..1] + [l[1]] == l[..2];
    LastBulletOn(l[..2], l[2], UserObservable);
    LastBulletOn(l[..2], l[2], HowToCheck);
    LastBulletOn(l[..2], l[2], FailureLanguage);
    LastBulletOn(l[..1], l[1], UserObservable);
    LastBulletOn(l[..1], l[1], HowToCheck);
    LastBulletOn([], l[0], UserObservable);
    assert l[..1] == [] + [l[0]];
  }

  lemma HeadedRead(b: Behaviour)
    ensures BvRegion([BvHead] + Bullets(b)) == Bullets(b)
    ensures forall field: Field :: LastBullet([BvHead] + Bullets(b), field) == LastBullet(Bullets(b), field)
  {
    var l := [BvHead] + Bullets(b);
    FirstUnique(l, 0, (x: Line) => x.BvHead?, 0);
    FirstUnique(l, 1, (x: Line) => x.Section? || IsHead(x), 4);
    forall field: Field ensures LastBullet(l, field) == LastBullet(Bullets(b), field) {
      LastBulletAmong([BvHead], Bullets(b), [], field);
      assert [BvHead] + Bullets(b) + [] == l;
    }
  }

  /** Bullets under no behavioural header, or without text, are enough to part the two readers. */
  lemma MisplacedBulletsPart(b: Behaviour)
    requires b.userObservable != "" && b.howToCheck != ""
    ensures ResolverBv(Bullets(b)) == None
    ensures UiBv(Bullets(b)) == if b.failureLanguage != "" then Some(b) else None
    ensures ResolverBv([BvHead] + Bullets(b)) == Some(b)
    ensures UiBv([BvHead] + Bullets(b)) == if b.failureLanguage != "" then Some(b) else None
    ensures BlocksAgree(Bullets(b)) <==> b.failureLanguage == ""
    ensures BlocksAgree([BvHead] + Bullets(b)) <==> b.failureLanguage != ""
  {
    SameBehaviourExactly(Bullets(b));
    SameBehaviourExactly([BvHead] + Bullets(b));
    BulletsRead(b);
    HeadedRead(b);
    FirstUnique(Bullets(b), 0, (x: Line) => x.BvHead?, 3);
  }
}
