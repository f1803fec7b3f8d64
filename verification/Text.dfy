/**
 * The few `str` operations of Python that the modelled code relies on.
 *
 * Whitespace is what `str.isspace` accepts among the characters up to U+3000: the ASCII controls
 * from tab to carriage return and from file separator to unit separator, the blank, and the Unicode
 * spaces. Stripping on the left, on the right and on both sides follows it.
 *
 * Case folding, where it is needed at all, stays ASCII and is defined where it is used.
 */
module Text {

  /** `c.isspace()`. */
  predicate IsSpace(c: char) {
    var n := c as int;
    || 0x09 <= n <= 0x0D
    || 0x1C <= n <= 0x20
    || n == 0x85 || n == 0xA0 || n == 0x1680
    || 0x2000 <= n <= 0x200A
    || n == 0x2028 || n == 0x2029 || n == 0x202F || n == 0x205F || n == 0x3000
  }

  /** `not s.strip()`. */
  predicate Blank(s: string) {
    forall i | 0 <= i < |s| :: IsSpace(s[i])
  }

  /** `s.lstrip()`. */
  function StripLeft(s: string): (r: string)
    ensures r == "" || !IsSpace(r[0])
    ensures r == "" <==> Blank(s)
  {
    if s == "" || !IsSpace(s[0]) then s
    else
      assert Blank(s[1..]) ==> Blank(s) by {
        assert forall i | 1 <= i < |s| :: s[i] == s[1..][i - 1];
      }
      StripLeft(s[1..])
  }

  /** `s.rstrip()`. */
  function StripRight(s: string): (r: string)
    ensures r == "" || !IsSpace(r[|r| - 1])
    ensures r == "" <==> Blank(s)
    ensures r <= s
  {
    if s == "" || !IsSpace(s[|s| - 1]) then s else StripRight(s[..|s| - 1])
  }

  /** `s.strip()`. */
  function Strip(s: string): string {
    StripRight(StripLeft(s))
  }

  predicate Trimmed(s: string) {
    s == "" || (!IsSpace(s[0]) && !IsSpace(s[|s| - 1]))
  }

  /** Stripping leaves nothing exactly when there was nothing but whitespace. */
  lemma StripBlank(s: string)
    ensures Strip(s) == "" <==> Blank(s)
    ensures Trimmed(Strip(s))
  {
    var r := StripRight(StripLeft(s));
    assert r != "" ==> r[0] == StripLeft(s)[0];
  }

  /** A string with no outer whitespace is left alone. */
  lemma StripTrimmed(s: string)
    requires Trimmed(s)
    ensures Strip(s) == s
  {
  }

  lemma {:induction false} StripLeftAppend(s: string, t: string)
    ensures StripLeft(s + t) == if Blank(s) then StripLeft(t) else StripLeft(s) + t
    decreases |s|
  {
    if s == "" {
      assert s + t == t;
    } else if IsSpace(s[0]) {
      assert (s + t)[1..] == s[1..] + t;
      StripLeftAppend(s[1..], t);
      BlankTail(s);
    }
  }

  lemma BlankTail(s: string)
    requires s != "" && IsSpace(s[0])
    ensures Blank(s) <==> Blank(s[1..])
  {
    assert forall i | 1 <= i < |s| :: s[i] == s[1..][i - 1];
  }

  lemma {:induction false} StripRightAppend(s: string, t: string)
    ensures StripRight(s + t) == if Blank(t) then StripRight(s) else s + StripRight(t)
    decreases |t|
  {
    if t == "" {
      assert s + t == s;
    } else {
      var init := t[..|t| - 1];
      assert (s + t)[..|s + t| - 1] == s + init;
      if IsSpace(t[|t| - 1]) {
        StripRightAppend(s, init);
        assert Blank(t) <==> Blank(init) by {
          assert forall i | 0 <= i < |init| :: init[i] == t[i];
        }
      } else {
        assert !Blank(t);
      }
    }
  }
}
