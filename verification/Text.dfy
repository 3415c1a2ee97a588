/**
 The Python string operations the modelled code relies on: decimal printing of naturals,
 `str.strip`, `str.count` and `str.replace`. Text is restricted to ASCII.
 */
module Text {

  /** Repeats what `str(n)` prints for a natural number. */
  function Digits(n: nat): (s: string)
    ensures |s| > 0 && forall c | c in s :: IsDigit(c)
  {
    if n < 10 then [DigitChar(n)] else Digits(n / 10) + [DigitChar(n % 10)]
  }

  predicate IsDigit(c: char) { '0' <= c <= '9' }

  function DigitChar(d: nat): (c: char)
    requires d < 10
    ensures IsDigit(c) && DigitValue(c) == d
  {
    (('0' as int) + d) as char
  }

  function DigitValue(c: char): nat
    requires IsDigit(c)
  {
    (c as int) - ('0' as int)
  }

  /** The number a digit string denotes, leading zeros allowed; the empty string denotes 0. */
  function DigitsValue(s: string): nat
    requires forall c | c in s :: IsDigit(c)
  {
    if s == [] then 0
    else 10 * DigitsValue(s[..|s| - 1]) + DigitValue(s[|s| - 1])
  }

  lemma {:induction false} DigitsRoundTrip(n: nat)
    ensures DigitsValue(Digits(n)) == n
  {
    if n < 10 {
      assert DigitsValue([]) == 0;
      assert Digits(n)[..0] == [];
    } else {
      DigitsRoundTrip(n / 10);
      assert Digits(n)[..|Digits(n)| - 1] == Digits(n / 10);
    }
  }

  lemma DigitsInjective(m: nat, n: nat)
    requires Digits(m) == Digits(n)
    ensures m == n
  {
    DigitsRoundTrip(m);
    DigitsRoundTrip(n);
  }

  /** ASCII characters `str.isspace` accepts. */
  predicate IsSpace(c: char) {
    || 9 <= c as int <= 13
    || 28 <= c as int <= 32
  }

  function StripLeft(s: string): string {
    if s != [] && IsSpace(s[0]) then StripLeft(s[1..]) else s
  }

  function StripRight(s: string): string {
    if s != [] && IsSpace(s[|s| - 1]) then StripRight(s[..|s| - 1]) else s
  }

  function Strip(s: string): string {
    StripRight(StripLeft(s))
  }

  predicate Trimmed(s: string) {
    s == [] || (!IsSpace(s[0]) && !IsSpace(s[|s| - 1]))
  }

  lemma {:induction false} StripRightTrims(s: string)
    requires s == [] || !IsSpace(s[0])
    ensures Trimmed(StripRight(s))
    decreases |s|
  {
    if s != [] && IsSpace(s[|s| - 1]) {
      StripRightTrims(s[..|s| - 1]);
    }
  }

  lemma {:induction false} StripLeftTrims(s: string)
    ensures StripLeft(s) == [] || !IsSpace(StripLeft(s)[0])
    decreases |s|
  {
    if s != [] && IsSpace(s[0]) {
      StripLeftTrims(s[1..]);
    }
  }

  lemma StripTrims(s: string)
    ensures Trimmed(Strip(s))
    ensures Trimmed(s) ==> Strip(s) == s
  {
    StripLeftTrims(s);
    StripRightTrims(StripLeft(s));
  }

  ghost predicate OnlySpaces(s: string) { forall c :: c in s ==> IsSpace(c) }

  /** Tab, line feed, vertical tab, form feed, carriage return, the four separators, and the space. */
  lemma Spaces(c: char)
    ensures IsSpace(c) <==>
              || c == '\t' || c == '\n' || c as int == 11 || c as int == 12 || c == '\r'
              || c as int == 28 || c as int == 29 || c as int == 30 || c as int == 31 || c == ' '
  {
  }

  lemma {:induction false} StripLeftDrops(s: string) returns (pre: string)
    ensures OnlySpaces(pre) && s == pre + StripLeft(s)
    decreases |s|
  {
    if s != [] && IsSpace(s[0]) {
      var rest := StripLeftDrops(s[1..]);
      pre := [s[0]] + rest;
    } else {
      pre := [];
    }
  }

  lemma {:induction false} StripRightDrops(s: string) returns (post: string)
    ensures OnlySpaces(post) && s == StripRight(s) + post
    decreases |s|
  {
    if s != [] && IsSpace(s[|s| - 1]) {
      var rest := StripRightDrops(s[..|s| - 1]);
      post := rest + [s[|s| - 1]];
    } else {
      post := [];
    }
  }

  lemma {:induction false} StripLeftOfSpaces(pre: string, s: string)
    requires OnlySpaces(pre)
    ensures StripLeft(pre + s) == StripLeft(s)
  {
    if pre == [] {
      assert pre + s == s;
    } else {
      assert (pre + s)[1..] == pre[1..] + s;
      StripLeftOfSpaces(pre[1..], s);
    }
  }

  lemma {:induction false} StripRightOfSpaces(s: string, post: string)
    requires OnlySpaces(post)
    ensures StripRight(s + post) == StripRight(s)
  {
    if post == [] {
      assert s + post == s;
    } else {
      assert (s + post)[..|s + post| - 1] == s + post[..|post| - 1];
      StripRightOfSpaces(s, post[..|post| - 1]);
    }
  }

  lemma StripOf(pre: string, t: string, post: string)
    requires Trimmed(t) && OnlySpaces(pre) && OnlySpaces(post)
    ensures Strip(pre + t + post) == t
  {
    assert pre + t + post == pre + (t + post);
    StripLeftOfSpaces(pre, t + post);
    if t == [] {
      assert t + post == post && post == post + [];
      StripLeftOfSpaces(post, []);
    } else {
      StripRightOfSpaces(t, post);
    }
  }

  /** strip() removes all white space at both ends, and nothing else. */
  lemma StripExactly(s: string, t: string)
    ensures Strip(s) == t <==> Trimmed(t) && exists pre, post :: OnlySpaces(pre) && OnlySpaces(post) && s == pre + t + post
  {
    StripTrims(s);
    hide Trimmed, OnlySpaces, StripLeft, StripRight;
    if Strip(s) == t {
      var pre := StripLeftDrops(s);
      var post := StripRightDrops(StripLeft(s));
      assert s == pre + t + post;
    }
    if Trimmed(t) {
      forall pre, post | OnlySpaces(pre) && OnlySpaces(post) && s == pre + t + post
        ensures Strip(s) == t
      {
        StripOf(pre, t, post);
      }
    }
  }

  /** Non-overlapping occurrences of `w`, scanned from the left. */
  function Count(s: string, w: string): nat
    requires w != []
    decreases |s|
  {
    if |s| < |w| then 0
    else if w <= s then 1 + Count(s[|w|..], w)
    else Count(s[1..], w)
  }

  /** Every occurrence of `w` that `Count` counts is exchanged for `into`. */
  function Replace(s: string, w: string, into: string): string
    requires w != []
    decreases |s|
  {
    if |s| < |w| then s
    else if w <= s then into + Replace(s[|w|..], w, into)
    else [s[0]] + Replace(s[1..], w, into)
  }

  predicate EndsWith(s: string, suffix: string) {
    |suffix| <= |s| && s[|s| - |suffix|..] == suffix
  }
}
