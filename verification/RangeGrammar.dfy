/**
 Which texts the range-list parser accepts and what they stand for (src/utils/numeric.py), told of
 the characters: numbers as int() reads them, items and whole lists.
 */
module RangeGrammar {
  import opened Collections
  import opened Wrappers
  import opened Text
  import opened RangeParser
  import opened RangeRoundTrip

  // ---------------------------------------------------------------- numbers

  ghost predicate OnlyIntSpaces(s: string) { forall c :: c in s ==> IsIntSpace(c) }

  /** Tab, line feed, vertical tab, form feed, carriage return and space. */
  lemma IntSpaces(c: char)
    ensures IsIntSpace(c) <==> c == '\t' || c == '\n' || c as int == 11 || c as int == 12 || c == '\r' || c == ' '
  {
  }

  ghost predicate IntTrimmed(t: string) {
    t == [] || (!IsIntSpace(t[0]) && !IsIntSpace(t[|t| - 1]))
  }

  lemma {:induction false} TrimDrops(s: string) returns (pre: string, post: string)
    ensures OnlyIntSpaces(pre) && OnlyIntSpaces(post) && s == pre + TrimInt(s) + post && IntTrimmed(TrimInt(s))
    decreases |s|
  {
    if s != [] && IsIntSpace(s[0]) {
      pre, post := TrimDrops(s[1..]);
      pre := [s[0]] + pre;
    } else if s != [] && IsIntSpace(s[|s| - 1]) {
      pre, post := TrimDrops(s[..|s| - 1]);
      post := post + [s[|s| - 1]];
    } else {
      pre, post := [], [];
    }
  }

  lemma {:induction false} TrimLeft(pre: string, s: string)
    requires OnlyIntSpaces(pre)
    ensures TrimInt(pre + s) == TrimInt(s)
  {
    if pre == [] {
      assert pre + s == s;
    } else {
      assert (pre + s)[1..] == pre[1..] + s;
      TrimLeft(pre[1..], s);
    }
  }

  lemma {:induction false} TrimRight(t: string, post: string)
    requires t != [] && IntTrimmed(t) && OnlyIntSpaces(post)
    ensures TrimInt(t + post) == t
  {
    if post == [] {
      assert t + post == t;
    } else {
      assert (t + post)[..|t + post| - 1] == t + post[..|post| - 1];
      TrimRight(t, post[..|post| - 1]);
    }
  }

  function WithSign(sign: string, n: nat): int {
    if sign == "-" then -(n as int) else n
  }

  /** White space, at most one sign, digits with single underscores between them, white space. */
  ghost predicate Writes(pre: string, sign: string, body: string, post: string, s: string, n: int) {
    && s == pre + (sign + body) + post && OnlyIntSpaces(pre) && OnlyIntSpaces(post)
    && (sign == "" || sign == "+" || sign == "-")
    && IsDigitGroups(body) && n == WithSign(sign, DigitsValue(OnlyDigits(body)))
  }

  ghost predicate IsNumber(s: string, n: int) {
    exists pre, sign, body, post :: Writes(pre, sign, body, post, s, n)
  }

  lemma SignedIsTrimmed(sign: string, body: string)
    requires (sign == "" || sign == "+" || sign == "-") && IsDigitGroups(body)
    ensures sign + body != [] && IntTrimmed(sign + body)
    ensures sign == "" ==> body[0] != '+' && body[0] != '-'
  {
    var t := sign + body;
    assert t[|t| - 1] == body[|body| - 1];
    assert t[0] == if sign == "" then body[0] else sign[0];
  }

  /** int() reads exactly these texts, with these values. */
  lemma NumberExactly(s: string, n: int)
    ensures ParseInt(s) == Some(n) <==> IsNumber(s, n)
  {
    if ParseInt(s) == Some(n) {
      var pre, post := TrimDrops(s);
      NumberHasForm(s, pre, post, n);
    }
    hide ParseInt, Writes;
    forall pre, sign, body, post | Writes(pre, sign, body, post, s, n)
      ensures ParseInt(s) == Some(n)
    {
      FormIsNumber(pre, sign, body, post, s, n);
    }
  }

  lemma NumberHasForm(s: string, pre: string, post: string, n: int)
    requires ParseInt(s) == Some(n) && s == pre + TrimInt(s) + post && OnlyIntSpaces(pre) && OnlyIntSpaces(post)
    ensures IsNumber(s, n)
  {
    hide OnlyDigits, DigitsValue, OnlyIntSpaces;
    var t := TrimInt(s);
    hide TrimInt;
    if t != [] && (t[0] == '+' || t[0] == '-') {
      assert t == [t[0]] + t[1..];
      assert Writes(pre, [t[0]], t[1..], post, s, n);
    } else {
      assert t == "" + t;
      assert Writes(pre, "", t, post, s, n);
    }
  }

  lemma FormIsNumber(pre: string, sign: string, body: string, post: string, s: string, n: int)
    requires Writes(pre, sign, body, post, s, n)
    ensures ParseInt(s) == Some(n)
  {
    var t := sign + body;
    SignedIsTrimmed(sign, body);
    assert s == pre + (t + post);
    TrimLeft(pre, t + post);
    TrimRight(t, post);
    hide TrimInt, OnlyDigits, DigitsValue, OnlyIntSpaces, IntTrimmed, IsDigitGroups;
    if sign == "" {
      assert t == body;
    } else {
      assert t[0] == sign[0] && t[1..] == body;
    }
  }

  /** str() writes what int() reads back, below zero too. */
  lemma ShownReadsBack(n: int)
    ensures ParseInt(Show(n)) == Some(n)
  {
    hide ParseInt, Digits;
    if n >= 0 {
      ParseIntOfDigits(n);
    } else {
      NegativeReadsBack(-n);
    }
  }

  lemma NegativeReadsBack(m: nat)
    ensures ParseInt("-" + Digits(m)) == Some(-(m as int))
  {
    DigitsAreWritten(m);
    hide ParseInt, Digits, IsDigitGroups, OnlyDigits, DigitsValue;
    assert Writes([], "-", Digits(m), [], "-" + Digits(m), -(m as int)) by {
      assert "-" + Digits(m) == [] + ("-" + Digits(m)) + [];
    }
    NumberExactly("-" + Digits(m), -(m as int));
  }

  lemma DigitsAreWritten(m: nat)
    ensures IsDigitGroups(Digits(m)) && DigitsValue(OnlyDigits(Digits(m))) == m
  {
    var s := Digits(m);
    hide Digits;
    assert forall i :: 0 <= i < |s| ==> s[i] in s;
    OnlyDigitsAlready(s);
    DigitsRoundTrip(m);
  }

  lemma {:induction false} OnlyDigitsAlready(s: string)
    requires forall i :: 0 <= i < |s| ==> IsDigit(s[i])
    ensures OnlyDigits(s) == s
  {
    if s != [] {
      OnlyDigitsAlready(s[1..]);
    }
  }

  // ---------------------------------------------------------------- items

  lemma {:induction false} JoinSplit(s: string, sep: char)
    ensures Join(Split(s, sep), sep) == s
  {
    if s != [] {
      var rest := Split(s[1..], sep);
      JoinSplit(s[1..], sep);
      assert s == [s[0]] + s[1..];
      if s[0] == sep {
        assert ([[]] + rest)[1..] == rest;
        assert Join([[]] + rest, sep) == [] + [sep] + Join(rest, sep);
      } else {
        JoinHead(s[0], rest, sep);
      }
    }
  }

  lemma JoinHead(c: char, parts: seq<string>, sep: char)
    requires parts != []
    ensures Join([[c] + parts[0]] + parts[1..], sep) == [c] + Join(parts, sep)
  {
    var longer := [[c] + parts[0]] + parts[1..];
    if |parts| > 1 {
      assert longer[1..] == parts[1..];
      assert [c] + parts[0] + [sep] + Join(parts[1..], sep) == [c] + (parts[0] + [sep] + Join(parts[1..], sep));
    }
  }

  /** One separator splits a text into what stands before and behind it. */
  lemma TwoParts(s: string, sep: char, l: string, r: string)
    ensures Split(s, sep) == [l, r] <==> s == l + [sep] + r && sep !in l && sep !in r
  {
    if Split(s, sep) == [l, r] {
      JoinSplit(s, sep);
      SplitPartsLackSeparator(s, sep);
      assert [l, r][1..] == [r];
      assert l in [l, r] && r in [l, r];
    }
    if s == l + [sep] + r && sep !in l && sep !in r {
      SplitAtSeparator(l, sep, r);
      SplitFree(r, sep);
    }
  }

  /** A number of digits alone stands for itself; two numbers with one hyphen between them for the range from the lower to the higher one. */
  ghost predicate IsItem(num: string, a: int, b: int) {
    || (IsNumeric(num) && IsNumber(num, a) && a == b)
    || exists l, r :: IsRangeOf(num, l, r, a, b)
  }

  ghost predicate IsRangeOf(num: string, l: string, r: string, a: int, b: int) {
    && num == l + ['-'] + r && '-' !in l && '-' !in r && a <= b
    && ((IsNumber(l, a) && IsNumber(r, b)) || (IsNumber(l, b) && IsNumber(r, a)))
  }

  lemma HyphenIsNotNumeric(l: string, r: string)
    ensures !IsNumeric(l + ['-'] + r)
  {
    var num := l + ['-'] + r;
    assert num[|l|] == '-' && num[|l|] in num;
  }

  lemma NumericItem(num: string, a: int, b: int)
    requires IsNumeric(num)
    ensures ParseSegment(num) == Some((a, b)) <==> IsItem(num, a, b)
  {
    NumberExactly(num, a);
    forall l, r
      ensures !IsRangeOf(num, l, r, a, b)
    {
      HyphenIsNotNumeric(l, r);
    }
    hide ParseInt, IsNumber;
  }

  /** The segment of two bounds. */
  lemma BoundsExactly(l: string, r: string, a: int, b: int)
    ensures var m, n := ParseInt(l), ParseInt(r);
            m.Some? && n.Some? && (a, b) == (if m.value <= n.value then (m.value, n.value) else (n.value, m.value)) <==>
              a <= b && ((IsNumber(l, a) && IsNumber(r, b)) || (IsNumber(l, b) && IsNumber(r, a)))
  {
    hide ParseInt, IsNumber;
    NumberExactly(l, a);
    NumberExactly(r, b);
    NumberExactly(l, b);
    NumberExactly(r, a);
  }

  lemma TwoPartItem(num: string, l: string, r: string, a: int, b: int)
    requires !IsNumeric(num) && Split(num, '-') == [l, r]
    ensures ParseSegment(num) == Some((a, b)) <==> IsRangeOf(num, l, r, a, b)
  {
    hide ParseInt, IsNumber, ParseSegment, IsNumeric, Split;
    ItemForms(num, [l, r]);
    TwoParts(num, '-', l, r);
    BoundsExactly(l, r, a, b);
  }

  lemma RangeItem(num: string, a: int, b: int)
    requires !IsNumeric(num)
    ensures ParseSegment(num) == Some((a, b)) <==> exists l, r :: IsRangeOf(num, l, r, a, b)
  {
    var parts := Split(num, '-');
    ItemForms(num, parts);
    hide ParseInt, IsNumber, ParseSegment, IsNumeric;
    forall l, r | IsRangeOf(num, l, r, a, b)
      ensures parts == [l, r]
    {
      TwoParts(num, '-', l, r);
    }
    hide Split, IsRangeOf;
    if |parts| == 2 {
      var l, r := parts[0], parts[1];
      assert parts == [l, r];
      TwoPartItem(num, l, r, a, b);
    }
  }

  /** The parser takes exactly these items, as these segments. */
  lemma ItemExactly(num: string, a: int, b: int)
    ensures ParseSegment(num) == Some((a, b)) <==> IsItem(num, a, b)
  {
    hide *;
    if IsNumeric(num) {
      NumericItem(num, a, b);
    } else {
      RangeItem(num, a, b);
      NotNumericItem(num, a, b);
    }
  }

  lemma NotNumericItem(num: string, a: int, b: int)
    requires !IsNumeric(num)
    ensures IsItem(num, a, b) <==> exists l, r :: IsRangeOf(num, l, r, a, b)
  {
    hide IsNumeric, IsNumber;
  }

  // ---------------------------------------------------------------- lists

  /** Items and segments are worked off from left to right. */
  lemma {:induction false} ValidSegmentsInOrder(a: seq<string>, b: seq<string>)
    ensures ValidSegments(a + b) == ValidSegments(a) + ValidSegments(b)
    ensures |a| == 1 ==> ValidSegments(a) == if ParseSegment(a[0]).Some? then [ParseSegment(a[0]).value] else []
  {
    hide ParseSegment;
    if |a| == 1 {
      assert a[..0] == [];
    }
    if b == [] {
      assert a + b == a;
    } else {
      assert (a + b)[..|a + b| - 1] == a + b[..|b| - 1];
      ValidSegmentsInOrder(a, b[..|b| - 1]);
    }
  }

  lemma {:induction false} ExpandInOrder(a: seq<Segment>, b: seq<Segment>)
    ensures Expand(a + b) == Expand(a) + Expand(b)
    ensures |a| == 1 ==> Expand(a) == Range(a[0].0, a[0].1)
  {
    if |a| == 1 {
      assert a[..0] == [];
    }
    if b == [] {
      assert a + b == a;
    } else {
      assert (a + b)[..|a + b| - 1] == a + b[..|b| - 1];
      ExpandInOrder(a, b[..|b| - 1]);
    }
  }

  /** An item contributes the numbers from a to b, and a text that is no item nothing. */
  ghost predicate Contributes(item: string, chunk: seq<int>) {
    if chunk == [] then forall a, b :: !IsItem(item, a, b)
    else IsItem(item, chunk[0], chunk[0] + |chunk| - 1) && forall k :: 0 <= k < |chunk| ==> chunk[k] == chunk[0] + k
  }

  ghost function Flatten(chunks: seq<seq<int>>): seq<int> {
    if chunks == [] then [] else chunks[0] + Flatten(chunks[1..])
  }

  lemma ChunkOf(item: string) returns (chunk: seq<int>)
    ensures Contributes(item, chunk)
    ensures chunk == Expand(ValidSegments([item]))
  {
    SegmentIsOrdered(item);
    hide ParseSegment, IsItem, ValidSegments, Expand;
    ValidSegmentsInOrder([item], []);
    var segment := ParseSegment(item);
    if segment.Some? {
      var a, b := segment.value.0, segment.value.1;
      ExpandInOrder([segment.value], []);
      ItemExactly(item, a, b);
      chunk := Range(a, b);
    } else {
      forall a, b
        ensures !IsItem(item, a, b)
      {
        ItemExactly(item, a, b);
      }
      chunk := [];
      ExpandNothing();
    }
  }

  lemma ExpandNothing()
    ensures Expand([]) == []
  {
  }

  lemma {:induction false} ItemsContribute(items: seq<string>) returns (chunks: seq<seq<int>>)
    ensures |chunks| == |items| && forall i :: 0 <= i < |items| ==> Contributes(items[i], chunks[i])
    ensures Flatten(chunks) == Expand(ValidSegments(items))
  {
    if items == [] {
      chunks := [];
    } else {
      var item, rest := items[0], items[1..];
      var chunk := ChunkOf(item);
      var later := ItemsContribute(rest);
      chunks := [chunk] + later;
      assert items == [item] + rest;
      hide Contributes, ValidSegments, Expand;
      ValidSegmentsInOrder([item], rest);
      ExpandInOrder(ValidSegments([item]), ValidSegments(rest));
    }
  }

  /**
   The whole parser: the text without its spaces is a list of comma-separated items, and the result is
   what they contribute from left to right, unless that is more than allowed.
   */
  lemma ParsedExactly(s: string, maxItems: int, items: seq<string>) returns (chunks: seq<seq<int>>)
    requires items != [] && Join(items, ',') == RemoveSpaces(s) && forall item :: item in items ==> ',' !in item
    ensures |chunks| == |items| && forall i :: 0 <= i < |items| ==> Contributes(items[i], chunks[i])
    ensures Parse(s, maxItems) ==
            if maxItems < 0 then Err(NegativeLimit)
            else if |Flatten(chunks)| > maxItems then Err(TooManyItems)
            else Ok(Flatten(chunks))
  {
    hide Contributes, ValidSegments, Expand, Total, Split, Join, RemoveSpaces;
    SplitJoin(items, ',');
    chunks := ItemsContribute(items);
    ExpandSize(ValidSegments(items));
  }
}
