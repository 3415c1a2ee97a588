/**
 The range-list parser parse_str_to_list (src/utils/numeric.py), on ASCII text.
 */
module RangeParser {
  import opened Wrappers
  import opened Text

  type Segment = (int, int)

  datatype ParseError = NegativeLimit | TooManyItems

  // ---------------------------------------------------------------- Python's string and int functions

  function RemoveSpaces(s: string): string {
    if s == [] then [] else (if s[0] == ' ' then [] else [s[0]]) + RemoveSpaces(s[1..])
  }

  /** str.split with a one-character separator. */
  function Split(s: string, sep: char): (parts: seq<string>)
    ensures parts != []
  {
    if s == [] then [[]]
    else
      var rest := Split(s[1..], sep);
      if s[0] == sep then [[]] + rest else [[s[0]] + rest[0]] + rest[1..]
  }

  /** str.join with a one-character separator. */
  function Join(parts: seq<string>, sep: char): string {
    if parts == [] then []
    else if |parts| == 1 then parts[0]
    else parts[0] + [sep] + Join(parts[1..], sep)
  }

  /** str.isnumeric */
  predicate IsNumeric(s: string) {
    s != [] && forall c :: c in s ==> IsDigit(c)
  }

  predicate IsIntSpace(c: char) { 9 <= c as int <= 13 || c == ' ' }

  function TrimInt(s: string): string
    decreases |s|
  {
    if s != [] && IsIntSpace(s[0]) then TrimInt(s[1..])
    else if s != [] && IsIntSpace(s[|s| - 1]) then TrimInt(s[..|s| - 1])
    else s
  }

  /** Digits, with single underscores between them. */
  predicate IsDigitGroups(s: string) {
    && s != []
    && (forall i :: 0 <= i < |s| ==> IsDigit(s[i]) || s[i] == '_')
    && s[0] != '_' && s[|s| - 1] != '_'
    && (forall i :: 0 <= i < |s| - 1 ==> s[i] != '_' || s[i + 1] != '_')
  }

  function OnlyDigits(s: string): (r: string)
    ensures forall c :: c in r ==> IsDigit(c)
  {
    if s == [] then [] else (if IsDigit(s[0]) then [s[0]] else []) + OnlyDigits(s[1..])
  }

  /** int(s); None stands for the ValueError. */
  function ParseInt(s: string): Option<int> {
    var t := TrimInt(s);
    var body := if t != [] && (t[0] == '+' || t[0] == '-') then t[1..] else t;
    if !IsDigitGroups(body) then None
    else if t[0] == '-' then Some(-(DigitsValue(OnlyDigits(body)) as int))
    else Some(DigitsValue(OnlyDigits(body)))
  }

  /** str(n) */
  function Show(n: int): string {
    if n >= 0 then Digits(n) else "-" + Digits(-n)
  }

  // ---------------------------------------------------------------- specification of the parser

  /** One comma-separated item: a number, a range in either order, or nothing usable. */
  function ParseSegment(num: string): Option<Segment> {
    if IsNumeric(num) then
      var value := ParseInt(num);
      if value.None? then None else Some((value.value, value.value))
    else
      var parts := Split(num, '-');
      if |parts| != 2 then None
      else
        var l, r := ParseInt(parts[0]), ParseInt(parts[1]);
        if l.None? || r.None? then None
        else if l.value > r.value then Some((r.value, l.value))
        else Some((l.value, r.value))
  }

  lemma SegmentIsOrdered(num: string)
    ensures ParseSegment(num).Some? ==> ParseSegment(num).value.0 <= ParseSegment(num).value.1
  {
  }

  function ValidSegments(nums: seq<string>): (segments: seq<Segment>)
    ensures forall s :: s in segments ==> s.0 <= s.1
  {
    if nums == [] then []
    else
      var last := ParseSegment(nums[|nums| - 1]);
      ValidSegments(nums[..|nums| - 1]) + (if last.Some? then [last.value] else [])
  }

  /** How many numbers the segments stand for. */
  function Total(segments: seq<Segment>): int {
    if segments == [] then 0
    else Total(segments[..|segments| - 1]) + (segments[|segments| - 1].1 - segments[|segments| - 1].0 + 1)
  }

  /** range(left, right + 1) */
  function Range(left: int, right: int): (r: seq<int>)
    ensures |r| == if left <= right then right - left + 1 else 0
    ensures forall i :: 0 <= i < |r| ==> r[i] == left + i
    decreases right - left + 1
  {
    if left > right then [] else Range(left, right - 1) + [right]
  }

  function Expand(segments: seq<Segment>): seq<int> {
    if segments == [] then []
    else Expand(segments[..|segments| - 1]) + Range(segments[|segments| - 1].0, segments[|segments| - 1].1)
  }

  function Parse(s: string, maxItems: int): Result<seq<int>, ParseError> {
    var segments := ValidSegments(Split(RemoveSpaces(s), ','));
    if maxItems < 0 then Err(NegativeLimit)
    else if Total(segments) > maxItems then Err(TooManyItems)
    else Ok(Expand(segments))
  }

  lemma {:induction false} ExpandSize(segments: seq<Segment>)
    requires forall s :: s in segments ==> s.0 <= s.1
    ensures |Expand(segments)| == Total(segments) >= |segments|
  {
    if segments != [] {
      ExpandSize(segments[..|segments| - 1]);
      assert segments[|segments| - 1] in segments;
    }
  }

  /** The parser never returns more than maxItems numbers, and refuses exactly when the valid items total more. */
  lemma ParserIsBounded(s: string, maxItems: int)
    ensures Parse(s, maxItems).Ok? ==> |Parse(s, maxItems).value| <= maxItems
    ensures Parse(s, maxItems).Err? <==> maxItems < 0 || |Expand(ValidSegments(Split(RemoveSpaces(s), ',')))| > maxItems
  {
    ExpandSize(ValidSegments(Split(RemoveSpaces(s), ',')));
  }

  lemma TotalAdd(segments: seq<Segment>, segment: Segment)
    ensures Total(segments + [segment]) == Total(segments) + (segment.1 - segment.0 + 1)
  {
    assert (segments + [segment])[..|segments|] == segments;
  }

  /** What one more comma-separated item contributes. */
  lemma AddSegment(nums: seq<string>, num: string)
    ensures ParseSegment(num).None? ==> ValidSegments(nums + [num]) == ValidSegments(nums)
    ensures ParseSegment(num).Some? ==>
              && ParseSegment(num).value.0 <= ParseSegment(num).value.1
              && ValidSegments(nums + [num]) == ValidSegments(nums) + [ParseSegment(num).value]
              && Total(ValidSegments(nums + [num])) ==
                 Total(ValidSegments(nums)) + (ParseSegment(num).value.1 - ParseSegment(num).value.0 + 1)
  {
    assert (nums + [num])[..|nums|] == nums;
    SegmentIsOrdered(num);
    hide ParseSegment;
    if ParseSegment(num).Some? {
      TotalAdd(ValidSegments(nums), ParseSegment(num).value);
    }
  }

  lemma {:induction false} TotalGrows(nums: seq<string>, n: nat)
    requires n <= |nums|
    ensures Total(ValidSegments(nums[..n])) <= Total(ValidSegments(nums))
    decreases |nums| - n
  {
    hide ParseSegment, Total, ValidSegments;
    if n < |nums| {
      TotalGrows(nums, n + 1);
      AddSegment(nums[..n], nums[n]);
      assert nums[..n] + [nums[n]] == nums[..n + 1];
    } else {
      assert nums[..n] == nums;
    }
  }

  lemma SliceOneMore<T>(s: seq<T>, i: nat)
    requires i < |s|
    ensures s[..i + 1] == s[..i] + [s[i]]
  {
  }

  /** What one turn of the parser's loop does to the segments and to the running total. */
  lemma OneMoreItem(nums: seq<string>, i: nat)
    requires i < |nums|
    ensures ParseSegment(nums[i]).None? ==> ValidSegments(nums[..i + 1]) == ValidSegments(nums[..i])
    ensures ParseSegment(nums[i]).Some? ==>
              && ValidSegments(nums[..i + 1]) == ValidSegments(nums[..i]) + [ParseSegment(nums[i]).value]
              && Total(ValidSegments(nums[..i + 1])) ==
                 Total(ValidSegments(nums[..i])) + (ParseSegment(nums[i]).value.1 - ParseSegment(nums[i]).value.0 + 1)
    ensures Total(ValidSegments(nums[..i + 1])) <= Total(ValidSegments(nums))
  {
    hide ParseSegment, ValidSegments, Total;
    TotalGrows(nums, i + 1);
    assert nums[..i + 1] == nums[..i] + [nums[i]] by {
      SliceOneMore(nums, i);
    }
    AddSegment(nums[..i], nums[i]);
  }

  /** The two branches of the loop body. */
  lemma ItemForms(num: string, parts: seq<string>)
    requires parts == Split(num, '-')
    ensures IsNumeric(num) ==>
              ParseSegment(num) == if ParseInt(num).None? then None else Some((ParseInt(num).value, ParseInt(num).value))
    ensures !IsNumeric(num) && |parts| != 2 ==> ParseSegment(num).None?
    ensures !IsNumeric(num) && |parts| == 2 ==>
              var l, r := ParseInt(parts[0]), ParseInt(parts[1]);
              ParseSegment(num) ==
                if l.None? || r.None? then None
                else if l.value <= r.value then Some((l.value, r.value)) else Some((r.value, l.value))
  {
    hide IsNumeric, ParseInt, Split;
  }

  /** parse_str_to_list */
  method ParseStrToList(s: string, maxItems: int) returns (r: Result<seq<int>, ParseError>)
    ensures r == Parse(s, maxItems)
  {
    assert ValidSegments([]) == [] && Total([]) == 0;
    hide ValidSegments, Total, Split, ParseSegment, ParseInt, IsNumeric, Expand, RemoveSpaces;
    if maxItems < 0 {
      return Err(NegativeLimit);
    }
    var parsedSegments: seq<Segment> := [];
    var parsedItems := 0;
    var nums := Split(RemoveSpaces(s), ',');
    assert nums[..0] == [];
    for i := 0 to |nums|
      invariant parsedSegments == ValidSegments(nums[..i])
      invariant parsedItems == Total(parsedSegments) <= maxItems
    {
      var num := nums[i];
      OneMoreItem(nums, i);
      ItemForms(num, Split(num, '-'));
      var left, right;
      if IsNumeric(num) {
        var value := ParseInt(num);
        if value.None? {
          continue;
        }
        left, right := value.value, value.value;
      } else {
        var parts := Split(num, '-');
        if |parts| != 2 {
          continue;
        }
        var l, r := ParseInt(parts[0]), ParseInt(parts[1]);
        if l.None? || r.None? {
          continue;
        }
        left, right := l.value, r.value;
        if left > right {
          left, right := right, left;
        }
      }
      assert ParseSegment(num) == Some((left, right));
      var segmentItems := right - left + 1;
      if parsedItems + segmentItems > maxItems {
        return Err(TooManyItems);
      }
      parsedSegments := parsedSegments + [(left, right)];
      parsedItems := parsedItems + segmentItems;
    }
    assert nums[..|nums|] == nums && parsedSegments == ValidSegments(nums);
    var result := ExpandAll(parsedSegments);
    return Ok(result);
  }

  /** The loop that materializes the segments. */
  method ExpandAll(parsedSegments: seq<Segment>) returns (result: seq<int>)
    ensures result == Expand(parsedSegments)
  {
    result := [];
    for i := 0 to |parsedSegments|
      invariant result == Expand(parsedSegments[..i])
    {
      assert parsedSegments[..i + 1][..i] == parsedSegments[..i];
      result := result + Range(parsedSegments[i].0, parsedSegments[i].1);
    }
    assert parsedSegments[..|parsedSegments|] == parsedSegments;
  }

  // ---------------------------------------------------------------- no negative numbers

  lemma {:induction false} SplitPartsLackSeparator(s: string, sep: char)
    ensures forall p :: p in Split(s, sep) ==> sep !in p
  {
    if s != [] {
      SplitPartsLackSeparator(s[1..], sep);
      var rest := Split(s[1..], sep);
      assert rest[0] in rest;
    }
  }

  lemma {:induction false} TrimmedPart(s: string)
    ensures forall c :: c in TrimInt(s) ==> c in s
    decreases |s|
  {
    if s != [] && IsIntSpace(s[0]) {
      TrimmedPart(s[1..]);
    } else if s != [] && IsIntSpace(s[|s| - 1]) {
      TrimmedPart(s[..|s| - 1]);
    }
  }

  lemma UnsignedIsNatural(s: string)
    requires '-' !in s
    ensures ParseInt(s).Some? ==> ParseInt(s).value >= 0
  {
    TrimmedPart(s);
    var t := TrimInt(s);
    assert t != [] ==> t[0] in t;
  }

  /** The hyphen is the range separator, so no input yields a negative number. */
  lemma SegmentsAreNatural(num: string)
    ensures ParseSegment(num).Some? ==> 0 <= ParseSegment(num).value.0
  {
    if IsNumeric(num) {
      assert '-' !in num;
      UnsignedIsNatural(num);
    } else {
      var parts := Split(num, '-');
      SplitPartsLackSeparator(num, '-');
      if |parts| == 2 {
        assert parts[0] in parts && parts[1] in parts;
        UnsignedIsNatural(parts[0]);
        UnsignedIsNatural(parts[1]);
      }
    }
  }

  lemma {:induction false} ParsedNumbersAreNatural(nums: seq<string>)
    ensures forall n :: n in Expand(ValidSegments(nums)) ==> n >= 0
  {
    if nums != [] {
      var before, last := nums[..|nums| - 1], nums[|nums| - 1];
      ParsedNumbersAreNatural(before);
      assert nums == before + [last];
      SegmentsAreNatural(last);
      AddSegment(before, last);
      if ParseSegment(last).Some? {
        var segments, s := ValidSegments(before), ParseSegment(last).value;
        assert (segments + [s])[..|segments|] == segments;
        assert forall n :: n in Range(s.0, s.1) ==> n >= s.0;
      }
    }
  }
}
