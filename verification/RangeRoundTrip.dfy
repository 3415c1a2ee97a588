/**
 Printing a list of numbers and parsing it again (src/utils/numeric.py): exactly the lists without
 negative numbers survive, and no shorter list of segments denotes the same numbers.
 */
module RangeRoundTrip {
  import opened Collections
  import opened Wrappers
  import opened Text
  import opened RangeParser
  import opened RangePrinter

  // ---------------------------------------------------------------- splitting what was joined

  predicate Free(s: string, c: char) { forall i :: 0 <= i < |s| ==> s[i] != c }

  lemma {:induction false} SplitFree(s: string, sep: char)
    requires Free(s, sep)
    ensures Split(s, sep) == [s]
  {
    if s != [] {
      SplitFree(s[1..], sep);
      assert [s[0]] + s[1..] == s;
    }
  }

  lemma {:induction false} SplitAtSeparator(a: string, sep: char, rest: string)
    requires Free(a, sep)
    ensures Split(a + [sep] + rest, sep) == [a] + Split(rest, sep)
  {
    var s := a + [sep] + rest;
    if a == [] {
      assert s[1..] == rest;
    } else {
      assert s[1..] == a[1..] + [sep] + rest;
      SplitAtSeparator(a[1..], sep, rest);
      assert [a[0]] + a[1..] == a;
    }
  }

  lemma {:induction false} SplitJoin(parts: seq<string>, sep: char)
    requires parts != [] && forall p :: p in parts ==> Free(p, sep)
    ensures Split(Join(parts, sep), sep) == parts
  {
    if |parts| == 1 {
      SplitFree(parts[0], sep);
    } else {
      SplitAtSeparator(parts[0], sep, Join(parts[1..], sep));
      SplitJoin(parts[1..], sep);
    }
  }

  lemma {:induction false} RemoveNoSpaces(s: string)
    requires Free(s, ' ')
    ensures RemoveSpaces(s) == s
  {
    if s != [] {
      RemoveNoSpaces(s[1..]);
    }
  }

  lemma {:induction false} JoinFree(parts: seq<string>, sep: char, c: char)
    requires sep != c && forall p :: p in parts ==> Free(p, c)
    ensures Free(Join(parts, sep), c)
  {
    if parts != [] {
      assert parts[0] in parts;
      JoinFree(parts[1..], sep, c);
    }
  }

  // ---------------------------------------------------------------- one printed segment

  lemma {:induction false} OnlyDigitsOfDigits(s: string)
    requires forall c :: c in s ==> IsDigit(c)
    ensures OnlyDigits(s) == s
  {
    if s != [] {
      assert s[0] in s;
      OnlyDigitsOfDigits(s[1..]);
    }
  }

  lemma TrimIntOfDigits(s: string)
    requires s != [] && forall i :: 0 <= i < |s| ==> IsDigit(s[i])
    ensures TrimInt(s) == s
  {
  }

  lemma ParseIntOfDigits(n: nat)
    ensures ParseInt(Digits(n)) == Some(n)
  {
    var s := Digits(n);
    hide Digits, DigitsValue;
    assert forall i :: 0 <= i < |s| ==> s[i] in s && IsDigit(s[i]);
    TrimIntOfDigits(s);
    OnlyDigitsOfDigits(s);
    DigitsRoundTrip(n);
    hide TrimInt, OnlyDigits;
  }

  lemma ShownIsFree(n: int, c: char)
    requires !IsDigit(c) && (c != '-' || n >= 0)
    ensures Free(Show(n), c)
  {
    var d := Digits(if n >= 0 then n else -n);
    assert forall i :: 0 <= i < |d| ==> d[i] in d;
  }

  lemma SegmentIsFree(s: Segment, c: char)
    requires !IsDigit(c) && c != '-'
    ensures Free(ShowSegment(s), c)
  {
    ShownIsFree(s.0, c);
    ShownIsFree(s.1, c);
  }

  /** A segment of naturals parses back to itself. */
  lemma NaturalSegmentParses(s: Segment)
    requires 0 <= s.0 <= s.1
    ensures ParseSegment(ShowSegment(s)) == Some(s)
  {
    hide ParseInt, Split, Digits;
    ParseIntOfDigits(s.0);
    ParseIntOfDigits(s.1);
    if s.0 < s.1 {
      var a, b := Digits(s.0), Digits(s.1);
      var text := ShowSegment(s);
      assert text[|a|] == '-' && text[|a|] in text;
      ShownIsFree(s.0, '-');
      ShownIsFree(s.1, '-');
      assert text == a + ['-'] + b;
      SplitAtSeparator(a, '-', b);
      SplitFree(b, '-');
    }
  }

  /** A segment that starts below zero is skipped by the parser: its text begins with the separator. */
  lemma NegativeSegmentIsSkipped(s: Segment)
    requires s.0 < 0
    ensures ParseSegment(ShowSegment(s)) == None
  {
    var text := ShowSegment(s);
    assert text[0] == '-' && text[0] in text;
    assert text == [] + ['-'] + text[1..];
    SplitAtSeparator([], '-', text[1..]);
    assert TrimInt([]) == [];
    assert ParseInt([]) == None;
  }

  /** Of all white space in front of a single number only the space character is ignored; any other one makes it invalid. */
  lemma OnlySpacesAreIgnored(n: nat, c: char)
    requires IsSpace(c)
    ensures ParseSegment(RemoveSpaces([c] + Digits(n))) == if c == ' ' then Some((n, n)) else None
  {
    var digits := Digits(n);
    ShownIsFree(n, ' ');
    ShownIsFree(n, '-');
    assert ([c] + digits)[1..] == digits;
    RemoveNoSpaces(digits);
    if c == ' ' {
      assert RemoveSpaces([c] + digits) == [] + digits == ShowSegment((n, n));
      NaturalSegmentParses((n, n));
    } else {
      assert c in [c] + digits;
      SplitFree([c] + digits, '-');
    }
  }

  /** The segments the parser gets back. */
  function NaturalOnes(segments: seq<Segment>): seq<Segment> {
    if segments == [] then []
    else NaturalOnes(segments[..|segments| - 1])
         + (if segments[|segments| - 1].0 >= 0 then [segments[|segments| - 1]] else [])
  }

  lemma {:induction false} ShownSegmentsParse(segments: seq<Segment>)
    requires forall s :: s in segments ==> s.0 <= s.1
    ensures ValidSegments(ShowAll(segments)) == NaturalOnes(segments)
  {
    if segments != [] {
      var before, last := segments[..|segments| - 1], segments[|segments| - 1];
      assert segments == before + [last];
      ShowAllAdd(before, last);
      ShownSegmentsParse(before);
      AddSegment(ShowAll(before), ShowSegment(last));
      assert last in segments;
      if last.0 >= 0 {
        NaturalSegmentParses(last);
      } else {
        NegativeSegmentIsSkipped(last);
      }
    }
  }

  /** The printed text splits into one item per run. */
  lemma PrintedItems(s: seq<int>)
    requires s != []
    ensures Split(RemoveSpaces(Printed(s)), ',') == ShowAll(Runs(s))
  {
    var texts := ShowAll(Runs(s));
    forall p | p in texts
      ensures Free(p, ',') && Free(p, ' ')
    {
      var i :| 0 <= i < |texts| && texts[i] == p;
      SegmentIsFree(Runs(s)[i], ',');
      SegmentIsFree(Runs(s)[i], ' ');
    }
    JoinFree(texts, ',', ' ');
    RemoveNoSpaces(Printed(s));
    SplitJoin(texts, ',');
  }

  lemma PrintedSegments(s: seq<int>)
    ensures ValidSegments(Split(RemoveSpaces(Printed(s)), ',')) == NaturalOnes(Runs(s))
  {
    if s == [] {
      EmptyTextHasNoSegments();
    } else {
      PrintedItems(s);
      ShownSegmentsParse(Runs(s));
    }
  }

  lemma EmptyTextHasNoSegments()
    ensures ValidSegments(Split("", ',')) == []
  {
    assert Split("", ',') == [[]];
    assert Split([], '-') == [[]];
    assert ParseSegment([]) == None;
    AddSegment([], "");
    assert [] + [""] == [""];
  }

  // ---------------------------------------------------------------- the round trip

  lemma {:induction false} ExpandRuns(s: seq<int>)
    ensures Expand(Runs(s)) == s
  {
    if s != [] {
      var before, n := s[..|s| - 1], s[|s| - 1];
      assert s == before + [n];
      ExpandRuns(before);
      if before == [] {
        assert Runs(s) == [] + [(n, n)];
        ExpandAdd([], (n, n));
      } else {
        ExpandRunsAdd(before, n);
      }
    }
  }

  lemma ExpandRunsAdd(before: seq<int>, n: int)
    requires before != [] && Expand(Runs(before)) == before
    ensures Expand(Runs(before + [n])) == before + [n]
  {
    var runs := Runs(before);
    var done, last := runs[..|runs| - 1], runs[|runs| - 1];
    assert runs == done + [(last.0, last.1)];
    assert last in runs && last.0 <= last.1;
    hide Runs, Expand, Range;
    RunsAdd(before, n, done, last.0, last.1);
    if n == last.1 + 1 {
      RunContinues(done, last);
    } else {
      ExpandAdd(runs, (n, n));
      RangeOne(n);
    }
  }

  /** Extending the last run by one number puts that number behind all others. */
  lemma RunContinues(done: seq<Segment>, last: Segment)
    requires last.0 <= last.1
    ensures Expand(done + [(last.0, last.1 + 1)]) == Expand(done + [last]) + [last.1 + 1]
  {
    hide Expand, Range;
    ExpandAdd(done, last);
    ExpandAdd(done, (last.0, last.1 + 1));
    RangeAdd(last.0, last.1);
    var numbers, run := Expand(done), Range(last.0, last.1);
    assert numbers + (run + [last.1 + 1]) == numbers + run + [last.1 + 1];
  }

  lemma RangeAdd(left: int, right: int)
    requires left <= right
    ensures Range(left, right + 1) == Range(left, right) + [right + 1]
  {
  }

  lemma RangeOne(n: int)
    ensures Range(n, n) == [n]
  {
  }

  lemma ExpandAdd(segments: seq<Segment>, s: Segment)
    ensures Expand(segments + [s]) == Expand(segments) + Range(s.0, s.1)
  {
    assert (segments + [s])[..|segments|] == segments;
  }

  /** The starts of the runs are elements of the list. */
  lemma {:induction false} RunStartsAreElements(s: seq<int>)
    ensures forall r :: r in Runs(s) ==> r.0 in s && r.1 in s
  {
    if s != [] {
      RunStartsAreElements(s[..|s| - 1]);
    }
  }

  lemma {:induction false} NaturalOnesOfNaturals(segments: seq<Segment>)
    requires forall s :: s in segments ==> s.0 >= 0
    ensures NaturalOnes(segments) == segments
  {
    if segments != [] {
      assert segments[|segments| - 1] in segments;
      NaturalOnesOfNaturals(segments[..|segments| - 1]);
    }
  }

  lemma {:induction false} NaturalOnesAreNatural(segments: seq<Segment>)
    ensures forall n :: n in Expand(NaturalOnes(segments)) ==> n >= 0
  {
    if segments != [] {
      var before, last := segments[..|segments| - 1], segments[|segments| - 1];
      NaturalOnesAreNatural(before);
      assert NaturalOnes(segments) == if last.0 >= 0 then NaturalOnes(before) + [last] else NaturalOnes(before);
      if last.0 >= 0 {
        ExpandAdd(NaturalOnes(before), last);
        assert forall n :: n in Range(last.0, last.1) ==> n >= last.0;
      }
    }
  }

  ghost predicate AllNatural(s: seq<int>) { forall n :: n in s ==> n >= 0 }

  lemma NaturalsParseBack(s: seq<int>, maxItems: int)
    requires AllNatural(s) && maxItems >= 0
    ensures Parse(Printed(s), maxItems) == if |s| <= maxItems then Ok(s) else Err(TooManyItems)
  {
    PrintedSegments(s);
    ExpandRuns(s);
    RunStartsAreElements(s);
    NaturalOnesOfNaturals(Runs(s));
    ExpandSize(Runs(s));
  }

  lemma NegativesAreLost(s: seq<int>, n: int, maxItems: int)
    requires n in s && n < 0
    ensures Parse(Printed(s), maxItems) != Ok(s)
  {
    PrintedSegments(s);
    NaturalOnesAreNatural(Runs(s));
  }

  /**
   Printing and parsing gives the sorted list back exactly when no number is negative and the list
   is within the limit; duplicates are kept.
   */
  lemma RoundTrip(nums: seq<int>, maxItems: int)
    ensures Parse(Printed(Sorted(nums)), maxItems) == Ok(Sorted(nums)) <==> AllNatural(nums) && |nums| <= maxItems
    ensures AllNatural(nums) && 0 <= maxItems < |nums| ==> Parse(Printed(Sorted(nums)), maxItems) == Err(TooManyItems)
  {
    hide Printed;
    SameElements(nums);
    if !AllNatural(nums) {
      var n :| n in nums && n < 0;
      NegativesAreLost(Sorted(nums), n, maxItems);
    } else if maxItems >= 0 {
      NaturalsParseBack(Sorted(nums), maxItems);
    }
  }

  lemma SameElements(nums: seq<int>)
    ensures forall n :: n in nums <==> n in Sorted(nums)
  {
    SortedSorts(nums);
    forall n
      ensures n in nums <==> n in Sorted(nums)
    {
      assert n in nums <==> n in multiset(nums);
      assert n in Sorted(nums) <==> n in multiset(Sorted(nums));
    }
  }

  // ---------------------------------------------------------------- fewest segments

  ghost predicate StrictlyAscending(s: seq<int>) {
    forall i, j :: 0 <= i < j < |s| ==> s[i] < s[j]
  }

  ghost predicate HasPredecessor(s: seq<int>, n: int) { n - 1 in s }

  /** The numbers whose predecessor is missing. */
  ghost function Starts(s: seq<int>): set<int> {
    set n | n in s && !HasPredecessor(s, n)
  }

  ghost function Lefts(segments: seq<Segment>): set<int> {
    set s | s in segments :: s.0
  }

  lemma {:induction false} LeftsSize(segments: seq<Segment>)
    ensures |Lefts(segments)| <= |segments|
  {
    if segments == [] {
      assert Lefts(segments) == {};
    } else {
      var before, last := segments[..|segments| - 1], segments[|segments| - 1];
      LeftsSize(before);
      assert segments == before + [last];
      assert Lefts(segments) == Lefts(before) + {last.0};
    }
  }

  lemma {:induction false} ExpandMembers(segments: seq<Segment>)
    ensures forall n :: n in Expand(segments) <==> exists s :: s in segments && s.0 <= n <= s.1
  {
    if segments != [] {
      var before, last := segments[..|segments| - 1], segments[|segments| - 1];
      ExpandMembers(before);
      assert segments == before + [last];
      forall n
        ensures n in Range(last.0, last.1) <==> last.0 <= n <= last.1
      {
        if last.0 <= n <= last.1 {
          assert Range(last.0, last.1)[n - last.0] == n;
        }
      }
    }
  }

  lemma CoveredHasPredecessor(s: seq<int>, segments: seq<Segment>, g: Segment, n: int)
    requires forall m :: m in Expand(segments) <==> m in s
    requires g in segments && g.0 < n <= g.1
    ensures HasPredecessor(s, n)
  {
    ExpandMembers(segments);
    assert n - 1 in Expand(segments);
  }

  /** Whoever covers a set of numbers by segments needs one segment per missing predecessor. */
  lemma StartsAreLefts(s: seq<int>, segments: seq<Segment>)
    requires forall n :: n in Expand(segments) <==> n in s
    ensures Starts(s) <= Lefts(segments)
  {
    ExpandMembers(segments);
    forall n | n in s
      ensures HasPredecessor(s, n) || n in Lefts(segments)
    {
      assert n in Expand(segments);
      var g :| g in segments && g.0 <= n <= g.1;
      if g.0 < n {
        CoveredHasPredecessor(s, segments, g, n);
      }
    }
  }

  /** One more number at the end is a start unless it follows the last one. */
  lemma StartsAdd(before: seq<int>, n: int)
    requires forall m :: m in before ==> m < n
    ensures Starts(before + [n]) == Starts(before) + if n - 1 in before then {} else {n}
  {
    var s := before + [n];
    assert forall m :: m in s <==> m in before || m == n;
    forall m | m in before
      ensures HasPredecessor(s, m) <==> HasPredecessor(before, m)
    {
    }
  }

  lemma RunsCountAdd(before: seq<int>, n: int)
    ensures |Runs(before + [n])| == |Runs(before)| + if before != [] && before[|before| - 1] + 1 == n then 0 else 1
  {
    assert (before + [n])[..|before|] == before;
  }

  lemma LastIsGreatest(before: seq<int>, last: int)
    requires StrictlyAscending(before + [last])
    ensures StrictlyAscending(before)
    ensures forall m :: m in before ==> m < last
  {
    var s := before + [last];
    assert forall i :: 0 <= i < |before| ==> s[i] == before[i];
    assert s[|before|] == last;
  }

  /** The predecessor of a number that is above all others can only be the greatest of them. */
  lemma PredecessorIsLast(before: seq<int>, n: int)
    requires StrictlyAscending(before) && forall m :: m in before ==> m < n
    ensures n - 1 in before <==> before != [] && before[|before| - 1] + 1 == n
  {
    if before != [] {
      var front, last := before[..|before| - 1], before[|before| - 1];
      assert before == front + [last];
      LastIsGreatest(front, last);
      assert last in before;
    }
  }

  /** The printer uses exactly one segment per missing predecessor. */
  lemma {:induction false} RunsCountStarts(s: seq<int>)
    requires StrictlyAscending(s)
    ensures |Runs(s)| == |Starts(s)|
  {
    if s == [] {
      assert Starts(s) == {};
    } else {
      hide Starts, StrictlyAscending, Runs;
      var before, n := s[..|s| - 1], s[|s| - 1];
      assert s == before + [n];
      LastIsGreatest(before, n);
      RunsCountStarts(before);
      PredecessorIsLast(before, n);
      RunsCountAdd(before, n);
      StartsAdd(before, n);
      StartsAreElements(before);
    }
  }

  lemma StartsAreElements(s: seq<int>)
    ensures forall n :: n in Starts(s) ==> n in s
  {
  }

  /** Sorting a list without duplicates makes it strictly ascending. */
  lemma NoDuplicatesSortsStrictly(nums: seq<int>)
    requires forall i, j :: 0 <= i < j < |nums| ==> nums[i] != nums[j]
    ensures StrictlyAscending(Sorted(nums))
  {
    SortedSorts(nums);
    var s := Sorted(nums);
    forall i, j | 0 <= i < j < |s|
      ensures s[i] < s[j]
    {
      if s[i] == s[j] {
        CountedTwice(s, i, j);
        DistinctOnce(nums, s[i]);
      }
    }
  }

  lemma CountedTwice(s: seq<int>, i: nat, j: nat)
    requires i < j < |s| && s[i] == s[j]
    ensures multiset(s)[s[i]] >= 2
  {
    assert s == s[..j] + [s[j]] + s[j + 1..];
    assert s[i] in s[..j];
  }

  lemma {:induction false} DistinctOnce(nums: seq<int>, n: int)
    requires forall i, j :: 0 <= i < j < |nums| ==> nums[i] != nums[j]
    ensures multiset(nums)[n] <= 1
  {
    if nums != [] {
      var before, last := nums[..|nums| - 1], nums[|nums| - 1];
      assert nums == before + [last];
      DistinctOnce(before, n);
      assert last !in before;
    }
  }

  /** For a list without duplicates no other list of segments with the same numbers is shorter than the printed one. */
  lemma PrintedIsShortest(nums: seq<int>, segments: seq<Segment>)
    requires forall i, j :: 0 <= i < j < |nums| ==> nums[i] != nums[j]
    requires forall n :: n in Expand(segments) <==> n in nums
    ensures |Runs(Sorted(nums))| <= |segments|
  {
    hide Runs, Expand, Sorted;
    var s := Sorted(nums);
    NoDuplicatesSortsStrictly(nums);
    SameElements(nums);
    StartsAreLefts(s, segments);
    SubsetSize(Starts(s), Lefts(segments));
    LeftsSize(segments);
    RunsCountStarts(s);
  }

  lemma {:induction false} AtMostOneSegmentPerItem(nums: seq<string>)
    ensures |ValidSegments(nums)| <= |nums|
  {
    if nums != [] {
      hide ParseSegment;
      AtMostOneSegmentPerItem(nums[..|nums| - 1]);
    }
  }

  /** Whatever text parses to the numbers of a list without duplicates, the printed text has no more items. */
  lemma PrintedTextIsShortest(nums: seq<int>, text: string, maxItems: int)
    requires nums != [] && forall i, j :: 0 <= i < j < |nums| ==> nums[i] != nums[j]
    requires Parse(text, maxItems).Ok? && forall n :: n in Parse(text, maxItems).value <==> n in nums
    ensures |Split(RemoveSpaces(Printed(Sorted(nums))), ',')| <= |Split(RemoveSpaces(text), ',')|
  {
    hide Runs, Expand, Sorted, Printed, ValidSegments, Split;
    var items := Split(RemoveSpaces(text), ',');
    PrintedItems(Sorted(nums));
    PrintedIsShortest(nums, ValidSegments(items));
    AtMostOneSegmentPerItem(items);
  }
}
