/**
 The range-list printer merge_list_to_str (src/utils/numeric.py).
 */
module RangePrinter {
  import opened Text
  import opened RangeParser

  /** list.sort() */
  function Insert(n: int, s: seq<int>): (r: seq<int>)
    ensures |r| == |s| + 1
  {
    if s == [] then [n] else if n <= s[0] then [n] + s else [s[0]] + Insert(n, s[1..])
  }

  function Sorted(s: seq<int>): (r: seq<int>)
    ensures |r| == |s|
  {
    if s == [] then [] else Insert(s[0], Sorted(s[1..]))
  }

  ghost predicate Ascending(s: seq<int>) {
    forall i, j :: 0 <= i < j < |s| ==> s[i] <= s[j]
  }

  lemma {:induction false} InsertAdds(n: int, s: seq<int>)
    ensures multiset(Insert(n, s)) == multiset(s) + multiset{n}
  {
    if s != [] && n > s[0] {
      var rest := s[1..];
      InsertAdds(n, rest);
      assert Insert(n, s) == [s[0]] + Insert(n, rest);
      assert s == [s[0]] + rest;
      hide Insert;
    }
  }

  lemma {:induction false} InsertKeepsOrder(n: int, s: seq<int>)
    requires Ascending(s)
    ensures Ascending(Insert(n, s))
  {
    if s != [] && n > s[0] {
      var r := Insert(n, s[1..]);
      InsertKeepsOrder(n, s[1..]);
      forall x | x in r
        ensures s[0] <= x
      {
        InsertedIsOldOrNew(n, s[1..], x);
      }
      AscendingCons(s[0], r);
    }
  }

  lemma InsertedIsOldOrNew(n: int, s: seq<int>, x: int)
    requires x in Insert(n, s)
    ensures x == n || x in s
  {
    InsertAdds(n, s);
    assert x in multiset(Insert(n, s));
    hide Insert;
  }

  lemma AscendingCons(x: int, s: seq<int>)
    requires Ascending(s) && forall y :: y in s ==> x <= y
    ensures Ascending([x] + s)
  {
    var r := [x] + s;
    forall i, j | 0 <= i < j < |r|
      ensures r[i] <= r[j]
    {
      assert r[j] == s[j - 1] && s[j - 1] in s;
      assert i > 0 ==> r[i] == s[i - 1];
    }
  }

  lemma {:induction false} SortedSorts(s: seq<int>)
    ensures Ascending(Sorted(s)) && multiset(Sorted(s)) == multiset(s)
  {
    if s != [] {
      SortedSorts(s[1..]);
      InsertKeepsOrder(s[0], Sorted(s[1..]));
      InsertAdds(s[0], Sorted(s[1..]));
      assert s == [s[0]] + s[1..];
    }
  }

  /** The maximal runs of successors, read from left to right. */
  function Runs(s: seq<int>): (runs: seq<Segment>)
    ensures s != [] ==> runs != [] && runs[|runs| - 1].1 == s[|s| - 1]
    ensures s == [] ==> runs == []
    ensures forall r :: r in runs ==> r.0 <= r.1
  {
    if s == [] then []
    else
      var n := s[|s| - 1];
      var before := Runs(s[..|s| - 1]);
      if before != [] && n == before[|before| - 1].1 + 1
      then before[..|before| - 1] + [(before[|before| - 1].0, n)]
      else before + [(n, n)]
  }

  function ShowSegment(s: Segment): string {
    if s.0 == s.1 then Show(s.0) else Show(s.0) + "-" + Show(s.1)
  }

  function ShowAll(segments: seq<Segment>): (r: seq<string>)
    ensures |r| == |segments| && forall i :: 0 <= i < |r| ==> r[i] == ShowSegment(segments[i])
  {
    seq(|segments|, i requires 0 <= i < |segments| => ShowSegment(segments[i]))
  }

  function Printed(s: seq<int>): string {
    Join(ShowAll(Runs(s)), ',')
  }

  /** One more number either extends the last run or starts a new one. */
  lemma RunsAdd(s: seq<int>, n: int, done: seq<Segment>, start: int, end: int)
    requires Runs(s) == done + [(start, end)]
    ensures Runs(s + [n]) == if n == end + 1 then done + [(start, n)] else done + [(start, end)] + [(n, n)]
  {
    assert (s + [n])[..|s|] == s;
    assert (done + [(start, end)])[..|done|] == done;
  }

  lemma ShowAllAdd(done: seq<Segment>, s: Segment)
    ensures ShowAll(done + [s]) == ShowAll(done) + [ShowSegment(s)]
  {
  }

  /** The loop of merge_list_to_str over the sorted list. */
  method PrintRuns(nums: seq<int>) returns (result: seq<string>)
    requires nums != []
    ensures result == ShowAll(Runs(nums))
  {
    result := [];
    var start, end := nums[0], nums[0];
    ghost var done: seq<Segment> := [];
    assert nums[..1] == [nums[0]] && nums[..1][..0] == [];
    assert Runs(nums[..1]) == done + [(start, end)];
    hide Runs, ShowAll, Show;
    for i := 1 to |nums|
      invariant Runs(nums[..i]) == done + [(start, end)]
      invariant result == ShowAll(done)
    {
      var n := nums[i];
      assert nums[..i + 1] == nums[..i] + [n];
      RunsAdd(nums[..i], n, done, start, end);
      if n == end + 1 {
        end := n;
      } else {
        ShowAllAdd(done, (start, end));
        if start == end {
          result := result + [Show(start)];
        } else {
          result := result + [Show(start) + "-" + Show(end)];
        }
        done := done + [(start, end)];
        start, end := n, n;
      }
    }
    assert nums[..|nums|] == nums;
    ShowAllAdd(done, (start, end));
    if start == end {
      result := result + [Show(start)];
    } else {
      result := result + [Show(start) + "-" + Show(end)];
    }
  }

  /** merge_list_to_str; the caller's list is left sorted. */
  method MergeListToStr(nums: array<int>) returns (s: string)
    modifies nums
    ensures nums[..] == Sorted(old(nums[..]))
    ensures s == Printed(Sorted(old(nums[..])))
  {
    if nums.Length == 0 {
      return "";
    }
    var sorted := Sorted(nums[..]);
    forall i | 0 <= i < nums.Length {
      nums[i] := sorted[i];
    }
    assert nums[..] == sorted;
    var result := PrintRuns(nums[..]);
    return Join(result, ',');
  }
}
