/**
 rename_submission_files (src/services/prospec/program.py): a simultaneous rename of one
 challenge's submitted sources that goes through staged temporary names and undoes itself when a
 single rename fails.

 A directory is a map from names to entries. Which calls of os.rename the operating system fails
 is arbitrary: `Disk.faults` holds the serial numbers of the failing calls.
 */
module SourceRename {
  import opened Collections
  import opened Wrappers
  import opened Text
  import opened SubmissionFormat

  datatype Entry = File(content: string) | Subdirectory

  type Dir = map<string, Entry>
  type Pairs = seq<(string, string)>

  datatype RenameError = TargetExists | TemporaryExists | RenameFailed

  // ---------------------------------------------------------------- specification

  predicate IsFile(d: Dir, name: string) { name in d && d[name].File? }

  /** os.rename for files: it silently replaces an existing file, and refuses a directory. */
  predicate Movable(d: Dir, source: string, target: string) {
    IsFile(d, source) && (target in d ==> d[target].File?)
  }

  function Moved(d: Dir, source: string, target: string): Dir
    requires source in d
  {
    (d - {source})[target := d[source]]
  }

  /** A rename takes the file's content along, frees its old name and leaves all other names alone. */
  lemma MovedExactly(d: Dir, source: string, target: string)
    requires source in d
    ensures target in Moved(d, source, target) && Moved(d, source, target)[target] == d[source]
    ensures source != target ==> source !in Moved(d, source, target)
    ensures forall n :: n != source && n != target ==>
              (n in Moved(d, source, target) <==> n in d) && (n in d ==> Moved(d, source, target)[n] == d[n])
  {
  }

  function DirOf(dirs: map<int, Dir>, chal: int): Dir {
    if chal in dirs then dirs[chal] else map[]
  }

  function Temporary(index: nat): string {
    ".submission-" + Digits(index) + ".rename"
  }

  lemma TemporaryInjective(i: nat, j: nat)
    requires Temporary(i) == Temporary(j)
    ensures i == j
  {
    var t := Temporary(i);
    assert t[12..|t| - 7] == Digits(i);
    assert t[12..|t| - 7] == Digits(j);
    DigitsInjective(i, j);
  }

  ghost predicate IsTemporary(name: string) { exists i: nat :: Temporary(i) == name }

  /** Names a caller may pass: pairwise distinct, none of them reserved for staging. */
  ghost predicate PlainNames(names: seq<string>) {
    Distinct(names) && forall n :: n in names ==> !IsTemporary(n)
  }

  /** zip of the two lists, without the names that stay. */
  function Requested(olds: seq<string>, news: seq<string>): Pairs {
    if olds == [] || news == [] then []
    else (if olds[0] != news[0] then [(olds[0], news[0])] else []) + Requested(olds[1..], news[1..])
  }

  /** The requested renames whose source is an existing file. */
  function Present(d: Dir, requested: Pairs): Pairs {
    if requested == [] then []
    else (if IsFile(d, requested[0].0) then [requested[0]] else []) + Present(d, requested[1..])
  }

  function Renames(d: Dir, olds: seq<string>, news: seq<string>): Pairs {
    Present(d, Requested(olds, news))
  }

  function Sources(pairs: Pairs): (s: seq<string>)
    ensures |s| == |pairs| && forall i :: 0 <= i < |s| ==> s[i] == pairs[i].0
  {
    seq(|pairs|, i requires 0 <= i < |pairs| => pairs[i].0)
  }

  function Targets(pairs: Pairs): (s: seq<string>)
    ensures |s| == |pairs| && forall i :: 0 <= i < |s| ==> s[i] == pairs[i].1
  {
    seq(|pairs|, i requires 0 <= i < |pairs| => pairs[i].1)
  }

  predicate TargetBusy(d: Dir, pairs: Pairs) {
    exists i :: 0 <= i < |pairs| && pairs[i].1 in d && pairs[i].1 !in Sources(pairs)
  }

  predicate TemporaryBusy(d: Dir, pairs: Pairs) {
    exists i :: 0 <= i < |pairs| && Temporary(i) in d
  }

  /** The checks that run before the first rename. */
  predicate Accepted(d: Dir, pairs: Pairs) {
    !TargetBusy(d, pairs) && !TemporaryBusy(d, pairs)
  }

  /** The name under which the entry now called `name` was known before. */
  function Origin(pairs: Pairs, name: string): string {
    if pairs == [] then name
    else if pairs[0].1 == name then pairs[0].0
    else Origin(pairs[1..], name)
  }

  /** The simultaneous renaming: every target shows what its source showed, sources disappear. */
  function Renamed(d: Dir, pairs: Pairs): Dir {
    map name | name in (d.Keys - (set s | s in Sources(pairs))) + (set t | t in Targets(pairs))
      && Origin(pairs, name) in d :: d[Origin(pairs, name)]
  }

  function Reversed(pairs: Pairs): (r: Pairs)
    ensures |r| == |pairs| && forall i :: 0 <= i < |r| ==> r[i] == (pairs[i].1, pairs[i].0)
  {
    seq(|pairs|, i requires 0 <= i < |pairs| => (pairs[i].1, pairs[i].0))
  }

  // ---------------------------------------------------------------- facts about the plan

  /** No two pairs share a source or a target. */
  ghost predicate Apart(pairs: Pairs) {
    forall i, j :: 0 <= i < j < |pairs| ==> pairs[i].0 != pairs[j].0 && pairs[i].1 != pairs[j].1
  }

  /** What Renames hands to the renaming loops, given plain names. */
  ghost predicate GoodPlan(d: Dir, pairs: Pairs) {
    && Apart(pairs)
    && forall i :: 0 <= i < |pairs| ==>
         IsFile(d, pairs[i].0) && !IsTemporary(pairs[i].0) && !IsTemporary(pairs[i].1)
  }

  ghost predicate FromLists(olds: seq<string>, news: seq<string>, p: (string, string)) {
    exists i :: 0 <= i < |olds| && i < |news| && olds[i] != news[i] && p == (olds[i], news[i])
  }

  lemma {:induction false} RequestedFromLists(olds: seq<string>, news: seq<string>)
    ensures forall p :: p in Requested(olds, news) ==> FromLists(olds, news, p)
  {
    if olds != [] && news != [] {
      RequestedFromLists(olds[1..], news[1..]);
      forall p | p in Requested(olds, news)
        ensures FromLists(olds, news, p)
      {
        if p in Requested(olds[1..], news[1..]) {
          var i :| 0 <= i < |olds[1..]| && i < |news[1..]| && olds[1..][i] != news[1..][i] && p == (olds[1..][i], news[1..][i]);
          assert olds[i + 1] != news[i + 1];
        } else {
          assert p == (olds[0], news[0]);
        }
      }
    }
  }

  lemma ApartCons(head: (string, string), rest: Pairs)
    requires Apart(rest) && forall p :: p in rest ==> p.0 != head.0 && p.1 != head.1
    ensures Apart([head] + rest)
  {
  }

  lemma {:induction false} RequestedApart(olds: seq<string>, news: seq<string>)
    requires Distinct(olds) && Distinct(news)
    ensures Apart(Requested(olds, news))
  {
    if olds != [] && news != [] && olds[0] != news[0] {
      RequestedApart(olds[1..], news[1..]);
      RequestedFromLists(olds[1..], news[1..]);
      ApartCons((olds[0], news[0]), Requested(olds[1..], news[1..]));
    } else if olds != [] && news != [] {
      RequestedApart(olds[1..], news[1..]);
    }
  }

  lemma {:induction false} PresentIsSublist(d: Dir, requested: Pairs)
    ensures forall p :: p in Present(d, requested) ==> p in requested && IsFile(d, p.0)
  {
    if requested != [] {
      PresentIsSublist(d, requested[1..]);
    }
  }

  lemma {:induction false} PresentApart(d: Dir, requested: Pairs)
    requires Apart(requested)
    ensures Apart(Present(d, requested))
  {
    if requested != [] {
      PresentApart(d, requested[1..]);
      PresentIsSublist(d, requested[1..]);
      if IsFile(d, requested[0].0) {
        ApartCons(requested[0], Present(d, requested[1..]));
      }
    }
  }

  lemma RenamesArePlanned(d: Dir, olds: seq<string>, news: seq<string>)
    requires PlainNames(olds) && PlainNames(news)
    ensures GoodPlan(d, Renames(d, olds, news))
    ensures forall p :: p in Renames(d, olds, news) ==> p.0 != p.1 && p.0 in olds && p.1 in news
  {
    RequestedApart(olds, news);
    RequestedFromLists(olds, news);
    PresentApart(d, Requested(olds, news));
    PresentIsSublist(d, Requested(olds, news));
  }

  // ---------------------------------------------------------------- where the files are midway

  /**
   Midway through the renaming the planned files sit at `locs`, and everything else is `rest`:
   `d` is `rest` plus `locs[i] := files[i]` for each i.
   */
  ghost predicate Placed(d: Dir, rest: Dir, locs: seq<string>, files: seq<Entry>) {
    && |locs| == |files|
    && Distinct(locs)
    && (forall i :: 0 <= i < |locs| ==> locs[i] !in rest && locs[i] in d && d[locs[i]] == files[i] && files[i].File?)
    && (forall n :: n in rest ==> n in d && d[n] == rest[n])
    && (forall n :: n in d ==> n in rest || n in locs)
  }

  /** One rename of one planned file to a free name. */
  lemma PlacedStep(d: Dir, rest: Dir, locs: seq<string>, files: seq<Entry>, i: nat, target: string)
    requires Placed(d, rest, locs, files) && i < |locs| && target !in d
    ensures Movable(d, locs[i], target)
    ensures Placed(Moved(d, locs[i], target), rest, locs[i := target], files)
  {
    var locs' := locs[i := target];
    var d' := Moved(d, locs[i], target);
    forall n | n in d'
      ensures n in rest || n in locs'
    {
      if n == target {
        assert locs'[i] == n;
      } else if n !in rest {
        var k :| 0 <= k < |locs| && locs[k] == n;
        assert locs'[k] == n;
      }
    }
  }

  /** The placement determines the directory. */
  lemma PlacedUnique(d: Dir, d': Dir, rest: Dir, locs: seq<string>, files: seq<Entry>)
    requires Placed(d, rest, locs, files) && Placed(d', rest, locs, files)
    ensures d == d'
  {
  }

  function Rest(d: Dir, pairs: Pairs): Dir {
    d - (set s | s in Sources(pairs))
  }

  function Files(d: Dir, pairs: Pairs): (files: seq<Entry>)
    requires forall i :: 0 <= i < |pairs| ==> pairs[i].0 in d
    ensures |files| == |pairs| && forall i :: 0 <= i < |pairs| ==> files[i] == d[pairs[i].0]
  {
    seq(|pairs|, i requires 0 <= i < |pairs| => d[pairs[i].0])
  }

  lemma PlacedAtStart(d: Dir, pairs: Pairs)
    requires GoodPlan(d, pairs)
    ensures Placed(d, Rest(d, pairs), Sources(pairs), Files(d, pairs))
  {
  }

  lemma {:induction false} OriginOfTarget(pairs: Pairs, i: nat)
    requires i < |pairs| && Apart(pairs)
    ensures Origin(pairs, pairs[i].1) == pairs[i].0
  {
    if i > 0 {
      OriginOfTarget(pairs[1..], i - 1);
    }
  }

  lemma {:induction false} OriginOfOther(pairs: Pairs, name: string)
    requires name !in Targets(pairs)
    ensures Origin(pairs, name) == name
  {
    if pairs != [] {
      assert Targets(pairs)[0] != name;
      assert forall k :: 0 <= k < |pairs| - 1 ==> Targets(pairs[1..])[k] == Targets(pairs)[k + 1];
      OriginOfOther(pairs[1..], name);
    }
  }

  /** After the last rename the files sit at their targets, and that is the simultaneous renaming. */
  lemma PlacedAtEnd(d: Dir, d': Dir, pairs: Pairs)
    requires GoodPlan(d, pairs)
    requires Placed(d', Rest(d, pairs), Targets(pairs), Files(d, pairs))
    ensures d' == Renamed(d, pairs)
  {
    var r := Renamed(d, pairs);
    forall i | 0 <= i < |pairs|
      ensures pairs[i].1 in r && r[pairs[i].1] == d'[pairs[i].1]
    {
      OriginOfTarget(pairs, i);
      assert Targets(pairs)[i] in Targets(pairs);
    }
    forall n | n !in Targets(pairs)
      ensures n in r <==> n in d'
      ensures n in r ==> r[n] == d'[n]
    {
      OriginOfOther(pairs, n);
    }
    forall n
      ensures n in r <==> n in d'
      ensures n in r ==> r[n] == d'[n]
    {
      if n in Targets(pairs) {
        var i :| 0 <= i < |pairs| && Targets(pairs)[i] == n;
      }
    }
  }

  /** The renaming seen name by name; swaps and longer cycles are not special. */
  lemma RenamedPointwise(d: Dir, pairs: Pairs)
    requires GoodPlan(d, pairs) && Accepted(d, pairs)
    ensures forall i :: 0 <= i < |pairs| ==> pairs[i].1 in Renamed(d, pairs) && Renamed(d, pairs)[pairs[i].1] == d[pairs[i].0]
    ensures forall n :: n !in Sources(pairs) && n !in Targets(pairs) ==>
              (n in Renamed(d, pairs) <==> n in d) && (n in d ==> Renamed(d, pairs)[n] == d[n])
    ensures forall n :: n in Sources(pairs) && n !in Targets(pairs) ==> n !in Renamed(d, pairs)
    ensures Placed(Renamed(d, pairs), Rest(d, pairs), Targets(pairs), Files(d, pairs))
  {
    var r := Renamed(d, pairs);
    forall i | 0 <= i < |pairs|
      ensures pairs[i].1 in r && r[pairs[i].1] == d[pairs[i].0]
      ensures pairs[i].1 !in Rest(d, pairs)
    {
      OriginOfTarget(pairs, i);
      assert Targets(pairs)[i] in Targets(pairs);
    }
    forall n | n !in Targets(pairs)
      ensures n in r <==> n in d && n !in Sources(pairs)
      ensures n in r ==> r[n] == d[n]
    {
      OriginOfOther(pairs, n);
    }
  }

  lemma ReversedIsGood(d: Dir, pairs: Pairs)
    requires GoodPlan(d, pairs) && Accepted(d, pairs)
    ensures GoodPlan(Renamed(d, pairs), Reversed(pairs))
  {
    var r, back := Renamed(d, pairs), Reversed(pairs);
    RenamedPointwise(d, pairs);
    ReversedIsApart(pairs);
    hide Temporary, IsTemporary, Renamed, Placed, Accepted, Files, Apart;
    forall i | 0 <= i < |back|
      ensures IsFile(r, back[i].0) && !IsTemporary(back[i].0) && !IsTemporary(back[i].1)
    {
      assert r[pairs[i].1] == d[pairs[i].0];
    }
  }

  lemma ReversedIsApart(pairs: Pairs)
    requires Apart(pairs)
    ensures Apart(Reversed(pairs))
  {
  }

  lemma ReversedPasses(d: Dir, pairs: Pairs)
    requires GoodPlan(d, pairs) && Accepted(d, pairs)
    ensures Accepted(Renamed(d, pairs), Reversed(pairs))
  {
    var r, back := Renamed(d, pairs), Reversed(pairs);
    RenamedPointwise(d, pairs);
    hide Temporary, Renamed, Placed, Apart;
    forall i | 0 <= i < |back|
      ensures Temporary(i) !in r
    {
      assert IsTemporary(Temporary(i));
    }
    forall i | 0 <= i < |back|
      ensures back[i].1 in r ==> back[i].1 in Sources(back)
    {
      assert Sources(pairs)[i] == back[i].1;
      TargetIsReversedSource(pairs, back[i].1);
    }
  }

  lemma ReversedPlan(d: Dir, pairs: Pairs)
    requires GoodPlan(d, pairs) && Accepted(d, pairs)
    ensures GoodPlan(Renamed(d, pairs), Reversed(pairs)) && Accepted(Renamed(d, pairs), Reversed(pairs))
  {
    ReversedIsGood(d, pairs);
    ReversedPasses(d, pairs);
  }

  lemma TargetIsReversedSource(pairs: Pairs, name: string)
    ensures name in Targets(pairs) ==> name in Sources(Reversed(pairs))
  {
    assert Targets(pairs) == Sources(Reversed(pairs));
  }

  lemma ReversedRestores(d: Dir, pairs: Pairs)
    requires GoodPlan(d, pairs) && Accepted(d, pairs)
    ensures Renamed(Renamed(d, pairs), Reversed(pairs)) == d
  {
    hide GoodPlan, Accepted, Renamed, Placed;
    var r, back := Renamed(d, pairs), Reversed(pairs);
    RenamedPointwise(d, pairs);
    ReversedPlan(d, pairs);
    PlacedAtStart(d, pairs);
    assert Sources(back) == Targets(pairs) && Targets(back) == Sources(pairs);
    assert Rest(r, back) == Rest(d, pairs);
    assert Files(r, back) == Files(d, pairs);
    PlacedAtEnd(r, d, back);
  }

  /** The call with the pairs reversed is accepted, plans exactly the way back, and restores. */
  lemma ReversedIsAccepted(d: Dir, pairs: Pairs)
    requires GoodPlan(d, pairs) && Accepted(d, pairs)
    requires forall p :: p in pairs ==> p.0 != p.1
    ensures Renames(Renamed(d, pairs), Targets(pairs), Sources(pairs)) == Reversed(pairs)
    ensures Accepted(Renamed(d, pairs), Reversed(pairs))
    ensures Renamed(Renamed(d, pairs), Reversed(pairs)) == d
  {
    ReversedPlan(d, pairs);
    ReversedRestores(d, pairs);
    RequestedAll(Targets(pairs), Sources(pairs), Reversed(pairs));
    PresentAll(Renamed(d, pairs), Reversed(pairs));
  }

  lemma {:induction false} RequestedAll(olds: seq<string>, news: seq<string>, pairs: Pairs)
    requires |olds| == |news| == |pairs|
    requires forall i :: 0 <= i < |pairs| ==> pairs[i] == (olds[i], news[i]) && olds[i] != news[i]
    ensures Requested(olds, news) == pairs
  {
    if pairs != [] {
      RequestedAll(olds[1..], news[1..], pairs[1..]);
    }
  }

  lemma {:induction false} PresentAll(d: Dir, pairs: Pairs)
    requires forall i :: 0 <= i < |pairs| ==> IsFile(d, pairs[i].0)
    ensures Present(d, pairs) == pairs
  {
    if pairs != [] {
      PresentAll(d, pairs[1..]);
    }
  }

  /** Exchanging two names is the smallest cycle. */
  lemma SwapExchangesContents(d: Dir, a: string, b: string)
    requires a != b && a in d && b in d
    ensures Renamed(d, [(a, b), (b, a)]) == d[a := d[b]][b := d[a]]
  {
    var pairs: Pairs := [(a, b), (b, a)];
    assert Sources(pairs) == [a, b] && Targets(pairs) == [b, a];
    OriginOfTarget(pairs, 0);
    OriginOfTarget(pairs, 1);
    forall n | n != a && n != b
      ensures Origin(pairs, n) == n
    {
      OriginOfOther(pairs, n);
    }
    hide Origin;
  }

  /**
   Why callers must not pass a target twice: both files are accepted and every rename succeeds, but
   the second one replaces the first at the target.
   */
  lemma SharedTargetLosesAFile(d: Dir, a: string, b: string, c: string)
    requires a != b && c !in {a, b} && IsFile(d, a) && IsFile(d, b) && c !in d && !IsTemporary(c)
    requires Temporary(0) !in d && Temporary(1) !in d
    ensures Renames(d, [a, b], [c, c]) == [(a, c), (b, c)] && Accepted(d, [(a, c), (b, c)])
    ensures var d1 := Moved(d, a, Temporary(0));
            && Movable(d, a, Temporary(0)) && Movable(d1, b, Temporary(1))
            && var d2 := Moved(d1, b, Temporary(1));
            && Movable(d2, Temporary(0), c)
            && var d3 := Moved(d2, Temporary(0), c);
            && Movable(d3, Temporary(1), c)
            && Moved(d3, Temporary(1), c) == (d - {a, b})[c := d[b]]
  {
    var pairs: Pairs := [(a, c), (b, c)];
    RequestedAll([a, b], [c, c], pairs);
    PresentAll(d, pairs);
    assert Temporary(0) != Temporary(1) by {
      if Temporary(0) == Temporary(1) {
        TemporaryInjective(0, 1);
      }
    }
    assert IsTemporary(Temporary(0)) && IsTemporary(Temporary(1));
    hide Temporary, IsTemporary, Renames;
  }

  // ---------------------------------------------------------------- the checks and the effect, told of the two lists

  /** The i-th names ask for a rename of an existing file. */
  ghost predicate Wanted(d: Dir, olds: seq<string>, news: seq<string>, i: nat) {
    i < |olds| && i < |news| && olds[i] != news[i] && olds[i] in d && d[olds[i]].File?
  }

  ghost predicate Leaves(d: Dir, olds: seq<string>, news: seq<string>, name: string) {
    exists i: nat :: Wanted(d, olds, news, i) && olds[i] == name
  }

  ghost predicate Arrives(d: Dir, olds: seq<string>, news: seq<string>, name: string) {
    exists i: nat :: Wanted(d, olds, news, i) && news[i] == name
  }

  /** A wanted new name is in use and stays in use. */
  ghost predicate TargetTaken(d: Dir, olds: seq<string>, news: seq<string>) {
    exists name :: Arrives(d, olds, news, name) && name in d && !Leaves(d, olds, news, name)
  }

  ghost function WantedOnes(d: Dir, olds: seq<string>, news: seq<string>): set<nat> {
    set i: nat | i < |olds| && Wanted(d, olds, news, i)
  }

  /** One of the staging names, as many as files are to be renamed, is in use. */
  ghost predicate StagingTaken(d: Dir, olds: seq<string>, news: seq<string>) {
    exists k: nat :: k < |WantedOnes(d, olds, news)| && Temporary(k) in d
  }

  /** Every wanted file is found under its new name, freed names are free, and all other names are as before. */
  ghost predicate Exchanged(d: Dir, d': Dir, olds: seq<string>, news: seq<string>) {
    && (forall i: nat :: Wanted(d, olds, news, i) ==> news[i] in d' && d'[news[i]] == d[olds[i]])
    && (forall name :: !Arrives(d, olds, news, name) ==>
          if Leaves(d, olds, news, name) then name !in d'
          else (name in d' <==> name in d) && (name in d ==> d'[name] == d[name]))
  }

  /** The pairs at the increasing positions `pos`, which are all wanted ones from position n on. */
  ghost predicate PlansWanted(pos: seq<nat>, d: Dir, olds: seq<string>, news: seq<string>, n: nat, pairs: Pairs) {
    && |pos| == |pairs|
    && (forall k :: 0 <= k < |pos| ==> Wanted(d, olds, news, pos[k]) && pairs[k] == (olds[pos[k]], news[pos[k]]))
    && (forall k :: 0 <= k < |pos| ==> n <= pos[k])
    && (forall a, b :: 0 <= a < b < |pos| ==> pos[a] < pos[b])
    && (forall i: nat :: n <= i && Wanted(d, olds, news, i) ==> i in pos)
  }

  lemma PlanUnfold(d: Dir, olds: seq<string>, news: seq<string>, n: nat)
    requires n < |olds| && n < |news|
    ensures var rest := Renames(d, olds[n + 1..], news[n + 1..]);
            Renames(d, olds[n..], news[n..]) == if Wanted(d, olds, news, n) then [(olds[n], news[n])] + rest else rest
  {
    var from, to := olds[n..], news[n..];
    assert from[1..] == olds[n + 1..] && to[1..] == news[n + 1..];
    var requested := Requested(from[1..], to[1..]);
    if from[0] != to[0] {
      assert Requested(from, to) == [(from[0], to[0])] + requested;
    } else {
      assert Requested(from, to) == requested;
    }
  }

  /** The plan holds exactly the wanted pairs, in the order of the lists. */
  lemma {:induction false} PlanFrom(d: Dir, olds: seq<string>, news: seq<string>, n: nat) returns (pos: seq<nat>)
    requires n <= |olds| && n <= |news|
    ensures PlansWanted(pos, d, olds, news, n, Renames(d, olds[n..], news[n..]))
    decreases |olds| - n
  {
    if n == |olds| || n == |news| {
      pos := [];
    } else {
      hide *;
      pos := PlanFrom(d, olds, news, n + 1);
      PlanUnfold(d, olds, news, n);
      var rest := Renames(d, olds[n + 1..], news[n + 1..]);
      if Wanted(d, olds, news, n) {
        PlanWith(pos, d, olds, news, n, rest);
        pos := [n] + pos;
      } else {
        PlanWithout(pos, d, olds, news, n, rest);
      }
    }
  }

  lemma PlanWithout(later: seq<nat>, d: Dir, olds: seq<string>, news: seq<string>, n: nat, rest: Pairs)
    requires PlansWanted(later, d, olds, news, n + 1, rest) && !Wanted(d, olds, news, n)
    ensures PlansWanted(later, d, olds, news, n, rest)
  {
    assert forall i: nat :: Wanted(d, olds, news, i) ==> i < |olds| && i < |news|;
    hide Wanted;
  }

  lemma PlanWith(later: seq<nat>, d: Dir, olds: seq<string>, news: seq<string>, n: nat, rest: Pairs)
    requires PlansWanted(later, d, olds, news, n + 1, rest) && Wanted(d, olds, news, n)
    ensures PlansWanted([n] + later, d, olds, news, n, [(olds[n], news[n])] + rest)
  {
    assert forall i: nat :: Wanted(d, olds, news, i) ==> i < |olds| && i < |news|;
    hide Wanted;
    var pos, pairs := [n] + later, [(olds[n], news[n])] + rest;
    forall k | 0 <= k < |pos|
      ensures Wanted(d, olds, news, pos[k]) && pairs[k] == (olds[pos[k]], news[pos[k]]) && n <= pos[k]
    {
      if k > 0 {
        assert pos[k] == later[k - 1] && pairs[k] == rest[k - 1];
      }
    }
    forall a, b | 0 <= a < b < |pos|
      ensures pos[a] < pos[b]
    {
      assert pos[b] == later[b - 1];
      if a > 0 {
        assert pos[a] == later[a - 1];
      }
    }
    forall i: nat | n <= i && Wanted(d, olds, news, i)
      ensures i in pos
    {
      assert i == n || i in later;
    }
  }

  lemma PlanPositions(d: Dir, olds: seq<string>, news: seq<string>) returns (pos: seq<nat>)
    ensures PlansWanted(pos, d, olds, news, 0, Renames(d, olds, news))
  {
    pos := PlanFrom(d, olds, news, 0);
    assert olds[0..] == olds && news[0..] == news;
  }

  ghost function Members(pos: seq<nat>): set<nat> { set p | p in pos }

  lemma {:induction false} IncreasingCount(pos: seq<nat>)
    requires forall a, b :: 0 <= a < b < |pos| ==> pos[a] < pos[b]
    ensures |Members(pos)| == |pos|
  {
    if pos != [] {
      var before, last := pos[..|pos| - 1], pos[|pos| - 1];
      IncreasingCount(before);
      assert forall a :: 0 <= a < |before| ==> before[a] < last;
      MembersAdd(before, last);
      assert pos == before + [last];
    }
  }

  lemma MembersAdd(before: seq<nat>, last: nat)
    requires last !in before
    ensures Members(before + [last]) == Members(before) + {last} && |Members(before + [last])| == |Members(before)| + 1
  {
    assert forall p :: p in before + [last] <==> p in before || p == last;
    assert Members(before + [last]) == Members(before) + {last};
  }

  /** How many renames are planned. */
  lemma PlannedCount(d: Dir, olds: seq<string>, news: seq<string>)
    ensures |Renames(d, olds, news)| == |WantedOnes(d, olds, news)|
  {
    var pos := PlanPositions(d, olds, news);
    IncreasingCount(pos);
    assert WantedOnes(d, olds, news) == Members(pos);
  }

  lemma PlannedNames(d: Dir, olds: seq<string>, news: seq<string>, name: string)
    ensures name in Sources(Renames(d, olds, news)) <==> Leaves(d, olds, news, name)
    ensures name in Targets(Renames(d, olds, news)) <==> Arrives(d, olds, news, name)
  {
    var pos := PlanPositions(d, olds, news);
    var pairs := Renames(d, olds, news);
    assert forall i: nat :: Wanted(d, olds, news, i) ==> i < |olds| && i < |news|;
    hide Renames, Wanted;
    if name in Sources(pairs) {
      var k :| 0 <= k < |pairs| && Sources(pairs)[k] == name;
      assert olds[pos[k]] == name;
    }
    if name in Targets(pairs) {
      var k :| 0 <= k < |pairs| && Targets(pairs)[k] == name;
      assert news[pos[k]] == name;
    }
    if i: nat :| Wanted(d, olds, news, i) && olds[i] == name {
      var k :| 0 <= k < |pos| && pos[k] == i;
      assert Sources(pairs)[k] == name;
    }
    if i: nat :| Wanted(d, olds, news, i) && news[i] == name {
      var k :| 0 <= k < |pos| && pos[k] == i;
      assert Targets(pairs)[k] == name;
    }
  }

  /** The checks refuse exactly a taken target and a taken staging name. */
  lemma AcceptedExactly(d: Dir, olds: seq<string>, news: seq<string>)
    ensures TargetBusy(d, Renames(d, olds, news)) <==> TargetTaken(d, olds, news)
    ensures TemporaryBusy(d, Renames(d, olds, news)) <==> StagingTaken(d, olds, news)
  {
    var pairs := Renames(d, olds, news);
    hide Renames, Temporary, Leaves, Arrives, WantedOnes;
    PlannedCount(d, olds, news);
    forall name
      ensures name in Sources(pairs) <==> Leaves(d, olds, news, name)
      ensures name in Targets(pairs) <==> Arrives(d, olds, news, name)
    {
      PlannedNames(d, olds, news, name);
    }
    if TargetTaken(d, olds, news) {
      var name :| Arrives(d, olds, news, name) && name in d && !Leaves(d, olds, news, name);
      var k :| 0 <= k < |pairs| && Targets(pairs)[k] == name;
      assert pairs[k].1 in d && pairs[k].1 !in Sources(pairs);
    }
    if TargetBusy(d, pairs) {
      var k :| 0 <= k < |pairs| && pairs[k].1 in d && pairs[k].1 !in Sources(pairs);
      assert Targets(pairs)[k] in Targets(pairs);
    }
  }

  /** An accepted plan with plain names exchanges the files of the two lists. */
  lemma RenamedExactly(d: Dir, olds: seq<string>, news: seq<string>)
    requires PlainNames(olds) && PlainNames(news) && Accepted(d, Renames(d, olds, news))
    ensures Exchanged(d, Renamed(d, Renames(d, olds, news)), olds, news)
  {
    hide *;
    var pairs := Renames(d, olds, news);
    RenamesArePlanned(d, olds, news);
    PlannedAreThere(d, pairs);
    RenamedPointwise(d, pairs);
    var pos := PlanPositions(d, olds, news);
    forall name
      ensures name in Sources(pairs) <==> Leaves(d, olds, news, name)
      ensures name in Targets(pairs) <==> Arrives(d, olds, news, name)
    {
      PlannedNames(d, olds, news, name);
    }
    ExchangedByPairs(d, Renamed(d, pairs), olds, news, pos, pairs);
  }

  lemma PlannedAreThere(d: Dir, pairs: Pairs)
    requires GoodPlan(d, pairs)
    ensures forall k :: 0 <= k < |pairs| ==> pairs[k].0 in d
  {
  }

  lemma ExchangedByPairs(d: Dir, d': Dir, olds: seq<string>, news: seq<string>, pos: seq<nat>, pairs: Pairs)
    requires PlansWanted(pos, d, olds, news, 0, pairs)
    requires forall k :: 0 <= k < |pairs| ==> pairs[k].0 in d && pairs[k].1 in d' && d'[pairs[k].1] == d[pairs[k].0]
    requires forall n :: n !in Sources(pairs) && n !in Targets(pairs) ==> (n in d' <==> n in d) && (n in d ==> d'[n] == d[n])
    requires forall n :: n in Sources(pairs) && n !in Targets(pairs) ==> n !in d'
    requires forall n :: n in Sources(pairs) <==> Leaves(d, olds, news, n)
    requires forall n :: n in Targets(pairs) <==> Arrives(d, olds, news, n)
    ensures Exchanged(d, d', olds, news)
  {
    assert forall i: nat :: Wanted(d, olds, news, i) ==> i < |olds| && i < |news| && olds[i] in d;
    hide Wanted, Leaves, Arrives;
    forall i: nat | Wanted(d, olds, news, i)
      ensures news[i] in d' && d'[news[i]] == d[olds[i]]
    {
      var k :| 0 <= k < |pos| && pos[k] == i;
      assert pairs[k] == (olds[i], news[i]);
    }
  }

  /** Exchanging the names of two files is accepted unless a staging name is in use. */
  lemma SwapIsAccepted(d: Dir, a: string, b: string)
    requires a != b && IsFile(d, a) && IsFile(d, b) && Temporary(0) !in d && Temporary(1) !in d
    ensures !TargetTaken(d, [a, b], [b, a]) && !StagingTaken(d, [a, b], [b, a])
    ensures Renames(d, [a, b], [b, a]) == [(a, b), (b, a)]
  {
    var pairs: Pairs := [(a, b), (b, a)];
    RequestedAll([a, b], [b, a], pairs);
    PresentAll(d, pairs);
    assert pairs == Renames(d, [a, b], [b, a]);
    AcceptedExactly(d, [a, b], [b, a]);
    assert Sources(pairs) == [a, b];
    hide Renames, TargetTaken, StagingTaken, Temporary;
  }

  // ---------------------------------------------------------------- the disk and the method

  /** No fault is due at call number `from` or later. */
  ghost predicate NoFaultFrom(faults: set<nat>, from: nat) {
    forall k :: k in faults ==> k < from
  }

  /** At most one fault is due at call number `from` or later. */
  ghost predicate AtMostOneFaultFrom(faults: set<nat>, from: nat) {
    forall j, k :: j in faults && k in faults && from <= j && from <= k ==> j == k
  }

  ghost predicate NoFaultBetween(faults: set<nat>, from: nat, to: nat) {
    forall k :: from <= k < to ==> k !in faults
  }

  /** All challenge directories, and the operating system's rename call. */
  class Disk {
    var dirs: map<int, Dir>
    var calls: nat
    const faults: set<nat>
    ghost var overwrote: bool

    constructor (dirs: map<int, Dir>, faults: set<nat>)
      ensures this.dirs == dirs && calls == 0 && this.faults == faults && !overwrote
    {
      this.dirs := dirs;
      this.faults := faults;
      calls := 0;
      overwrote := false;
    }

    /** os.rename inside one challenge directory; false stands for the OSError it raises. */
    method Rename(chal: int, source: string, target: string) returns (ok: bool)
      modifies this
      ensures calls == old(calls) + 1
      ensures ok == (old(calls) !in faults && Movable(DirOf(old(dirs), chal), source, target))
      ensures dirs == if ok then old(dirs)[chal := Moved(DirOf(old(dirs), chal), source, target)] else old(dirs)
      ensures overwrote == (old(overwrote) || (ok && source != target && target in DirOf(old(dirs), chal)))
    {
      var d := DirOf(dirs, chal);
      ok := calls !in faults && Movable(d, source, target);
      calls := calls + 1;
      if ok {
        overwrote := overwrote || (source != target && target in d);
        dirs := dirs[chal := Moved(d, source, target)];
      }
    }
  }

  /** The disk after one challenge has been renamed completely. */
  function RenamedDisk(dirs: map<int, Dir>, chal: int, pairs: Pairs): map<int, Dir> {
    if pairs == [] then dirs else dirs[chal := Renamed(DirOf(dirs, chal), pairs)]
  }

  /** An accepted plan can be started, and is proper if the names are plain. */
  lemma PlanIsReady(dirs: map<int, Dir>, chal: int, olds: seq<string>, news: seq<string>)
    ensures var pairs := Renames(DirOf(dirs, chal), olds, news);
            pairs != [] && Accepted(DirOf(dirs, chal), pairs) ==>
              && chal in dirs && Startable(dirs, chal, pairs)
              && (PlainNames(olds) && PlainNames(news) ==> Proper(dirs, chal, pairs))
  {
    var d := DirOf(dirs, chal);
    var pairs := Renames(d, olds, news);
    PresentIsSublist(d, Requested(olds, news));
    hide Accepted, GoodPlan, Requested, Present;
    forall i | 0 <= i < |pairs|
      ensures IsFile(d, pairs[i].0)
    {
      assert pairs[i] in pairs;
    }
    assert pairs != [] ==> IsFile(d, pairs[0].0);
    if PlainNames(olds) && PlainNames(news) {
      RenamesArePlanned(d, olds, news);
    }
  }

  lemma RenamedNothing(d: Dir)
    ensures Renamed(d, []) == d
  {
    assert Sources([]) == [] && Targets([]) == [];
  }

  lemma PlannedExchange(d: Dir, olds: seq<string>, news: seq<string>)
    ensures PlainNames(olds) && PlainNames(news) && Accepted(d, Renames(d, olds, news)) ==>
              Exchanged(d, Renamed(d, Renames(d, olds, news)), olds, news)
  {
    hide *;
    if PlainNames(olds) && PlainNames(news) && Accepted(d, Renames(d, olds, news)) {
      RenamedExactly(d, olds, news);
    }
  }

  /**
   rename_submission_files.
   - A dry run, and the checks of any other call, refuse exactly a taken target and a taken staging name.
   - A rejected call, and a dry run, touch nothing; no call touches another directory.
   For names that are distinct and not reserved for staging, moreover:
   - Otherwise the call succeeds exactly when none of its 2n renames fails, and then the directory
     is the simultaneous renaming of the old one: every wanted file is found under its new name.
   - When one rename fails and the rollback's own renames do not, the directory is restored.
   - Whatever fails, no rename ever lands on an existing entry.
   For arbitrary names, as long as no call fails by itself:
   - An accepted call succeeds exactly when no planned source is repeated, and restores the directory otherwise.
   - It overwrites a file exactly when it succeeds and two planned targets are equal, or a target is
     the temporary name of a later pair.
   */
  method RenameSubmissionFiles(disk: Disk, chal: int, olds: seq<string>, news: seq<string>, dryRun: bool)
    returns (r: Result<Pairs, RenameError>)
    modifies disk
    ensures disk.calls >= old(disk.calls)
    ensures disk.dirs.Keys == old(disk.dirs).Keys
    ensures forall c :: c != chal && c in old(disk.dirs) ==> disk.dirs[c] == old(disk.dirs)[c]
    ensures var d := old(DirOf(disk.dirs, chal));
            var pairs := Renames(d, olds, news);
            && (r.Ok? ==> r.value == pairs && Accepted(d, pairs))
            && (dryRun || !Accepted(d, pairs) ==>
                  r.Ok? == Accepted(d, pairs) && disk.dirs == old(disk.dirs) && disk.calls == old(disk.calls))
    ensures PlainNames(olds) && PlainNames(news) ==>
              var d := old(DirOf(disk.dirs, chal));
              var pairs := Renames(d, olds, news);
              && disk.overwrote == old(disk.overwrote)
              && (!dryRun && Accepted(d, pairs) ==>
                    r.Ok? == NoFaultBetween(disk.faults, old(disk.calls), old(disk.calls) + 2 * |pairs|))
              && (!dryRun && r.Ok? ==>
                    disk.calls == old(disk.calls) + 2 * |pairs| && disk.dirs == RenamedDisk(old(disk.dirs), chal, pairs))
              && (r.Err? && AtMostOneFaultFrom(disk.faults, old(disk.calls)) ==> disk.dirs == old(disk.dirs))
              && (r.Err? && !dryRun && Accepted(d, pairs) ==> exists k :: old(disk.calls) <= k < disk.calls && k in disk.faults)
    ensures var d := old(DirOf(disk.dirs, chal));
            var pairs := Renames(d, olds, news);
            !dryRun && Accepted(d, pairs) && NoFaultFrom(disk.faults, old(disk.calls)) ==>
              && r.Ok? == Distinct(Sources(pairs))
              && disk.overwrote == (old(disk.overwrote) || (r.Ok? && Collides(pairs)))
              && (r.Err? ==> disk.dirs == old(disk.dirs))
    ensures var d := old(DirOf(disk.dirs, chal));
            && (r == Err(TargetExists) <==> TargetTaken(d, olds, news))
            && (r == Err(TemporaryExists) <==> !TargetTaken(d, olds, news) && StagingTaken(d, olds, news))
            && (dryRun ==> r != Err(RenameFailed))
            && (PlainNames(olds) && PlainNames(news) && NoFaultFrom(disk.faults, old(disk.calls)) ==> r != Err(RenameFailed))
            && (PlainNames(olds) && PlainNames(news) && r.Ok? && !dryRun ==> Exchanged(d, DirOf(disk.dirs, chal), olds, news))
  {
    hide TargetTaken, StagingTaken, Exchanged;
    hide Startable, Proper, PlainNames, Renames, Renamed, Temporary;
    ghost var d := DirOf(disk.dirs, chal);
    var renames := Renames(DirOf(disk.dirs, chal), olds, news);
    PlanIsReady(disk.dirs, chal, olds, news);
    AcceptedExactly(d, olds, news);
    PlannedExchange(d, olds, news);
    if renames == [] {
      RenamedNothing(d);
      return Ok([]);
    }

    var sources := Sources(renames);
    for i := 0 to |renames|
      invariant forall k :: 0 <= k < i ==> renames[k].1 in d ==> renames[k].1 in sources
    {
      if renames[i].1 in DirOf(disk.dirs, chal) && renames[i].1 !in sources {
        return Err(TargetExists);
      }
    }
    if TemporaryBusy(DirOf(disk.dirs, chal), renames) {
      return Err(TemporaryExists);
    }
    if dryRun {
      return Ok(renames);
    }

    assert Accepted(d, renames);
    hide Distinct, Collides, Accepted, TargetBusy, TemporaryBusy;
    var done := StageAndFinalize(disk, chal, renames);
    if done {
      r := Ok(renames);
    } else {
      r := Err(RenameFailed);
    }
  }

  /**
   Where the k-th planned file is: in [newFrom, newTo) files have reached their target, other files
   in [tempFrom, tempTo) wait under their temporary name, the rest are where they were.
   */
  ghost function Locations(pairs: Pairs, newFrom: nat, newTo: nat, tempFrom: nat, tempTo: nat): (locs: seq<string>)
    ensures |locs| == |pairs|
    ensures forall k :: 0 <= k < |pairs| ==>
        locs[k] == (if newFrom <= k < newTo then pairs[k].1 else if tempFrom <= k < tempTo then Temporary(k) else pairs[k].0)
  {
    seq(|pairs|, k requires 0 <= k < |pairs| =>
      if newFrom <= k < newTo then pairs[k].1 else if tempFrom <= k < tempTo then Temporary(k) else pairs[k].0)
  }

  ghost predicate DirMidway(d: Dir, d': Dir, pairs: Pairs, locs: seq<string>) {
    GoodPlan(d, pairs) && Accepted(d, pairs) && Placed(d', Rest(d, pairs), locs, Files(d, pairs))
  }

  /** The temporary name of a file that is at its source or target is free. */
  lemma TemporaryFree(d: Dir, d': Dir, pairs: Pairs, locs: seq<string>, i: nat)
    requires DirMidway(d, d', pairs, locs) && i < |pairs| && locs[i] in {pairs[i].0, pairs[i].1}
    requires forall k :: 0 <= k < |locs| ==> locs[k] in {pairs[k].0, pairs[k].1, Temporary(k)}
    ensures Temporary(i) !in d'
  {
    if Temporary(i) in d' {
      assert Temporary(i) !in Rest(d, pairs);
      var k :| 0 <= k < |locs| && locs[k] == Temporary(i);
      assert IsTemporary(locs[k]);
      TemporaryInjective(i, k);
    }
  }

  /** While no planned file is at a source, the target of a waiting file is free. */
  lemma TargetFree(d: Dir, d': Dir, pairs: Pairs, locs: seq<string>, i: nat)
    requires DirMidway(d, d', pairs, locs) && i < |pairs| && locs[i] == Temporary(i)
    requires forall k :: 0 <= k < |locs| ==> locs[k] in {Temporary(k), pairs[k].1}
    ensures pairs[i].1 !in d'
  {
    forall k | 0 <= k < |locs|
      ensures locs[k] != pairs[i].1
    {
      if locs[k] == Temporary(k) {
        assert IsTemporary(locs[k]);
      }
    }
    assert pairs[i].1 !in Rest(d, pairs) by {
      assert pairs[i].1 in d ==> pairs[i].1 in Sources(pairs);
    }
  }

  /** While no planned file is at a target, the source of a waiting file is free. */
  lemma SourceFree(d: Dir, d': Dir, pairs: Pairs, locs: seq<string>, i: nat)
    requires DirMidway(d, d', pairs, locs) && i < |pairs| && locs[i] == Temporary(i)
    requires forall k :: 0 <= k < |locs| ==> locs[k] in {Temporary(k), pairs[k].0}
    ensures pairs[i].0 !in d'
  {
    hide Accepted, Files;
    forall k | 0 <= k < |locs|
      ensures locs[k] != pairs[i].0
    {
      if locs[k] == Temporary(k) {
        assert IsTemporary(locs[k]);
      }
    }
    assert Sources(pairs)[i] == pairs[i].0;
    assert pairs[i].0 !in Rest(d, pairs);
  }

  /** Only `chal` has changed since `dirs0`, and there the planned files are at `Locations(...)`. */
  ghost predicate Midway(dirs0: map<int, Dir>, dirs: map<int, Dir>, chal: int, pairs: Pairs,
                         newFrom: nat, newTo: nat, tempFrom: nat, tempTo: nat)
  {
    && chal in dirs0
    && dirs.Keys == dirs0.Keys
    && (forall c :: c in dirs0 && c != chal ==> dirs[c] == dirs0[c])
    && DirMidway(dirs0[chal], dirs[chal], pairs, Locations(pairs, newFrom, newTo, tempFrom, tempTo))
  }

  /** Staging one more file. */
  lemma StageStep(dirs0: map<int, Dir>, dirs: map<int, Dir>, chal: int, pairs: Pairs, i: nat)
    requires Midway(dirs0, dirs, chal, pairs, 0, 0, 0, i) && i < |pairs|
    ensures Temporary(i) !in dirs[chal] && Movable(dirs[chal], pairs[i].0, Temporary(i))
    ensures Midway(dirs0, dirs[chal := Moved(dirs[chal], pairs[i].0, Temporary(i))], chal, pairs, 0, 0, 0, i + 1)
  {
    hide Placed, Accepted, Moved, Movable, Rest;
    var d, d', locs := dirs0[chal], dirs[chal], Locations(pairs, 0, 0, 0, i);
    TemporaryFree(d, d', pairs, locs, i);
    PlacedStep(d', Rest(d, pairs), locs, Files(d, pairs), i, Temporary(i));
    assert Locations(pairs, 0, 0, 0, i + 1) == locs[i := Temporary(i)];
  }

  /** Finalizing one more file, once all are staged. */
  lemma FinalizeStep(dirs0: map<int, Dir>, dirs: map<int, Dir>, chal: int, pairs: Pairs, i: nat)
    requires Midway(dirs0, dirs, chal, pairs, 0, i, 0, |pairs|) && i < |pairs|
    ensures pairs[i].1 !in dirs[chal] && Movable(dirs[chal], Temporary(i), pairs[i].1)
    ensures Midway(dirs0, dirs[chal := Moved(dirs[chal], Temporary(i), pairs[i].1)], chal, pairs, 0, i + 1, 0, |pairs|)
  {
    hide Placed, Accepted, Moved, Movable, Rest;
    var d, d', locs := dirs0[chal], dirs[chal], Locations(pairs, 0, i, 0, |pairs|);
    TargetFree(d, d', pairs, locs, i);
    PlacedStep(d', Rest(d, pairs), locs, Files(d, pairs), i, pairs[i].1);
    assert Locations(pairs, 0, i + 1, 0, |pairs|) == locs[i := pairs[i].1];
  }

  /** Taking one finalized file back to its temporary name. */
  lemma UnfinalizeStep(dirs0: map<int, Dir>, dirs: map<int, Dir>, chal: int, pairs: Pairs, i: nat, finalized: nat, staged: nat)
    requires Midway(dirs0, dirs, chal, pairs, i, finalized, 0, staged) && i < finalized <= staged <= |pairs|
    ensures Temporary(i) !in dirs[chal] && Movable(dirs[chal], pairs[i].1, Temporary(i))
    ensures Midway(dirs0, dirs[chal := Moved(dirs[chal], pairs[i].1, Temporary(i))], chal, pairs, i + 1, finalized, 0, staged)
  {
    hide Placed, Accepted, Moved, Movable, Rest;
    var d, d', locs := dirs0[chal], dirs[chal], Locations(pairs, i, finalized, 0, staged);
    TemporaryFree(d, d', pairs, locs, i);
    PlacedStep(d', Rest(d, pairs), locs, Files(d, pairs), i, Temporary(i));
    assert Locations(pairs, i + 1, finalized, 0, staged) == locs[i := Temporary(i)];
  }

  /** Taking one staged file back to its old name. */
  lemma UnstageStep(dirs0: map<int, Dir>, dirs: map<int, Dir>, chal: int, pairs: Pairs, i: nat, staged: nat)
    requires Midway(dirs0, dirs, chal, pairs, 0, 0, i, staged) && i < staged <= |pairs|
    ensures pairs[i].0 !in dirs[chal] && Movable(dirs[chal], Temporary(i), pairs[i].0)
    ensures Midway(dirs0, dirs[chal := Moved(dirs[chal], Temporary(i), pairs[i].0)], chal, pairs, 0, 0, i + 1, staged)
  {
    hide Placed, Accepted, Moved, Movable, Rest;
    var d, d', locs := dirs0[chal], dirs[chal], Locations(pairs, 0, 0, i, staged);
    SourceFree(d, d', pairs, locs, i);
    PlacedStep(d', Rest(d, pairs), locs, Files(d, pairs), i, pairs[i].0);
    assert Locations(pairs, 0, 0, i + 1, staged) == locs[i := pairs[i].0];
  }

  lemma MidwayStart(dirs0: map<int, Dir>, chal: int, pairs: Pairs)
    requires chal in dirs0 && GoodPlan(dirs0[chal], pairs) && Accepted(dirs0[chal], pairs)
    ensures Midway(dirs0, dirs0, chal, pairs, 0, 0, 0, 0)
  {
    PlacedAtStart(dirs0[chal], pairs);
    assert Locations(pairs, 0, 0, 0, 0) == Sources(pairs);
  }

  /** When everything has been undone, every directory is what it was. */
  lemma MidwayUndone(dirs0: map<int, Dir>, dirs: map<int, Dir>, chal: int, pairs: Pairs, staged: nat)
    requires Midway(dirs0, dirs, chal, pairs, 0, 0, staged, staged)
    ensures dirs == dirs0
  {
    hide Placed, Accepted, Rest, Renamed;
    var d := dirs0[chal];
    PlacedAtStart(d, pairs);
    assert Locations(pairs, 0, 0, staged, staged) == Sources(pairs);
    PlacedUnique(d, dirs[chal], Rest(d, pairs), Sources(pairs), Files(d, pairs));
    assert forall c :: c in dirs ==> dirs[c] == dirs0[c];
  }

  lemma MidwayDone(dirs0: map<int, Dir>, dirs: map<int, Dir>, chal: int, pairs: Pairs)
    requires Midway(dirs0, dirs, chal, pairs, 0, |pairs|, 0, |pairs|)
    ensures dirs == dirs0[chal := Renamed(dirs0[chal], pairs)]
  {
    hide Placed, Accepted, Rest, Renamed;
    assert Locations(pairs, 0, |pairs|, 0, |pairs|) == Targets(pairs);
    PlacedAtEnd(dirs0[chal], dirs[chal], pairs);
    assert forall c :: c in dirs ==> dirs[c] == dirs0[chal := Renamed(dirs0[chal], pairs)][c];
  }

  /** The same locations, described from the point where undoing finalized files is over. */
  lemma MidwayUnfinalized(dirs0: map<int, Dir>, dirs: map<int, Dir>, chal: int, pairs: Pairs, finalized: nat, staged: nat)
    requires Midway(dirs0, dirs, chal, pairs, finalized, finalized, 0, staged)
    ensures Midway(dirs0, dirs, chal, pairs, 0, 0, 0, staged)
  {
    assert Locations(pairs, finalized, finalized, 0, staged) == Locations(pairs, 0, 0, 0, staged);
  }

  // ---------------------------------------------------------------- any pairs, while no call fails by itself

  /** The checks have passed and every planned source is a file; names may be shared or reserved. */
  ghost predicate Startable(dirs: map<int, Dir>, chal: int, pairs: Pairs) {
    chal in dirs && Accepted(dirs[chal], pairs) && forall i :: 0 <= i < |pairs| ==> IsFile(dirs[chal], pairs[i].0)
  }

  /** Target i has been reached before, or is the temporary name of a file that still waits. */
  ghost predicate LandsOnFile(pairs: Pairs, i: nat)
    requires i < |pairs|
  {
    || (exists j :: 0 <= j < i && pairs[j].1 == pairs[i].1)
    || (exists k: nat :: i < k < |pairs| && pairs[i].1 == Temporary(k))
  }

  ghost predicate LandsBefore(pairs: Pairs, n: nat)
    requires n <= |pairs|
  {
    exists i :: 0 <= i < n && LandsOnFile(pairs, i)
  }

  /** Two pairs share a target, or a target is the temporary name of a later pair. */
  ghost predicate Collides(pairs: Pairs) { LandsBefore(pairs, |pairs|) }

  ghost predicate StagedIn(name: string, from: nat, to: nat) {
    exists j: nat :: from <= j < to && Temporary(j) == name
  }

  ghost predicate SourceIn(pairs: Pairs, name: string, from: nat, to: nat)
    requires to <= |pairs|
  {
    exists j: nat :: from <= j < to && pairs[j].0 == name
  }

  ghost predicate TargetIn(pairs: Pairs, name: string, to: nat)
    requires to <= |pairs|
  {
    exists j: nat :: j < to && pairs[j].1 == name
  }

  /** The files `from..to` wait under their temporary names, everything else is where it was. */
  ghost predicate Waiting(dirs0: map<int, Dir>, dirs: map<int, Dir>, chal: int, pairs: Pairs, from: nat, to: nat) {
    && from <= to <= |pairs| && Startable(dirs0, chal, pairs) && chal in dirs
    && Distinct(Sources(pairs)[..to])
    && WaitingIn(dirs0[chal], dirs[chal], pairs, from, to)
  }

  ghost predicate WaitingIn(d: Dir, d': Dir, pairs: Pairs, from: nat, to: nat)
    requires to <= |pairs|
  {
    && (forall n :: n in d' <==> WaitingName(d, n, pairs, from, to))
    && (forall n :: n in d && n in d' ==> d'[n] == d[n])
    && (forall j: nat :: from <= j < to ==> StagedCopy(d, d', pairs[j].0, Temporary(j)))
  }

  ghost predicate WaitingName(d: Dir, name: string, pairs: Pairs, from: nat, to: nat)
    requires to <= |pairs|
  {
    (name in d && !SourceIn(pairs, name, from, to)) || StagedIn(name, from, to)
  }

  ghost predicate StagedCopy(d: Dir, d': Dir, source: string, temporary: string) {
    source in d && temporary in d' && d'[temporary] == d[source]
  }

  /** All files from i on wait, and as long as no target was occupied the others are at their targets. */
  ghost predicate Finalizing(dirs0: map<int, Dir>, dirs: map<int, Dir>, chal: int, pairs: Pairs, i: nat) {
    && i <= |pairs| && Startable(dirs0, chal, pairs) && chal in dirs && Distinct(Sources(pairs))
    && FinalizingIn(Rest(dirs0[chal], pairs), dirs[chal], pairs, i)
  }

  ghost predicate FinalizingIn(rest: Dir, d': Dir, pairs: Pairs, i: nat)
    requires i <= |pairs|
  {
    && (forall j: nat :: i <= j < |pairs| ==> IsFile(d', Temporary(j)))
    && (forall n :: n in d' ==> n in rest || d'[n].File?)
    && (!LandsBefore(pairs, i) ==> forall n :: n in d' <==> FinalizingName(rest, n, pairs, i))
  }

  ghost predicate FinalizingName(rest: Dir, name: string, pairs: Pairs, i: nat)
    requires i <= |pairs|
  {
    name in rest || TargetIn(pairs, name, i) || StagedIn(name, i, |pairs|)
  }

  lemma WaitingStart(dirs0: map<int, Dir>, chal: int, pairs: Pairs)
    requires Startable(dirs0, chal, pairs)
    ensures Waiting(dirs0, dirs0, chal, pairs, 0, 0)
  {
  }

  lemma WaitingDistinct(dirs0: map<int, Dir>, dirs: map<int, Dir>, chal: int, pairs: Pairs)
    requires Waiting(dirs0, dirs, chal, pairs, 0, |pairs|)
    ensures Distinct(Sources(pairs))
  {
    assert Sources(pairs)[..|pairs|] == Sources(pairs);
  }

  /** The checks have made sure that no entry of the old directory has a temporary name that is used. */
  lemma TemporariesAreNew(dirs0: map<int, Dir>, chal: int, pairs: Pairs)
    requires Startable(dirs0, chal, pairs)
    ensures Separate(dirs0[chal], pairs)
  {
    forall j: nat, k: nat | Temporary(j) == Temporary(k)
      ensures j == k
    {
      TemporaryInjective(j, k);
    }
    hide Temporary;
  }

  lemma SourceInOneMore(pairs: Pairs, name: string, from: nat, to: nat)
    requires from < to <= |pairs|
    ensures SourceIn(pairs, name, from, to) <==> SourceIn(pairs, name, from, to - 1) || pairs[to - 1].0 == name
    ensures SourceIn(pairs, name, from, to) <==> SourceIn(pairs, name, from + 1, to) || pairs[from].0 == name
  {
  }

  lemma StagedInOneMore(name: string, from: nat, to: nat)
    requires from < to
    ensures StagedIn(name, from, to) <==> StagedIn(name, from, to - 1) || Temporary(to - 1) == name
    ensures StagedIn(name, from, to) <==> StagedIn(name, from + 1, to) || Temporary(from) == name
  {
    hide Temporary;
  }

  /** The files are there and their temporary names are new and different. */
  ghost predicate Separate(d: Dir, pairs: Pairs) {
    && (forall j: nat :: j < |pairs| ==> IsFile(d, pairs[j].0) && Temporary(j) !in d)
    && (forall j: nat, k: nat :: Temporary(j) == Temporary(k) ==> j == k)
  }

  lemma NamesAfterStaging(d: Dir, name: string, pairs: Pairs, i: nat)
    requires Separate(d, pairs) && i < |pairs|
    ensures WaitingName(d, Temporary(i), pairs, 0, i) == false
    ensures WaitingName(d, pairs[i].0, pairs, 0, i) <==> !SourceIn(pairs, pairs[i].0, 0, i)
    ensures WaitingName(d, name, pairs, 0, i + 1) <==>
              name == Temporary(i) || (name != pairs[i].0 && WaitingName(d, name, pairs, 0, i))
  {
    SourceInOneMore(pairs, name, 0, i + 1);
    StagedInOneMore(name, 0, i + 1);
    hide Temporary;
  }

  lemma WaitingOneMore(d: Dir, d': Dir, pairs: Pairs, i: nat)
    requires Separate(d, pairs) && i < |pairs| && WaitingIn(d, d', pairs, 0, i)
    ensures Temporary(i) !in d' && (pairs[i].0 in d' <==> !SourceIn(pairs, pairs[i].0, 0, i))
    ensures pairs[i].0 in d' ==> d'[pairs[i].0].File? && WaitingIn(d, Moved(d', pairs[i].0, Temporary(i)), pairs, 0, i + 1)
  {
    hide Temporary, WaitingName;
    NamesAfterStaging(d, "", pairs, i);
    if pairs[i].0 in d' {
      var d'' := Moved(d', pairs[i].0, Temporary(i));
      forall n
        ensures n in d'' <==> WaitingName(d, n, pairs, 0, i + 1)
      {
        NamesAfterStaging(d, n, pairs, i);
      }
    }
  }

  /** The next source is still there unless an earlier pair has the same one. */
  lemma WaitingStage(dirs0: map<int, Dir>, dirs: map<int, Dir>, chal: int, pairs: Pairs, i: nat)
    requires Waiting(dirs0, dirs, chal, pairs, 0, i) && i < |pairs|
    ensures Temporary(i) !in dirs[chal]
    ensures Movable(dirs[chal], pairs[i].0, Temporary(i)) ==>
              Waiting(dirs0, dirs[chal := Moved(dirs[chal], pairs[i].0, Temporary(i))], chal, pairs, 0, i + 1)
    ensures !Movable(dirs[chal], pairs[i].0, Temporary(i)) ==> !Distinct(Sources(pairs))
  {
    TemporariesAreNew(dirs0, chal, pairs);
    WaitingOneMore(dirs0[chal], dirs[chal], pairs, i);
    hide Temporary, Accepted, WaitingIn, Moved;
    if pairs[i].0 in dirs[chal] {
      DistinctOneMore(pairs, i);
    } else {
      var j: nat :| j < i && pairs[j].0 == pairs[i].0;
      assert Sources(pairs)[j] == Sources(pairs)[i];
    }
  }

  lemma DistinctOneMore(pairs: Pairs, i: nat)
    requires i < |pairs| && Distinct(Sources(pairs)[..i]) && !SourceIn(pairs, pairs[i].0, 0, i)
    ensures Distinct(Sources(pairs)[..i + 1])
  {
  }

  lemma SourceIsUnstagedOnce(pairs: Pairs, i: nat, to: nat)
    requires i < to <= |pairs| && Distinct(Sources(pairs)[..to])
    ensures !SourceIn(pairs, pairs[i].0, i + 1, to)
  {
    assert forall j: nat :: i < j < to ==> Sources(pairs)[..to][j] != Sources(pairs)[..to][i];
  }

  lemma NamesAfterUnstaging(d: Dir, name: string, pairs: Pairs, i: nat, to: nat)
    requires Separate(d, pairs) && i < to <= |pairs| && Distinct(Sources(pairs)[..to])
    ensures WaitingName(d, Temporary(i), pairs, i, to) && !WaitingName(d, pairs[i].0, pairs, i, to)
    ensures WaitingName(d, name, pairs, i + 1, to) <==>
              name == pairs[i].0 || (name != Temporary(i) && WaitingName(d, name, pairs, i, to))
  {
    hide Temporary, Distinct;
    SourceInOneMore(pairs, name, i, to);
    StagedInOneMore(name, i, to);
    SourceIsUnstagedOnce(pairs, i, to);
  }

  lemma WaitingOneLess(d: Dir, d': Dir, pairs: Pairs, i: nat, to: nat)
    requires Separate(d, pairs) && i < to <= |pairs| && Distinct(Sources(pairs)[..to]) && WaitingIn(d, d', pairs, i, to)
    ensures Temporary(i) in d' && pairs[i].0 !in d' && d'[Temporary(i)].File?
    ensures WaitingIn(d, Moved(d', Temporary(i), pairs[i].0), pairs, i + 1, to)
  {
    hide Temporary, WaitingName, Distinct;
    NamesAfterUnstaging(d, "", pairs, i, to);
    assert StagedCopy(d, d', pairs[i].0, Temporary(i));
    var d'' := Moved(d', Temporary(i), pairs[i].0);
    forall n
      ensures n in d'' <==> WaitingName(d, n, pairs, i + 1, to)
    {
      NamesAfterUnstaging(d, n, pairs, i, to);
    }
    forall j: nat | i < j < to
      ensures StagedCopy(d, d'', pairs[j].0, Temporary(j))
    {
      assert StagedCopy(d, d', pairs[j].0, Temporary(j));
    }
  }

  /** A waiting file can go back to its old name. */
  lemma WaitingUnstage(dirs0: map<int, Dir>, dirs: map<int, Dir>, chal: int, pairs: Pairs, i: nat, to: nat)
    requires Waiting(dirs0, dirs, chal, pairs, i, to) && i < to
    ensures Temporary(i) in dirs[chal] && pairs[i].0 !in dirs[chal] && Movable(dirs[chal], Temporary(i), pairs[i].0)
    ensures Waiting(dirs0, dirs[chal := Moved(dirs[chal], Temporary(i), pairs[i].0)], chal, pairs, i + 1, to)
  {
    TemporariesAreNew(dirs0, chal, pairs);
    WaitingOneLess(dirs0[chal], dirs[chal], pairs, i, to);
    hide Temporary, Accepted, WaitingIn, Moved, Distinct, Separate;
  }

  lemma WaitingUndone(dirs0: map<int, Dir>, dirs: map<int, Dir>, chal: int, pairs: Pairs, to: nat)
    requires Waiting(dirs0, dirs, chal, pairs, to, to) && SameElsewhere(dirs0, dirs, chal)
    ensures dirs == dirs0
  {
    assert dirs[chal] == dirs0[chal];
    assert forall c :: c in dirs ==> dirs[c] == dirs0[c];
  }

  lemma AllStaged(dirs0: map<int, Dir>, dirs: map<int, Dir>, chal: int, pairs: Pairs)
    requires Waiting(dirs0, dirs, chal, pairs, 0, |pairs|)
    ensures Finalizing(dirs0, dirs, chal, pairs, 0)
  {
    WaitingDistinct(dirs0, dirs, chal, pairs);
    hide Temporary, Accepted, StagedIn, Distinct;
    var d, rest := dirs0[chal], Rest(dirs0[chal], pairs);
    forall n
      ensures FinalizingName(rest, n, pairs, 0) <==> WaitingName(d, n, pairs, 0, |pairs|)
    {
      SourceInSources(pairs, n);
    }
    forall n | n in dirs[chal] && n !in rest
      ensures dirs[chal][n].File?
    {
      SourceInSources(pairs, n);
      StagedIsFile(d, dirs[chal], pairs, n);
    }
    forall j: nat | j < |pairs|
      ensures IsFile(dirs[chal], Temporary(j))
    {
      assert StagedCopy(d, dirs[chal], pairs[j].0, Temporary(j));
    }
  }

  lemma SourceInSources(pairs: Pairs, name: string)
    ensures SourceIn(pairs, name, 0, |pairs|) <==> name in Sources(pairs)
  {
    if name in Sources(pairs) {
      var j: nat :| j < |pairs| && Sources(pairs)[j] == name;
    }
  }

  lemma StagedIsFile(d: Dir, d': Dir, pairs: Pairs, name: string)
    requires WaitingIn(d, d', pairs, 0, |pairs|) && forall i :: 0 <= i < |pairs| ==> IsFile(d, pairs[i].0)
    requires StagedIn(name, 0, |pairs|)
    ensures name in d' && d'[name].File?
  {
    hide Temporary, WaitingName;
    var j: nat :| j < |pairs| && Temporary(j) == name;
    assert StagedCopy(d, d', pairs[j].0, Temporary(j));
  }

  /** Which names are taken after one more file has been finalized, when no target was occupied before. */
  lemma NamesAfterFinalizing(rest: Dir, name: string, pairs: Pairs, i: nat)
    requires i < |pairs| && !LandsBefore(pairs, i)
    requires forall j: nat, k: nat :: Temporary(j) == Temporary(k) ==> j == k
    requires forall j: nat :: j < |pairs| ==> pairs[j].1 !in rest && Temporary(j) !in rest
    ensures FinalizingName(rest, pairs[i].1, pairs, i) && Temporary(i) != pairs[i].1 <==> LandsOnFile(pairs, i)
    ensures FinalizingName(rest, name, pairs, i + 1) <==>
              name == pairs[i].1 || (name != Temporary(i) && FinalizingName(rest, name, pairs, i))
  {
    hide Temporary;
    assert TargetIn(pairs, name, i + 1) <==> TargetIn(pairs, name, i) || pairs[i].1 == name;
    StagedInOneMore(name, i, |pairs|);
    StagedInOneMore(pairs[i].1, i, |pairs|);
    forall j: nat | j < i
      ensures pairs[j].1 != Temporary(i)
    {
      LandsOnLater(pairs, j, i);
    }
  }

  lemma LandsOnLater(pairs: Pairs, j: nat, i: nat)
    requires j < i < |pairs|
    ensures pairs[j].1 == Temporary(i) ==> LandsBefore(pairs, i)
  {
    hide Temporary;
    if pairs[j].1 == Temporary(i) {
      assert LandsOnFile(pairs, j);
    }
  }

  lemma LandsBeforeOneMore(pairs: Pairs, i: nat)
    requires i < |pairs|
    ensures LandsBefore(pairs, i + 1) <==> LandsBefore(pairs, i) || LandsOnFile(pairs, i)
  {
    hide LandsOnFile;
  }

  lemma FinalizingOneMore(rest: Dir, d': Dir, pairs: Pairs, i: nat)
    requires i < |pairs| && FinalizingIn(rest, d', pairs, i)
    requires forall j: nat, k: nat :: Temporary(j) == Temporary(k) ==> j == k
    requires forall j: nat :: j < |pairs| ==> pairs[j].1 !in rest && Temporary(j) !in rest
    ensures IsFile(d', Temporary(i)) && (pairs[i].1 in d' ==> d'[pairs[i].1].File?)
    ensures !LandsBefore(pairs, i) ==> (pairs[i].1 in d' && Temporary(i) != pairs[i].1 <==> LandsOnFile(pairs, i))
    ensures FinalizingIn(rest, Moved(d', Temporary(i), pairs[i].1), pairs, i + 1)
  {
    hide Temporary, FinalizingName, LandsOnFile, LandsBefore;
    var d'' := Moved(d', Temporary(i), pairs[i].1);
    LandsBeforeOneMore(pairs, i);
    if !LandsBefore(pairs, i) {
      forall n
        ensures n in d'' <==> FinalizingName(rest, n, pairs, i + 1)
      {
        NamesAfterFinalizing(rest, n, pairs, i);
      }
      NamesAfterFinalizing(rest, "", pairs, i);
    }
  }

  /** Every waiting file can be finalized, and lands on another one exactly when names collide. */
  lemma FinalizingStep(dirs0: map<int, Dir>, dirs: map<int, Dir>, chal: int, pairs: Pairs, i: nat)
    requires Finalizing(dirs0, dirs, chal, pairs, i) && i < |pairs|
    ensures Movable(dirs[chal], Temporary(i), pairs[i].1)
    ensures !LandsBefore(pairs, i) ==>
              (pairs[i].1 in dirs[chal] && Temporary(i) != pairs[i].1 <==> LandsOnFile(pairs, i))
    ensures Finalizing(dirs0, dirs[chal := Moved(dirs[chal], Temporary(i), pairs[i].1)], chal, pairs, i + 1)
  {
    TemporariesAreNew(dirs0, chal, pairs);
    var rest := Rest(dirs0[chal], pairs);
    assert forall j: nat :: j < |pairs| ==> pairs[j].1 !in rest && Temporary(j) !in rest;
    hide Temporary, FinalizingIn, LandsOnFile, LandsBefore, Distinct, Moved;
    FinalizingOneMore(rest, dirs[chal], pairs, i);
  }

  type Plan = seq<(string, string, string)>

  function RenamePlan(pairs: Pairs): (plan: Plan)
    ensures |plan| == |pairs|
    ensures forall i :: 0 <= i < |plan| ==> plan[i] == (pairs[i].0, pairs[i].1, Temporary(i))
  {
    seq(|pairs|, i requires 0 <= i < |pairs| => (pairs[i].0, pairs[i].1, Temporary(i)))
  }

  /** The plan neither shares names nor collides with anything. */
  ghost predicate Proper(dirs: map<int, Dir>, chal: int, pairs: Pairs) {
    chal in dirs && GoodPlan(dirs[chal], pairs) && Accepted(dirs[chal], pairs)
  }

  ghost predicate SameElsewhere(dirs0: map<int, Dir>, dirs: map<int, Dir>, chal: int) {
    chal in dirs0 && dirs.Keys == dirs0.Keys && forall c :: c != chal && c in dirs0 ==> dirs[c] == dirs0[c]
  }

  /**
   The try block: stage every file, then finalize every file, then undo both if one rename failed.
   The last clause is about arbitrary pairs, when no call fails by itself.
   */
  method StageAndFinalize(disk: Disk, chal: int, pairs: Pairs) returns (ok: bool)
    requires chal in disk.dirs
    modifies disk
    ensures disk.calls >= old(disk.calls)
    ensures disk.dirs.Keys == old(disk.dirs).Keys
    ensures forall c :: c != chal && c in old(disk.dirs) ==> disk.dirs[c] == old(disk.dirs)[c]
    ensures Proper(old(disk.dirs), chal, pairs) ==>
              && disk.overwrote == old(disk.overwrote)
              && ok == NoFaultBetween(disk.faults, old(disk.calls), old(disk.calls) + 2 * |pairs|)
              && (ok ==> disk.calls == old(disk.calls) + 2 * |pairs|)
              && (ok ==> disk.dirs == old(disk.dirs)[chal := Renamed(old(disk.dirs)[chal], pairs)])
              && (!ok ==> exists k :: old(disk.calls) <= k < disk.calls && k in disk.faults)
              && (!ok && AtMostOneFaultFrom(disk.faults, old(disk.calls)) ==> disk.dirs == old(disk.dirs))
    ensures Startable(old(disk.dirs), chal, pairs) && NoFaultFrom(disk.faults, old(disk.calls)) ==>
              && ok == Distinct(Sources(pairs))
              && disk.overwrote == (old(disk.overwrote) || (ok && Collides(pairs)))
              && (!ok ==> disk.dirs == old(disk.dirs))
  {
    hide Midway, Renamed, Accepted, Waiting, Finalizing, Distinct, Collides, RenamePlan, Startable, Proper;
    ghost var dirs0 := disk.dirs;
    ghost var proper := Proper(dirs0, chal, pairs);
    ghost var calm := Startable(dirs0, chal, pairs) && NoFaultFrom(disk.faults, disk.calls);
    var staged, done := Stage(disk, chal, pairs, proper, calm);
    if !done {
      Undo(disk, chal, pairs, staged, [], dirs0, proper, calm);
      return false;
    }
    if calm {
      AllStaged(dirs0, disk.dirs, chal, pairs);
    }
    var finalized;
    finalized, done := Finalize(disk, chal, pairs, staged, dirs0, proper, calm);
    if !done {
      Undo(disk, chal, pairs, staged, finalized, dirs0, proper, false);
      return false;
    }
    if proper {
      MidwayDone(dirs0, disk.dirs, chal, pairs);
    }
    return true;
  }

  /** The first loop. */
  method Stage(disk: Disk, chal: int, pairs: Pairs, ghost proper: bool, ghost calm: bool) returns (staged: Plan, ok: bool)
    requires chal in disk.dirs
    requires proper ==> Proper(disk.dirs, chal, pairs)
    requires calm ==> Startable(disk.dirs, chal, pairs) && NoFaultFrom(disk.faults, disk.calls)
    modifies disk
    ensures |staged| <= |pairs| && staged == RenamePlan(pairs)[..|staged|] && ok == (|staged| == |pairs|)
    ensures SameElsewhere(old(disk.dirs), disk.dirs, chal)
    ensures disk.calls == old(disk.calls) + |staged| + if ok then 0 else 1
    ensures NoFaultBetween(disk.faults, old(disk.calls), old(disk.calls) + |staged|)
    ensures proper ==>
              && disk.overwrote == old(disk.overwrote)
              && Midway(old(disk.dirs), disk.dirs, chal, pairs, 0, 0, 0, |staged|)
              && (!ok ==> old(disk.calls) + |staged| in disk.faults)
    ensures calm ==>
              && disk.overwrote == old(disk.overwrote)
              && Waiting(old(disk.dirs), disk.dirs, chal, pairs, 0, |staged|)
              && (ok <==> Distinct(Sources(pairs)))
  {
    hide Midway, Renamed, GoodPlan, Accepted, Moved, Movable, Temporary, RenamePlan, Waiting, Distinct, Startable;
    ghost var dirs0, calls0 := disk.dirs, disk.calls;
    if proper {
      MidwayStart(dirs0, chal, pairs);
    }
    if calm {
      WaitingStart(dirs0, chal, pairs);
    }
    hide Proper;
    var plan := RenamePlan(pairs);
    staged := [];
    while |staged| < |plan|
      invariant |staged| <= |plan| && staged == plan[..|staged|]
      invariant SameElsewhere(dirs0, disk.dirs, chal) && disk.calls == calls0 + |staged|
      invariant NoFaultBetween(disk.faults, calls0, disk.calls)
      invariant proper ==> disk.overwrote == old(disk.overwrote) && Midway(dirs0, disk.dirs, chal, pairs, 0, 0, 0, |staged|)
      invariant calm ==> disk.overwrote == old(disk.overwrote) && Waiting(dirs0, disk.dirs, chal, pairs, 0, |staged|)
    {
      if proper {
        StageStep(dirs0, disk.dirs, chal, pairs, |staged|);
      }
      if calm {
        WaitingStage(dirs0, disk.dirs, chal, pairs, |staged|);
      }
      var moved := disk.Rename(chal, plan[|staged|].0, plan[|staged|].2);
      if !moved {
        return staged, false;
      }
      staged := staged + [plan[|staged|]];
    }
    if calm {
      WaitingDistinct(dirs0, disk.dirs, chal, pairs);
    }
    return staged, true;
  }

  /** The second loop. */
  method Finalize(disk: Disk, chal: int, pairs: Pairs, staged: Plan, ghost dirs0: map<int, Dir>, ghost proper: bool, ghost calm: bool)
    returns (finalized: Plan, ok: bool)
    requires staged == RenamePlan(pairs) && SameElsewhere(dirs0, disk.dirs, chal)
    requires proper ==> Midway(dirs0, disk.dirs, chal, pairs, 0, 0, 0, |pairs|)
    requires calm ==> Finalizing(dirs0, disk.dirs, chal, pairs, 0) && NoFaultFrom(disk.faults, disk.calls)
    modifies disk
    ensures |finalized| <= |pairs| && finalized == staged[..|finalized|] && ok == (|finalized| == |pairs|)
    ensures SameElsewhere(dirs0, disk.dirs, chal)
    ensures disk.calls == old(disk.calls) + |finalized| + if ok then 0 else 1
    ensures NoFaultBetween(disk.faults, old(disk.calls), old(disk.calls) + |finalized|)
    ensures proper ==>
              && disk.overwrote == old(disk.overwrote)
              && Midway(dirs0, disk.dirs, chal, pairs, 0, |finalized|, 0, |pairs|)
              && (!ok ==> old(disk.calls) + |finalized| in disk.faults)
    ensures calm ==> ok && disk.overwrote == (old(disk.overwrote) || Collides(pairs))
  {
    hide Midway, Renamed, GoodPlan, Accepted, Moved, Movable, Temporary, RenamePlan, Finalizing, LandsOnFile;
    ghost var calls0 := disk.calls;
    finalized := [];
    while |finalized| < |staged|
      invariant |finalized| <= |staged| && finalized == staged[..|finalized|]
      invariant SameElsewhere(dirs0, disk.dirs, chal) && disk.calls == calls0 + |finalized|
      invariant NoFaultBetween(disk.faults, calls0, disk.calls)
      invariant proper ==> disk.overwrote == old(disk.overwrote) && Midway(dirs0, disk.dirs, chal, pairs, 0, |finalized|, 0, |pairs|)
      invariant calm ==> Finalizing(dirs0, disk.dirs, chal, pairs, |finalized|)
      invariant calm ==> disk.overwrote == (old(disk.overwrote) || LandsBefore(pairs, |finalized|))
    {
      if proper {
        FinalizeStep(dirs0, disk.dirs, chal, pairs, |finalized|);
      }
      if calm {
        FinalizingStep(dirs0, disk.dirs, chal, pairs, |finalized|);
      }
      var moved := disk.Rename(chal, staged[|finalized|].2, staged[|finalized|].1);
      if !moved {
        return finalized, false;
      }
      finalized := finalized + [staged[|finalized|]];
    }
    return finalized, true;
  }

  /** The except block: finalized files go back to their temporary names, staged files to their old ones. */
  method Undo(disk: Disk, chal: int, pairs: Pairs, staged: Plan, finalized: Plan, ghost dirs0: map<int, Dir>,
              ghost proper: bool, ghost calm: bool)
    requires |finalized| <= |staged| <= |pairs|
    requires staged == RenamePlan(pairs)[..|staged|] && finalized == staged[..|finalized|]
    requires SameElsewhere(dirs0, disk.dirs, chal)
    requires proper ==> Midway(dirs0, disk.dirs, chal, pairs, 0, |finalized|, 0, |staged|)
    requires calm ==> finalized == [] && Waiting(dirs0, disk.dirs, chal, pairs, 0, |staged|) && NoFaultFrom(disk.faults, disk.calls)
    modifies disk
    ensures disk.calls >= old(disk.calls)
    ensures SameElsewhere(dirs0, disk.dirs, chal)
    ensures proper || calm ==> disk.overwrote == old(disk.overwrote)
    ensures (proper || calm) && NoFaultFrom(disk.faults, old(disk.calls)) ==> disk.dirs == dirs0
  {
    hide Midway, Renamed, GoodPlan, Accepted, Present, Moved, Waiting;
    for i := 0 to |finalized|
      invariant disk.calls >= old(disk.calls) && SameElsewhere(dirs0, disk.dirs, chal)
      invariant proper ==> disk.overwrote == old(disk.overwrote) && Midway(dirs0, disk.dirs, chal, pairs, i, |finalized|, 0, |staged|)
      invariant calm ==> finalized == [] && disk.dirs == old(disk.dirs) && disk.overwrote == old(disk.overwrote)
    {
      if proper {
        UnfinalizeStep(dirs0, disk.dirs, chal, pairs, i, |finalized|, |staged|);
      }
      if finalized[i].1 in DirOf(disk.dirs, chal) {
        var moved := disk.Rename(chal, finalized[i].1, finalized[i].2);
        if !moved {
          return;
        }
      }
    }
    if proper {
      MidwayUnfinalized(dirs0, disk.dirs, chal, pairs, |finalized|, |staged|);
    }
    Unstage(disk, chal, pairs, staged, dirs0, proper, calm);
  }

  /** The second loop of the except block. */
  method Unstage(disk: Disk, chal: int, pairs: Pairs, staged: Plan, ghost dirs0: map<int, Dir>, ghost proper: bool, ghost calm: bool)
    requires |staged| <= |pairs| && staged == RenamePlan(pairs)[..|staged|]
    requires SameElsewhere(dirs0, disk.dirs, chal)
    requires proper ==> Midway(dirs0, disk.dirs, chal, pairs, 0, 0, 0, |staged|)
    requires calm ==> Waiting(dirs0, disk.dirs, chal, pairs, 0, |staged|) && NoFaultFrom(disk.faults, disk.calls)
    modifies disk
    ensures disk.calls >= old(disk.calls)
    ensures SameElsewhere(dirs0, disk.dirs, chal)
    ensures proper || calm ==> disk.overwrote == old(disk.overwrote)
    ensures (proper || calm) && NoFaultFrom(disk.faults, old(disk.calls)) ==> disk.dirs == dirs0
  {
    hide Midway, Renamed, GoodPlan, Accepted, Present, Moved, Waiting;
    for i := 0 to |staged|
      invariant disk.calls >= old(disk.calls) && SameElsewhere(dirs0, disk.dirs, chal)
      invariant proper ==> disk.overwrote == old(disk.overwrote) && Midway(dirs0, disk.dirs, chal, pairs, 0, 0, i, |staged|)
      invariant calm ==> disk.overwrote == old(disk.overwrote) && Waiting(dirs0, disk.dirs, chal, pairs, i, |staged|)
    {
      if proper {
        UnstageStep(dirs0, disk.dirs, chal, pairs, i, |staged|);
      }
      if calm {
        WaitingUnstage(dirs0, disk.dirs, chal, pairs, i, |staged|);
      }
      if staged[i].2 in DirOf(disk.dirs, chal) {
        var moved := disk.Rename(chal, staged[i].2, staged[i].0);
        if !moved {
          return;
        }
      }
    }
    if proper {
      MidwayUndone(dirs0, disk.dirs, chal, pairs, |staged|);
    }
    if calm {
      WaitingUndone(dirs0, disk.dirs, chal, pairs, |staged|);
    }
  }
}
