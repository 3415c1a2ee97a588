/**
 program_config_transaction (src/services/prospec/program.py): changing the submission format of
 a Communication problem renames the sources of every challenge inside the database transaction,
 and undoes the renames in reverse order when anything later fails.
 */
module ConfigTransaction {
  import opened Wrappers
  import opened SubmissionFormat
  import opened SourceRename

  datatype Challenge = Challenge(chalId: int, ext: string)

  /** The row of the problem table that the transaction locks. */
  datatype StoredProblem = NoRow | OtherType | Communication(format: RawFormat)

  datatype Failure = BadFormat(format: FormatError) | Rejected(rename: RenameError) | BodyFailed | CommitFailed

  datatype Outcome = Committed | Aborted(why: Failure)

  type Plans = seq<(int, Pairs)>

  // ---------------------------------------------------------------- names of accepted formats

  /** Resolved names of an accepted format are distinct and never a staging name. */
  lemma FileNamesArePlain(format: seq<string>, ext: string)
    requires Normalized(format) && ext in SOURCE_EXTS
    ensures PlainNames(FileNames(format, ext))
  {
    FileNamesDistinct(format, ext);
    forall i, k: nat | 0 <= i < |format|
      ensures FileName(format[i], ext) != Temporary(k)
    {
      assert format[i] in format;
      FileNameShape(format[i], ext);
      var name, temporary := FileName(format[i], ext), Temporary(k);
      assert name[|name| - 1] == ext[|ext| - 1];
      assert temporary[|temporary| - 1] == 'e';
    }
  }

  // ---------------------------------------------------------------- specification

  ghost function PlanOf(dirs: map<int, Dir>, c: Challenge, oldFormat: seq<string>, newFormat: seq<string>): Pairs {
    Renames(DirOf(dirs, c.chalId), FileNames(oldFormat, c.ext), FileNames(newFormat, c.ext))
  }

  ghost predicate AllAccepted(dirs: map<int, Dir>, challenges: seq<Challenge>, oldFormat: seq<string>, newFormat: seq<string>) {
    forall c :: c in challenges ==> Accepted(DirOf(dirs, c.chalId), PlanOf(dirs, c, oldFormat, newFormat))
  }

  /** Every challenge directory is the simultaneous renaming of what it was; no other directory differs. */
  ghost predicate AllRenamed(before: map<int, Dir>, after: map<int, Dir>, challenges: seq<Challenge>,
                             oldFormat: seq<string>, newFormat: seq<string>)
  {
    && after.Keys == before.Keys
    && (forall c :: c in challenges ==>
          DirOf(after, c.chalId) == Renamed(DirOf(before, c.chalId), PlanOf(before, c, oldFormat, newFormat)))
    && (forall id :: id in before && (forall c :: c in challenges ==> c.chalId != id) ==> after[id] == before[id])
  }

  /** No directory is half renamed: each is as before or completely renamed. */
  ghost predicate EachOldOrNew(before: map<int, Dir>, after: map<int, Dir>, challenges: seq<Challenge>,
                               oldFormat: seq<string>, newFormat: seq<string>)
  {
    && after.Keys == before.Keys
    && (forall c :: c in challenges ==>
          || DirOf(after, c.chalId) == DirOf(before, c.chalId)
          || DirOf(after, c.chalId) == Renamed(DirOf(before, c.chalId), PlanOf(before, c, oldFormat, newFormat)))
    && (forall id :: id in before && (forall c :: c in challenges ==> c.chalId != id) ==> after[id] == before[id])
  }

  /** EachOldOrNew, told of the plans. */
  ghost predicate PlansOldOrNew(before: map<int, Dir>, after: map<int, Dir>, plans: Plans) {
    && after.Keys == before.Keys
    && (forall p :: p in plans ==> DirOf(after, p.0) in {DirOf(before, p.0), Renamed(DirOf(before, p.0), p.1)})
    && (forall id :: id in before && (forall p :: p in plans ==> p.0 != id) ==> after[id] == before[id])
  }

  ghost predicate DistinctChallenges(challenges: seq<Challenge>) {
    && (forall c :: c in challenges ==> c.ext in SOURCE_EXTS)
    && (forall i, j :: 0 <= i < j < |challenges| ==> challenges[i].chalId != challenges[j].chalId)
  }

  /** What the dry runs collect. */
  ghost predicate GoodPlans(dirs: map<int, Dir>, plans: Plans) {
    && (forall i, j :: 0 <= i < j < |plans| ==> plans[i].0 != plans[j].0)
    && (forall p :: p in plans ==>
          && p.0 in dirs && p.1 != []
          && GoodPlan(dirs[p.0], p.1) && Accepted(dirs[p.0], p.1)
          && (forall q :: q in p.1 ==> q.0 != q.1)
          && PlainNames(Sources(p.1)) && PlainNames(Targets(p.1)))
  }

  /** The plans are exactly the nonempty per-challenge plans. */
  ghost predicate PlansOf(dirs: map<int, Dir>, plans: Plans, challenges: seq<Challenge>,
                          oldFormat: seq<string>, newFormat: seq<string>)
  {
    && (forall p :: p in plans ==> exists c :: c in challenges && c.chalId == p.0 && PlanOf(dirs, c, oldFormat, newFormat) == p.1)
    && (forall c :: c in challenges && PlanOf(dirs, c, oldFormat, newFormat) != [] ==>
          (c.chalId, PlanOf(dirs, c, oldFormat, newFormat)) in plans)
  }

  /** The disk after the first j plans. */
  ghost function Applied(dirs: map<int, Dir>, plans: Plans, j: nat): map<int, Dir>
    requires j <= |plans|
  {
    if j == 0 then dirs else RenamedDisk(Applied(dirs, plans, j - 1), plans[j - 1].0, plans[j - 1].1)
  }

  lemma {:induction false} AppliedPointwise(dirs: map<int, Dir>, plans: Plans, j: nat)
    requires GoodPlans(dirs, plans) && j <= |plans|
    ensures Applied(dirs, plans, j).Keys == dirs.Keys
    ensures forall i :: 0 <= i < j ==> DirOf(Applied(dirs, plans, j), plans[i].0) == Renamed(dirs[plans[i].0], plans[i].1)
    ensures forall id :: id in dirs && (forall i :: 0 <= i < j ==> plans[i].0 != id) ==> Applied(dirs, plans, j)[id] == dirs[id]
  {
    hide GoodPlan, Accepted, Renamed, PlainNames;
    if j > 0 {
      AppliedPointwise(dirs, plans, j - 1);
      assert plans[j - 1] in plans;
    }
  }

  /** Undoing the last plan leads back to the disk before it. */
  lemma UndoLast(dirs: map<int, Dir>, plans: Plans, j: nat)
    requires GoodPlans(dirs, plans) && 0 < j <= |plans|
    ensures var (id, pairs) := plans[j - 1];
            var d := DirOf(Applied(dirs, plans, j), id);
            && Renames(d, Targets(pairs), Sources(pairs)) == Reversed(pairs)
            && Accepted(d, Reversed(pairs))
            && RenamedDisk(Applied(dirs, plans, j), id, Reversed(pairs)) == Applied(dirs, plans, j - 1)
  {
    hide GoodPlan, Accepted, Renamed, PlainNames, Renames;
    var (id, pairs) := plans[j - 1];
    assert plans[j - 1] in plans;
    AppliedPointwise(dirs, plans, j);
    AppliedPointwise(dirs, plans, j - 1);
    ReversedIsAccepted(dirs[id], pairs);
    assert Applied(dirs, plans, j)[id := dirs[id]] == Applied(dirs, plans, j - 1);
  }

  /** A plan that is run again plans itself. */
  lemma PlanIsStable(d: Dir, pairs: Pairs)
    requires GoodPlan(d, pairs) && forall q :: q in pairs ==> q.0 != q.1
    ensures Renames(d, Sources(pairs), Targets(pairs)) == pairs
  {
    RequestedAll(Sources(pairs), Targets(pairs), pairs);
    PresentAll(d, pairs);
  }

  ghost function TotalRenames(plans: Plans): nat {
    if plans == [] then 0 else TotalRenames(plans[..|plans| - 1]) + 2 * |plans[|plans| - 1].1|
  }

  // ---------------------------------------------------------------- the transaction

  /** The dry runs: nothing is renamed, and the first rejection ends the transaction. */
  method CollectPlans(disk: Disk, challenges: seq<Challenge>, oldFormat: seq<string>, newFormat: seq<string>)
    returns (r: Result<Plans, RenameError>)
    requires DistinctChallenges(challenges) && Normalized(oldFormat) && Normalized(newFormat)
    modifies disk
    ensures disk.dirs == old(disk.dirs) && disk.calls == old(disk.calls) && disk.overwrote == old(disk.overwrote)
    ensures r.Ok? == AllAccepted(disk.dirs, challenges, oldFormat, newFormat)
    ensures r.Ok? ==> GoodPlans(disk.dirs, r.value) && PlansOf(disk.dirs, r.value, challenges, oldFormat, newFormat)
  {
    hide GoodPlan, Accepted, PlainNames, Renames, Normalized;
    var plans: Plans := [];
    for i := 0 to |challenges|
      invariant disk.dirs == old(disk.dirs) && disk.calls == old(disk.calls) && disk.overwrote == old(disk.overwrote)
      invariant AllAccepted(disk.dirs, challenges[..i], oldFormat, newFormat)
      invariant GoodPlans(disk.dirs, plans) && PlansOf(disk.dirs, plans, challenges[..i], oldFormat, newFormat)
    {
      var c := challenges[i];
      assert challenges[..i + 1] == challenges[..i] + [c];
      FileNamesArePlain(oldFormat, c.ext);
      FileNamesArePlain(newFormat, c.ext);
      var r1 := RenameSubmissionFiles(disk, c.chalId, FileNames(oldFormat, c.ext), FileNames(newFormat, c.ext), true);
      if r1.Err? {
        assert c in challenges;
        return Err(r1.error);
      }
      if r1.value != [] {
        PlanIsGood(disk.dirs, c, oldFormat, newFormat);
        forall p | p in plans
          ensures p.0 != c.chalId
        {
          var other :| other in challenges[..i] && other.chalId == p.0;
        }
        plans := plans + [(c.chalId, r1.value)];
      }
    }
    assert challenges[..|challenges|] == challenges;
    return Ok(plans);
  }

  lemma PlanIsGood(dirs: map<int, Dir>, c: Challenge, oldFormat: seq<string>, newFormat: seq<string>)
    requires Normalized(oldFormat) && Normalized(newFormat) && c.ext in SOURCE_EXTS
    requires PlanOf(dirs, c, oldFormat, newFormat) != []
    ensures c.chalId in dirs
    ensures var pairs := PlanOf(dirs, c, oldFormat, newFormat);
            && GoodPlan(dirs[c.chalId], pairs) && (forall q :: q in pairs ==> q.0 != q.1)
            && PlainNames(Sources(pairs)) && PlainNames(Targets(pairs))
  {
    var pairs := PlanOf(dirs, c, oldFormat, newFormat);
    FileNamesArePlain(oldFormat, c.ext);
    FileNamesArePlain(newFormat, c.ext);
    RenamesArePlanned(DirOf(dirs, c.chalId), FileNames(oldFormat, c.ext), FileNames(newFormat, c.ext));
    assert IsFile(DirOf(dirs, c.chalId), pairs[0].0);
  }

  /** The except block: completed challenges are renamed back, last one first; failures are logged. */
  method UndoCompleted(disk: Disk, ghost dirs0: map<int, Dir>, completed: Plans)
    requires GoodPlans(dirs0, completed)
    modifies disk
    ensures disk.overwrote == old(disk.overwrote)
    ensures completed == [] ==> disk.dirs == old(disk.dirs)
    ensures var known := old(disk.dirs) == Applied(dirs0, completed, |completed|);
            && (known && NoFaultFrom(disk.faults, old(disk.calls)) ==> disk.dirs == dirs0)
            && (known && AtMostOneFaultFrom(disk.faults, old(disk.calls)) ==> PlansOldOrNew(dirs0, disk.dirs, completed))
  {
    hide GoodPlan, Accepted, PlainNames, Renames, Renamed, Applied, RenamedDisk, PlansOldOrNew, GoodPlans, DirOf;
    AppliedIsOldOrNew(dirs0, completed);
    ghost var known := disk.dirs == Applied(dirs0, completed, |completed|);
    var j := |completed|;
    while j > 0
      invariant 0 <= j <= |completed|
      invariant completed == [] ==> disk.dirs == old(disk.dirs)
      invariant disk.overwrote == old(disk.overwrote) && disk.calls >= old(disk.calls)
      invariant known && NoFaultFrom(disk.faults, old(disk.calls)) ==> disk.dirs == Applied(dirs0, completed, j)
      invariant known && AtMostOneFaultFrom(disk.faults, old(disk.calls)) ==>
          PlansOldOrNew(dirs0, disk.dirs, completed) && StillRenamed(dirs0, disk.dirs, completed, j)
    {
      j := j - 1;
      ghost var before := disk.dirs;
      UndoLast(dirs0, completed, j + 1);
      UndoRenamed(dirs0, before, completed, j);
      PlanNames(dirs0, completed, j);
      var r := RenameSubmissionFiles(disk, completed[j].0, Targets(completed[j].1), Sources(completed[j].1), false);
    }
    AppliedNothing(dirs0, completed);
  }

  lemma AppliedNothing(dirs: map<int, Dir>, plans: Plans)
    ensures Applied(dirs, plans, 0) == dirs
  {
  }

  lemma PlanNames(dirs: map<int, Dir>, plans: Plans, j: nat)
    requires GoodPlans(dirs, plans) && j < |plans|
    ensures PlainNames(Sources(plans[j].1)) && PlainNames(Targets(plans[j].1))
  {
    assert plans[j] in plans;
  }

  /** The first j plans have not been undone yet. */
  ghost predicate StillRenamed(before: map<int, Dir>, after: map<int, Dir>, plans: Plans, j: int)
    requires 0 <= j <= |plans|
  {
    forall i :: 0 <= i < j ==> DirOf(after, plans[i].0) == Renamed(DirOf(before, plans[i].0), plans[i].1)
  }

  lemma AppliedIsOldOrNew(dirs: map<int, Dir>, plans: Plans)
    requires GoodPlans(dirs, plans)
    ensures PlansOldOrNew(dirs, Applied(dirs, plans, |plans|), plans)
    ensures StillRenamed(dirs, Applied(dirs, plans, |plans|), plans, |plans|)
  {
    hide GoodPlan, Accepted, PlainNames, Renamed;
    AppliedPointwise(dirs, plans, |plans|);
    forall p | p in plans
      ensures DirOf(Applied(dirs, plans, |plans|), p.0) == Renamed(DirOf(dirs, p.0), p.1)
    {
      var i :| 0 <= i < |plans| && plans[i] == p;
    }
    forall id | id in dirs && (forall p :: p in plans ==> p.0 != id)
      ensures Applied(dirs, plans, |plans|)[id] == dirs[id]
    {
      assert forall i :: 0 <= i < |plans| ==> plans[i] in plans;
    }
  }

  /** Renaming plan j back, in whatever state the plans before it are. */
  lemma UndoRenamed(dirs0: map<int, Dir>, now: map<int, Dir>, plans: Plans, j: nat)
    requires GoodPlans(dirs0, plans) && j < |plans|
    ensures PlansOldOrNew(dirs0, now, plans) && StillRenamed(dirs0, now, plans, j + 1) ==>
              var (id, pairs) := plans[j];
              && Renames(DirOf(now, id), Targets(pairs), Sources(pairs)) == Reversed(pairs)
              && StillRenamed(dirs0, now, plans, j)
              && PlansOldOrNew(dirs0, RenamedDisk(now, id, Reversed(pairs)), plans)
              && StillRenamed(dirs0, RenamedDisk(now, id, Reversed(pairs)), plans, j)
  {
    hide GoodPlan, Accepted, PlainNames, Renamed, Renames;
    assert plans[j] in plans;
    ReversedIsAccepted(dirs0[plans[j].0], plans[j].1);
  }

  /** The renames of all plans, undone again when one of them fails. */
  method ApplyPlans(disk: Disk, plans: Plans) returns (failed: bool, completed: Plans)
    requires GoodPlans(disk.dirs, plans)
    modifies disk
    ensures disk.overwrote == old(disk.overwrote) && disk.calls >= old(disk.calls)
    ensures |completed| <= |plans| && completed == plans[..|completed|]
    ensures !failed == NoFaultBetween(disk.faults, old(disk.calls), old(disk.calls) + TotalRenames(plans))
    ensures !failed ==> completed == plans && disk.calls == old(disk.calls) + TotalRenames(plans)
    ensures !failed || AtMostOneFaultFrom(disk.faults, old(disk.calls)) ==>
              disk.dirs == Applied(old(disk.dirs), completed, |completed|)
    ensures failed && AtMostOneFaultFrom(disk.faults, old(disk.calls)) ==> NoFaultFrom(disk.faults, disk.calls)
    ensures disk.dirs == Applied(old(disk.dirs), completed, |completed|) || failed
  {
    hide GoodPlan, Accepted, PlainNames, Renames, Renamed, Applied, RenamedDisk, GoodPlans, DirOf;
    ghost var dirs0, calls0 := disk.dirs, disk.calls;
    AppliedNothing(dirs0, plans);
    completed := [];
    for i := 0 to |plans|
      invariant disk.overwrote == old(disk.overwrote)
      invariant completed == plans[..i] && disk.dirs == Applied(dirs0, plans, i)
      invariant disk.calls == calls0 + TotalRenames(plans[..i])
      invariant NoFaultBetween(disk.faults, calls0, disk.calls)
    {
      var (id, pairs) := plans[i];
      PlanReady(dirs0, plans, i);
      PlanNames(dirs0, plans, i);
      TotalRenamesGrows(plans, i);
      AppliedPrefix(dirs0, completed, plans, i);
      var r := RenameSubmissionFiles(disk, id, Sources(pairs), Targets(pairs), false);
      if r.Err? {
        return true, completed;
      }
      completed := completed + [plans[i]];
    }
    assert plans[..|plans|] == plans;
    return false, completed;
  }

  /** When the first i plans have been applied, the next one still finds its files and is accepted. */
  lemma PlanReady(dirs: map<int, Dir>, plans: Plans, i: nat)
    requires GoodPlans(dirs, plans) && i < |plans|
    ensures var (id, pairs) := plans[i];
            var d := DirOf(Applied(dirs, plans, i), id);
            && Renames(d, Sources(pairs), Targets(pairs)) == pairs
            && Accepted(d, pairs)
            && RenamedDisk(Applied(dirs, plans, i), id, pairs) == Applied(dirs, plans, i + 1)
  {
    hide GoodPlan, Accepted, PlainNames, Renames, Renamed;
    assert plans[i] in plans;
    AppliedPointwise(dirs, plans, i);
    PlanIsStable(dirs[plans[i].0], plans[i].1);
  }

  lemma {:induction false} TotalRenamesGrows(plans: Plans, i: nat)
    requires i < |plans|
    ensures TotalRenames(plans[..i + 1]) == TotalRenames(plans[..i]) + 2 * |plans[i].1|
    ensures TotalRenames(plans[..i + 1]) <= TotalRenames(plans)
    decreases |plans| - i
  {
    assert plans[..i + 1][..i] == plans[..i];
    if i + 1 < |plans| {
      TotalRenamesGrows(plans, i + 1);
    } else {
      assert plans[..i + 1] == plans;
    }
  }

  lemma {:induction false} AppliedPrefix(dirs: map<int, Dir>, some: Plans, plans: Plans, j: nat)
    requires some <= plans && j <= |some|
    ensures Applied(dirs, some, j) == Applied(dirs, plans, j)
  {
    hide Renamed;
    if j > 0 {
      AppliedPrefix(dirs, some, plans, j - 1);
    }
  }

  /** Applying all plans renames every challenge of the problem. */
  lemma AppliedIsAllRenamed(dirs: map<int, Dir>, plans: Plans, challenges: seq<Challenge>,
                            oldFormat: seq<string>, newFormat: seq<string>)
    requires DistinctChallenges(challenges)
    requires GoodPlans(dirs, plans) && PlansOf(dirs, plans, challenges, oldFormat, newFormat)
    ensures AllRenamed(dirs, Applied(dirs, plans, |plans|), challenges, oldFormat, newFormat)
  {
    hide GoodPlan, Accepted, PlainNames, Renames, Renamed;
    AppliedPointwise(dirs, plans, |plans|);
    var after := Applied(dirs, plans, |plans|);
    forall c | c in challenges
      ensures DirOf(after, c.chalId) == Renamed(DirOf(dirs, c.chalId), PlanOf(dirs, c, oldFormat, newFormat))
    {
      var pairs := PlanOf(dirs, c, oldFormat, newFormat);
      if pairs == [] {
        forall i | 0 <= i < |plans|
          ensures plans[i].0 != c.chalId
        {
          assert plans[i] in plans;
          var other :| other in challenges && other.chalId == plans[i].0 && PlanOf(dirs, other, oldFormat, newFormat) == plans[i].1;
        }
        RenamedNothing(DirOf(dirs, c.chalId));
      } else {
        var i :| 0 <= i < |plans| && plans[i] == (c.chalId, pairs);
      }
    }
    forall id | id in dirs && (forall c :: c in challenges ==> c.chalId != id)
      ensures after[id] == dirs[id]
    {
      forall i | 0 <= i < |plans|
        ensures plans[i].0 != id
      {
        assert plans[i] in plans;
      }
    }
  }

  /** The formats the transaction moves between, when both normalize. */
  ghost predicate Formats(stored: StoredProblem, requested: RawFormat, oldFormat: seq<string>, newFormat: seq<string>) {
    && Normalized(oldFormat) && Normalized(newFormat)
    && stored.Communication? && Names(stored.format, oldFormat) && Names(requested, newFormat)
  }

  /** A challenge stands in the way: a new name is taken by a file that stays, or a staging name is taken. */
  ghost predicate InTheWay(dirs: map<int, Dir>, c: Challenge, oldFormat: seq<string>, newFormat: seq<string>) {
    var d, olds, news := DirOf(dirs, c.chalId), FileNames(oldFormat, c.ext), FileNames(newFormat, c.ext);
    TargetTaken(d, olds, news) || StagingTaken(d, olds, news)
  }

  /** The files of a challenge have moved from the old names to the new ones. */
  ghost predicate FollowsFormats(before: map<int, Dir>, after: map<int, Dir>, c: Challenge, oldFormat: seq<string>, newFormat: seq<string>) {
    Exchanged(DirOf(before, c.chalId), DirOf(after, c.chalId), FileNames(oldFormat, c.ext), FileNames(newFormat, c.ext))
  }

  lemma AllAcceptedExactly(dirs: map<int, Dir>, challenges: seq<Challenge>, oldFormat: seq<string>, newFormat: seq<string>)
    ensures AllAccepted(dirs, challenges, oldFormat, newFormat) <==>
              forall c :: c in challenges ==> !InTheWay(dirs, c, oldFormat, newFormat)
  {
    hide TargetTaken, StagingTaken, Renames, TargetBusy, TemporaryBusy;
    forall c | c in challenges
      ensures Accepted(DirOf(dirs, c.chalId), PlanOf(dirs, c, oldFormat, newFormat)) <==> !InTheWay(dirs, c, oldFormat, newFormat)
    {
      AcceptedExactly(DirOf(dirs, c.chalId), FileNames(oldFormat, c.ext), FileNames(newFormat, c.ext));
    }
  }

  lemma AllRenamedFollow(before: map<int, Dir>, after: map<int, Dir>, challenges: seq<Challenge>, oldFormat: seq<string>, newFormat: seq<string>)
    requires DistinctChallenges(challenges) && Normalized(oldFormat) && Normalized(newFormat)
    requires AllAccepted(before, challenges, oldFormat, newFormat) && AllRenamed(before, after, challenges, oldFormat, newFormat)
    ensures forall c :: c in challenges ==> FollowsFormats(before, after, c, oldFormat, newFormat)
  {
    hide Exchanged, Renames, Renamed, PlainNames, Accepted, Normalized;
    forall c | c in challenges
      ensures FollowsFormats(before, after, c, oldFormat, newFormat)
    {
      FileNamesArePlain(oldFormat, c.ext);
      FileNamesArePlain(newFormat, c.ext);
      RenamedExactly(DirOf(before, c.chalId), FileNames(oldFormat, c.ext), FileNames(newFormat, c.ext));
    }
  }

  /**
   program_config_transaction. `bodyOk` and `commitOk` say whether the caller's statements and the
   database commit succeed.
   - Committed: every challenge of the problem has been renamed, none stood in the way, and its files
     have moved to the new names.
   - Aborted although nothing failed by itself: a format is invalid, or a challenge stands in the way.
   - Aborted by a single failure, wherever it strikes: every directory is what it was.
   - Aborted, and one rename failed in addition: still no directory is half renamed.
   - In no run does a rename overwrite an existing entry.
   */
  method ProgramConfigTransaction(disk: Disk, isCommunication: bool, stored: StoredProblem, requested: RawFormat,
                                  challenges: seq<Challenge>, bodyOk: bool, commitOk: bool)
    returns (outcome: Outcome)
    requires DistinctChallenges(challenges)
    modifies disk
    ensures disk.overwrote == old(disk.overwrote)
    ensures outcome.Committed? ==> bodyOk && commitOk
    ensures outcome.Committed? && isCommunication && stored.Communication? ==>
              exists oldFormat, newFormat :: Formats(stored, requested, oldFormat, newFormat)
                && AllAccepted(old(disk.dirs), challenges, oldFormat, newFormat)
                && AllRenamed(old(disk.dirs), disk.dirs, challenges, oldFormat, newFormat)
                && forall c :: c in challenges ==>
                     && !InTheWay(old(disk.dirs), c, oldFormat, newFormat)
                     && FollowsFormats(old(disk.dirs), disk.dirs, c, oldFormat, newFormat)
    ensures !isCommunication || !stored.Communication? ==>
              disk.dirs == old(disk.dirs) && outcome.Committed? == (bodyOk && commitOk)
    ensures outcome.Aborted? && NoFaultFrom(disk.faults, old(disk.calls)) ==> disk.dirs == old(disk.dirs)
    ensures outcome.Aborted? && bodyOk && commitOk && AtMostOneFaultFrom(disk.faults, old(disk.calls)) ==>
              disk.dirs == old(disk.dirs)
    ensures outcome.Aborted? && AtMostOneFaultFrom(disk.faults, old(disk.calls)) ==>
              disk.dirs == old(disk.dirs) ||
              exists oldFormat, newFormat :: Formats(stored, requested, oldFormat, newFormat)
                && EachOldOrNew(old(disk.dirs), disk.dirs, challenges, oldFormat, newFormat)
    ensures outcome.Aborted? && bodyOk && commitOk && NoFaultFrom(disk.faults, old(disk.calls)) ==>
              isCommunication && stored.Communication?
              && forall oldFormat, newFormat :: Formats(stored, requested, oldFormat, newFormat) ==>
                   && !AllAccepted(old(disk.dirs), challenges, oldFormat, newFormat)
                   && exists c :: c in challenges && InTheWay(old(disk.dirs), c, oldFormat, newFormat)
    ensures outcome.Aborted? && outcome.why.BodyFailed? ==> !bodyOk
    ensures outcome.Aborted? && outcome.why.CommitFailed? ==> bodyOk && !commitOk
    ensures outcome.Aborted? && outcome.why.BadFormat? ==> isCommunication && forall oldFormat, newFormat :: !Formats(stored, requested, oldFormat, newFormat)
  {
    hide InTheWay, FollowsFormats;
    hide GoodPlan, Accepted, PlainNames, Renames, Renamed, Normalized, Names, AllAccepted, AllRenamed, EachOldOrNew, DistinctChallenges, PlansOldOrNew, DirOf,
         GoodPlans, PlansOf, Applied, PlanOf;
    ghost var dirs0 := disk.dirs;
    NoPlans(dirs0);
    var plans: Plans := [];
    ghost var oldFormat: seq<string>, newFormat: seq<string> := [], [];
    if isCommunication && stored.Communication? {
      var oldR := NormalizeSubmissionFormat(stored.format);
      if oldR.Err? {
        return Aborted(BadFormat(oldR.error));
      }
      var newR := NormalizeSubmissionFormat(requested);
      if newR.Err? {
        return Aborted(BadFormat(newR.error));
      }
      oldFormat, newFormat := oldR.value, newR.value;
      assert Formats(stored, requested, oldFormat, newFormat);
      if oldR.value != newR.value {
        var r := CollectPlans(disk, challenges, oldR.value, newR.value);
        if r.Err? {
          FormatsUnique(stored, requested, oldFormat, newFormat);
          AllAcceptedExactly(dirs0, challenges, oldFormat, newFormat);
          return Aborted(Rejected(r.error));
        }
        plans := r.value;
      } else {
        SameFormatPlansNothing(dirs0, challenges, oldFormat);
      }
    }
    var failed, completed := ApplyPlans(disk, plans);
    if failed || !bodyOk || !commitOk {
      SomePlansAreGood(dirs0, plans, |completed|);
      UndoCompleted(disk, dirs0, completed);
      if isCommunication && stored.Communication? {
        OldOrNewByChallenge(dirs0, disk.dirs, plans, completed, challenges, oldFormat, newFormat);
      }
      return Aborted(if failed then Rejected(RenameFailed) else if !bodyOk then BodyFailed else CommitFailed);
    }
    if isCommunication && stored.Communication? {
      AppliedIsAllRenamed(dirs0, plans, challenges, oldFormat, newFormat);
      AllAcceptedExactly(dirs0, challenges, oldFormat, newFormat);
      AllRenamedFollow(dirs0, disk.dirs, challenges, oldFormat, newFormat);
    }
    return Committed;
  }

  lemma NoPlans(dirs: map<int, Dir>)
    ensures GoodPlans(dirs, []) && Applied(dirs, [], 0) == dirs
  {
  }

  lemma SomePlansAreGood(dirs: map<int, Dir>, plans: Plans, n: nat)
    requires GoodPlans(dirs, plans) && n <= |plans|
    ensures GoodPlans(dirs, plans[..n])
  {
    hide GoodPlan, Accepted, PlainNames;
    assert forall p :: p in plans[..n] ==> p in plans;
  }

  lemma FormatsUnique(stored: StoredProblem, requested: RawFormat, oldFormat: seq<string>, newFormat: seq<string>)
    requires Formats(stored, requested, oldFormat, newFormat)
    ensures forall a, b :: Formats(stored, requested, a, b) ==> a == oldFormat && b == newFormat
  {
  }

  lemma {:induction false} RequestedSame(names: seq<string>)
    ensures Requested(names, names) == []
  {
    if names != [] {
      RequestedSame(names[1..]);
    }
  }

  lemma SameFormatPlansNothing(dirs: map<int, Dir>, challenges: seq<Challenge>, format: seq<string>)
    ensures forall c :: c in challenges ==> PlanOf(dirs, c, format, format) == []
    ensures PlansOf(dirs, [], challenges, format, format) && AllAccepted(dirs, challenges, format, format)
  {
    forall c | c in challenges
      ensures PlanOf(dirs, c, format, format) == []
    {
      RequestedSame(FileNames(format, c.ext));
    }
  }

  lemma OldOrNewByChallenge(before: map<int, Dir>, after: map<int, Dir>, plans: Plans, completed: Plans,
                            challenges: seq<Challenge>, oldFormat: seq<string>, newFormat: seq<string>)
    requires DistinctChallenges(challenges) && |completed| <= |plans| && completed == plans[..|completed|]
    requires PlansOf(before, plans, challenges, oldFormat, newFormat)
    ensures PlansOldOrNew(before, after, completed) ==> EachOldOrNew(before, after, challenges, oldFormat, newFormat)
  {
    hide Renames, Renamed;
    if PlansOldOrNew(before, after, completed) {
      forall c | c in challenges
        ensures || DirOf(after, c.chalId) == DirOf(before, c.chalId)
                || DirOf(after, c.chalId) == Renamed(DirOf(before, c.chalId), PlanOf(before, c, oldFormat, newFormat))
      {
        if p :| p in completed && p.0 == c.chalId {
          assert p in plans;
          var other :| other in challenges && other.chalId == p.0 && PlanOf(before, other, oldFormat, newFormat) == p.1;
          assert other == c;
        } else {
          assert c.chalId in before ==> after[c.chalId] == before[c.chalId];
        }
      }
      forall id | id in before && (forall c :: c in challenges ==> c.chalId != id)
        ensures after[id] == before[id]
      {
        forall p | p in completed
          ensures p.0 != id
        {
          assert p in plans;
        }
      }
    }
  }

  /**
   What a commit means for one submission: a file that was stored under the i-th name of the old
   format is now stored under the i-th name of the new one, whenever both formats have an i-th name.
   */
  lemma CommittedFilesFollowFormat(before: map<int, Dir>, after: map<int, Dir>, challenges: seq<Challenge>,
                                   oldFormat: seq<string>, newFormat: seq<string>, c: Challenge, i: nat)
    requires DistinctChallenges(challenges) && c in challenges
    requires Normalized(oldFormat) && Normalized(newFormat)
    requires AllAccepted(before, challenges, oldFormat, newFormat)
    requires AllRenamed(before, after, challenges, oldFormat, newFormat)
    requires i < |oldFormat| && i < |newFormat|
    requires IsFile(DirOf(before, c.chalId), FileName(oldFormat[i], c.ext))
    ensures IsFile(DirOf(after, c.chalId), FileName(newFormat[i], c.ext))
    ensures DirOf(after, c.chalId)[FileName(newFormat[i], c.ext)] == DirOf(before, c.chalId)[FileName(oldFormat[i], c.ext)]
  {
    hide Renamed;
    var d := DirOf(before, c.chalId);
    var olds, news := FileNames(oldFormat, c.ext), FileNames(newFormat, c.ext);
    var pairs := PlanOf(before, c, oldFormat, newFormat);
    FileNamesArePlain(oldFormat, c.ext);
    FileNamesArePlain(newFormat, c.ext);
    RenamesArePlanned(d, olds, news);
    RenamedPointwise(d, pairs);
    if olds[i] != news[i] {
      RenamesContain(d, olds, news, i);
    } else {
      RenamesFromLists(d, olds, news);
      forall k | 0 <= k < |pairs|
        ensures pairs[k].0 != olds[i] && pairs[k].1 != news[i]
      {
        assert FromLists(olds, news, pairs[k]);
      }
      assert olds[i] !in Sources(pairs) && news[i] !in Targets(pairs);
    }
  }

  lemma RenamesFromLists(d: Dir, olds: seq<string>, news: seq<string>)
    ensures forall p :: p in Renames(d, olds, news) ==> FromLists(olds, news, p)
  {
    RequestedFromLists(olds, news);
    PresentIsSublist(d, Requested(olds, news));
  }

  lemma RenamesContain(d: Dir, olds: seq<string>, news: seq<string>, i: nat)
    requires i < |olds| && i < |news| && olds[i] != news[i] && IsFile(d, olds[i])
    ensures (olds[i], news[i]) in Renames(d, olds, news)
  {
    RequestedContains(olds, news, i);
    PresentContains(d, Requested(olds, news), (olds[i], news[i]));
  }

  lemma {:induction false} RequestedContains(olds: seq<string>, news: seq<string>, i: nat)
    requires i < |olds| && i < |news| && olds[i] != news[i]
    ensures (olds[i], news[i]) in Requested(olds, news)
  {
    if i > 0 {
      RequestedContains(olds[1..], news[1..], i - 1);
    }
  }

  lemma {:induction false} PresentContains(d: Dir, requested: Pairs, p: (string, string))
    requires p in requested && IsFile(d, p.0)
    ensures p in Present(d, requested)
  {
    if requested[0] != p {
      PresentContains(d, requested[1..], p);
    }
  }
}
