/**
 The backup script as a whole (scripts/sqlite-backup.js): prune, take the daily snapshot and on Sundays its weekly copy,
 prune again with both protected. It ends with the files that a single prune over everything would have left.
 */
module RetentionScript {
  import opened Prelude
  import opened Calendar
  import opened Retention
  import opened RetentionPrune
  import opened RetentionLaws

  // ----- Both passes before and after the snapshots -----

  /** What one policy keeps is decided the same by the late pass alone. */
  lemma EarlyPassDecidesNothing(
    p: Policy, files: set<string>, early: set<string>, made: set<string>, verified: set<string>,
    snapshot: Option<string>,
    name: string)
    requires forall n :: Candidate(p, verified, n) ==> (n in early <==> n in Survivors(p, files, verified, None))
    requires forall n :: Candidate(p, verified, n) ==> (n in made <==> snapshot == Some(n))
    requires snapshot.Some? ==> Candidate(p, verified, snapshot.value)
    requires Candidate(p, verified, name) && name in files + made
    ensures name in early + made && !Removed(p, early + made, verified, snapshot, name) <==>
      !Removed(p, files + made, verified, snapshot, name)
  {
    hide Candidate, Removed;
    var pruned := Survivors(p, files, verified, None);
    var added := if snapshot.Some? then {snapshot.value} else {};
    OwnCandidatesDecide(p, early + made, pruned + added, verified, snapshot, name);
    OwnCandidatesDecide(p, files + made, files + added, verified, snapshot, name);
    if snapshot.Some? {
      EarlyPruneIsHarmless(p, files, verified, snapshot.value);
      assert name in Survivors(p, pruned + added, verified, snapshot) <==>
        name in Survivors(p, files + added, verified, snapshot);
    } else {
      PruneIsIdempotent(p, files, verified, None);
      assert pruned + added == pruned && files + added == files;
    }
  }

  /** The files of the script: the early passes, the new snapshots, and the late passes that protect them. */
  ghost function ScriptFiles(
    files: set<string>, verified: set<string>, daily: string, weekly: Option<string>): set<string>
  {
    RetainBoth(RetainBoth(files, verified, None, None) + Made(daily, weekly), verified, Some(daily), weekly)
  }

  function Made(daily: string, weekly: Option<string>): set<string> {
    {daily} + if weekly.Some? then {weekly.value} else {}
  }

  /** A candidate survives both passes exactly when its own pass keeps it. */
  lemma OwnPassDecides(
    p: Policy, files: set<string>, verified: set<string>, daily: Option<string>, weekly: Option<string>, name: string)
    requires p == DAILY_POLICY || p == WEEKLY_POLICY
    requires Candidate(p, verified, name)
    ensures name in RetainBoth(files, verified, daily, weekly) <==>
      name in files && !Removed(p, files, verified, if p == DAILY_POLICY then daily else weekly, name)
  {
    PassesDoNotInterfere(files, verified, daily, weekly);
    PassesAreDisjoint(verified, name);
    hide RetainBoth, Candidate;
  }

  /** Files that compete in neither pass stay. */
  lemma OthersStay(
    files: set<string>, verified: set<string>, daily: Option<string>, weekly: Option<string>, name: string)
    requires !Candidate(DAILY_POLICY, verified, name) && !Candidate(WEEKLY_POLICY, verified, name)
    ensures name in RetainBoth(files, verified, daily, weekly) <==> name in files
  {
    hide Candidate;
  }

  lemma ScriptDecides(
    p: Policy, files: set<string>, verified: set<string>, daily: string, weekly: Option<string>, name: string)
    requires p == DAILY_POLICY || p == WEEKLY_POLICY
    requires Candidate(DAILY_POLICY, verified, daily)
    requires weekly.Some? ==> Candidate(WEEKLY_POLICY, verified, weekly.value)
    requires Candidate(p, verified, name) && name in files + Made(daily, weekly)
    ensures name in ScriptFiles(files, verified, daily, weekly) <==>
      name in RetainBoth(files + Made(daily, weekly), verified, Some(daily), weekly)
  {
    hide RetainBoth, Candidate, Removed;
    var early, made := RetainBoth(files, verified, None, None), Made(daily, weekly);
    var snapshot := if p == DAILY_POLICY then Some(daily) else weekly;
    forall n | Candidate(p, verified, n)
      ensures n in early <==> n in Survivors(p, files, verified, None)
      ensures n in made <==> snapshot == Some(n)
    {
      OwnPassDecides(p, files, verified, None, None, n);
      PassesAreDisjoint(verified, n);
    }
    EarlyPassDecidesNothing(p, files, early, made, verified, snapshot, name);
    OwnPassDecides(p, early + made, verified, Some(daily), weekly, name);
    OwnPassDecides(p, files + made, verified, Some(daily), weekly, name);
  }

  /** The whole script prunes as one run of both passes would over the old files and the new snapshots. */
  lemma ScriptIsOnePrune(files: set<string>, verified: set<string>, daily: string, weekly: Option<string>)
    requires Candidate(DAILY_POLICY, verified, daily)
    requires weekly.Some? ==> Candidate(WEEKLY_POLICY, verified, weekly.value)
    ensures ScriptFiles(files, verified, daily, weekly) ==
      RetainBoth(files + Made(daily, weekly), verified, Some(daily), weekly)
  {
    hide RetainBoth, Candidate;
    var early, made := RetainBoth(files, verified, None, None), Made(daily, weekly);
    RetainedAreFiles(files, verified, None, None);
    RetainedAreFiles(early + made, verified, Some(daily), weekly);
    RetainedAreFiles(files + made, verified, Some(daily), weekly);
    forall name | name in files + made
      ensures name in ScriptFiles(files, verified, daily, weekly) <==>
        name in RetainBoth(files + made, verified, Some(daily), weekly)
    {
      if Candidate(DAILY_POLICY, verified, name) {
        ScriptDecides(DAILY_POLICY, files, verified, daily, weekly, name);
      } else if Candidate(WEEKLY_POLICY, verified, name) {
        ScriptDecides(WEEKLY_POLICY, files, verified, daily, weekly, name);
      } else {
        OthersStay(files, verified, None, None, name);
        OthersStay(early + made, verified, Some(daily), weekly, name);
        OthersStay(files + made, verified, Some(daily), weekly, name);
      }
    }
  }

  lemma RetainedAreFiles(files: set<string>, verified: set<string>, daily: Option<string>, weekly: Option<string>)
    ensures RetainBoth(files, verified, daily, weekly) <= files
  {
    hide Removed;
  }

  /** The closing checks never fire: what was protected is still there. */
  lemma NewSnapshotsSurvive(files: set<string>, verified: set<string>, daily: string, weekly: Option<string>)
    requires Candidate(DAILY_POLICY, verified, daily)
    requires weekly.Some? ==> Candidate(WEEKLY_POLICY, verified, weekly.value)
    requires Made(daily, weekly) <= files
    ensures Made(daily, weekly) <= RetainBoth(files, verified, Some(daily), weekly)
  {
    OwnPassDecides(DAILY_POLICY, files, verified, Some(daily), weekly, daily);
    if weekly.Some? {
      OwnPassDecides(WEEKLY_POLICY, files, verified, Some(daily), weekly, weekly.value);
    }
    hide RetainBoth, Candidate;
  }

  // ----- The script -----

  /** How writing a snapshot ends: nothing written, a file that fails its check, or a file with its sidecar. */
  datatype Making = Missing | Unsound | Sound

  lemma SnapshotCompetes(p: Policy, verified: set<string>, now: Stamp)
    requires Valid(now) && BackupName(p.prefix, now) in verified
    ensures Candidate(p, verified, BackupName(p.prefix, now))
  {
    BackupStampIff(BackupName(p.prefix, now), p.prefix, now);
    hide BackupStamp;
  }

  lemma NamesDiffer(now: Stamp)
    ensures BackupName(DAILY_PREFIX, now) != BackupName(WEEKLY_PREFIX, now)
  {
    assert BackupName(DAILY_PREFIX, now)[0] == 'd' && BackupName(WEEKLY_PREFIX, now)[0] == 'w';
  }

  /** Sidecars of files outside the directory do not matter to either pass. */
  lemma SidecarsOfOthers(
    files: set<string>, before: set<string>, now: set<string>, daily: Option<string>, weekly: Option<string>)
    requires forall name :: name in files ==> (name in before <==> name in now)
    ensures RetainBoth(files, before, daily, weekly) == RetainBoth(files, now, daily, weekly)
  {
    hide Survivors;
    SidecarsOfGone(DAILY_POLICY, files, before, now, daily);
    SurvivorsAreFiles(DAILY_POLICY, files, before, daily);
    SidecarsOfGone(WEEKLY_POLICY, Survivors(DAILY_POLICY, files, before, daily), before, now, weekly);
  }

  lemma PrunedWereVerified(files: set<string>, verified: set<string>, name: string)
    requires name in files && name !in RetainBoth(files, verified, None, None)
    ensures name in verified
  {
  }

  /** The late passes see the sidecars as if nothing had been pruned before. */
  lemma ScriptSidecars(files: set<string>, verified: set<string>, daily: string, weekly: Option<string>)
    requires var all := verified + Made(daily, weekly);
      Candidate(DAILY_POLICY, all, daily) && (weekly.Some? ==> Candidate(WEEKLY_POLICY, all, weekly.value))
    requires RetainBoth(files, verified, None, None) !! Made(daily, weekly)
    ensures var pruned, made := RetainBoth(files, verified, None, None), Made(daily, weekly);
      RetainBoth(pruned + made, verified - (files - pruned) + made, Some(daily), weekly) ==
        RetainBoth(files + made, verified + made, Some(daily), weekly)
  {
    hide RetainBoth, Candidate;
    var pruned, made := RetainBoth(files, verified, None, None), Made(daily, weekly);
    forall name | name in files ensures name in verified <==> name in verified + made {
      if name in made {
        PrunedWereVerified(files, verified, name);
      }
    }
    SidecarsOfOthers(files, verified, verified + made, None, None);
    SidecarsOfOthers(pruned + made, verified - (files - pruned) + made, verified + made, Some(daily), weekly);
    ScriptIsOnePrune(files, verified + made, daily, weekly);
  }

  /** The weekly copy: made on Sundays, counting from the epoch, a Thursday. */
  function WeeklyTaken(now: Stamp): (name: Option<string>)
    requires Valid(now)
    ensures name == if (4 + DaysSinceEpoch(now)) % 7 == 0 then Some(BackupName(WEEKLY_PREFIX, now)) else None
  {
    WeekDayFromDistance(now);
    if WeekDay(DayOf(now)) == 0 then Some(BackupName(WEEKLY_PREFIX, now)) else None
  }

  /** Writing refuses a name that is taken, and a snapshot that is not sound stops the script. */
  predicate Fails(files: set<string>, name: string, making: Making) {
    name in files || !making.Sound?
  }

  /** Write a snapshot: no file is overwritten, and only a sound file gets its sidecar. */
  method Take(dir: BackupDirectory, name: string, making: Making) returns (failed: bool)
    modifies dir
    ensures failed == Fails(old(dir.files), name, making)
    ensures dir.files == old(dir.files) + if making.Missing? then {} else {name}
    ensures dir.verified == old(dir.verified) + if failed then {} else {name}
  {
    if name in dir.files || making.Missing? { return true; }
    dir.files := dir.files + {name};
    if making.Unsound? { return true; }
    dir.verified := dir.verified + {name};
    return false;
  }

  /** Both passes without a protected snapshot are never refused. */
  method PruneAll(dir: BackupDirectory)
    modifies dir
    ensures dir.files == RetainBoth(old(dir.files), old(dir.verified), None, None)
    ensures dir.verified == old(dir.verified) - (old(dir.files) - dir.files)
  {
    hide RetainBoth, Survivors;
    var r := dir.PruneRetention(None, None);
  }

  /**
   The script: it fails exactly when a snapshot cannot be taken, so neither a protected name is refused nor a closing
   check fires; then nothing but what the early passes prune is lost. Otherwise the directory holds, with their
   sidecars, what both passes keep of everything there was and the new snapshots, which are among it.
   */
  method BackUp(dir: BackupDirectory, now: Stamp, daily: Making, weekly: Making) returns (r: Result<string>)
    requires Valid(now)
    modifies dir
    ensures var pruned := RetainBoth(old(dir.files), old(dir.verified), None, None);
      var d, w := BackupName(DAILY_PREFIX, now), WeeklyTaken(now);
      && (r.Err? <==> Fails(pruned, d, daily) || (w.Some? && Fails(pruned, w.value, weekly)))
      && (r.Err? ==> pruned <= dir.files <= pruned + Made(d, w))
      && (r.Err? ==> old(dir.verified) - (old(dir.files) - pruned) <= dir.verified)
    ensures r.Ok? ==>
      var d, w := BackupName(DAILY_PREFIX, now), WeeklyTaken(now);
      var made := Made(d, w);
      && r.value == d && made <= dir.files && made <= dir.verified
      && dir.files == RetainBoth(old(dir.files) + made, old(dir.verified) + made, Some(d), w)
      && dir.verified == old(dir.verified) + made - (old(dir.files) + made - dir.files)
  {
    hide RetainBoth, Survivors, Candidate, BackupName, Valid, WeekDay, DayOf;
    var d := BackupName(DAILY_PREFIX, now);
    NamesDiffer(now);
    ghost var files0, verified0 := dir.files, dir.verified;
    PruneAll(dir);
    ghost var pruned := dir.files;
    RetainedAreFiles(files0, verified0, None, None);
    var failed := Take(dir, d, daily);
    if failed { return Err("the daily snapshot was not taken"); }
    var w := None;
    if WeekDay(DayOf(now)) == 0 {
      w := Some(BackupName(WEEKLY_PREFIX, now));
      failed := Take(dir, w.value, weekly);
      if failed { return Err("the weekly snapshot was not taken"); }
      SnapshotCompetes(WEEKLY_POLICY, verified0 + Made(d, w), now);
      SnapshotCompetes(WEEKLY_POLICY, dir.verified, now);
    }
    SnapshotCompetes(DAILY_POLICY, verified0 + Made(d, w), now);
    SnapshotCompetes(DAILY_POLICY, dir.verified, now);
    ScriptSidecars(files0, verified0, d, w);
    NewSnapshotsSurvive(dir.files, dir.verified, d, w);
    assert dir.files == pruned + Made(d, w) && dir.verified == verified0 - (files0 - pruned) + Made(d, w);
    var kept := dir.PruneRetention(Some(d), w);
    RetainedAreFiles(pruned + Made(d, w), verified0 - (files0 - pruned) + Made(d, w), Some(d), w);
    var missing := d !in dir.files || d !in dir.verified
      || (w.Some? && (w.value !in dir.files || w.value !in dir.verified));
    r :=
      if kept.Err? then Err("a protected backup was refused")
      else if missing then Err("a current backup is missing after the prune")
      else Ok(d);
  }
}
