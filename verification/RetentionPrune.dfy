/**
 The prune pass as the source runs it (scripts/sqlite-backup.js): deletion in place while a set of kept buckets grows,
 proved to leave exactly the survivors of the specification, and the two passes one after the other.
 */
module RetentionPrune {
  import opened Prelude
  import opened Retention
  import LexOrder

  // ----- Listings -----

  ghost predicate Descending(names: seq<string>) {
    forall i, j :: 0 <= i < j < |names| ==> NameLess(names[j], names[i])
  }

  lemma NameTotal(a: string, b: string)
    ensures NameLess(a, b) || a == b || NameLess(b, a)
  {
    LexOrder.Total(Codes(a), Codes(b));
    if Codes(a) == Codes(b) {
      CodesInjective(a, b);
    }
  }

  lemma NameAsymmetric(a: string, b: string)
    requires NameLess(a, b)
    ensures !NameLess(b, a) && a != b
  {
    LexOrder.Asymmetric(Codes(a), Codes(b));
  }

  lemma NameTransitive(a: string, b: string, c: string)
    requires NameLess(a, b) && NameLess(b, c)
    ensures NameLess(a, c)
  {
    LexOrder.Transitive(Codes(a), Codes(b), Codes(c));
  }

  /** The names of the directory that match a prefix, newest first: readdir, filter, sort, reverse. */
  method ListNewestFirst(files: set<string>, prefix: string) returns (names: seq<string>)
    ensures forall name :: name in names <==> name in files && IsBackupName(name, prefix)
    ensures Descending(names)
  {
    var rest := set name | name in files && IsBackupName(name, prefix);
    ghost var all := rest;
    names := [];
    while rest != {}
      invariant Descending(names)
      invariant forall name :: name in all <==> name in names || name in rest
      invariant forall i, r :: 0 <= i < |names| && r in rest ==> NameLess(r, names[i])
      decreases rest
    {
      var newest := Newest(rest);
      names := names + [newest];
      rest := rest - {newest};
    }
  }

  /** The greatest name of a non-empty set. */
  method Newest(names: set<string>) returns (newest: string)
    requires names != {}
    ensures newest in names && forall name :: name in names && name != newest ==> NameLess(name, newest)
  {
    newest :| newest in names;
    var rest := names - {newest};
    while rest != {}
      invariant newest in names && rest <= names
      invariant forall name :: name in names && name !in rest && name != newest ==> NameLess(name, newest)
      decreases rest
    {
      var name :| name in rest;
      rest := rest - {name};
      NameTotal(name, newest);
      if NameLess(newest, name) {
        forall other | other in names && other !in rest && other != name ensures NameLess(other, name) {
          if other != newest {
            NameTransitive(other, newest, name);
          }
        }
        newest := name;
      }
    }
  }

  // ----- The loop -----

  /** The buckets, other than the reserved one, of the candidates among the first `i` names. */
  ghost function SeenBuckets(
    p: Policy, verified: set<string>, names: seq<string>, reserved: Option<int>, i: nat): set<int>
    requires i <= |names|
  {
    set k | 0 <= k < i && Candidate(p, verified, names[k])
      && BucketOf(p, names[k]) != reserved :: BucketOf(p, names[k]).value
  }

  ghost predicate Listing(p: Policy, files: set<string>, names: seq<string>) {
    Descending(names) && forall name :: name in names <==> name in files && IsBackupName(name, p.prefix)
  }

  lemma NameIrreflexive(a: string)
    ensures !NameLess(a, a)
  {
    LexOrder.Irreflexive(Codes(a));
  }

  lemma CandidatesAreListed(p: Policy, files: set<string>, verified: set<string>, names: seq<string>)
    requires Listing(p, files, names)
    ensures forall name :: name in files && Candidate(p, verified, name) ==>
      exists k :: 0 <= k < |names| && names[k] == name
  {
  }

  /**
   A candidate whose bucket has not been seen comes after exactly the buckets seen so far, and nothing supersedes it.
   */
  lemma FreshBucketRank(
    p: Policy, files: set<string>, verified: set<string>, names: seq<string>, reserved: Option<int>, i: nat)
    requires Listing(p, files, names) && i < |names|
    requires Candidate(p, verified, names[i]) && BucketOf(p, names[i]) != reserved
    requires BucketOf(p, names[i]).value !in SeenBuckets(p, verified, names, reserved, i)
    ensures NewerBuckets(p, files, verified, reserved, BucketOf(p, names[i]).value) ==
      SeenBuckets(p, verified, names, reserved, i)
    ensures !Superseded(p, files, verified, names[i])
  {
    hide BucketOf, NameLess;
    var bucket := BucketOf(p, names[i]).value;
    forall k | 0 <= k < |names| && Candidate(p, verified, names[k])
      ensures k < i ==> BucketOf(p, names[k]).value >= bucket
      ensures i < k ==> BucketOf(p, names[k]).value <= bucket && !NameLess(names[i], names[k])
    {
      if k < i {
        NameAsymmetric(names[i], names[k]);
        BucketsAreMonotone(p, names[i], names[k]);
      } else if i < k {
        NameAsymmetric(names[k], names[i]);
        BucketsAreMonotone(p, names[k], names[i]);
      }
    }
    CandidatesAreListed(p, files, verified, names);
    NameIrreflexive(names[i]);
  }

  function ReservedSet(reserved: Option<int>): set<int> {
    if reserved.Some? then {reserved.value} else {}
  }

  /** The set the loop grows: all seen buckets while they fit, and full once they do not. */
  ghost predicate KeptBuckets(p: Policy, seen: set<int>, reserved: Option<int>, kept: set<int>) {
    && (|seen| + ReservedCount(reserved) <= p.keepBuckets ==> kept == seen + ReservedSet(reserved))
    && (|seen| + ReservedCount(reserved) > p.keepBuckets ==> |kept| >= p.keepBuckets)
    && kept <= seen + ReservedSet(reserved)
    && (reserved.Some? ==> reserved.value !in seen)
  }

  /** What the loop body does with one name, given the buckets kept so far. */
  predicate Deletes(p: Policy, verified: set<string>, protectedName: Option<string>, kept: set<int>, name: string) {
    && Candidate(p, verified, name)
    && if BucketOf(p, name) == ProtectedBucket(p, protectedName) then Some(name) != protectedName
       else BucketOf(p, name).value in kept || |kept| >= p.keepBuckets
  }

  function Grown(
    p: Policy, verified: set<string>, protectedName: Option<string>, kept: set<int>, name: string): set<int>
  {
    if Candidate(p, verified, name) && BucketOf(p, name) != ProtectedBucket(p, protectedName)
      && !Deletes(p, verified, protectedName, kept, name)
    then kept + {BucketOf(p, name).value}
    else kept
  }

  lemma KeptSize(p: Policy, seen: set<int>, reserved: Option<int>, kept: set<int>)
    requires KeptBuckets(p, seen, reserved, kept)
    ensures |kept| < p.keepBuckets <==> |seen| + ReservedCount(reserved) < p.keepBuckets
  {
    if kept == seen + ReservedSet(reserved) {
      assert |seen + ReservedSet(reserved)| == |seen| + |ReservedSet(reserved)|;
    }
  }

  lemma SeenGrows(p: Policy, verified: set<string>, names: seq<string>, reserved: Option<int>, i: nat)
    requires i < |names|
    ensures SeenBuckets(p, verified, names, reserved, i + 1) ==
      SeenBuckets(p, verified, names, reserved, i) +
      (if Candidate(p, verified, names[i]) && BucketOf(p, names[i]) != reserved then {BucketOf(p, names[i]).value}
        else {})
  {
    hide BucketOf;
  }

  lemma SeenBucketSupersedes(
    p: Policy, files: set<string>, verified: set<string>, names: seq<string>, reserved: Option<int>, i: nat)
    requires Listing(p, files, names) && i < |names|
    requires Candidate(p, verified, names[i])
    requires BucketOf(p, names[i]).value in SeenBuckets(p, verified, names, reserved, i)
    ensures Superseded(p, files, verified, names[i])
  {
    hide BucketOf, NameLess;
    var k :| 0 <= k < i && Candidate(p, verified, names[k])
      && BucketOf(p, names[k]).value == BucketOf(p, names[i]).value;
    assert names[k] in files && NameLess(names[i], names[k]);
  }

  lemma KeptGrows(p: Policy, seen: set<int>, reserved: Option<int>, kept: set<int>, bucket: int)
    requires KeptBuckets(p, seen, reserved, kept) && reserved != Some(bucket)
    ensures KeptBuckets(p, seen + {bucket}, reserved,
      if bucket !in kept && |kept| < p.keepBuckets then kept + {bucket} else kept)
  {
    KeptSize(p, seen, reserved, kept);
    if bucket in seen {
      assert seen + {bucket} == seen;
    } else if |kept| < p.keepBuckets {
      assert |seen + {bucket}| == |seen| + 1;
      assert bucket !in kept;
      KeptWithOneMore(seen, reserved, kept, bucket);
    } else {
      assert |seen + {bucket}| == |seen| + 1;
    }
  }

  lemma KeptWithOneMore(seen: set<int>, reserved: Option<int>, kept: set<int>, bucket: int)
    requires kept == seen + ReservedSet(reserved)
    ensures kept + {bucket} == seen + {bucket} + ReservedSet(reserved)
  {
    hide ReservedSet;
  }

  /** The loop body removes exactly what the specification removes. */
  lemma LoopBodyRemoves(
    p: Policy, files: set<string>, verified: set<string>, names: seq<string>, protectedName: Option<string>, i: nat,
    kept: set<int>)
    requires Listing(p, files, names) && i < |names|
    requires var reserved := ProtectedBucket(p, protectedName);
      KeptBuckets(p, SeenBuckets(p, verified, names, reserved, i), reserved, kept)
    requires Candidate(p, verified, names[i]) && BucketOf(p, names[i]) != ProtectedBucket(p, protectedName)
    ensures Deletes(p, verified, protectedName, kept, names[i]) <==>
      Removed(p, files, verified, protectedName, names[i])
  {
    var reserved := ProtectedBucket(p, protectedName);
    var seen, bucket := SeenBuckets(p, verified, names, reserved, i), BucketOf(p, names[i]).value;
    KeptSize(p, seen, reserved, kept);
    hide BucketOf, SeenBuckets, Superseded, NewerBuckets, NameLess, Descending;
    if bucket in seen {
      SeenBucketSupersedes(p, files, verified, names, reserved, i);
    } else {
      FreshBucketRank(p, files, verified, names, reserved, i);
    }
  }

  /** The loop body decides as the specification does, and keeps its set of buckets right. */
  lemma LoopBodyDecides(
    p: Policy, files: set<string>, verified: set<string>, names: seq<string>, protectedName: Option<string>, i: nat,
    kept: set<int>)
    requires Listing(p, files, names) && i < |names|
    requires var reserved := ProtectedBucket(p, protectedName);
      KeptBuckets(p, SeenBuckets(p, verified, names, reserved, i), reserved, kept)
    ensures Deletes(p, verified, protectedName, kept, names[i]) <==>
      Removed(p, files, verified, protectedName, names[i])
    ensures var reserved := ProtectedBucket(p, protectedName);
      KeptBuckets(p, SeenBuckets(p, verified, names, reserved, i + 1), reserved,
        Grown(p, verified, protectedName, kept, names[i]))
  {
    var reserved := ProtectedBucket(p, protectedName);
    var seen := SeenBuckets(p, verified, names, reserved, i);
    SeenGrows(p, verified, names, reserved, i);
    hide BucketOf, SeenBuckets, ProtectedBucket, Superseded, NewerBuckets, KeptBuckets, Descending, NameLess;
    if Candidate(p, verified, names[i]) && BucketOf(p, names[i]) != reserved {
      LoopBodyRemoves(p, files, verified, names, protectedName, i, kept);
      KeptGrows(p, seen, reserved, kept, BucketOf(p, names[i]).value);
      hide Removed;
    }
  }

  /** The names of a list that the specification removes. */
  ghost function RemovedAmong(
    p: Policy, files: set<string>, verified: set<string>, protectedName: Option<string>,
    names: seq<string>): set<string>
  {
    set name | name in names && Removed(p, files, verified, protectedName, name)
  }

  lemma RemovedAmongGrows(
    p: Policy, files: set<string>, verified: set<string>, protectedName: Option<string>, names: seq<string>, i: nat)
    requires Listing(p, files, names) && i < |names|
    ensures RemovedAmong(p, files, verified, protectedName, names[..i + 1]) ==
      RemovedAmong(p, files, verified, protectedName, names[..i]) +
      (if Removed(p, files, verified, protectedName, names[i]) then {names[i]} else {})
    ensures forall name :: name in RemovedAmong(p, files, verified, protectedName, names[..i]) ==> name != names[i]
  {
    hide Removed, NameLess, IsBackupName;
    NameIrreflexive(names[i]);
    assert names[..i + 1] == names[..i] + [names[i]];
  }

  lemma RemovedAmongListing(
    p: Policy, files: set<string>, verified: set<string>, protectedName: Option<string>, names: seq<string>)
    requires Listing(p, files, names)
    ensures files - RemovedAmong(p, files, verified, protectedName, names) ==
      Survivors(p, files, verified, protectedName)
    ensures RemovedAmong(p, files, verified, protectedName, names) <= files
  {
  }

  /** Whether a name is deleted depends on the sidecars only through its own. */
  lemma OwnSidecarDecides(
    p: Policy, before: set<string>, now: set<string>, protectedName: Option<string>, kept: set<int>, name: string)
    requires name in before <==> name in now
    ensures Deletes(p, before, protectedName, kept, name) == Deletes(p, now, protectedName, kept, name)
    ensures Grown(p, before, protectedName, kept, name) == Grown(p, now, protectedName, kept, name)
  {
  }

  lemma NothingSeen(p: Policy, verified: set<string>, names: seq<string>, reserved: Option<int>)
    ensures KeptBuckets(p, SeenBuckets(p, verified, names, reserved, 0), reserved, ReservedSet(reserved))
  {
  }

  // ----- The backup directory -----

  class BackupDirectory {
    var files: set<string>
    /** The snapshots whose sidecar names them. */
    var verified: set<string>

    method Remove(name: string)
      modifies this
      ensures files == old(files) - {name} && verified == old(verified) - {name}
    {
      files := files - {name};
      verified := verified - {name};
    }

    /** The body of the prune loop. */
    method PruneOne(p: Policy, protectedName: Option<string>, reserved: Option<int>, kept: set<int>, name: string)
      returns (grown: set<int>)
      requires reserved == ProtectedBucket(p, protectedName)
      modifies this
      ensures grown == Grown(p, old(verified), protectedName, kept, name)
      ensures Deletes(p, old(verified), protectedName, kept, name) ==>
        files == old(files) - {name} && verified == old(verified) - {name}
      ensures !Deletes(p, old(verified), protectedName, kept, name) ==> files == old(files) && verified == old(verified)
    {
      var bucket := BucketOf(p, name);
      if bucket.None? || name !in verified { return kept; }
      if reserved.Some? && bucket == reserved {
        if Some(name) == protectedName { return kept; }
        Remove(name);
        return kept;
      }
      if bucket.value !in kept && |kept| < p.keepBuckets {
        return kept + {bucket.value};
      }
      Remove(name);
      return kept;
    }

    /** The prune loop over a listing. */
    method PruneListed(p: Policy, protectedName: Option<string>, names: seq<string>)
      requires Listing(p, files, names)
      modifies this
      ensures var gone := RemovedAmong(p, old(files), old(verified), protectedName, names);
        files == old(files) - gone && verified == old(verified) - gone
    {
      hide *;
      var reserved := ProtectedBucket(p, protectedName);
      var kept := ReservedSet(reserved);
      NothingSeen(p, verified, names, reserved);
      ghost var files0, verified0 := files, verified;
      ghost var gone: set<string> := {};
      NoneRemoved(p, files0, verified0, protectedName);
      assert names[..0] == [];
      for i := 0 to |names|
        invariant KeptBuckets(p, SeenBuckets(p, verified0, names, reserved, i), reserved, kept)
        invariant gone == RemovedAmong(p, files0, verified0, protectedName, names[..i])
        invariant files == files0 - gone && verified == verified0 - gone
      {
        LoopBodyDecides(p, files0, verified0, names, protectedName, i, kept);
        RemovedAmongGrows(p, files0, verified0, protectedName, names, i);
        OwnSidecarDecides(p, verified0, verified, protectedName, kept, names[i]);
        kept := PruneOne(p, protectedName, reserved, kept, names[i]);
        gone := RemovedAmong(p, files0, verified0, protectedName, names[..i + 1]);
      }
      assert names[..|names|] == names;
    }

    /**
     One prune pass: the directory is left with exactly the survivors, or untouched when the protected name is refused.
     */
    method Prune(p: Policy, protectedName: Option<string>) returns (r: Result<()>)
      modifies this
      ensures r.Err? <==> Refused(p, old(verified), protectedName)
      ensures r.Err? ==> files == old(files) && verified == old(verified)
      ensures r.Ok? ==> files == Survivors(p, old(files), old(verified), protectedName)
      ensures r.Ok? ==> verified == old(verified) - (old(files) - files)
    {
      hide BucketOf, Survivors, Descending, RemovedAmong;
      var names := ListNewestFirst(files, p.prefix);
      if protectedName.Some? && (ProtectedBucket(p, protectedName).None? || protectedName.value !in verified) {
        return Err("protected backup is not a verified canonical snapshot");
      }
      RemovedAmongListing(p, files, verified, protectedName, names);
      PruneListed(p, protectedName, names);
      r := Ok(());
    }

    /** Both passes, daily first; a refused protected name stops the sequence as the thrown error does. */
    method PruneRetention(protectedDaily: Option<string>, protectedWeekly: Option<string>) returns (r: Result<()>)
      modifies this
      ensures r.Err? <==>
        Refused(DAILY_POLICY, old(verified), protectedDaily) || Refused(WEEKLY_POLICY, old(verified), protectedWeekly)
      ensures files ==
        if Refused(DAILY_POLICY, old(verified), protectedDaily) then old(files)
        else if r.Err? then Survivors(DAILY_POLICY, old(files), old(verified), protectedDaily)
        else RetainBoth(old(files), old(verified), protectedDaily, protectedWeekly)
      ensures verified == old(verified) - (old(files) - files)
    {
      hide Survivors, BucketOf, Candidate;
      r := Prune(DAILY_POLICY, protectedDaily);
      if r.Err? { return; }
      ghost var afterDaily := files;
      SurvivorsAreFiles(DAILY_POLICY, old(files), old(verified), protectedDaily);
      SidecarsOfGone(WEEKLY_POLICY, afterDaily, old(verified), old(verified) - (old(files) - files), protectedWeekly);
      WeeklyRefusalStands(old(files), old(verified), protectedDaily, protectedWeekly);
      ghost var verifiedAfterDaily := verified;
      r := Prune(WEEKLY_POLICY, protectedWeekly);
      SurvivorsAreFiles(WEEKLY_POLICY, afterDaily, verifiedAfterDaily, protectedWeekly);
    }
  }

  /** A protected name that is no verified canonical snapshot of the pass. */
  predicate Refused(p: Policy, verified: set<string>, protectedName: Option<string>) {
    protectedName.Some? && !Candidate(p, verified, protectedName.value)
  }

  /** No name competes in both passes. */
  lemma PassesAreDisjoint(verified: set<string>, name: string)
    ensures !(Candidate(DAILY_POLICY, verified, name) && Candidate(WEEKLY_POLICY, verified, name))
  {
    assert DAILY_PREFIX <= name ==> name[0] == 'd';
    assert WEEKLY_PREFIX <= name ==> name[0] == 'w';
  }

  /** The daily pass takes no sidecar that the weekly pass asks for. */
  lemma WeeklyRefusalStands(
    files: set<string>, verified: set<string>, protectedDaily: Option<string>, protectedWeekly: Option<string>)
    ensures var gone := files - Survivors(DAILY_POLICY, files, verified, protectedDaily);
      Refused(WEEKLY_POLICY, verified - gone, protectedWeekly) == Refused(WEEKLY_POLICY, verified, protectedWeekly)
  {
    if protectedWeekly.Some? {
      PassesAreDisjoint(verified, protectedWeekly.value);
    }
    hide BucketOf, Superseded, NewerBuckets;
  }

  lemma NoneRemoved(p: Policy, files: set<string>, verified: set<string>, protectedName: Option<string>)
    ensures RemovedAmong(p, files, verified, protectedName, []) == {}
  {
  }

  lemma SurvivorsAreFiles(p: Policy, files: set<string>, verified: set<string>, protectedName: Option<string>)
    ensures Survivors(p, files, verified, protectedName) <= files
  {
  }

  /** Both prune passes as one function on the set of files. */
  ghost function RetainBoth(
    files: set<string>, verified: set<string>, protectedDaily: Option<string>,
    protectedWeekly: Option<string>): set<string>
  {
    Survivors(WEEKLY_POLICY, Survivors(DAILY_POLICY, files, verified, protectedDaily), verified, protectedWeekly)
  }

  /** Sidecars of files that are no longer there do not matter. */
  lemma SidecarsOfGone(
    p: Policy, files: set<string>, before: set<string>, now: set<string>, protectedName: Option<string>)
    requires forall name :: name in files ==> (name in before <==> name in now)
    ensures Survivors(p, files, before, protectedName) == Survivors(p, files, now, protectedName)
  {
    hide BucketOf, NameLess;
    forall name | name in files
      ensures Removed(p, files, before, protectedName, name) <==> Removed(p, files, now, protectedName, name)
    {
      if BucketOf(p, name).Some? {
        var reserved, bucket := ProtectedBucket(p, protectedName), BucketOf(p, name).value;
        assert NewerBuckets(p, files, before, reserved, bucket) == NewerBuckets(p, files, now, reserved, bucket);
      }
    }
  }
}
