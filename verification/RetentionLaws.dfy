/**
 Laws of one prune pass and of both (scripts/sqlite-backup.js): what survives, that a second pass changes nothing, that
 pruning before and after taking the snapshot equals pruning once after it, and that the two passes do not interfere.
 */
module RetentionLaws {
  import opened Prelude
  import opened Retention
  import RetentionPrune

  // ----- What survives -----

  /** Files outside the policy's competition and the protected snapshot are never removed. */
  lemma OthersSurvive(p: Policy, files: set<string>, verified: set<string>, protectedName: Option<string>, name: string)
    requires name in files
    requires Some(name) == protectedName || !Candidate(p, verified, name)
    ensures name in Survivors(p, files, verified, protectedName)
  {
  }

  /** Two surviving candidates never share a bucket. */
  lemma OnePerBucket(
    p: Policy, files: set<string>, verified: set<string>, protectedName: Option<string>, a: string, b: string)
    requires a in Survivors(p, files, verified, protectedName) && b in Survivors(p, files, verified, protectedName)
    requires Candidate(p, verified, a) && Candidate(p, verified, b) && BucketOf(p, a) == BucketOf(p, b)
    ensures a == b
  {
    hide BucketOf, NameLess;
    RetentionPrune.NameTotal(a, b);
  }

  /** The buckets of the surviving candidates other than the reserved one. */
  ghost function KeptBucketsOf(
    p: Policy, files: set<string>, verified: set<string>, protectedName: Option<string>): set<int>
  {
    set name | name in Survivors(p, files, verified, protectedName) && Candidate(p, verified, name)
      && BucketOf(p, name) != ProtectedBucket(p, protectedName) :: BucketOf(p, name).value
  }

  lemma SomeElement<T>(s: set<T>) returns (x: T)
    requires s != {}
    ensures x in s
  {
    x :| x in s;
  }

  lemma LeastExists(s: set<int>) returns (least: int)
    requires s != {}
    ensures least in s && forall x :: x in s ==> least <= x
  {
    least := SomeElement(s);
    var rest := s - {least};
    while rest != {}
      invariant least in s && rest <= s
      invariant forall x :: x in s && x !in rest ==> least <= x
      decreases rest
    {
      var x := SomeElement(rest);
      rest := rest - {x};
      if x < least {
        least := x;
      }
    }
  }

  lemma SubsetSize<T>(a: set<T>, b: set<T>)
    requires a <= b
    ensures |a| <= |b|
  {
    if a != {} {
      var x :| x in a;
      SubsetSize(a - {x}, b - {x});
    }
  }

  /** Retention is bounded: the surviving candidates fill at most `keepBuckets` buckets, the reserved one included. */
  lemma RetentionIsBounded(p: Policy, files: set<string>, verified: set<string>, protectedName: Option<string>)
    ensures var reserved := ProtectedBucket(p, protectedName);
      var kept := KeptBucketsOf(p, files, verified, protectedName);
      kept != {} ==> |kept| + ReservedCount(reserved) <= p.keepBuckets
  {
    hide BucketOf, NameLess;
    var reserved := ProtectedBucket(p, protectedName);
    var kept := KeptBucketsOf(p, files, verified, protectedName);
    if kept != {} {
      var least := LeastExists(kept);
      var name :| name in Survivors(p, files, verified, protectedName) && Candidate(p, verified, name)
        && BucketOf(p, name) != reserved && BucketOf(p, name).value == least;
      var newer := NewerBuckets(p, files, verified, reserved, least);
      assert kept <= newer + {least};
      SubsetSize(kept, newer + {least});
    }
  }

  // ----- What is kept -----

  /** The buckets that candidates compete for, other than the reserved one. */
  function OpenBuckets(p: Policy, files: set<string>, verified: set<string>, protectedName: Option<string>): set<int> {
    set name | name in files && Candidate(p, verified, name) && BucketOf(p, name) != ProtectedBucket(p, protectedName)
      :: BucketOf(p, name).value
  }

  lemma GreatestExists(s: set<int>) returns (greatest: int)
    requires s != {}
    ensures greatest in s && forall x :: x in s ==> x <= greatest
  {
    greatest := SomeElement(s);
    var rest := s - {greatest};
    while rest != {}
      invariant greatest in s && rest <= s
      invariant forall x :: x in s && x !in rest ==> x <= greatest
      decreases rest
    {
      var x := SomeElement(rest);
      rest := rest - {x};
      if x > greatest {
        greatest := x;
      }
    }
  }

  /** A bucket with few enough newer ones keeps its newest candidate. */
  lemma FewNewerIsKept(p: Policy, files: set<string>, verified: set<string>, protectedName: Option<string>, bucket: int)
    requires bucket in OpenBuckets(p, files, verified, protectedName)
    requires var reserved := ProtectedBucket(p, protectedName);
      |NewerBuckets(p, files, verified, reserved, bucket)| + ReservedCount(reserved) < p.keepBuckets
    ensures bucket in KeptBucketsOf(p, files, verified, protectedName)
  {
    hide BucketOf, NameLess, NewerBuckets;
    var name :| name in files && Candidate(p, verified, name)
      && BucketOf(p, name) != ProtectedBucket(p, protectedName) && BucketOf(p, name).value == bucket;
    var newest := NewestOfBucket(p, files, verified, name);
    assert newest in Survivors(p, files, verified, protectedName);
  }

  lemma LostHasManyNewer(
    p: Policy, files: set<string>, verified: set<string>, protectedName: Option<string>, lost: int, kept: int)
    requires lost in OpenBuckets(p, files, verified, protectedName)
    requires lost !in KeptBucketsOf(p, files, verified, protectedName)
    requires kept in KeptBucketsOf(p, files, verified, protectedName)
    ensures lost < kept
  {
    hide BucketOf, NameLess;
    var reserved := ProtectedBucket(p, protectedName);
    if kept < lost {
      SubsetSize(NewerBuckets(p, files, verified, reserved, lost), NewerBuckets(p, files, verified, reserved, kept));
      FewNewerIsKept(p, files, verified, protectedName, lost);
    }
  }

  /**
   What a pass keeps: the most recent buckets, each by its newest candidate, and no fewer than the policy allows. A
   bucket is lost only when all allowed places are taken by later buckets, the reserved one having its own place.
   */
  lemma NewestBucketsAreKept(p: Policy, files: set<string>, verified: set<string>, protectedName: Option<string>)
    ensures var open := OpenBuckets(p, files, verified, protectedName);
      var kept := KeptBucketsOf(p, files, verified, protectedName);
      var places := p.keepBuckets - ReservedCount(ProtectedBucket(p, protectedName));
      && kept <= open
      && |kept| == (if |open| <= places then |open| else if places < 0 then 0 else places)
      && (forall lost, k :: lost in open - kept && k in kept ==> lost < k)
    ensures forall name, other ::
      (&& name in Survivors(p, files, verified, protectedName) && Some(name) != protectedName
       && Candidate(p, verified, name) && other in files && Candidate(p, verified, other)
       && BucketOf(p, other) == BucketOf(p, name)) ==> !NameLess(name, other)
  {
    hide BucketOf, NameLess;
    var reserved := ProtectedBucket(p, protectedName);
    var open := OpenBuckets(p, files, verified, protectedName);
    var kept := KeptBucketsOf(p, files, verified, protectedName);
    SubsetSize(kept, open);
    RetentionIsBounded(p, files, verified, protectedName);
    forall lost, k | lost in open - kept && k in kept ensures lost < k {
      LostHasManyNewer(p, files, verified, protectedName, lost, k);
    }
    if open - kept == {} {
      assert kept == open;
    } else {
      LostFillsPlaces(p, files, verified, protectedName);
    }
  }

  lemma LostFillsPlaces(p: Policy, files: set<string>, verified: set<string>, protectedName: Option<string>)
    requires OpenBuckets(p, files, verified, protectedName) - KeptBucketsOf(p, files, verified, protectedName) != {}
    requires KeptBucketsOf(p, files, verified, protectedName) <= OpenBuckets(p, files, verified, protectedName)
    ensures |KeptBucketsOf(p, files, verified, protectedName)| <
      |OpenBuckets(p, files, verified, protectedName)|
    ensures |KeptBucketsOf(p, files, verified, protectedName)| + ReservedCount(ProtectedBucket(p, protectedName)) >=
      p.keepBuckets
  {
    hide BucketOf, NameLess;
    var reserved := ProtectedBucket(p, protectedName);
    var open := OpenBuckets(p, files, verified, protectedName);
    var kept := KeptBucketsOf(p, files, verified, protectedName);
    var lost := GreatestExists(open - kept);
    SubsetSize(kept + {lost}, open);
    var newer := NewerBuckets(p, files, verified, reserved, lost);
    assert newer <= open;
    forall bucket | bucket in newer ensures bucket in kept {
      assert bucket !in kept ==> bucket in open - kept;
    }
    SubsetSize(newer, kept);
    if |newer| + ReservedCount(reserved) < p.keepBuckets {
      FewNewerIsKept(p, files, verified, protectedName, lost);
    }
  }

  /** Seven daily and four weekly buckets, as far as there are verified snapshots for them. */
  lemma SevenDaysFourWeeks(files: set<string>, verified: set<string>)
    ensures var days := OpenBuckets(DAILY_POLICY, files, verified, None);
      |KeptBucketsOf(DAILY_POLICY, files, verified, None)| == if |days| < 7 then |days| else 7
    ensures var weeks := OpenBuckets(WEEKLY_POLICY, files, verified, None);
      |KeptBucketsOf(WEEKLY_POLICY, files, verified, None)| == if |weeks| < 4 then |weeks| else 4
  {
    hide OpenBuckets, KeptBucketsOf, Survivors, Candidate;
    NewestBucketsAreKept(DAILY_POLICY, files, verified, None);
    NewestBucketsAreKept(WEEKLY_POLICY, files, verified, None);
  }

  // ----- Comparing two directories -----

  lemma FewerFilesFewerBuckets(
    p: Policy, small: set<string>, large: set<string>, verified: set<string>, reserved: Option<int>, bucket: int)
    requires small <= large
    ensures NewerBuckets(p, small, verified, reserved, bucket) <= NewerBuckets(p, large, verified, reserved, bucket)
    ensures |NewerBuckets(p, small, verified, reserved, bucket)| <= |NewerBuckets(p, large, verified, reserved, bucket)|
  {
    hide BucketOf;
    SubsetSize(NewerBuckets(p, small, verified, reserved, bucket), NewerBuckets(p, large, verified, reserved, bucket));
  }

  /** Whatever a pass keeps, it keeps when fewer files compete. */
  lemma RemovedNeedsCompetitors(
    p: Policy, small: set<string>, large: set<string>, verified: set<string>, protectedName: Option<string>,
    name: string)
    requires small <= large && Removed(p, small, verified, protectedName, name)
    ensures Removed(p, large, verified, protectedName, name)
  {
    hide BucketOf, NewerBuckets, NameLess;
    FewerFilesFewerBuckets(p, small, large, verified, ProtectedBucket(p, protectedName), BucketOf(p, name).value);
  }

  /** A second pass over the survivors removes nothing. */
  lemma PruneIsIdempotent(p: Policy, files: set<string>, verified: set<string>, protectedName: Option<string>)
    ensures var once := Survivors(p, files, verified, protectedName);
      Survivors(p, once, verified, protectedName) == once
  {
    hide Removed;
    var once := Survivors(p, files, verified, protectedName);
    forall name | name in once ensures !Removed(p, once, verified, protectedName, name) {
      if Removed(p, once, verified, protectedName, name) {
        RemovedNeedsCompetitors(p, once, files, verified, protectedName, name);
      }
    }
  }

  // ----- Pruning before and after the snapshot -----

  /** The newest candidate of a bucket. */
  lemma NewestOfBucket(p: Policy, files: set<string>, verified: set<string>, name: string) returns (newest: string)
    requires name in files && Candidate(p, verified, name)
    ensures newest in files && Candidate(p, verified, newest) && BucketOf(p, newest) == BucketOf(p, name)
    ensures !Superseded(p, files, verified, newest)
  {
    hide BucketOf, NameLess;
    newest := name;
    var rivals := set other | other in files && Candidate(p, verified, other)
      && BucketOf(p, other) == BucketOf(p, name);
    var rest := rivals - {newest};
    RetentionPrune.NameIrreflexive(newest);
    while rest != {}
      invariant newest in rivals && rest <= rivals
      invariant forall other :: other in rivals && other !in rest ==> !NameLess(newest, other)
      decreases rest
    {
      var other :| other in rest;
      rest := rest - {other};
      if NameLess(newest, other) {
        forall third | third in rivals && third !in rest ensures !NameLess(other, third) {
          if NameLess(other, third) {
            RetentionPrune.NameTransitive(newest, other, third);
            RetentionPrune.NameAsymmetric(other, third);
          }
        }
        newest := other;
      }
    }
  }

  /** Every bucket that outranks a survivor is still represented after the pass. */
  lemma NewerBucketsSurvive(p: Policy, files: set<string>, verified: set<string>, bucket: int)
    requires |NewerBuckets(p, files, verified, None, bucket)| < p.keepBuckets
    ensures NewerBuckets(p, Survivors(p, files, verified, None), verified, None, bucket) ==
      NewerBuckets(p, files, verified, None, bucket)
  {
    hide BucketOf, NameLess;
    var kept := Survivors(p, files, verified, None);
    forall b | b in NewerBuckets(p, files, verified, None, bucket)
      ensures b in NewerBuckets(p, kept, verified, None, bucket)
    {
      var name :| name in files && Candidate(p, verified, name) && BucketOf(p, name).value > bucket
        && BucketOf(p, name).value == b;
      var newest := NewestOfBucket(p, files, verified, name);
      assert NewerBuckets(p, files, verified, None, b) <= NewerBuckets(p, files, verified, None, bucket);
      SubsetSize(NewerBuckets(p, files, verified, None, b), NewerBuckets(p, files, verified, None, bucket));
      assert newest in kept;
    }
  }

  lemma ReservedBucketAside(p: Policy, files: set<string>, verified: set<string>, snapshot: string, bucket: int)
    requires Candidate(p, verified, snapshot)
    ensures var reserved := BucketOf(p, snapshot);
      NewerBuckets(p, files + {snapshot}, verified, reserved, bucket) ==
        NewerBuckets(p, files, verified, None, bucket) - {reserved.value}
  {
    hide BucketOf;
  }

  /** Dropping one bucket lowers the count by at most one. */
  lemma AsideCount(newer: set<int>, reserved: int)
    ensures |newer - {reserved}| <= |newer| <= |newer - {reserved}| + 1
  {
    if reserved in newer {
      assert newer == (newer - {reserved}) + {reserved};
    } else {
      assert newer - {reserved} == newer;
    }
  }

  /** A file the one pass after the snapshot keeps was also kept by the pass before it. */
  lemma KeptLaterKeptEarlier(p: Policy, files: set<string>, verified: set<string>, snapshot: string, name: string)
    requires Candidate(p, verified, snapshot)
    requires name in files && name != snapshot && !Removed(p, files + {snapshot}, verified, Some(snapshot), name)
    ensures !Removed(p, files, verified, None, name)
  {
    hide BucketOf, NameLess;
    if Candidate(p, verified, name) {
      var bucket := BucketOf(p, name).value;
      ReservedBucketAside(p, files, verified, snapshot, bucket);
      AsideCount(NewerBuckets(p, files, verified, None, bucket), BucketOf(p, snapshot).value);
    }
  }

  /** A file both passes keep is kept by the single pass over all old files and the snapshot. */
  lemma KeptTwiceKeptOnce(p: Policy, files: set<string>, verified: set<string>, snapshot: string, name: string)
    requires Candidate(p, verified, snapshot)
    requires name in Survivors(p, files, verified, None) && name != snapshot
    requires !Removed(p, Survivors(p, files, verified, None) + {snapshot}, verified, Some(snapshot), name)
    ensures !Removed(p, files + {snapshot}, verified, Some(snapshot), name)
  {
    hide BucketOf, NameLess;
    if Candidate(p, verified, name) {
      var bucket := BucketOf(p, name).value;
      var kept := Survivors(p, files, verified, None);
      NewerBucketsSurvive(p, files, verified, bucket);
      ReservedBucketAside(p, files, verified, snapshot, bucket);
      ReservedBucketAside(p, kept, verified, snapshot, bucket);
      hide NewerBuckets;
      assert !Superseded(p, files, verified, name);
      assert BucketOf(p, name) != BucketOf(p, snapshot);
    }
  }

  /**
   Pruning, taking a verified snapshot and pruning again with it protected leaves the same files as one prune over the
   old files and the snapshot: the early pass only makes room.
   */
  lemma EarlyPruneIsHarmless(p: Policy, files: set<string>, verified: set<string>, snapshot: string)
    requires Candidate(p, verified, snapshot)
    ensures Survivors(p, Survivors(p, files, verified, None) + {snapshot}, verified, Some(snapshot)) ==
      Survivors(p, files + {snapshot}, verified, Some(snapshot))
  {
    hide Removed, Candidate;
    var early := Survivors(p, files, verified, None) + {snapshot};
    forall name | name in files + {snapshot}
      ensures name in Survivors(p, early, verified, Some(snapshot)) <==>
        name in Survivors(p, files + {snapshot}, verified, Some(snapshot))
    {
      if name == snapshot {
        ProtectedStays(p, early, verified, snapshot);
        ProtectedStays(p, files + {snapshot}, verified, snapshot);
      } else {
        if !Removed(p, files + {snapshot}, verified, Some(snapshot), name) {
          KeptLaterKeptEarlier(p, files, verified, snapshot, name);
          if Removed(p, early, verified, Some(snapshot), name) {
            RemovedNeedsCompetitors(p, early, files + {snapshot}, verified, Some(snapshot), name);
          }
        }
        if name in early && !Removed(p, early, verified, Some(snapshot), name) {
          KeptTwiceKeptOnce(p, files, verified, snapshot, name);
        }
      }
    }
  }

  lemma ProtectedStays(p: Policy, files: set<string>, verified: set<string>, snapshot: string)
    ensures !Removed(p, files, verified, Some(snapshot), snapshot)
  {
  }

  // ----- The two passes -----

  /** A pass depends on the directory only through its own candidates. */
  lemma OwnCandidatesDecide(
    p: Policy, a: set<string>, b: set<string>, verified: set<string>, protectedName: Option<string>, name: string)
    requires forall n :: Candidate(p, verified, n) ==> (n in a <==> n in b)
    ensures Removed(p, a, verified, protectedName, name) <==> Removed(p, b, verified, protectedName, name)
  {
    hide BucketOf, NameLess;
    if BucketOf(p, name).Some? {
      var reserved, bucket := ProtectedBucket(p, protectedName), BucketOf(p, name).value;
      assert NewerBuckets(p, a, verified, reserved, bucket) == NewerBuckets(p, b, verified, reserved, bucket);
    }
  }

  /** Running both passes removes exactly what each removes on its own, so their order does not matter. */
  lemma PassesDoNotInterfere(
    files: set<string>, verified: set<string>, protectedDaily: Option<string>, protectedWeekly: Option<string>)
    ensures RetentionPrune.RetainBoth(files, verified, protectedDaily, protectedWeekly) ==
      Survivors(DAILY_POLICY, files, verified, protectedDaily) *
      Survivors(WEEKLY_POLICY, files, verified, protectedWeekly)
  {
    var afterDaily := Survivors(DAILY_POLICY, files, verified, protectedDaily);
    forall name | Candidate(WEEKLY_POLICY, verified, name) ensures name in files <==> name in afterDaily {
      RetentionPrune.PassesAreDisjoint(verified, name);
    }
    hide Removed, Candidate;
    forall name | name in afterDaily
      ensures Removed(WEEKLY_POLICY, afterDaily, verified, protectedWeekly, name) <==>
        Removed(WEEKLY_POLICY, files, verified, protectedWeekly, name)
    {
      OwnCandidatesDecide(WEEKLY_POLICY, afterDaily, files, verified, protectedWeekly, name);
    }
  }
}
