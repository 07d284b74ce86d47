/**
 Backup retention (scripts/sqlite-backup.js): snapshots are named after their UTC time, and each prune keeps one
 verified snapshot per calendar bucket for the most recent buckets, reserving the bucket of a protected snapshot.
 */
module Retention {
  import opened Prelude
  import opened Calendar
  import opened Text
  import LexOrder

  const DAILY_PREFIX := "daily-cloud-state-"
  const WEEKLY_PREFIX := "weekly-cloud-state-"
  const DAILY_RETENTION: nat := 7
  const WEEKLY_RETENTION: nat := 4
  const STAMP_LENGTH := 24

  // ----- Names -----

  function Codes(s: string): seq<int> {
    seq(|s|, i requires 0 <= i < |s| => s[i] as int)
  }

  /** The order `sort()` puts names in. */
  predicate NameLess(a: string, b: string) {
    LexOrder.Less(Codes(a), Codes(b))
  }

  /** `dddd-dd-ddTdd-dd-dd-dddZ` */
  predicate MatchesStamp(s: string) {
    && |s| == STAMP_LENGTH
    && AllDigits(s[0..4]) && s[4] == '-' && AllDigits(s[5..7]) && s[7] == '-' && AllDigits(s[8..10]) && s[10] == 'T'
    && AllDigits(s[11..13]) && s[13] == '-' && AllDigits(s[14..16]) && s[16] == '-' && AllDigits(s[17..19])
    && s[19] == '-' && AllDigits(s[20..23]) && s[23] == 'Z'
  }

  function ReadStamp(s: string): Stamp
    requires MatchesStamp(s)
  {
    Stamp(NumberOf(s[0..4]), NumberOf(s[5..7]), NumberOf(s[8..10]), NumberOf(s[11..13]), NumberOf(s[14..16]),
      NumberOf(s[17..19]), NumberOf(s[20..23]))
  }

  predicate IsBackupName(name: string, prefix: string) {
    |name| >= 3 && prefix <= name && name[|name| - 3..] == ".db"
  }

  /** The stamp of a canonical snapshot name; None for every other name. */
  function BackupStamp(name: string, prefix: string): (stamp: Option<Stamp>)
    ensures stamp.Some? ==> Valid(stamp.value)
  {
    if !IsBackupName(name, prefix) || |name| != |prefix| + STAMP_LENGTH + 3 then None
    else
      var text := name[|prefix|..|prefix| + STAMP_LENGTH];
      if !MatchesStamp(text) || !Valid(ReadStamp(text)) then None else Some(ReadStamp(text))
  }

  /** The last `width` decimal digits of a number, as `toISOString` pads its fields. */
  function Padded(n: nat, width: nat): (s: string)
    ensures |s| == width && AllDigits(s)
  {
    if width == 0 then "" else Padded(n / 10, width - 1) + [('0' as int + n % 10) as char]
  }

  function DateText(s: Stamp): string {
    Padded(s.year, 4) + "-" + Padded(s.month, 2) + "-" + Padded(s.day, 2)
  }

  function TimeText(s: Stamp): string {
    Padded(s.hour, 2) + "-" + Padded(s.minute, 2) + "-" + Padded(s.second, 2) + "-" + Padded(s.millisecond, 3)
  }

  /** `toISOString().replaceAll(/[:.]/g, "-")` */
  function StampText(s: Stamp): string {
    DateText(s) + "T" + TimeText(s) + "Z"
  }

  function BackupName(prefix: string, s: Stamp): string {
    prefix + StampText(s) + ".db"
  }

  function Tens(width: nat): nat {
    if width == 0 then 1 else 10 * Tens(width - 1)
  }

  lemma {:induction false} NumberOfPadded(n: nat, width: nat)
    requires n < Tens(width)
    ensures NumberOf(Padded(n, width)) == n
  {
    if width > 0 {
      NumberOfPadded(n / 10, width - 1);
      var s := Padded(n, width);
      assert s[..|s| - 1] == Padded(n / 10, width - 1);
    }
  }

  lemma {:induction false} PaddedOfNumber(s: string)
    requires AllDigits(s)
    ensures Padded(NumberOf(s), |s|) == s
  {
    if |s| > 0 {
      PaddedOfNumber(s[..|s| - 1]);
      assert s == s[..|s| - 1] + [s[|s| - 1]];
    }
  }

  lemma DateFields(s: Stamp)
    ensures var t := DateText(s);
      && |t| == 10
      && t[0..4] == Padded(s.year, 4) && t[4] == '-' && t[5..7] == Padded(s.month, 2) && t[7] == '-'
      && t[8..10] == Padded(s.day, 2)
  {
    hide AllDigits;
  }

  lemma TimeFields(s: Stamp)
    ensures var t := TimeText(s);
      && |t| == 12
      && t[0..2] == Padded(s.hour, 2) && t[2] == '-' && t[3..5] == Padded(s.minute, 2) && t[5] == '-'
      && t[6..8] == Padded(s.second, 2) && t[8] == '-' && t[9..12] == Padded(s.millisecond, 3)
  {
    hide AllDigits;
  }

  /** A piece of the middle of a text. */
  lemma Inside(a: string, b: string, c: string, i: nat, j: nat)
    requires i <= j <= |b|
    ensures (a + b + c)[|a| + i..|a| + j] == b[i..j]
  {
  }

  /** Where the fields of a stamp text lie. */
  lemma StampFields(s: Stamp)
    ensures var t := StampText(s);
      && |t| == STAMP_LENGTH
      && t[0..4] == Padded(s.year, 4) && t[4] == '-' && t[5..7] == Padded(s.month, 2) && t[7] == '-'
      && t[8..10] == Padded(s.day, 2) && t[10] == 'T' && t[11..13] == Padded(s.hour, 2) && t[13] == '-'
      && t[14..16] == Padded(s.minute, 2) && t[16] == '-' && t[17..19] == Padded(s.second, 2) && t[19] == '-'
      && t[20..23] == Padded(s.millisecond, 3) && t[23] == 'Z'
  {
    hide Padded, DateText, TimeText;
    DateFields(s);
    TimeFields(s);
    var date, head, time := DateText(s), DateText(s) + "T", TimeText(s);
    var tail := "T" + time + "Z";
    assert StampText(s) == "" + date + tail && StampText(s) == head + time + "Z";
    Inside("", date, tail, 0, 4);
    Inside("", date, tail, 5, 7);
    Inside("", date, tail, 8, 10);
    Inside(head, time, "Z", 0, 2);
    Inside(head, time, "Z", 3, 5);
    Inside(head, time, "Z", 6, 8);
    Inside(head, time, "Z", 9, 12);
  }

  /** Stamp texts are read back as the stamps they were made from. */
  lemma StampReadsBack(s: Stamp)
    requires Valid(s)
    ensures MatchesStamp(StampText(s)) && ReadStamp(StampText(s)) == s
  {
    hide StampText, Padded, NumberOf, AllDigits;
    StampFields(s);
    assert Tens(2) == 100 && Tens(3) == 1000 && Tens(4) == 10000;
    NumberOfPadded(s.year, 4);
    NumberOfPadded(s.month, 2);
    NumberOfPadded(s.day, 2);
    NumberOfPadded(s.hour, 2);
    NumberOfPadded(s.minute, 2);
    NumberOfPadded(s.second, 2);
    NumberOfPadded(s.millisecond, 3);
  }

  /** A text of the right shape is the stamp text of what is read from it. */
  lemma ReadBackIsStamp(t: string)
    requires MatchesStamp(t)
    ensures StampText(ReadStamp(t)) == t
  {
    hide Padded, NumberOf, AllDigits;
    assert t == t[0..4] + "-" + t[5..7] + "-" + t[8..10] + "T" +
      (t[11..13] + "-" + t[14..16] + "-" + t[17..19] + "-" + t[20..23]) + "Z";
    PaddedOfNumber(t[0..4]);
    PaddedOfNumber(t[5..7]);
    PaddedOfNumber(t[8..10]);
    PaddedOfNumber(t[11..13]);
    PaddedOfNumber(t[14..16]);
    PaddedOfNumber(t[17..19]);
    PaddedOfNumber(t[20..23]);
  }

  /** The canonical names of a prefix are exactly the names the script gives to its snapshots, and carry their time. */
  lemma BackupStampIff(name: string, prefix: string, s: Stamp)
    ensures BackupStamp(name, prefix) == Some(s) <==> Valid(s) && name == BackupName(prefix, s)
  {
    hide Valid, ReadStamp, MatchesStamp, StampText, NumberOf;
    if BackupStamp(name, prefix).Some? {
      var text := name[|prefix|..|prefix| + STAMP_LENGTH];
      ReadBackIsStamp(text);
      assert name == prefix + text + ".db";
    }
    if Valid(s) && name == BackupName(prefix, s) {
      StampReadsBack(s);
      StampFields(s);
      assert name[|prefix|..|prefix| + STAMP_LENGTH] == StampText(s);
    }
  }

  // ----- Buckets -----

  datatype Period = Daily | Weekly

  /** A prune pass: a prefix, the period that makes two snapshots compete, and how many buckets are kept. */
  datatype Policy = Policy(prefix: string, period: Period, keepBuckets: nat)

  const DAILY_POLICY := Policy(DAILY_PREFIX, Daily, DAILY_RETENTION)
  const WEEKLY_POLICY := Policy(WEEKLY_PREFIX, Weekly, WEEKLY_RETENTION)

  /** The bucket of a name, written as the day it stands for: the day itself, or the Monday of its week. */
  function BucketOf(p: Policy, name: string): Option<int> {
    var stamp := BackupStamp(name, p.prefix);
    if stamp.None? then None
    else Some(if p.period == Daily then DayOf(stamp.value) else MondayOf(DayOf(stamp.value)))
  }

  function ProtectedBucket(p: Policy, protectedName: Option<string>): Option<int> {
    if protectedName.None? then None else BucketOf(p, protectedName.value)
  }

  // ----- Which files a prune removes -----

  /** A snapshot that competes for a bucket: canonical name and verification sidecar. */
  predicate Candidate(p: Policy, verified: set<string>, name: string) {
    BucketOf(p, name).Some? && name in verified
  }

  /** A newer candidate of the same bucket exists. */
  ghost predicate Superseded(p: Policy, files: set<string>, verified: set<string>, name: string) {
    exists other :: other in files && Candidate(p, verified, other) && BucketOf(p, other) == BucketOf(p, name)
      && NameLess(name, other)
  }

  /** The buckets of candidates that lie after `bucket`, without the reserved one. */
  function NewerBuckets(
    p: Policy, files: set<string>, verified: set<string>, reserved: Option<int>, bucket: int): set<int>
  {
    set name | name in files && Candidate(p, verified, name) && BucketOf(p, name).value > bucket
      && BucketOf(p, name) != reserved :: BucketOf(p, name).value
  }

  function ReservedCount(reserved: Option<int>): nat {
    if reserved.Some? then 1 else 0
  }

  /** A candidate goes when its bucket is reserved for another snapshot, or taken by a newer one, or too old. */
  ghost predicate Removed(
    p: Policy, files: set<string>, verified: set<string>, protectedName: Option<string>, name: string)
  {
    var reserved := ProtectedBucket(p, protectedName);
    && Candidate(p, verified, name)
    && Some(name) != protectedName
    && (|| BucketOf(p, name) == reserved
        || Superseded(p, files, verified, name)
        || |NewerBuckets(p, files, verified, reserved, BucketOf(p, name).value)| + ReservedCount(reserved) >=
             p.keepBuckets)
  }

  ghost function Survivors(
    p: Policy, files: set<string>, verified: set<string>, protectedName: Option<string>): set<string>
  {
    set name | name in files && !Removed(p, files, verified, protectedName, name)
  }

  // ----- Name order is bucket order -----

  lemma CodesOfConcat(a: string, b: string)
    ensures Codes(a + b) == Codes(a) + Codes(b)
  {
  }

  lemma CodesInjective(a: string, b: string)
    requires Codes(a) == Codes(b)
    ensures a == b
  {
    forall i | 0 <= i < |a| ensures |a| == |b| && a[i] == b[i] {
      assert |Codes(a)| == |Codes(b)| && Codes(a)[i] == Codes(b)[i];
    }
    assert |Codes(a)| == |Codes(b)|;
  }

  /** Digit strings of one length are ordered as numbers. */
  lemma {:induction false} DigitsOrder(a: string, b: string)
    requires AllDigits(a) && AllDigits(b) && |a| == |b|
    ensures NameLess(a, b) <==> NumberOf(a) < NumberOf(b)
    ensures a == b <==> NumberOf(a) == NumberOf(b)
    decreases |a|
  {
    if |a| > 0 {
      var n := |a| - 1;
      DigitsOrder(a[..n], b[..n]);
      assert a == a[..n] + a[n..] && b == b[..n] + b[n..];
      CodesOfConcat(a[..n], a[n..]);
      CodesOfConcat(b[..n], b[n..]);
      LexOrder.LessOfConcat(Codes(a[..n]), Codes(b[..n]), Codes(a[n..]), Codes(b[n..]));
      if Codes(a[..n]) == Codes(b[..n]) {
        CodesInjective(a[..n], b[..n]);
      }
    }
  }

  /** One leading field: a digit group and the separator after it, the same in both texts. */
  lemma FieldOrder(a: string, b: string, sep: string, x: string, y: string)
    requires AllDigits(a) && AllDigits(b) && |a| == |b|
    ensures NameLess(a + sep + x, b + sep + y) <==>
      NumberOf(a) < NumberOf(b) || (NumberOf(a) == NumberOf(b) && NameLess(x, y))
  {
    DigitsOrder(a, b);
    CodesOfConcat(a + sep, x);
    CodesOfConcat(b + sep, y);
    CodesOfConcat(a, sep);
    CodesOfConcat(b, sep);
    LexOrder.LessOfConcat(Codes(a + sep), Codes(b + sep), Codes(x), Codes(y));
    LexOrder.LessOfConcat(Codes(a), Codes(b), Codes(sep), Codes(sep));
    LexOrder.Irreflexive(Codes(sep));
    if Codes(a + sep) == Codes(b + sep) {
      CodesInjective(a + sep, b + sep);
      assert (a + sep)[..|a|] == (b + sep)[..|a|];
    }
  }

  lemma TimeTextOrder(s: string, t: string)
    requires MatchesStamp(s) && MatchesStamp(t)
    ensures NameLess(s[11..], t[11..]) <==> EarlierTime(ReadStamp(s), ReadStamp(t))
  {
    hide NameLess, NumberOf;
    FieldOrder(s[20..23], t[20..23], "Z", "", "");
    EmptyNotLess();
    assert s[20..] == s[20..23] + "Z" + "" && t[20..] == t[20..23] + "Z" + "";
    FieldOrder(s[17..19], t[17..19], "-", s[20..], t[20..]);
    assert s[17..] == s[17..19] + "-" + s[20..] && t[17..] == t[17..19] + "-" + t[20..];
    FieldOrder(s[14..16], t[14..16], "-", s[17..], t[17..]);
    assert s[14..] == s[14..16] + "-" + s[17..] && t[14..] == t[14..16] + "-" + t[17..];
    FieldOrder(s[11..13], t[11..13], "-", s[14..], t[14..]);
    assert s[11..] == s[11..13] + "-" + s[14..] && t[11..] == t[11..13] + "-" + t[14..];
  }

  lemma EmptyNotLess()
    ensures !NameLess("", "")
  {
  }

  /** Stamp texts are ordered as their stamps, field by field. */
  lemma StampTextOrder(s: string, t: string)
    requires MatchesStamp(s) && MatchesStamp(t)
    ensures NameLess(s, t) <==> Earlier(ReadStamp(s), ReadStamp(t))
  {
    hide NameLess, NumberOf, EarlierTime;
    TimeTextOrder(s, t);
    FieldOrder(s[8..10], t[8..10], "T", s[11..], t[11..]);
    assert s[8..] == s[8..10] + "T" + s[11..] && t[8..] == t[8..10] + "T" + t[11..];
    FieldOrder(s[5..7], t[5..7], "-", s[8..], t[8..]);
    assert s[5..] == s[5..7] + "-" + s[8..] && t[5..] == t[5..7] + "-" + t[8..];
    FieldOrder(s[0..4], t[0..4], "-", s[5..], t[5..]);
    assert s == s[0..4] + "-" + s[5..] && t == t[0..4] + "-" + t[5..];
  }

  /** Canonical names of one prefix are ordered as the instants they carry. */
  lemma NameOrderIsInstantOrder(prefix: string, a: string, b: string)
    requires BackupStamp(a, prefix).Some? && BackupStamp(b, prefix).Some?
    ensures NameLess(a, b) <==> Instant(BackupStamp(a, prefix).value) < Instant(BackupStamp(b, prefix).value)
  {
    var n := |prefix|;
    var s, t := a[n..n + STAMP_LENGTH], b[n..n + STAMP_LENGTH];
    hide LexOrder.Less, ReadStamp, Valid, Instant, Earlier;
    assert a == prefix + (s + ".db") && b == prefix + (t + ".db");
    CodesOfConcat(prefix, s + ".db");
    CodesOfConcat(prefix, t + ".db");
    CodesOfConcat(s, ".db");
    CodesOfConcat(t, ".db");
    LexOrder.LessOfConcat(Codes(prefix), Codes(prefix), Codes(s + ".db"), Codes(t + ".db"));
    LexOrder.LessOfConcat(Codes(s), Codes(t), Codes(".db"), Codes(".db"));
    LexOrder.Irreflexive(Codes(prefix));
    LexOrder.Irreflexive(Codes(".db"));
    StampTextOrder(s, t);
    EarlierIsInstantOrder(ReadStamp(s), ReadStamp(t));
  }

  /** An earlier name never belongs to a later bucket. */
  lemma BucketsAreMonotone(p: Policy, a: string, b: string)
    requires BucketOf(p, a).Some? && BucketOf(p, b).Some? && !NameLess(b, a)
    ensures BucketOf(p, a).value <= BucketOf(p, b).value
  {
    hide BackupStamp, NameLess, MondayOf, DayOf, Instant;
    var s, t := BackupStamp(a, p.prefix).value, BackupStamp(b, p.prefix).value;
    NameOrderIsInstantOrder(p.prefix, b, a);
    PeriodsAreMonotone(s, t);
  }

  /** A snapshot's bucket, from its moment: its day, or the Monday on or before it. */
  lemma BucketOfSnapshot(s: Stamp)
    requires Valid(s)
    ensures BucketOf(DAILY_POLICY, BackupName("daily-cloud-state-", s)) == Some(DayOf(EPOCH) + DaysSinceEpoch(s))
    ensures exists monday ::
      && BucketOf(WEEKLY_POLICY, BackupName("weekly-cloud-state-", s)) == Some(DayOf(EPOCH) + monday)
      && monday % 7 == 4 && monday <= DaysSinceEpoch(s) < monday + 7
  {
    BackupStampIff(BackupName(DAILY_PREFIX, s), DAILY_PREFIX, s);
    BackupStampIff(BackupName(WEEKLY_PREFIX, s), WEEKLY_PREFIX, s);
    MondayIsWeekStart(s);
    hide BackupStamp, Valid, DayOf, MondayOf;
    assert BucketOf(WEEKLY_POLICY, BackupName(WEEKLY_PREFIX, s)) ==
      Some(DayOf(EPOCH) + (MondayOf(DayOf(s)) - DayOf(EPOCH)));
  }
}
