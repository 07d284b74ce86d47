/** Lexicographic order on sequences of code units, the order JavaScript sorts strings by. */
module LexOrder {

  predicate Less(a: seq<int>, b: seq<int>) {
    |b| > 0 && (|a| == 0 || a[0] < b[0] || (a[0] == b[0] && Less(a[1..], b[1..])))
  }

  /** One text sorts before another exactly when it ends, or has the smaller unit, where they first differ. */
  lemma {:induction false} LessIff(a: seq<int>, b: seq<int>)
    ensures Less(a, b) <==> exists k: nat :: DiffersAt(a, b, k) && (k == |a| || a[k] < b[k])
  {
    if |a| == 0 && |b| > 0 {
      assert DiffersAt(a, b, 0);
    } else if |a| > 0 && |b| > 0 {
      if a[0] == b[0] {
        LessIff(a[1..], b[1..]);
        if k: nat :| DiffersAt(a[1..], b[1..], k) && (k == |a| - 1 || a[1..][k] < b[1..][k]) {
          assert a == [a[0]] + a[1..] && b == [b[0]] + b[1..];
          assert a[..k + 1] == [a[0]] + a[1..][..k] && b[..k + 1] == [b[0]] + b[1..][..k];
          assert DiffersAt(a, b, k + 1);
        }
        if k: nat :| DiffersAt(a, b, k) && (k == |a| || a[k] < b[k]) {
          assert k > 0;
          assert a[1..][..k - 1] == a[..k][1..] && b[1..][..k - 1] == b[..k][1..];
          assert DiffersAt(a[1..], b[1..], k - 1);
        }
      } else {
        assert DiffersAt(a, b, 0);
        forall k: nat | DiffersAt(a, b, k) ensures k == 0 {
          SameHead(a, b, k);
        }
      }
    }
  }

  lemma SameHead(a: seq<int>, b: seq<int>, k: nat)
    requires DiffersAt(a, b, k)
    ensures k > 0 ==> a[0] == b[0]
  {
    assert k > 0 ==> a[..k][0] == a[0] && b[..k][0] == b[0];
  }

  /** The texts agree up to `k`, and the second goes on there. */
  predicate DiffersAt(a: seq<int>, b: seq<int>, k: nat) {
    k <= |a| && k < |b| && a[..k] == b[..k]
  }

  lemma {:induction false} Irreflexive(a: seq<int>)
    ensures !Less(a, a)
  {
    if |a| > 0 {
      Irreflexive(a[1..]);
    }
  }

  lemma {:induction false} Total(a: seq<int>, b: seq<int>)
    ensures Less(a, b) || a == b || Less(b, a)
  {
    if |a| > 0 && |b| > 0 && a[0] == b[0] {
      Total(a[1..], b[1..]);
      assert a == [a[0]] + a[1..] && b == [b[0]] + b[1..];
    }
  }

  lemma {:induction false} Transitive(a: seq<int>, b: seq<int>, c: seq<int>)
    requires Less(a, b) && Less(b, c)
    ensures Less(a, c)
  {
    if |a| > 0 && a[0] == b[0] == c[0] {
      Transitive(a[1..], b[1..], c[1..]);
    }
  }

  lemma Asymmetric(a: seq<int>, b: seq<int>)
    requires Less(a, b)
    ensures !Less(b, a) && a != b
  {
    Irreflexive(a);
    if Less(b, a) {
      Transitive(a, b, a);
    }
  }

  /** Texts whose first parts have equal length are ordered by the first part, then by the rest. */
  lemma {:induction false} LessOfConcat(a: seq<int>, b: seq<int>, x: seq<int>, y: seq<int>)
    requires |a| == |b|
    ensures Less(a + x, b + y) <==> Less(a, b) || (a == b && Less(x, y))
  {
    if |a| == 0 {
      assert a + x == x && b + y == y;
    } else {
      assert (a + x)[1..] == a[1..] + x && (b + y)[1..] == b[1..] + y;
      LessOfConcat(a[1..], b[1..], x, y);
      assert a == [a[0]] + a[1..] && b == [b[0]] + b[1..];
    }
  }

  // ----- Strictly sorted sequences -----

  ghost predicate Ascending(keys: seq<seq<int>>) {
    forall i, j :: 0 <= i < j < |keys| ==> Less(keys[i], keys[j])
  }

  /** The first key of an ascending sequence is the least of its keys. */
  lemma FirstIsLeast(a: seq<seq<int>>, b: seq<seq<int>>)
    requires Ascending(a) && Ascending(b) && |a| > 0
    requires forall k :: k in a <==> k in b
    ensures |b| > 0 && a[0] == b[0]
  {
    assert a[0] in b;
    assert b[0] in a;
    if a[0] != b[0] {
      var i :| 0 <= i < |b| && b[i] == a[0];
      Asymmetric(b[0], a[0]);
    }
  }

  /** Two ascending sequences with the same keys are the same sequence. */
  lemma {:induction false} AscendingIsUnique(a: seq<seq<int>>, b: seq<seq<int>>)
    requires Ascending(a) && Ascending(b)
    requires forall k :: k in a <==> k in b
    ensures a == b
  {
    assert |b| > 0 ==> b[0] in b;
    if |a| > 0 {
      FirstIsLeast(a, b);
      TailLacksFirst(a);
      TailLacksFirst(b);
      AscendingIsUnique(a[1..], b[1..]);
      assert a == [a[0]] + a[1..] && b == [b[0]] + b[1..];
    }
  }

  lemma TailLacksFirst(a: seq<seq<int>>)
    requires Ascending(a) && |a| > 0
    ensures forall k :: k in a[1..] <==> k in a && k != a[0]
  {
    forall k | k in a[1..] ensures k != a[0] {
      Irreflexive(a[0]);
    }
    assert a == [a[0]] + a[1..];
  }
}
