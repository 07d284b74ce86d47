/**
 The request guard of the closed-learning worker (`rejectForbidden` in scripts/closed-learning-research-worker.js): a
 depth-first walk over an object graph that may share objects and contain cycles. The `seen` set holds the objects on
 the current path, so a shared object is walked again while a cycle is refused.
 */
module ForbiddenWalk {

  /** An object of the request; arrays are objects whose keys are their indices. */
  type Id = nat

  /** A property value: anything that is not an object (null included), or a reference to an object. */
  datatype Value = Scalar | Object(id: Id)

  datatype Entry = Entry(key: string, value: Value)

  type Graph = map<Id, seq<Entry>>

  /** Every reference leads to an object of the graph. */
  ghost predicate Closed(g: Graph) {
    forall n, k :: n in g && 0 <= k < |g[n]| && g[n][k].value.Object? ==> g[n][k].value.id in g
  }

  ghost predicate InGraph(g: Graph, value: Value) {
    value.Object? ==> value.id in g
  }

  datatype Outcome = Accepted | Cyclic | ForbiddenField

  /** The outcome of walking a value while the objects of `seen` are on the path. */
  function Walk(g: Graph, forbidden: string -> bool, value: Value, seen: set<Id>): Outcome
    requires Closed(g) && InGraph(g, value) && seen <= g.Keys
    decreases |g.Keys - seen|, 0, 0
  {
    if value.Scalar? then Accepted
    else if value.id in seen then Cyclic
    else
      Enter(g, value.id, seen);
      WalkEntries(g, forbidden, g[value.id], seen + {value.id})
  }

  function WalkEntries(g: Graph, forbidden: string -> bool, entries: seq<Entry>, seen: set<Id>): Outcome
    requires Closed(g) && (forall k :: 0 <= k < |entries| ==> InGraph(g, entries[k].value)) && seen <= g.Keys
    decreases |g.Keys - seen|, 1, |entries|
  {
    if entries == [] then Accepted
    else if forbidden(entries[0].key) then ForbiddenField
    else
      var first := Walk(g, forbidden, entries[0].value, seen);
      if first == Accepted then WalkEntries(g, forbidden, entries[1..], seen) else first
  }

  /** Putting an object on the path leaves fewer objects off it. */
  lemma Enter(g: Graph, id: Id, seen: set<Id>)
    requires id in g && id !in seen
    ensures |g.Keys - (seen + {id})| < |g.Keys - seen|
  {
    assert g.Keys - (seen + {id}) == (g.Keys - seen) - {id};
  }

  class Path {
    var seen: set<Id>

    constructor ()
      ensures seen == {}
    {
      seen := {};
    }

    /** The walk with its shared set: it accepts as `Walk` does, and leaves the set as it found it. */
    method RejectForbidden(g: Graph, forbidden: string -> bool, value: Value) returns (outcome: Outcome)
      requires Closed(g) && InGraph(g, value) && seen <= g.Keys
      modifies this
      ensures outcome == Walk(g, forbidden, value, old(seen))
      ensures outcome == Accepted ==> seen == old(seen)
      decreases |g.Keys - seen|
    {
      if value.Scalar? {
        return Accepted;
      }
      if value.id in seen {
        return Cyclic;
      }
      Enter(g, value.id, seen);
      seen := seen + {value.id};
      ghost var path := seen;
      var entries, k := g[value.id], 0;
      while k < |entries|
        invariant 0 <= k <= |entries| && seen == path
        invariant WalkEntries(g, forbidden, entries, path) == WalkEntries(g, forbidden, entries[k..], path)
      {
        if forbidden(entries[k].key) {
          return ForbiddenField;
        }
        outcome := RejectForbidden(g, forbidden, entries[k].value);
        if outcome != Accepted {
          return;
        }
        assert entries[k..][1..] == entries[k + 1..];
        k := k + 1;
      }
      seen := seen - {value.id};
      outcome := Accepted;
    }
  }

  // ----- What an accepted request contains -----

  ghost predicate Edge(g: Graph, a: Id, b: Id) {
    a in g && exists k :: 0 <= k < |g[a]| && g[a][k].value == Object(b)
  }

  ghost predicate IsPath(g: Graph, p: seq<Id>) {
    |p| > 0 && (forall k :: 0 <= k < |p| ==> p[k] in g) && forall k :: 0 <= k < |p| - 1 ==> Edge(g, p[k], p[k + 1])
  }

  ghost predicate Reaches(g: Graph, a: Id, b: Id) {
    exists p :: IsPath(g, p) && p[0] == a && p[|p| - 1] == b
  }

  /** An object that some way out of it leads back to. */
  ghost predicate OnCycle(g: Graph, a: Id) {
    exists p :: IsPath(g, p) && |p| > 1 && p[0] == a && p[|p| - 1] == a
  }

  predicate Clean(g: Graph, forbidden: string -> bool, id: Id)
    requires id in g
  {
    forall k :: 0 <= k < |g[id]| ==> !forbidden(g[id][k].key)
  }

  /** A path that ends cleanly: at an object without forbidden keys that is neither `seen` nor earlier on the path. */
  ghost predicate EndsWell(g: Graph, forbidden: string -> bool, seen: set<Id>, p: seq<Id>)
    requires IsPath(g, p)
  {
    var last := p[|p| - 1];
    last !in seen && last !in p[..|p| - 1] && Clean(g, forbidden, last)
  }

  lemma {:induction false} AcceptedEntries(
    g: Graph, forbidden: string -> bool, entries: seq<Entry>, seen: set<Id>, k: nat)
    requires Closed(g) && (forall j :: 0 <= j < |entries| ==> InGraph(g, entries[j].value)) && seen <= g.Keys
    requires WalkEntries(g, forbidden, entries, seen) == Accepted && k < |entries|
    ensures !forbidden(entries[k].key) && Walk(g, forbidden, entries[k].value, seen) == Accepted
    decreases |entries|
  {
    if k > 0 {
      AcceptedEntries(g, forbidden, entries[1..], seen, k - 1);
    }
  }

  /** Once a walk accepts, every path from its value ends well. */
  lemma {:induction false} AcceptedPathsEndWell(g: Graph, forbidden: string -> bool, seen: set<Id>, p: seq<Id>)
    requires Closed(g) && IsPath(g, p) && seen <= g.Keys
    requires Walk(g, forbidden, Object(p[0]), seen) == Accepted
    ensures EndsWell(g, forbidden, seen, p)
    decreases |p|
  {
    var v := p[0];
    assert v !in seen && WalkEntries(g, forbidden, g[v], seen + {v}) == Accepted;
    if |p| == 1 {
      forall k | 0 <= k < |g[v]| ensures !forbidden(g[v][k].key) {
        AcceptedEntries(g, forbidden, g[v], seen + {v}, k);
      }
    } else {
      assert Edge(g, p[0], p[1]);
      var k :| 0 <= k < |g[v]| && g[v][k].value == Object(p[1]);
      AcceptedEntries(g, forbidden, g[v], seen + {v}, k);
      var q := p[1..];
      assert IsPath(g, q) by {
        forall j | 0 <= j < |q| - 1 ensures Edge(g, q[j], q[j + 1]) {
          assert Edge(g, p[j + 1], p[j + 2]);
        }
      }
      AcceptedPathsEndWell(g, forbidden, seen + {v}, q);
      assert p[..|p| - 1] == [v] + q[..|q| - 1];
    }
  }

  lemma {:induction false} RefusedEntry(
    g: Graph, forbidden: string -> bool, entries: seq<Entry>, seen: set<Id>) returns (k: nat)
    requires Closed(g) && (forall j :: 0 <= j < |entries| ==> InGraph(g, entries[j].value)) && seen <= g.Keys
    requires WalkEntries(g, forbidden, entries, seen) != Accepted
    ensures k < |entries| && (forbidden(entries[k].key) || Walk(g, forbidden, entries[k].value, seen) != Accepted)
    decreases |entries|
  {
    if forbidden(entries[0].key) || Walk(g, forbidden, entries[0].value, seen) != Accepted {
      k := 0;
    } else {
      k := RefusedEntry(g, forbidden, entries[1..], seen);
      k := k + 1;
    }
  }

  /** A refused walk has a path that shows why. */
  lemma {:induction false} RefusedPath(g: Graph, forbidden: string -> bool, id: Id, seen: set<Id>) returns (p: seq<Id>)
    requires Closed(g) && id in g && seen <= g.Keys
    requires Walk(g, forbidden, Object(id), seen) != Accepted
    ensures IsPath(g, p) && p[0] == id && !EndsWell(g, forbidden, seen, p)
    decreases |g.Keys - seen|
  {
    p := [id];
    if id !in seen {
      Enter(g, id, seen);
      var k := RefusedEntry(g, forbidden, g[id], seen + {id});
      if !forbidden(g[id][k].key) {
        var child := g[id][k].value.id;
        var q := RefusedPath(g, forbidden, child, seen + {id});
        p := [id] + q;
        assert Edge(g, id, child);
        assert IsPath(g, p) by {
          forall j | 0 <= j < |p| - 1 ensures Edge(g, p[j], p[j + 1]) {
            assert j > 0 ==> Edge(g, q[j - 1], q[j]);
          }
        }
        assert p[..|p| - 1] == [id] + q[..|q| - 1];
      }
    }
  }

  lemma PathJoins(g: Graph, p: seq<Id>, q: seq<Id>)
    requires IsPath(g, p) && IsPath(g, q) && p[|p| - 1] == q[0]
    ensures IsPath(g, p + q[1..])
  {
    var r := p + q[1..];
    forall j | 0 <= j < |r| - 1 ensures Edge(g, r[j], r[j + 1]) {
      if j < |p| - 1 {
        assert Edge(g, p[j], p[j + 1]);
      } else {
        assert Edge(g, q[j + 1 - |p|], q[j + 2 - |p|]);
      }
    }
  }

  lemma PathSplits(g: Graph, p: seq<Id>, k: nat)
    requires IsPath(g, p) && k < |p|
    ensures IsPath(g, p[..k + 1]) && IsPath(g, p[k..])
  {
    forall j | 0 <= j < |p| - 1 - k ensures Edge(g, p[k..][j], p[k..][j + 1]) {
      assert Edge(g, p[k + j], p[k + j + 1]);
    }
  }

  /** A request whose reachable objects are all free of cycles and of forbidden keys. */
  ghost predicate Harmless(g: Graph, forbidden: string -> bool, root: Id) {
    forall n :: Reaches(g, root, n) ==> n in g && !OnCycle(g, n) && Clean(g, forbidden, n)
  }

  /** The guard accepts a request exactly when no cycle and no forbidden key is reachable from it. */
  lemma AcceptsExactlyHarmless(g: Graph, forbidden: string -> bool, root: Id)
    requires Closed(g) && root in g
    ensures Walk(g, forbidden, Object(root), {}) == Accepted <==> Harmless(g, forbidden, root)
  {
    if Walk(g, forbidden, Object(root), {}) == Accepted {
      forall n | Reaches(g, root, n) ensures n in g && !OnCycle(g, n) && Clean(g, forbidden, n) {
        var p :| IsPath(g, p) && p[0] == root && p[|p| - 1] == n;
        AcceptedPathsEndWell(g, forbidden, {}, p);
        if OnCycle(g, n) {
          var q :| IsPath(g, q) && |q| > 1 && q[0] == n && q[|q| - 1] == n;
          PathJoins(g, p, q);
          var r := p + q[1..];
          assert r[|p| - 1] == n == r[|r| - 1] && r[..|r| - 1][|p| - 1] == n;
          AcceptedPathsEndWell(g, forbidden, {}, r);
        }
      }
    } else {
      var p := RefusedPath(g, forbidden, root, {});
      var n := p[|p| - 1];
      assert Reaches(g, root, n);
      if n in p[..|p| - 1] {
        var k :| 0 <= k < |p| - 1 && p[k] == n;
        PathSplits(g, p, k);
        assert OnCycle(g, n) by { assert p[k..][0] == n && p[k..][|p| - k - 1] == n; }
      }
    }
  }

  /** The guard as a request check calls it, with a fresh set. */
  method Guard(g: Graph, forbidden: string -> bool, request: Value) returns (outcome: Outcome)
    requires Closed(g) && InGraph(g, request)
    ensures outcome == Accepted <==> request.Scalar? || Harmless(g, forbidden, request.id)
  {
    var path := new Path();
    outcome := path.RejectForbidden(g, forbidden, request);
    if request.Object? {
      AcceptsExactlyHarmless(g, forbidden, request.id);
    }
  }

  /** Sharing is not a cycle: an object below another one twice is walked twice and accepted. */
  lemma SharingIsAccepted(key: string, forbidden: string -> bool)
    requires !forbidden(key)
    ensures var g: Graph := map[0 := [Entry(key, Object(1)), Entry(key, Object(1))], 1 := []];
      Closed(g) && Walk(g, forbidden, Object(0), {}) == Accepted
  {
    var g: Graph := map[0 := [Entry(key, Object(1)), Entry(key, Object(1))], 1 := []];
    assert WalkEntries(g, forbidden, [], {0, 1}) == Accepted;
    assert Walk(g, forbidden, Object(1), {0}) == Accepted by { assert {0} + {1} == {0, 1}; }
    var entries := g[0];
    assert entries[1..] == [Entry(key, Object(1))] && entries[1..][1..] == [];
    assert WalkEntries(g, forbidden, entries[1..][1..], {0}) == Accepted;
    assert WalkEntries(g, forbidden, entries[1..], {0}) == Accepted;
    assert {} + {0} == {0};
  }
}
