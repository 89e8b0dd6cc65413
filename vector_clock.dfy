/**
 * The vector clock of the cache: a map from node id to counter, bumped by `increment`
 * and compared by `isNewerThan`.
 */
module VectorClocks {

  /** Every stored counter is at least 1: counters are created at 1 and only ever grow. */
  ghost predicate Positive(timestamps: map<string, int>) {
    forall k | k in timestamps :: timestamps[k] >= 1
  }

  /** The counters after `increment(nodeId)`: the node's counter starts at 1 or goes up by one. */
  function Incremented(timestamps: map<string, int>, nodeId: string): map<string, int> {
    timestamps[nodeId := if nodeId in timestamps then timestamps[nodeId] + 1 else 1]
  }

  /** No node id that both clocks know has a smaller counter in `a` than in `b`. */
  ghost predicate NoneSmaller(a: map<string, int>, b: map<string, int>) {
    forall k | k in a && k in b :: a[k] >= b[k]
  }

  /** Some node id of `a` is unknown to `b` or has a larger counter in `a`. */
  ghost predicate SomeGreater(a: map<string, int>, b: map<string, int>) {
    exists k | k in a :: k !in b || a[k] > b[k]
  }

  /**
   * `isNewerThan` exactly as the loop decides it: only the node ids of `a` are visited,
   * so ids that only `b` knows play no part.
   */
  ghost predicate IsNewer(a: map<string, int>, b: map<string, int>) {
    NoneSmaller(a, b) && SomeGreater(a, b)
  }

  class VectorClock {
    var timestamps: map<string, int>

    ghost predicate Valid()
      reads this
    {
      Positive(timestamps)
    }

    constructor ()
      ensures Valid() && timestamps == map[]
    {
      timestamps := map[];
    }

    method Increment(nodeId: string)
      requires Valid()
      modifies this
      ensures Valid()
      ensures timestamps == Incremented(old(timestamps), nodeId)
    {
      if nodeId in timestamps {
        timestamps := timestamps[nodeId := timestamps[nodeId] + 1];
      } else {
        timestamps := timestamps[nodeId := 1];
      }
      IncrementedCounters(old(timestamps), nodeId);
    }

    /**
     * Visits this clock's entries in an arbitrary order (the order of a hash map), stops with
     * false at the first counter smaller than the other clock's, and otherwise answers whether
     * some entry was greater or unknown to the other clock. Neither clock is modified.
     */
    method IsNewerThan(other: VectorClock) returns (newer: bool)
      ensures newer == IsNewer(timestamps, other.timestamps)
    {
      var hasGreater := false;
      var remaining := timestamps.Keys;
      ghost var visited: set<string> := {};
      while remaining != {}
        invariant visited + remaining == timestamps.Keys && visited !! remaining
        invariant forall k | k in visited && k in other.timestamps :: timestamps[k] >= other.timestamps[k]
        invariant hasGreater <==> exists k | k in visited :: k !in other.timestamps || timestamps[k] > other.timestamps[k]
        decreases remaining
      {
        var key :| key in remaining;
        var mine := timestamps[key];
        if key in other.timestamps && mine < other.timestamps[key] {
          return false;
        }
        if key !in other.timestamps || mine > other.timestamps[key] {
          hasGreater := true;
        }
        remaining := remaining - {key};
        visited := visited + {key};
      }
      return hasGreater;
    }
  }

  /** What `increment` does to the counters: one id changes, upwards, and positivity is kept. */
  lemma IncrementedCounters(timestamps: map<string, int>, nodeId: string)
    ensures Incremented(timestamps, nodeId).Keys == timestamps.Keys + {nodeId}
    ensures Incremented(timestamps, nodeId)[nodeId] == if nodeId in timestamps then timestamps[nodeId] + 1 else 1
    ensures forall k | k in timestamps && k != nodeId :: Incremented(timestamps, nodeId)[k] == timestamps[k]
    ensures forall k | k in timestamps :: Incremented(timestamps, nodeId)[k] >= timestamps[k]
    ensures Positive(timestamps) ==> Positive(Incremented(timestamps, nodeId))
  {
  }

  /** A clock is never newer than itself. */
  lemma IsNewerIrreflexive(a: map<string, int>)
    ensures !IsNewer(a, a)
  {
  }

  /** With no entries the loop does not run and the answer is false. */
  lemma EmptyNeverNewer(b: map<string, int>)
    ensures !IsNewer(map[], b)
  {
  }

  /** Any clock with an entry is newer than the empty clock. */
  lemma NonEmptyNewerThanEmpty(a: map<string, int>)
    requires a.Keys != {}
    ensures IsNewer(a, map[])
  {
    var empty: map<string, int> := map[];
    var k :| k in a;
    assert k !in empty;
  }

  /** After `increment(n)` the clock is newer than before, and the old clock is not newer than the new. */
  lemma IncrementedIsNewer(timestamps: map<string, int>, nodeId: string)
    ensures IsNewer(Incremented(timestamps, nodeId), timestamps)
    ensures !IsNewer(timestamps, Incremented(timestamps, nodeId))
  {
    var after := Incremented(timestamps, nodeId);
    assert nodeId in after && (nodeId !in timestamps || after[nodeId] > timestamps[nodeId]);
  }

  /** Two non-empty clocks over disjoint node ids are each newer than the other. */
  lemma DisjointClocksBothNewer(a: map<string, int>, b: map<string, int>)
    requires a.Keys != {} && b.Keys != {}
    requires a.Keys !! b.Keys
    ensures IsNewer(a, b) && IsNewer(b, a)
  {
    var ka :| ka in a;
    var kb :| kb in b;
    assert ka !in b && kb !in a;
  }

  /** The relation as written is not antisymmetric: two different clocks are each newer than the other. */
  lemma IsNewerNotAntisymmetric()
    ensures IsNewer(map["a" := 1], map["b" := 1]) && IsNewer(map["b" := 1], map["a" := 1])
  {
    assert "a" in map["a" := 1] && "b" in map["b" := 1];
    DisjointClocksBothNewer(map["a" := 1], map["b" := 1]);
  }

  /** The relation as written is not transitive either. */
  lemma IsNewerNotTransitive()
    ensures IsNewer(map["a" := 1], map["b" := 1])
    ensures IsNewer(map["b" := 1], map["a" := 2])
    ensures !IsNewer(map["a" := 1], map["a" := 2])
  {
    assert "a" in map["a" := 1] && "b" in map["b" := 1] && "a" in map["a" := 2];
    DisjointClocksBothNewer(map["a" := 1], map["b" := 1]);
    DisjointClocksBothNewer(map["b" := 1], map["a" := 2]);
  }

  /** The counter of `nodeId`, reading a missing entry as zero. */
  function Count(timestamps: map<string, int>, nodeId: string): int {
    if nodeId in timestamps then timestamps[nodeId] else 0
  }

  /**
   * Causal dominance as a vector clock usually defines it: every counter at least as large,
   * one strictly larger, missing entries counting as zero on both sides.
   */
  ghost predicate Dominates(a: map<string, int>, b: map<string, int>) {
    && (forall k | k in a.Keys + b.Keys :: Count(a, k) >= Count(b, k))
    && (exists k | k in a.Keys + b.Keys :: Count(a, k) > Count(b, k))
  }

  /** Dominance is irreflexive. */
  lemma DominatesIrreflexive(a: map<string, int>)
    ensures !Dominates(a, a)
  {
  }

  /** Dominance is transitive, so with irreflexivity it is a strict partial order. */
  lemma DominatesTransitive(a: map<string, int>, b: map<string, int>, c: map<string, int>)
    requires Dominates(a, b) && Dominates(b, c)
    ensures Dominates(a, c)
  {
    forall k | k in a.Keys + c.Keys
      ensures Count(a, k) >= Count(c, k)
    {
      assert Count(b, k) >= Count(c, k) by {
        if k !in b.Keys && k !in c.Keys {
        } else {
          assert k in b.Keys + c.Keys;
        }
      }
      assert Count(a, k) >= Count(b, k) by {
        if k !in a.Keys && k !in b.Keys {
        } else {
          assert k in a.Keys + b.Keys;
        }
      }
    }
    var j :| j in b.Keys + c.Keys && Count(b, j) > Count(c, j);
    assert Count(a, j) >= Count(b, j) by {
      if j !in a.Keys && j !in b.Keys {
      } else {
        assert j in a.Keys + b.Keys;
      }
    }
    assert j in a.Keys + c.Keys;
  }

  /** Dominance is asymmetric: two clocks never dominate each other. */
  lemma DominatesAsymmetric(a: map<string, int>, b: map<string, int>)
    requires Dominates(a, b)
    ensures !Dominates(b, a)
  {
    if Dominates(b, a) {
      DominatesTransitive(a, b, a);
      DominatesIrreflexive(a);
    }
  }

  /**
   * Where the other clock knows no node id this one does not, the loop as written and
   * dominance agree.
   */
  lemma IsNewerAgreesWithDominates(a: map<string, int>, b: map<string, int>)
    requires Positive(a)
    requires b.Keys <= a.Keys
    ensures IsNewer(a, b) <==> Dominates(a, b)
  {
    assert a.Keys + b.Keys == a.Keys;
    if IsNewer(a, b) {
      var k :| k in a && (k !in b || a[k] > b[k]);
      assert Count(a, k) > Count(b, k);
    }
    if Dominates(a, b) {
      var k :| k in a.Keys + b.Keys && Count(a, k) > Count(b, k);
      assert k in a && (k !in b || a[k] > b[k]);
      forall k | k in a && k in b
        ensures a[k] >= b[k]
      {
        assert Count(a, k) >= Count(b, k);
      }
    }
  }

  /** Disjoint clocks, each newer than the other as written, do not dominate each other. */
  lemma ConcurrentClocksNotDominating()
    ensures !Dominates(map["a" := 1], map["b" := 1]) && !Dominates(map["b" := 1], map["a" := 1])
  {
    var a, b := map["a" := 1], map["b" := 1];
    assert "b" in a.Keys + b.Keys && Count(a, "b") < Count(b, "b");
    assert "a" in a.Keys + b.Keys && Count(b, "a") < Count(a, "a");
  }
}
