/**
 * Transitive propagation over a graph given by a successor function: a worklist walk that
 * visits each eligible node at most once. The planner uses it both for the targets an aspect
 * propagates to and for the targets a request analyses.
 */
module Reachability {

  /** The elements of a sequence. */
  function Elems<T>(s: seq<T>): set<T> {
    set x | x in s
  }

  /** No element occurs twice. */
  predicate Distinct<T(==)>(s: seq<T>) {
    forall i, j :: 0 <= i < j < |s| ==> s[i] != s[j]
  }

  /** `s` is closed: every eligible successor of a node in `s` is in `s`. */
  ghost predicate Closed<T>(universe: set<T>, succ: T -> seq<T>, s: set<T>) {
    forall v, w :: v in s && w in succ(v) && w in universe ==> w in s
  }

  lemma CardinalityDrops<T>(universe: set<T>, visited: set<T>, x: T)
    requires x in universe && x !in visited
    ensures |universe - (visited + {x})| < |universe - visited|
  {
    assert universe - visited == (universe - (visited + {x})) + {x};
  }

  /**
   * Walk the worklist: skip what was visited or is not eligible, otherwise visit the node and
   * queue its successors. `done` is the visit order so far.
   */
  function Closure<T(==)>(universe: set<T>, succ: T -> seq<T>, work: seq<T>, done: seq<T>): (r: seq<T>)
    requires Distinct(done) && Elems(done) <= universe
    ensures Distinct(r) && Elems(r) <= universe
    decreases |universe - Elems(done)|, |work|
  {
    if work == [] then done
    else
      var x := work[0];
      if x in done || x !in universe then Closure(universe, succ, work[1..], done)
      else
        assert Elems(done + [x]) == Elems(done) + {x};
        CardinalityDrops(universe, Elems(done), x);
        Closure(universe, succ, work[1..] + succ(x), done + [x])
  }

  /** The nodes reached from `roots`, in visit order. */
  function Reach<T(==)>(universe: set<T>, succ: T -> seq<T>, roots: seq<T>): (r: seq<T>)
    ensures Distinct(r) && Elems(r) <= universe
  {
    Closure(universe, succ, roots, [])
  }

  /** What was visited stays visited, and everything eligible on the worklist is visited. */
  lemma {:induction false} ClosureVisitsWork<T>(universe: set<T>, succ: T -> seq<T>, work: seq<T>, done: seq<T>, y: T)
    requires Distinct(done) && Elems(done) <= universe
    requires y in done || (y in work && y in universe)
    ensures y in Closure(universe, succ, work, done)
    decreases |universe - Elems(done)|, |work|
  {
    if work != [] {
      var x := work[0];
      if x in done || x !in universe {
        ClosureVisitsWork(universe, succ, work[1..], done, y);
      } else {
        assert Elems(done + [x]) == Elems(done) + {x};
        CardinalityDrops(universe, Elems(done), x);
        ClosureVisitsWork(universe, succ, work[1..] + succ(x), done + [x], y);
      }
    }
  }

  /** Closedness relative to the worklist becomes closedness once the worklist is done. */
  lemma {:induction false} ClosureIsClosed<T>(universe: set<T>, succ: T -> seq<T>, work: seq<T>, done: seq<T>)
    requires Distinct(done) && Elems(done) <= universe
    requires forall v, w :: v in done && w in succ(v) && w in universe ==> w in done || w in work
    ensures Closed(universe, succ, Elems(Closure(universe, succ, work, done)))
    decreases |universe - Elems(done)|, |work|
  {
    if work != [] {
      var x := work[0];
      if x in done || x !in universe {
        ClosureIsClosed(universe, succ, work[1..], done);
      } else {
        assert Elems(done + [x]) == Elems(done) + {x};
        CardinalityDrops(universe, Elems(done), x);
        assert work == [x] + work[1..];
        ClosureIsClosed(universe, succ, work[1..] + succ(x), done + [x]);
      }
    }
  }

  /** The walk visits nothing outside a closed set that holds `done` and the eligible worklist. */
  lemma {:induction false} ClosureLeast<T>(universe: set<T>, succ: T -> seq<T>, work: seq<T>, done: seq<T>, s: set<T>)
    requires Distinct(done) && Elems(done) <= universe
    requires Elems(done) <= s
    requires forall y :: y in work && y in universe ==> y in s
    requires Closed(universe, succ, s)
    ensures Elems(Closure(universe, succ, work, done)) <= s
    decreases |universe - Elems(done)|, |work|
  {
    if work != [] {
      var x := work[0];
      if x in done || x !in universe {
        ClosureLeast(universe, succ, work[1..], done, s);
      } else {
        assert Elems(done + [x]) == Elems(done) + {x};
        CardinalityDrops(universe, Elems(done), x);
        ClosureLeast(universe, succ, work[1..] + succ(x), done + [x], s);
      }
    }
  }

  /** Every eligible root is reached. */
  lemma ReachContainsRoots<T>(universe: set<T>, succ: T -> seq<T>, roots: seq<T>, y: T)
    requires y in roots && y in universe
    ensures y in Reach(universe, succ, roots)
  {
    ClosureVisitsWork(universe, succ, roots, [], y);
  }

  /** Propagation is transitive: an eligible successor of a reached node is reached. */
  lemma ReachClosed<T>(universe: set<T>, succ: T -> seq<T>, roots: seq<T>)
    ensures Closed(universe, succ, Elems(Reach(universe, succ, roots)))
  {
    ClosureIsClosed(universe, succ, roots, []);
  }

  /** One propagation step: an eligible successor of a reached node is reached. */
  lemma ReachStep<T>(universe: set<T>, succ: T -> seq<T>, roots: seq<T>, v: T, w: T)
    requires v in Reach(universe, succ, roots) && w in succ(v) && w in universe
    ensures w in Reach(universe, succ, roots)
  {
    ReachClosed(universe, succ, roots);
    assert v in Elems(Reach(universe, succ, roots));
  }

  /** What is reached lies in every closed set that holds the eligible roots. */
  lemma ReachLeast<T>(universe: set<T>, succ: T -> seq<T>, roots: seq<T>, s: set<T>)
    requires forall y :: y in roots && y in universe ==> y in s
    requires Closed(universe, succ, s)
    ensures Elems(Reach(universe, succ, roots)) <= s
  {
    ClosureLeast(universe, succ, roots, [], s);
  }

  /** A reached node is a root or the successor of a reached node: propagation passes only through reached, eligible nodes. */
  lemma ReachHasPredecessor<T>(universe: set<T>, succ: T -> seq<T>, roots: seq<T>, x: T)
    requires x in Reach(universe, succ, roots)
    ensures x in roots || exists v :: v in Reach(universe, succ, roots) && x in succ(v)
  {
    var r := Reach(universe, succ, roots);
    var s := set y | y in r && (y in roots || exists v :: v in r && y in succ(v));
    ReachClosed(universe, succ, roots);
    forall y | y in roots && y in universe ensures y in s {
      ReachContainsRoots(universe, succ, roots, y);
    }
    ReachLeast(universe, succ, roots, s);
  }

  /**
   * `order` derives each of its nodes from the roots: every node is a root or a successor of
   * an earlier node.
   */
  ghost predicate Derivation<T>(roots: seq<T>, succ: T -> seq<T>, order: seq<T>) {
    forall i :: 0 <= i < |order| ==> order[i] in roots || exists j :: 0 <= j < i && order[i] in succ(order[j])
  }

  /**
   * The reached set is exactly the nodes of any eligible derivation from the roots that holds
   * the eligible roots and is closed.
   */
  lemma ReachExactly<T>(universe: set<T>, succ: T -> seq<T>, roots: seq<T>, order: seq<T>)
    requires Elems(order) <= universe
    requires Derivation(roots, succ, order)
    requires forall y :: y in roots && y in universe ==> y in order
    requires Closed(universe, succ, Elems(order))
    ensures Elems(Reach(universe, succ, roots)) == Elems(order)
  {
    var r := Reach(universe, succ, roots);
    ReachLeast(universe, succ, roots, Elems(order));
    DerivedAreReached(universe, succ, roots, order, |order|);
  }

  lemma {:induction false} DerivedAreReached<T>(universe: set<T>, succ: T -> seq<T>, roots: seq<T>, order: seq<T>, n: nat)
    requires n <= |order| && Elems(order) <= universe
    requires Derivation(roots, succ, order)
    ensures forall i :: 0 <= i < n ==> order[i] in Reach(universe, succ, roots)
  {
    if n > 0 {
      DerivedAreReached(universe, succ, roots, order, n - 1);
      var x := order[n - 1];
      assert x in universe;
      if x in roots {
        ReachContainsRoots(universe, succ, roots, x);
      } else {
        var j :| 0 <= j < n - 1 && x in succ(order[j]);
        ReachClosed(universe, succ, roots);
      }
    }
  }
}
