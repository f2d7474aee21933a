/** What filterDependencies computes, stated without a stack: the nodes
    reachable from the root along walks that only continue through the root
    and through nodes the skip predicate does not prune. */
module Reachability {
  import opened Models

  /** The outgoing edges of n; a node with no entry has none. */
  function Successors(g: ValueGraph, n: Dependency): set<Dependency> {
    if n in g.dependencies then g.dependencies[n] else {}
  }

  /** Every node some edge points to. */
  function EdgeTargets(g: ValueGraph): set<Dependency> {
    set n, m | n in g.dependencies && m in g.dependencies[n] :: m
  }

  /** The traversal expands n: the root always, any other node unless skip holds of it. */
  predicate Expands(root: Dependency, skip: Dependency -> bool, n: Dependency) {
    n == root || !skip(n)
  }

  /** p starts at root and each step follows an edge out of a node the traversal expands. */
  ghost predicate IsWalk(g: ValueGraph, root: Dependency, skip: Dependency -> bool, p: seq<Dependency>) {
    |p| > 0 && p[0] == root &&
    forall i :: 0 <= i < |p| - 1 ==> Expands(root, skip, p[i]) && p[i + 1] in Successors(g, p[i])
  }

  ghost predicate Reaches(g: ValueGraph, root: Dependency, skip: Dependency -> bool, x: Dependency) {
    exists p :: IsWalk(g, root, skip, p) && p[|p| - 1] == x
  }

  /** The specification of filterDependencies: every node other than the
      root that test accepts and that a pruned walk reaches. */
  ghost function Filtered(g: ValueGraph, root: Dependency, test: Dependency -> bool, skip: Dependency -> bool): set<Dependency> {
    set x | x in EdgeTargets(g) && x != root && test(x) && Reaches(g, root, skip, x)
  }

  /** The default test of filterDependencies accepts every node. */
  function AcceptAll(): Dependency -> bool {
    _ => true
  }

  /** The default skip of filterDependencies prunes nothing. */
  function SkipNone(): Dependency -> bool {
    _ => false
  }

  /** c holds the successors of each of its members the traversal expands. */
  ghost predicate Closed(g: ValueGraph, root: Dependency, skip: Dependency -> bool, c: set<Dependency>) {
    forall n :: n in c && Expands(root, skip, n) ==> Successors(g, n) <= c
  }

  /** Every node a pruned walk from the root reaches. */
  ghost function ReachedSet(g: ValueGraph, root: Dependency, skip: Dependency -> bool): set<Dependency> {
    set x | x in {root} + EdgeTargets(g) && Reaches(g, root, skip, x)
  }

  lemma ReachesRoot(g: ValueGraph, root: Dependency, skip: Dependency -> bool)
    ensures Reaches(g, root, skip, root)
  {
    assert IsWalk(g, root, skip, [root]);
  }

  /** One more edge out of an expanded node extends a walk. */
  lemma ReachesStep(g: ValueGraph, root: Dependency, skip: Dependency -> bool, n: Dependency, m: Dependency)
    requires Reaches(g, root, skip, n) && Expands(root, skip, n) && m in Successors(g, n)
    ensures Reaches(g, root, skip, m)
  {
    var p :| IsWalk(g, root, skip, p) && p[|p| - 1] == n;
    var q := p + [m];
    assert IsWalk(g, root, skip, q);
  }

  /** A set that holds the root and all successors of its expanded members
      holds every node a walk reaches. */
  lemma {:induction false} ClosedSetContainsWalkEnd(g: ValueGraph, root: Dependency, skip: Dependency -> bool,
                                                    c: set<Dependency>, p: seq<Dependency>)
    requires root in c && Closed(g, root, skip, c)
    requires IsWalk(g, root, skip, p)
    ensures p[|p| - 1] in c
    decreases |p|
  {
    if |p| > 1 {
      var q := p[..|p| - 1];
      assert IsWalk(g, root, skip, q);
      ClosedSetContainsWalkEnd(g, root, skip, c, q);
      assert p[|p| - 1] in Successors(g, q[|q| - 1]);
    }
  }

  lemma ClosedSetContainsReached(g: ValueGraph, root: Dependency, skip: Dependency -> bool, c: set<Dependency>)
    requires root in c && Closed(g, root, skip, c)
    ensures forall x :: Reaches(g, root, skip, x) ==> x in c
  {
    forall x | Reaches(g, root, skip, x) ensures x in c {
      var p :| IsWalk(g, root, skip, p) && p[|p| - 1] == x;
      ClosedSetContainsWalkEnd(g, root, skip, c, p);
    }
  }

  /** A walk that ends anywhere but the root ends at the target of an edge. */
  lemma ReachedIsEdgeTarget(g: ValueGraph, root: Dependency, skip: Dependency -> bool, x: Dependency)
    requires Reaches(g, root, skip, x) && x != root
    ensures x in EdgeTargets(g)
  {
    var p :| IsWalk(g, root, skip, p) && p[|p| - 1] == x;
    assert |p| > 1;
    var n := p[|p| - 2];
    assert x in Successors(g, n);
  }

  /** ReachedSet holds exactly the reached nodes, holds the root, and is closed. */
  lemma ReachedSetProperties(g: ValueGraph, root: Dependency, skip: Dependency -> bool)
    ensures forall x :: x in ReachedSet(g, root, skip) <==> Reaches(g, root, skip, x)
    ensures root in ReachedSet(g, root, skip) && Closed(g, root, skip, ReachedSet(g, root, skip))
  {
    var r := ReachedSet(g, root, skip);
    forall x | Reaches(g, root, skip, x) ensures x in r {
      if x != root {
        ReachedIsEdgeTarget(g, root, skip, x);
      }
    }
    ReachesRoot(g, root, skip);
    forall n, m | n in r && Expands(root, skip, n) && m in Successors(g, n) ensures m in r {
      ReachesStep(g, root, skip, n, m);
    }
  }

  /** Membership in Filtered, without the finiteness bound. */
  lemma FilteredMembership(g: ValueGraph, root: Dependency, test: Dependency -> bool, skip: Dependency -> bool)
    ensures forall x :: x in Filtered(g, root, test, skip) <==> x != root && test(x) && Reaches(g, root, skip, x)
  {
    forall x | x != root && test(x) && Reaches(g, root, skip, x)
      ensures x in EdgeTargets(g)
    {
      ReachedIsEdgeTarget(g, root, skip, x);
    }
  }

  /** p follows edges of g, without regard to pruning. */
  ghost predicate IsPath(g: ValueGraph, p: seq<Dependency>) {
    |p| > 0 && forall i :: 0 <= i < |p| - 1 ==> p[i + 1] in Successors(g, p[i])
  }

  /** Plain reachability: some path of g leads from a to b. */
  ghost predicate Connected(g: ValueGraph, a: Dependency, b: Dependency) {
    exists p :: IsPath(g, p) && p[0] == a && p[|p| - 1] == b
  }

  /** With the default test and skip, filterDependencies computes every node
      reachable from the root, the root itself excepted. */
  lemma DefaultFilterIsReachability(g: ValueGraph, root: Dependency)
    ensures forall x :: x in Filtered(g, root, AcceptAll(), SkipNone()) <==> x != root && Connected(g, root, x)
  {
    FilteredMembership(g, root, AcceptAll(), SkipNone());
    forall x ensures Reaches(g, root, SkipNone(), x) <==> Connected(g, root, x) {
      if Reaches(g, root, SkipNone(), x) {
        var p :| IsWalk(g, root, SkipNone(), p) && p[|p| - 1] == x;
        assert IsPath(g, p);
      }
      if Connected(g, root, x) {
        var p :| IsPath(g, p) && p[0] == root && p[|p| - 1] == x;
        assert IsWalk(g, root, SkipNone(), p);
      }
    }
  }

  /** g with the outgoing edges of every node the traversal does not expand removed. */
  function Prune(g: ValueGraph, root: Dependency, skip: Dependency -> bool): (r: ValueGraph)
    ensures forall n :: Successors(r, n) == if Expands(root, skip, n) then Successors(g, n) else {}
  {
    g.(dependencies := map n | n in g.dependencies :: if Expands(root, skip, n) then g.dependencies[n] else {})
  }

  /** skip prunes exactly the edges out of the nodes it holds of: filtering
      with skip is filtering the pruned graph with nothing skipped. */
  lemma PruningIgnoresSkippedEdges(g: ValueGraph, root: Dependency, test: Dependency -> bool, skip: Dependency -> bool)
    ensures Filtered(g, root, test, skip) == Filtered(Prune(g, root, skip), root, test, SkipNone())
  {
    var h := Prune(g, root, skip);
    FilteredMembership(g, root, test, skip);
    FilteredMembership(h, root, test, SkipNone());
    forall x ensures Reaches(g, root, skip, x) <==> Reaches(h, root, SkipNone(), x) {
      if Reaches(g, root, skip, x) {
        var p :| IsWalk(g, root, skip, p) && p[|p| - 1] == x;
        assert IsWalk(h, root, SkipNone(), p);
      }
      if Reaches(h, root, SkipNone(), x) {
        var p :| IsWalk(h, root, SkipNone(), p) && p[|p| - 1] == x;
        forall i | 0 <= i < |p| - 1 ensures Expands(root, skip, p[i]) && p[i + 1] in Successors(g, p[i]) {
          assert p[i + 1] in Successors(h, p[i]);
        }
        assert IsWalk(g, root, skip, p);
      }
    }
  }

  /** Pruning only removes results: whatever skip, filterDependencies returns
      a subset of what it returns when nothing is skipped. */
  lemma SkipOnlyRemoves(g: ValueGraph, root: Dependency, test: Dependency -> bool, skip: Dependency -> bool)
    ensures Filtered(g, root, test, skip) <= Filtered(g, root, test, SkipNone())
  {
    FilteredMembership(g, root, test, skip);
    FilteredMembership(g, root, test, SkipNone());
    forall x | Reaches(g, root, skip, x) ensures Reaches(g, root, SkipNone(), x) {
      var p :| IsWalk(g, root, skip, p) && p[|p| - 1] == x;
      assert IsWalk(g, root, SkipNone(), p);
    }
  }

  /** A node both accepted and skipped is still reported: skip cuts off
      only what lies beyond it. */
  lemma SkippedNodeIsReported(g: ValueGraph, root: Dependency, test: Dependency -> bool, skip: Dependency -> bool,
                              n: Dependency)
    requires Reaches(g, root, skip, n) && n != root && test(n) && skip(n)
    ensures n in Filtered(g, root, test, skip)
  {
    FilteredMembership(g, root, test, skip);
  }
}
