/** The absorption rules of the traverser on small concrete graphs: a
    dynamic framework absorbs the static libraries beneath it, and a
    resource-capable target absorbs the bundles beneath it. */
module TraverserScenarios {
  import opened Wrappers
  import opened Paths
  import opened Models
  import opened Reachability
  import opened ValueGraphTraverser

  const ProjectPath := AbsolutePath(["Project"])

  function MakeTarget(name: string, product: Product): Target {
    Target(name, IOS, product, None, "io.tuist." + name, [], [], None, None)
  }

  /** D (app) -> A (dynamic framework) -> B (static library) -> C (static library). */
  function StaticGraph(): ValueGraph {
    var a, b, c, d := TargetNode(ProjectPath, "A"), TargetNode(ProjectPath, "B"),
                      TargetNode(ProjectPath, "C"), TargetNode(ProjectPath, "D");
    ValueGraph("Static", ProjectPath,
               map[ProjectPath := map["A" := MakeTarget("A", Framework), "B" := MakeTarget("B", StaticLibrary),
                                      "C" := MakeTarget("C", StaticLibrary), "D" := MakeTarget("D", App)]],
               map[d := {a}, a := {b}, b := {c}])
  }

  function NodeA(): Dependency { TargetNode(ProjectPath, "A") }
  function NodeB(): Dependency { TargetNode(ProjectPath, "B") }
  function NodeC(): Dependency { TargetNode(ProjectPath, "C") }
  function NodeD(): Dependency { TargetNode(ProjectPath, "D") }

  /** The edges and targets of the static graph, node by node. */
  lemma StaticGraphFacts()
    ensures Successors(StaticGraph(), NodeD()) == {NodeA()} && Successors(StaticGraph(), NodeA()) == {NodeB()}
    ensures Successors(StaticGraph(), NodeB()) == {NodeC()} && Successors(StaticGraph(), NodeC()) == {}
    ensures TargetFrom(StaticGraph(), NodeA()) == Some(MakeTarget("A", Framework))
    ensures TargetFrom(StaticGraph(), NodeB()) == Some(MakeTarget("B", StaticLibrary))
    ensures TargetFrom(StaticGraph(), NodeC()) == Some(MakeTarget("C", StaticLibrary))
    ensures TargetFrom(StaticGraph(), NodeD()) == Some(MakeTarget("D", App))
  {
    assert NodeC() !in StaticGraph().dependencies;
  }

  /** From A, the walks stay within A, B and C, and reach B and C. */
  lemma ReachedFromFramework()
    ensures forall n :: Reaches(StaticGraph(), NodeA(), CanLinkStatic(StaticGraph()), n) <==> n in {NodeA(), NodeB(), NodeC()}
  {
    StaticGraphFacts();
    var g, skip := StaticGraph(), CanLinkStatic(StaticGraph());
    ReachesRoot(g, NodeA(), skip);
    ReachesStep(g, NodeA(), skip, NodeA(), NodeB());
    assert !CanLinkStaticNode(g, NodeB());
    ReachesStep(g, NodeA(), skip, NodeB(), NodeC());
    assert Closed(g, NodeA(), skip, {NodeA(), NodeB(), NodeC()});
    ClosedSetContainsReached(g, NodeA(), skip, {NodeA(), NodeB(), NodeC()});
  }

  /** From D, A absorbs: the walks stay within D and A. */
  lemma ReachedFromApp()
    ensures forall n :: Reaches(StaticGraph(), NodeD(), CanLinkStatic(StaticGraph()), n) ==> n in {NodeD(), NodeA()}
  {
    StaticGraphFacts();
    var g, skip := StaticGraph(), CanLinkStatic(StaticGraph());
    assert CanLinkStaticNode(g, NodeA());
    assert Closed(g, NodeD(), skip, {NodeD(), NodeA()});
    ClosedSetContainsReached(g, NodeD(), skip, {NodeD(), NodeA()});
  }

  /** The framework links both static libraries beneath it. */
  lemma FrameworkLinksStaticLibraries()
    ensures StaticTargets(StaticGraph(), ProjectPath, "A") == {MakeTarget("B", StaticLibrary), MakeTarget("C", StaticLibrary)}
  {
    StaticGraphFacts();
    ReachedFromFramework();
    StaticTargetsOfTwo(StaticGraph(), ProjectPath, "A", NodeB(), NodeC(),
                       MakeTarget("B", StaticLibrary), MakeTarget("C", StaticLibrary));
  }

  /** When the walks from a target reach exactly two other nodes, both of
      them static targets, those two are its static targets. */
  lemma StaticTargetsOfTwo(g: ValueGraph, path: AbsolutePath, name: string, xb: Dependency, xc: Dependency, b: Target, c: Target)
    requires forall x :: Reaches(g, TargetNode(path, name), CanLinkStatic(g), x) ==> x == TargetNode(path, name) || x == xb || x == xc
    requires xb != TargetNode(path, name) && Reaches(g, TargetNode(path, name), CanLinkStatic(g), xb)
    requires xc != TargetNode(path, name) && Reaches(g, TargetNode(path, name), CanLinkStatic(g), xc)
    requires TargetFrom(g, xb) == Some(b) && IsStaticProduct(b.product)
    requires TargetFrom(g, xc) == Some(c) && IsStaticProduct(c.product)
    ensures StaticTargets(g, path, name) == {b, c}
  {
    var r := StaticTargets(g, path, name);
    assert b in r && c in r;
    forall t | t in r ensures t == b || t == c {
      var x :| x != TargetNode(path, name) && Reaches(g, TargetNode(path, name), CanLinkStatic(g), x) &&
               TargetFrom(g, x) == Some(t) && IsStaticProduct(t.product);
    }
  }

  /** The app that depends on the framework links none of them. */
  lemma AppLinksNoStaticLibraries()
    ensures StaticTargets(StaticGraph(), ProjectPath, "D") == {}
  {
    var g, skip := StaticGraph(), CanLinkStatic(StaticGraph());
    StaticGraphFacts();
    ReachedFromApp();
    forall x | x != NodeD() && Reaches(g, NodeD(), skip, x) ensures TargetFrom(g, x) == Some(MakeTarget("A", Framework)) {
      assert x == NodeA();
    }
  }

  function NodeX(): Dependency { TargetNode(ProjectPath, "X") }
  function NodeY(): Dependency { TargetNode(ProjectPath, "Y") }
  function NodeZ(): Dependency { TargetNode(ProjectPath, "Z") }

  /** X (app) -> Y (dynamic framework, can carry resources) -> Z (bundle). */
  function ResourceGraph(): ValueGraph {
    ValueGraph("Resources", ProjectPath,
               map[ProjectPath := map["X" := MakeTarget("X", App), "Y" := MakeTarget("Y", Framework),
                                      "Z" := MakeTarget("Z", Bundle)]],
               map[NodeX() := {NodeY()}, NodeY() := {NodeZ()}])
  }

  /** The edges and targets of the resource graph, node by node. */
  lemma ResourceGraphFacts()
    ensures Successors(ResourceGraph(), NodeX()) == {NodeY()} && Successors(ResourceGraph(), NodeY()) == {NodeZ()}
    ensures Successors(ResourceGraph(), NodeZ()) == {}
    ensures TargetFrom(ResourceGraph(), NodeX()) == Some(MakeTarget("X", App))
    ensures TargetFrom(ResourceGraph(), NodeY()) == Some(MakeTarget("Y", Framework))
    ensures TargetFrom(ResourceGraph(), NodeZ()) == Some(MakeTarget("Z", Bundle))
  {
    assert NodeZ() !in ResourceGraph().dependencies;
  }

  /** From X, Y absorbs: the walks stay within X and Y. */
  lemma ReachedFromResourceApp()
    ensures forall n :: Reaches(ResourceGraph(), NodeX(), CanHostResources(ResourceGraph()), n) ==> n in {NodeX(), NodeY()}
  {
    ResourceGraphFacts();
    var g, skip := ResourceGraph(), CanHostResources(ResourceGraph());
    assert Closed(g, NodeX(), skip, {NodeX(), NodeY()});
    ClosedSetContainsReached(g, NodeX(), skip, {NodeX(), NodeY()});
  }

  /** From Y, the walks reach exactly Y and Z. */
  lemma ReachedFromResourceFramework()
    ensures forall n :: Reaches(ResourceGraph(), NodeY(), CanHostResources(ResourceGraph()), n) <==> n in {NodeY(), NodeZ()}
  {
    ResourceGraphFacts();
    var g, skip := ResourceGraph(), CanHostResources(ResourceGraph());
    ReachesRoot(g, NodeY(), skip);
    ReachesStep(g, NodeY(), skip, NodeY(), NodeZ());
    assert Closed(g, NodeY(), skip, {NodeY(), NodeZ()});
    ClosedSetContainsReached(g, NodeY(), skip, {NodeY(), NodeZ()});
  }

  /** The app above the framework embeds no bundle. */
  lemma AppEmbedsNoBundle()
    ensures ResourceBundleDependencies(ResourceGraph(), ProjectPath, "X") == []
  {
    ResourceGraphFacts();
    var g, skip := ResourceGraph(), CanHostResources(ResourceGraph());
    ReachedFromResourceApp();
    assert TargetAt(g, ProjectPath, "X") == Some(MakeTarget("X", App));
    forall x | x != NodeX() && Reaches(g, NodeX(), skip, x) ensures !IsBundle(g)(x) {
      assert x == NodeY();
    }
    FilteredMembership(g, NodeX(), IsBundle(g), skip);
    assert Filtered(g, NodeX(), IsBundle(g), skip) == {};
  }

  /** The framework embeds the bundle beneath it. */
  lemma FrameworkEmbedsBundle()
    ensures ResourceBundleDependencies(ResourceGraph(), ProjectPath, "Y") == [MakeTarget("Z", Bundle)]
  {
    ResourceGraphFacts();
    var g, skip := ResourceGraph(), CanHostResources(ResourceGraph());
    ReachedFromResourceFramework();
    assert TargetAt(g, ProjectPath, "Y") == Some(MakeTarget("Y", Framework));
    FilteredMembership(g, NodeY(), IsBundle(g), skip);
    assert Filtered(g, NodeY(), IsBundle(g), skip) == {NodeZ()};
    var r := ResourceBundleDependencies(g, ProjectPath, "Y");
    assert |r| == 1;
    assert MakeTarget("Z", Bundle) in r;
  }
}
