/** ValueGraphTraverser: the queries over an immutable value graph. Every
    transitive query is built on FilterDependencies. */
module ValueGraphTraverser {
  import opened Wrappers
  import opened Paths
  import opened Models
  import opened Reachability
  import opened Sequences

  /** An edge from n to m. Kept apart from Successors so that the frontier
      invariant below is only instantiated for edges the proof names. */
  ghost predicate Edge(g: ValueGraph, n: Dependency, m: Dependency) {
    m in Successors(g, n)
  }

  /** Every edge out of an expanded visited node leads to a visited node or one still on the stack. */
  ghost predicate FrontierCovered(g: ValueGraph, root: Dependency, skip: Dependency -> bool,
                                  visited: set<Dependency>, stack: seq<Dependency>)
  {
    forall n, m :: n in visited && Expands(root, skip, n) && Edge(g, n, m) ==> m in visited || m in stack
  }

  /** Popping node and marking it visited keeps the frontier covered, provided
      the edges out of node, if it is expanded, are covered by what was pushed. */
  lemma FrontierAfterVisit(g: ValueGraph, root: Dependency, skip: Dependency -> bool,
                           visited: set<Dependency>, popped: seq<Dependency>, node: Dependency, stack: seq<Dependency>)
    requires FrontierCovered(g, root, skip, visited, popped + [node])
    requires forall x :: x in popped ==> x in stack
    requires node in visited ||
             (Expands(root, skip, node) ==> forall m :: m in Successors(g, node) ==> m in visited + {node} || m in stack)
    ensures FrontierCovered(g, root, skip, visited + {node}, stack)
  {
    forall n, m | n in visited + {node} && Expands(root, skip, n) && Edge(g, n, m)
      ensures m in visited + {node} || m in stack
    {
      if n in visited {
        assert m in visited || m in popped + [node];
      }
    }
  }

  /** Marking one more node of the universe visited leaves fewer unvisited nodes. */
  lemma UnvisitedShrinks(universe: set<Dependency>, visited: set<Dependency>, node: Dependency)
    requires node in universe && node !in visited
    ensures |universe - (visited + {node})| < |universe - visited|
  {
    assert universe - (visited + {node}) == (universe - visited) - {node};
  }

  /** The forEach of filterDependencies: push every edge target not yet
      visited, each once, on top of the old stack. */
  method PushUnvisited(targets: set<Dependency>, visited: set<Dependency>, stack: seq<Dependency>)
    returns (pushed: seq<Dependency>)
    ensures |stack| <= |pushed| && pushed[..|stack|] == stack
    ensures forall i :: |stack| <= i < |pushed| ==> pushed[i] in targets && pushed[i] !in visited
    ensures forall m :: m in targets && m !in visited ==> m in pushed[|stack|..]
    ensures |pushed| - |stack| == |targets - visited|
    ensures ListsExactly(pushed[|stack|..], targets - visited)
  {
    pushed := stack;
    var rest := targets;
    assert pushed[|stack|..] == [];
    while rest != {}
      invariant PushState(targets, visited, stack, rest, pushed)
      decreases rest
    {
      rest, pushed := PushOne(targets, visited, stack, rest, pushed);
    }
    assert targets - rest - visited == targets - visited;
  }

  /** Between two steps of PushUnvisited: the old stack is kept below, and
      what lies above it lists, each once, the unvisited targets already
      looked at. */
  ghost predicate PushState(targets: set<Dependency>, visited: set<Dependency>, stack: seq<Dependency>,
                            rest: set<Dependency>, pushed: seq<Dependency>)
  {
    rest <= targets && |stack| <= |pushed| && pushed[..|stack|] == stack &&
    ListsExactly(pushed[|stack|..], targets - rest - visited)
  }

  /** One step of PushUnvisited: look at one more target and push it when
      it is not visited. */
  method PushOne(targets: set<Dependency>, visited: set<Dependency>, stack: seq<Dependency>,
                 rest: set<Dependency>, pushed: seq<Dependency>)
    returns (rest': set<Dependency>, pushed': seq<Dependency>)
    requires rest != {} && PushState(targets, visited, stack, rest, pushed)
    ensures rest' < rest && PushState(targets, visited, stack, rest', pushed')
  {
    var m :| m in rest;
    ghost var before := targets - rest - visited;
    ghost var added := pushed[|stack|..];
    rest' := rest - {m};
    if m !in visited {
      ListsExactlyStep(added, before, m);
      assert targets - rest' - visited == before + {m};
      pushed' := pushed + [m];
      assert pushed'[|stack|..] == added + [m];
      assert pushed'[..|stack|] == pushed[..|stack|];
    } else {
      pushed' := pushed;
      assert targets - rest' - visited == before;
    }
  }

  /** xs lists the members of s, each once. */
  ghost predicate ListsExactly(xs: seq<Dependency>, s: set<Dependency>) {
    (forall i :: 0 <= i < |xs| ==> xs[i] in s) && (forall m :: m in s ==> m in xs) && |xs| == |s|
  }

  lemma ListsExactlyStep(xs: seq<Dependency>, s: set<Dependency>, m: Dependency)
    requires ListsExactly(xs, s) && m !in s
    ensures ListsExactly(xs + [m], s + {m})
  {
  }

  /** What holds between two iterations of the traversal loop: everything
      visited or stacked lies in the bound, the root has been visited or is
      still stacked, the frontier is covered, and the references are the
      visited nodes other than the root that test accepts. */
  ghost predicate TraversalState(g: ValueGraph, root: Dependency, test: Dependency -> bool, skip: Dependency -> bool,
                                 bound: set<Dependency>, stack: seq<Dependency>, visited: set<Dependency>,
                                 references: set<Dependency>)
  {
    visited <= bound &&
    (forall x :: x in stack ==> x in bound) &&
    (root in visited || root in stack) &&
    FrontierCovered(g, root, skip, visited, stack) &&
    (forall x :: x in references <==> x in visited && x != root && test(x))
  }

  /** Popping a node that was already visited changes nothing else. */
  lemma PopVisited(g: ValueGraph, root: Dependency, test: Dependency -> bool, skip: Dependency -> bool,
                   bound: set<Dependency>, stack: seq<Dependency>, visited: set<Dependency>, references: set<Dependency>)
    requires stack != [] && stack[|stack| - 1] in visited
    requires TraversalState(g, root, test, skip, bound, stack, visited, references)
    ensures TraversalState(g, root, test, skip, bound, stack[..|stack| - 1], visited, references)
  {
    var node := stack[|stack| - 1];
    var rest := stack[..|stack| - 1];
    assert stack == rest + [node];
    FrontierAfterVisit(g, root, skip, visited, rest, node, rest);
    assert visited + {node} == visited;
  }

  /** One iteration of the loop on a node not yet visited: pop it, mark it
      visited, report it when it is not the root and test holds of it, and
      unless it is skipped push its successors that are not yet visited. */
  method Visit(g: ValueGraph, root: Dependency, test: Dependency -> bool, skip: Dependency -> bool,
               ghost bound: set<Dependency>, stack: seq<Dependency>, visited: set<Dependency>, references: set<Dependency>)
    returns (stack': seq<Dependency>, visited': set<Dependency>, references': set<Dependency>)
    requires root in bound && Closed(g, root, skip, bound)
    requires stack != [] && stack[|stack| - 1] !in visited
    requires TraversalState(g, root, test, skip, bound, stack, visited, references)
    ensures visited' == visited + {stack[|stack| - 1]}
    ensures references' == if stack[|stack| - 1] != root && test(stack[|stack| - 1]) then references + {stack[|stack| - 1]}
                           else references
    ensures |stack| - 1 <= |stack'| && stack'[..|stack| - 1] == stack[..|stack| - 1]
    ensures stack[|stack| - 1] != root && skip(stack[|stack| - 1]) ==> stack' == stack[..|stack| - 1]
    ensures !(stack[|stack| - 1] != root && skip(stack[|stack| - 1])) ==>
              ListsExactly(stack'[|stack| - 1..], Successors(g, stack[|stack| - 1]) - visited')
    ensures TraversalState(g, root, test, skip, bound, stack', visited', references')
  {
    var node := stack[|stack| - 1];
    var rest := stack[..|stack| - 1];
    assert stack == rest + [node];
    assert node in bound;
    visited' := visited + {node};
    references' := if node != root && test(node) then references + {node} else references;
    if node != root && skip(node) {
      stack' := rest;
      FrontierAfterVisit(g, root, skip, visited, rest, node, rest);
    } else {
      var succ := Successors(g, node);
      assert succ <= bound;
      stack' := PushUnvisited(succ, visited', rest);
      assert |rest| == |stack| - 1;
      PushedWithin(rest, stack', succ, bound);
      FrontierAfterVisit(g, root, skip, visited, rest, node, stack');
    }
  }

  /** A stack that keeps rest below and pushes only members of targets holds
      rest and stays within any bound holding both. */
  lemma PushedWithin(rest: seq<Dependency>, pushed: seq<Dependency>, targets: set<Dependency>, bound: set<Dependency>)
    requires |rest| <= |pushed| && pushed[..|rest|] == rest
    requires forall i :: |rest| <= i < |pushed| ==> pushed[i] in targets
    requires targets <= bound && forall x :: x in rest ==> x in bound
    ensures forall x :: x in rest ==> x in pushed
    ensures forall x :: x in pushed ==> x in bound
  {
    forall x | x in rest ensures x in pushed {
      var i :| 0 <= i < |rest| && rest[i] == x;
      assert pushed[i] == pushed[..|rest|][i];
    }
    forall x | x in pushed ensures x in bound {
      var i :| 0 <= i < |pushed| && pushed[i] == x;
      if i < |rest| {
        assert x == pushed[..|rest|][i];
      }
    }
  }

  /** The loop of filterDependencies: a depth-first traversal with an
      explicit stack and a visited set. The root is never reported; a node
      other than the root is reported when test holds of it, and its edges
      are not followed when skip holds of it. The ghost bound is any closed
      set holding the root; it bounds what the loop can visit. */
  method Traverse(g: ValueGraph, root: Dependency, test: Dependency -> bool, skip: Dependency -> bool,
                  ghost bound: set<Dependency>)
    returns (references: set<Dependency>, visited: set<Dependency>)
    requires root in bound && Closed(g, root, skip, bound)
    ensures root in visited && visited <= bound && Closed(g, root, skip, visited)
    ensures forall x :: x in references <==> x in visited && x != root && test(x)
  {
    var stack := [root];
    visited := {};
    references := {};
    while stack != []
      invariant TraversalState(g, root, test, skip, bound, stack, visited, references)
      decreases |bound - visited|, |stack|
    {
      if stack[|stack| - 1] in visited {
        PopVisited(g, root, test, skip, bound, stack, visited, references);
        stack := stack[..|stack| - 1];
      } else {
        UnvisitedShrinks(bound, visited, stack[|stack| - 1]);
        stack, visited, references := Visit(g, root, test, skip, bound, stack, visited, references);
      }
    }
    forall n | n in visited && Expands(root, skip, n)
      ensures Successors(g, n) <= visited
    {
      forall m | m in Successors(g, n) ensures m in visited {
        assert Edge(g, n, m);
      }
    }
  }

  /** filterDependencies: the nodes other than the root that test accepts and
      that a walk from the root reaches, never continuing through a node
      skip prunes. */
  method FilterDependencies(g: ValueGraph, root: Dependency, test: Dependency -> bool, skip: Dependency -> bool)
    returns (references: set<Dependency>)
    ensures root !in references
    ensures forall x :: x in references <==> x != root && test(x) && Reaches(g, root, skip, x)
    ensures references == Filtered(g, root, test, skip)
  {
    ReachedSetProperties(g, root, skip);
    var visited;
    references, visited := Traverse(g, root, test, skip, ReachedSet(g, root, skip));
    ClosedSetContainsReached(g, root, skip, visited);
    FilteredMembership(g, root, test, skip);
  }

  /** The node of target name at path. */
  function TargetNode(path: AbsolutePath, name: string): Dependency {
    TargetDep(name, path)
  }

  /** target(path:name:): the target called name in the project at path. */
  function TargetAt(g: ValueGraph, path: AbsolutePath, name: string): (r: Option<Target>)
    ensures r.Some? <==> path in g.targets && name in g.targets[path]
    ensures r.Some? ==> r.value == g.targets[path][name] && r.value in g.targets[path].Values
  {
    if path in g.targets && name in g.targets[path] then Some(g.targets[path][name]) else None
  }

  /** target(from:): the target a node stands for; only a resolvable target node has one. */
  function TargetFrom(g: ValueGraph, d: Dependency): (r: Option<Target>)
    ensures r.Some? ==> d.TargetDep? && r == TargetAt(g, d.path, d.name)
    ensures d.TargetDep? ==> r == TargetAt(g, d.path, d.name)
  {
    match d
    case TargetDep(name, path) => TargetAt(g, path, name)
    case _ => None
  }

  /** targets(at:): every target of the project at path, sorted by name. */
  ghost function TargetsAt(g: ValueGraph, path: AbsolutePath): (r: seq<Target>)
    ensures SortedBy(r, TargetName)
    ensures path !in g.targets ==> r == []
    ensures path in g.targets ==> |r| == |g.targets[path]|
    ensures forall t :: t in r <==> path in g.targets && t in g.targets[path].Values
  {
    if path !in g.targets then []
    else
      var vs := ValuesOf(g.targets[path]);
      var r := SortBy(vs, TargetName);
      PermutationMembers(r, vs);
      r
  }

  /** targets(at:) does not depend on the dictionary's iteration order:
      when every target is stored under its own name, sorting any other
      enumeration of the project's targets gives the same list. */
  lemma TargetsAtIndependentOfOrder(g: ValueGraph, path: AbsolutePath, vs: seq<Target>)
    requires path in g.targets
    requires forall n :: n in g.targets[path] ==> g.targets[path][n].name == n
    requires multiset(vs) == multiset(ValuesOf(g.targets[path]))
    ensures SortBy(vs, TargetName) == TargetsAt(g, path)
  {
    var m := g.targets[path];
    var r := TargetsAt(g, path);
    assert KeysDistinct(r, TargetName) by {
      forall i, j | 0 <= i < |r| && 0 <= j < |r| && TargetName(r[i]) == TargetName(r[j]) ensures r[i] == r[j] {
        assert r[i] in r && r[j] in r;
        var ki :| ki in m && m[ki] == r[i];
        var kj :| kj in m && m[kj] == r[j];
      }
    }
    SortedPermutationUnique(r, SortBy(vs, TargetName), TargetName);
  }

  /** The edges out of root that are target nodes naming an existing target. */
  ghost function ResolvableEdges(g: ValueGraph, root: Dependency): set<Dependency> {
    set d | d in Successors(g, root) && TargetFrom(g, d).Some?
  }

  /** The targets that the target edges out of root resolve to, one per
      resolvable edge, in the enumeration order of the edge set. */
  ghost function ResolvedSuccessors(g: ValueGraph, root: Dependency): (r: seq<Target>)
    ensures forall t :: t in r <==> exists d :: d in Successors(g, root) && TargetFrom(g, d) == Some(t)
    ensures |r| == |ResolvableEdges(g, root)|
  {
    var resolve := d => TargetFrom(g, d);
    CompactMapCount(Successors(g, root), resolve, ResolvableEdges(g, root));
    CompactMap(Elements(Successors(g, root)), resolve)
  }

  /** directTargetDependencies: the targets the subject's target edges
      resolve to, sorted by name. */
  ghost function DirectTargetDependencies(g: ValueGraph, path: AbsolutePath, name: string): (r: seq<Target>)
    ensures SortedBy(r, TargetName)
    ensures TargetNode(path, name) !in g.dependencies ==> r == []
    ensures forall t :: t in r <==> exists d :: d in Successors(g, TargetNode(path, name)) && TargetFrom(g, d) == Some(t)
    ensures |r| == |ResolvableEdges(g, TargetNode(path, name))|
  {
    var resolved := ResolvedSuccessors(g, TargetNode(path, name));
    var r := SortBy(resolved, TargetName);
    PermutationMembers(r, resolved);
    r
  }

  /** The products appExtensionDependencies keeps. */
  predicate IsAppExtensionProduct(p: Product) {
    p in {AppExtension, StickerPackExtension, Watch2Extension, MessagesExtension}
  }

  /** appExtensionDependencies: the direct target dependencies that are
      extensions, each as often as among the direct ones, sorted. */
  ghost function AppExtensionDependencies(g: ValueGraph, path: AbsolutePath, name: string): (r: seq<Target>)
    ensures SortedBy(r, TargetName)
    ensures forall t :: multiset(r)[t] ==
                        if IsAppExtensionProduct(t.product) then multiset(DirectTargetDependencies(g, path, name))[t] else 0
  {
    SortBy(Filter(DirectTargetDependencies(g, path, name), (t: Target) => IsAppExtensionProduct(t.product)), TargetName)
  }

  /** A node that stands for an existing bundle target. */
  function IsBundle(g: ValueGraph): (r: Dependency -> bool)
    ensures forall d :: r(d) ==> d.TargetDep? && TargetFrom(g, d).Some? && TargetFrom(g, d).value.product == Bundle
    ensures forall d :: r(d) ==> CanHostResources(g)(d)
  {
    d => TargetFrom(g, d).Some? && TargetFrom(g, d).value.product == Bundle
  }

  /** A node that stands for an existing target able to carry resources of its own. */
  function CanHostResources(g: ValueGraph): (r: Dependency -> bool)
    ensures forall d :: r(d) ==> d.TargetDep? && TargetFrom(g, d).Some? && SupportsResources(TargetFrom(g, d).value.product)
    ensures forall d :: r(d) ==> !IsStaticNode(g, d)
  {
    d => TargetFrom(g, d).Some? && SupportsResources(TargetFrom(g, d).value.product)
  }

  /** resourceBundleDependencies: the bundle targets a resource-capable
      subject reaches without passing through another resource-capable
      target, sorted. An absent or resource-less subject has none. */
  ghost function ResourceBundleDependencies(g: ValueGraph, path: AbsolutePath, name: string): (r: seq<Target>)
    ensures SortedBy(r, TargetName)
    ensures TargetAt(g, path, name).None? || !SupportsResources(TargetAt(g, path, name).value.product) ==> r == []
    ensures forall t :: t in r ==> t.product == Bundle
    ensures TargetAt(g, path, name).Some? && SupportsResources(TargetAt(g, path, name).value.product) ==>
              |r| == |Filtered(g, TargetNode(path, name), IsBundle(g), CanHostResources(g))|
    ensures forall t :: t in r <==>
                        TargetAt(g, path, name).Some? && SupportsResources(TargetAt(g, path, name).value.product) &&
                        exists x :: x != TargetNode(path, name) && Reaches(g, TargetNode(path, name), CanHostResources(g), x) &&
                                    TargetFrom(g, x) == Some(t) && t.product == Bundle
  {
    match TargetAt(g, path, name)
    case None => []
    case Some(target) =>
      if !SupportsResources(target.product) then []
      else BundlesBelow(g, TargetNode(path, name))
  }

  /** The bundle targets reached from root without passing through a
      resource-capable target, one per bundle node, sorted by name. */
  ghost function BundlesBelow(g: ValueGraph, root: Dependency): (r: seq<Target>)
    ensures SortedBy(r, TargetName)
    ensures |r| == |Filtered(g, root, IsBundle(g), CanHostResources(g))|
    ensures forall t :: t in r <==>
                        exists x :: x != root && Reaches(g, root, CanHostResources(g), x) &&
                                    TargetFrom(g, x) == Some(t) && t.product == Bundle
  {
    var bundles := Filtered(g, root, IsBundle(g), CanHostResources(g));
    FilteredMembership(g, root, IsBundle(g), CanHostResources(g));
    var resolved := ResolvedTargets(g, bundles);
    var r := SortBy(resolved, TargetName);
    PermutationMembers(r, resolved);
    r
  }

  /** The targets the given target nodes stand for, one per node. */
  ghost function ResolvedTargets(g: ValueGraph, nodes: set<Dependency>): (r: seq<Target>)
    requires forall x :: x in nodes ==> TargetFrom(g, x).Some?
    ensures |r| == |nodes|
    ensures forall t :: t in r <==> exists x :: x in nodes && TargetFrom(g, x) == Some(t)
  {
    var resolve := d => TargetFrom(g, d);
    CompactMapCount(nodes, resolve, nodes);
    CompactMap(Elements(nodes), resolve)
  }

  /** The target t of the project at path has a direct edge to the subject. */
  predicate DependsDirectlyOn(g: ValueGraph, path: AbsolutePath, name: string, t: Target) {
    TargetNode(path, name) in Successors(g, TargetNode(path, t.name))
  }

  /** testTargetsDependingOn: the test bundles of the same project with a
      direct edge to the subject, found by scanning the project's targets,
      sorted. */
  ghost function TestTargetsDependingOn(g: ValueGraph, path: AbsolutePath, name: string): (r: seq<Target>)
    ensures SortedBy(r, TargetName)
    ensures path !in g.targets ==> r == []
    ensures forall t :: t in r <==>
                        path in g.targets && t in g.targets[path].Values &&
                        TestsBundle(t.product) && DependsDirectlyOn(g, path, name, t)
    ensures path in g.targets ==>
              multiset(r) == multiset(Filter(Filter(ValuesOf(g.targets[path]), (t: Target) => TestsBundle(t.product)),
                                             (t: Target) => DependsDirectlyOn(g, path, name, t)))
  {
    if path !in g.targets then []
    else
      var vs := ValuesOf(g.targets[path]);
      var tests := Filter(vs, (t: Target) => TestsBundle(t.product));
      var depending := Filter(tests, (t: Target) => DependsDirectlyOn(g, path, name, t));
      var r := SortBy(depending, TargetName);
      PermutationMembers(r, depending);
      r
  }

  /** The link reference for a target: its name and its product's file name. */
  function ProductReferenceOf(t: Target): GraphDependencyReference {
    ProductReference(t.name, t.ProductNameWithExtension())
  }

  /** The target's product is static. */
  predicate HasStaticProduct(t: Target) {
    IsStaticProduct(t.product)
  }

  /** directStaticDependencies: a link reference for each direct target
      dependency with a static product, sorted by target name. */
  ghost function DirectStaticDependencies(g: ValueGraph, path: AbsolutePath, name: string): (r: seq<GraphDependencyReference>)
    ensures SortedBy(r, ReferenceTarget)
    ensures TargetNode(path, name) !in g.dependencies ==> r == []
    ensures forall ref :: ref in r <==>
                          exists t :: t in ResolvedSuccessors(g, TargetNode(path, name)) &&
                                      IsStaticProduct(t.product) && ref == ProductReferenceOf(t)
    ensures multiset(r) == multiset(Map(Filter(ResolvedSuccessors(g, TargetNode(path, name)), HasStaticProduct), ProductReferenceOf))
  {
    var resolved := ResolvedSuccessors(g, TargetNode(path, name));
    var statics := Filter(resolved, HasStaticProduct);
    assert TargetNode(path, name) !in g.dependencies ==> statics == [];
    var refs := Map(statics, ProductReferenceOf);
    var r := SortBy(refs, ReferenceTarget);
    PermutationMembers(r, refs);
    StaticReferenceMembers(resolved, statics, refs, r);
    r
  }

  /** The references of the static members of resolved, whatever their order. */
  lemma StaticReferenceMembers(resolved: seq<Target>, statics: seq<Target>, refs: seq<GraphDependencyReference>,
                               r: seq<GraphDependencyReference>)
    requires forall t :: t in statics <==> t in resolved && IsStaticProduct(t.product)
    requires forall ref :: ref in refs <==> exists t :: t in statics && ref == ProductReferenceOf(t)
    requires forall ref :: ref in r <==> ref in refs
    ensures forall ref :: ref in r <==> exists t :: t in resolved && IsStaticProduct(t.product) && ref == ProductReferenceOf(t)
  {
    forall ref ensures ref in r <==> exists t :: t in resolved && IsStaticProduct(t.product) && ref == ProductReferenceOf(t) {
      if ref in r {
        var t :| t in statics && ref == ProductReferenceOf(t);
        assert t in resolved && IsStaticProduct(t.product);
      }
      if exists t :: t in resolved && IsStaticProduct(t.product) && ref == ProductReferenceOf(t) {
        var t :| t in resolved && IsStaticProduct(t.product) && ref == ProductReferenceOf(t);
        assert t in statics;
      }
    }
  }

  /** isStatic: binary nodes by their linking, target nodes by their
      product, and package products, SDKs and pods never. */
  function IsStaticNode(g: ValueGraph, d: Dependency): (r: bool)
    ensures d.PackageProductDep? || d.SdkDep? || d.CocoaPodsDep? ==> !r
    ensures r && d.TargetDep? ==> TargetFrom(g, d).Some? && !SupportsResources(TargetFrom(g, d).value.product) &&
                                  !CanLinkStaticNode(g, d)
  {
    match d
    case FrameworkDep(_, _, _, linking, _) => linking == Static
    case XCFrameworkDep(_, _, _, linking) => linking == Static
    case LibraryDep(_, _, linking, _, _) => linking == Static
    case TargetDep(_, _) => TargetFrom(g, d).Some? && IsStaticProduct(TargetFrom(g, d).value.product)
    case PackageProductDep(_) => false
    case SdkDep(_, _) => false
    case CocoaPodsDep(_) => false
  }

  function IsStatic(g: ValueGraph): Dependency -> bool {
    d => IsStaticNode(g, d)
  }

  /** canLinkStaticProducts: binary nodes always absorb the static code
      beneath them, target nodes when their product links, package
      products, SDKs and pods never. */
  function CanLinkStaticNode(g: ValueGraph, d: Dependency): (r: bool)
    ensures d.FrameworkDep? || d.XCFrameworkDep? || d.LibraryDep? ==> r
    ensures d.PackageProductDep? || d.SdkDep? || d.CocoaPodsDep? ==> !r
    ensures r && d.TargetDep? ==> TargetFrom(g, d).Some? && !IsStaticProduct(TargetFrom(g, d).value.product)
  {
    match d
    case FrameworkDep(_, _, _, _, _) => true
    case XCFrameworkDep(_, _, _, _) => true
    case LibraryDep(_, _, _, _, _) => true
    case TargetDep(_, _) => TargetFrom(g, d).Some? && CanLinkStaticProducts(TargetFrom(g, d).value.product)
    case PackageProductDep(_) => false
    case SdkDep(_, _) => false
    case CocoaPodsDep(_) => false
  }

  function CanLinkStatic(g: ValueGraph): Dependency -> bool {
    d => CanLinkStaticNode(g, d)
  }

  /** staticTargets: the static targets the subject reaches without passing
      through a node that links static products itself. */
  ghost function StaticTargets(g: ValueGraph, path: AbsolutePath, name: string): (r: set<Target>)
    ensures forall t :: t in r ==> IsStaticProduct(t.product)
    ensures forall t :: t in r <==>
                        exists x :: x != TargetNode(path, name) && Reaches(g, TargetNode(path, name), CanLinkStatic(g), x) &&
                                    TargetFrom(g, x) == Some(t) && IsStaticProduct(t.product)
  {
    var root := TargetNode(path, name);
    var statics := Filtered(g, root, IsStatic(g), CanLinkStatic(g));
    FilteredMembership(g, root, IsStatic(g), CanLinkStatic(g));
    set x | x in statics && TargetFrom(g, x).Some? :: TargetFrom(g, x).value
  }

  /** hostTarget: a target of the same project with a direct edge to the
      subject, the first one in the dictionary's iteration order; none when
      no target of the project has such an edge. */
  ghost function HostTarget(g: ValueGraph, path: AbsolutePath, name: string): (r: Option<Target>)
    ensures r.Some? ==> path in g.targets && r.value in g.targets[path].Values && DependsDirectlyOn(g, path, name, r.value)
    ensures r.None? <==> path !in g.targets || forall t :: t in g.targets[path].Values ==> !DependsDirectlyOn(g, path, name, t)
  {
    if path !in g.targets then None
    else First(ValuesOf(g.targets[path]), (t: Target) => DependsDirectlyOn(g, path, name, t))
  }

  /** allDependencies: every node reachable from some target of the
      project at path, other than that target's own node. */
  method AllDependencies(g: ValueGraph, path: AbsolutePath) returns (references: set<Dependency>)
    ensures path !in g.targets ==> references == {}
    ensures forall x :: x in references <==>
                        path in g.targets &&
                        exists t :: t in g.targets[path].Values && x != TargetNode(path, t.name) &&
                                    Reaches(g, TargetNode(path, t.name), SkipNone(), x)
  {
    references := {};
    if path !in g.targets {
      return;
    }
    var targets := g.targets[path].Values;
    var rest := targets;
    while rest != {}
      invariant rest <= targets
      invariant forall x :: x in references <==>
                             exists t :: t in targets - rest && x != TargetNode(path, t.name) &&
                                         Reaches(g, TargetNode(path, t.name), SkipNone(), x)
      decreases rest
    {
      var target :| target in rest;
      var found := FilterDependencies(g, TargetNode(path, target.name), AcceptAll(), SkipNone());
      references := references + found;
      rest := rest - {target};
    }
  }
}
