/** BundleLibraryResourcesGraphMapper: the per-target rewrite that moves
    the resources of a product unable to carry them into a synthesised
    resource bundle, and adds a generated Bundle accessor to the target's
    sources. */
module BundleLibraryResourcesGraphMapper {
  import opened Wrappers
  import opened Paths
  import opened Models

  /** Constants.DerivedFolder.name and Constants.DerivedFolder.extensions. */
  const DerivedFolderName := "Derived"
  const DerivedExtensionsFolder := "Extensions"

  /** A target of the legacy graph with its project and its direct dependencies. */
  datatype TargetNode = TargetNode(project: Project, target: Target, dependencies: seq<TargetNode>)

  /** The generated Swift extension on Bundle: for a product without
      resources it loads the named bundle from the main bundle, otherwise it
      returns the bundle of a private class compiled into the target. */
  datatype AccessorSource =
    | MainBundleLookup(targetName: string, bundleName: string)
    | ClassBundleLookup(targetName: string)

  datatype FileDescriptor = FileDescriptor(path: AbsolutePath, contents: AccessorSource)

  datatype SideEffect = FileSideEffect(descriptor: FileDescriptor)

  /** productsWithoutResources. */
  const ProductsWithoutResources: seq<Product> := [DynamicLibrary, StaticLibrary, StaticFramework]

  predicate DoesntSupportResources(p: Product) {
    p in ProductsWithoutResources
  }

  /** The mapper's list of products without resources is the complement of
      the products that support resources. */
  lemma DoesntSupportResourcesIsComplement(p: Product)
    ensures DoesntSupportResources(p) <==> !SupportsResources(p)
  {
    assert ProductsWithoutResources[0] == DynamicLibrary;
    assert ProductsWithoutResources[1] == StaticLibrary;
    assert ProductsWithoutResources[2] == StaticFramework;
  }

  function BundleName(t: Target): string {
    t.name + "-Resources"
  }

  /** The resource bundle synthesised for t: a bundle on the same platform
      carrying t's resources. */
  function ResourcesBundle(t: Target): (b: Target)
    ensures b.product == Bundle && b.platform == t.platform && b.resources == t.resources
    ensures b.name == t.name + "-Resources" && b.bundleId == t.bundleId + ".resources"
    ensures b.productName.None? && b.sources == []
  {
    Target(BundleName(t), t.platform, Bundle, None, t.bundleId + ".resources", [], t.resources, None, None)
  }

  /** <project path>/Derived/Extensions/Bundle+<target name>.swift */
  function AccessorPath(node: TargetNode): (p: AbsolutePath)
    ensures p.components == node.project.path.components +
                            [DerivedFolderName, DerivedExtensionsFolder, "Bundle+" + node.target.name + ".swift"]
  {
    node.project.path.Appending(DerivedFolderName).Appending(DerivedExtensionsFolder)
      .Appending("Bundle+" + node.target.name + ".swift")
  }

  /** fileDescriptor(targetNode:doesntSupportResources:bundleName:). */
  function AccessorFile(node: TargetNode): (f: FileDescriptor)
    ensures f.path == AccessorPath(node)
    ensures DoesntSupportResources(node.target.product) <==> f.contents.MainBundleLookup?
    ensures f.contents.targetName == node.target.name
  {
    var contents :=
      if DoesntSupportResources(node.target.product) then MainBundleLookup(node.target.name, BundleName(node.target))
      else ClassBundleLookup(node.target.name);
    FileDescriptor(AccessorPath(node), contents)
  }

  /** The target's sources followed by the generated accessor, without compiler flags. */
  function SourcesWithAccessor(node: TargetNode): seq<SourceFile> {
    node.target.sources + [SourceFile(AccessorPath(node), None)]
  }

  /** map(targetNode:) as written: every target loses its resources and no
      side effect is returned. A product without resources gains a bundle
      dependency and its project gains the bundle target, both at the end. */
  function MapTargetNode(node: TargetNode): (r: (TargetNode, seq<SideEffect>))
    ensures r.1 == []
    ensures r.0.target == node.target.(resources := [], sources := SourcesWithAccessor(node))
    ensures DoesntSupportResources(node.target.product) ==>
              r.0.dependencies == node.dependencies + [TargetNode(node.project, ResourcesBundle(node.target), [])] &&
              r.0.project == node.project.(targets := node.project.targets + [ResourcesBundle(node.target)])
    ensures !DoesntSupportResources(node.target.product) ==>
              r.0.dependencies == node.dependencies && r.0.project == node.project
  {
    var target := node.target;
    var withExtensions := target.(resources := [], sources := SourcesWithAccessor(node));
    if DoesntSupportResources(target.product) then
      var bundle := ResourcesBundle(target);
      (TargetNode(node.project.(targets := node.project.targets + [bundle]), withExtensions,
                  node.dependencies + [TargetNode(node.project, bundle, [])]), [])
    else
      (TargetNode(node.project, withExtensions, node.dependencies), [])
  }

  /** Every resource the target carried before the rewrite is still
      carried afterwards: by the target itself or by a bundle it depends on. */
  predicate ResourcesKept(node: TargetNode, mapped: TargetNode) {
    forall res :: res in node.target.resources ==>
      res in mapped.target.resources ||
      exists dep :: dep in mapped.dependencies && dep.target.product == Bundle && res in dep.target.resources
  }

  /** For a product without resources the rewrite moves the resources into
      the appended bundle, so none is lost; the accessor looks up that very
      bundle; and the accessor the sources name is at the generated path. */
  lemma LibraryResourcesMoveToBundle(node: TargetNode)
    requires DoesntSupportResources(node.target.product)
    ensures ResourcesKept(node, MapTargetNode(node).0)
    ensures var mapped := MapTargetNode(node).0;
            var bundle := mapped.dependencies[|mapped.dependencies| - 1].target;
            bundle.resources == node.target.resources &&
            bundle == mapped.project.targets[|mapped.project.targets| - 1] &&
            bundle.name == AccessorFile(node).contents.bundleName &&
            mapped.target.sources[|mapped.target.sources| - 1].path == AccessorFile(node).path
  {
    var mapped := MapTargetNode(node).0;
    var dep := mapped.dependencies[|mapped.dependencies| - 1];
    assert dep in mapped.dependencies && dep.target.product == Bundle;
  }

  /** The rewrite as written loses the resources of a resource-capable
      target: an app with one resource and no dependencies comes out with
      no resource and no bundle to carry it. */
  lemma ResourcesLostForResourceCapableTarget()
    ensures var res := AbsolutePath(["Project", "Assets.xcassets"]);
            var app := Target("App", IOS, App, None, "io.tuist.App", [], [res], None, None);
            var node := TargetNode(Project(AbsolutePath(["Project"]), "Project", [app], Settings(map[], map[])), app, []);
            !ResourcesKept(node, MapTargetNode(node).0) && MapTargetNode(node).1 == []
  {
    var res := AbsolutePath(["Project", "Assets.xcassets"]);
    var app := Target("App", IOS, App, None, "io.tuist.App", [], [res], None, None);
    var node := TargetNode(Project(AbsolutePath(["Project"]), "Project", [app], Settings(map[], map[])), app, []);
    var mapped := MapTargetNode(node).0;
    assert mapped.dependencies == [] && mapped.target.resources == [];
    assert res in node.target.resources;
  }

  /** The rewrite as written names the accessor among the target's sources
      but returns no side effect that would write it. */
  lemma AccessorSourceNeverWritten(node: TargetNode)
    ensures var r := MapTargetNode(node);
            SourceFile(AccessorPath(node), None) in r.0.target.sources &&
            !exists e :: e in r.1 && e.descriptor.path == AccessorPath(node)
  {
    var sources := MapTargetNode(node).0.target.sources;
    assert sources[|sources| - 1] == SourceFile(AccessorPath(node), None);
  }

  /** The rewrite with the evident intent: a resource-capable target keeps
      its resources, and the generated accessor file is returned as a side
      effect so that the source the target now names is written. */
  function MapTargetNodeKeepingResources(node: TargetNode): (r: (TargetNode, seq<SideEffect>))
    ensures r.1 == [FileSideEffect(AccessorFile(node))]
    ensures r.0.target.resources == if DoesntSupportResources(node.target.product) then [] else node.target.resources
    ensures r.0.target.sources == SourcesWithAccessor(node)
    ensures r.0.dependencies == MapTargetNode(node).0.dependencies && r.0.project == MapTargetNode(node).0.project
  {
    var (mapped, _) := MapTargetNode(node);
    var resources := if DoesntSupportResources(node.target.product) then [] else node.target.resources;
    (mapped.(target := mapped.target.(resources := resources)), [FileSideEffect(AccessorFile(node))])
  }

  /** With the correction no resource is lost, whatever the product, and
      every source the mapped target names that did not exist before is
      written by a returned side effect. */
  lemma CorrectedMappingKeepsResources(node: TargetNode)
    ensures ResourcesKept(node, MapTargetNodeKeepingResources(node).0)
    ensures var r := MapTargetNodeKeepingResources(node);
            forall s :: s in r.0.target.sources && s !in node.target.sources ==>
              exists e :: e in r.1 && e.descriptor.path == s.path
  {
    var r := MapTargetNodeKeepingResources(node);
    if DoesntSupportResources(node.target.product) {
      LibraryResourcesMoveToBundle(node);
    }
    forall s | s in r.0.target.sources && s !in node.target.sources
      ensures exists e :: e in r.1 && e.descriptor.path == s.path
    {
      assert s == SourceFile(AccessorPath(node), None);
      assert r.1[0].descriptor.path == s.path;
    }
  }
}
