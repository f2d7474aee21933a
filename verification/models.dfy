/** The TuistCore entities the value graph is made of: targets, projects,
    dependency nodes and the graph itself, with the product predicates the
    traversal rules use. */
module Models {
  import opened Wrappers
  import opened Paths

  datatype Platform = IOS | MacOS | TvOS | WatchOS

  datatype Product =
    | App
    | StaticLibrary
    | DynamicLibrary
    | Framework
    | StaticFramework
    | UnitTests
    | UiTests
    | Bundle
    | AppExtension
    | StickerPackExtension
    | Watch2Extension
    | MessagesExtension

  /** Product.isStatic: the product's code is copied into whoever links it. */
  predicate IsStaticProduct(p: Product) {
    p == StaticLibrary || p == StaticFramework
  }

  /** Product.testsBundle. */
  predicate TestsBundle(p: Product) {
    p == UnitTests || p == UiTests
  }

  /** Target.supportsResources: every product except the plain libraries and
      static frameworks can carry its own resources. */
  predicate SupportsResources(p: Product) {
    match p
    case DynamicLibrary | StaticLibrary | StaticFramework => false
    case _ => true
  }

  /** Target.canLinkStaticProducts(): products whose binary is linked, and
      therefore absorbs the static code beneath it. */
  predicate CanLinkStaticProducts(p: Product) {
    p in {App, Framework, DynamicLibrary, AppExtension, StickerPackExtension, Watch2Extension, MessagesExtension}
  }

  datatype Linking = Static | Dynamic

  datatype Variant = Debug | Release

  datatype BuildConfiguration = BuildConfiguration(name: string, variant: Variant)

  datatype Configuration = Configuration(settings: map<string, string>)

  datatype Settings = Settings(
    base: map<string, string>,
    configurations: map<BuildConfiguration, Option<Configuration>>)

  datatype SourceFile = SourceFile(path: AbsolutePath, compilerFlags: Option<string>)

  /** TuistCore.Signing. */
  datatype Signing =
    | Development(teamId: string, configuration: string)
    | Distribution(teamId: string, configuration: string)

  datatype Target = Target(
    name: string,
    platform: Platform,
    product: Product,
    productName: Option<string>,
    bundleId: string,
    sources: seq<SourceFile>,
    resources: seq<AbsolutePath>,
    settings: Option<Settings>,
    signing: Option<Signing>)
  {
    /** The file name of the built product. */
    function ProductNameWithExtension(): string {
      var n := productName.GetOr(name);
      match product
      case App => n + ".app"
      case StaticLibrary => "lib" + n + ".a"
      case DynamicLibrary => "lib" + n + ".dylib"
      case Framework | StaticFramework => n + ".framework"
      case UnitTests | UiTests => n + ".xctest"
      case Bundle => n + ".bundle"
      case AppExtension | StickerPackExtension | Watch2Extension | MessagesExtension => n + ".appex"
    }
  }

  function TargetName(t: Target): string {
    t.name
  }

  datatype Project = Project(path: AbsolutePath, name: string, targets: seq<Target>, settings: Settings)

  datatype SdkStatus = Required | Optional

  /** ValueGraphDependency: a node of the value graph. Its identity is the
      whole tuple of its fields. */
  datatype Dependency =
    | TargetDep(name: string, path: AbsolutePath)
    | FrameworkDep(path: AbsolutePath, binaryPath: AbsolutePath, dsymPath: Option<AbsolutePath>,
                   linking: Linking, architectures: seq<string>)
    | XCFrameworkDep(path: AbsolutePath, infoPlist: AbsolutePath, primaryBinaryPath: AbsolutePath, linking: Linking)
    | LibraryDep(path: AbsolutePath, publicHeaders: AbsolutePath, linking: Linking,
                 architectures: seq<string>, swiftModuleMap: Option<AbsolutePath>)
    | PackageProductDep(productName: string)
    | SdkDep(name: string, status: SdkStatus)
    | CocoaPodsDep(podsPath: AbsolutePath)

  datatype GraphDependencyReference = ProductReference(target: string, productName: string)

  function ReferenceTarget(r: GraphDependencyReference): string {
    r.target
  }

  /** The value graph: the targets of each project by path and name, and the
      outgoing edges of each node (a missing key means no edges). */
  datatype ValueGraph = ValueGraph(
    name: string,
    path: AbsolutePath,
    targets: map<AbsolutePath, map<string, Target>>,
    dependencies: map<Dependency, set<Dependency>>)
}
