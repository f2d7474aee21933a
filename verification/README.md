# Tuist graph queries, resource bundling and signing — a Dafny model

This project models the core of Tuist, a generator of Xcode projects:

- **The value graph traverser.** These are the queries a generator asks of the dependency graph. They include:
  - the depth-first `filterDependencies` with its `test` and `skip` closures;
  - the queries built on it: `allDependencies`, `resourceBundleDependencies` and `staticTargets`;
  - the direct-edge queries: `directTargetDependencies`, `appExtensionDependencies`, `directStaticDependencies`, `testTargetsDependingOn` and `hostTarget`;
  - the target look-ups `target(path:name:)`, `target(from:)` and `targets(at:)`.
- **The bundle-library-resources graph mapper.** It is the per-target rewrite that moves the resources of products that cannot carry them into a synthesised `.bundle` target. It also adds a generated `Bundle` accessor source.
- **The signing interactor.** This covers three things:
  - which certificate and provisioning-profile pairs `install` hands to the installer;
  - the three team-id keyed memo caches in front of App Store Connect;
  - the choice of targets and API keys at the start of `vendor`.
- **The API key parser.** It reads `TeamId.APIKeyId.IssuerId.p8` names and PEM text.
- **Signing.** This is the manifest `Signing` with its keyed encoding and decoding, and its mapping into the core `Signing`.
- **`XcodeBuildTarget`.** It derives the `xcodebuild` arguments.

Module layout:

- **One module per source file:**
  - `ValueGraphTraverser`
  - `BundleLibraryResourcesGraphMapper`
  - `SigningInteractor`
  - `APIKeyParser`
  - `ProjectDescriptionSigning`
  - `SigningManifestMapper`
  - `XcodeBuildTarget`
- **Supporting modules:**
  - `Models`: the Tuist entities.
  - `Reachability`: what `filterDependencies` computes, stated as walks in the graph.
  - `TraverserScenarios`: concrete graphs.
  - `Strings`, `Sequences`, `Paths` and `Wrappers`: generic helpers.

Modelling choices:

- **Swift `Set` and `Dictionary` iteration order is unspecified.**
  - A query that iterates one is a ghost function over an arbitrary but fixed enumeration (`Sequences.Elements`). Its contract holds for every enumeration.
  - For `targets(at:)`, which sorts the values of one project's dictionary, the sorted result is shown to be independent of that order (`TargetsAtIndependentOfOrder`). The other sorting queries compare by target name only. Targets of different projects can share a name, so for those queries the relative order of such ties is whatever the enumeration gives.
- **`filterDependencies` is imperative.** It is a method with an explicit stack and visited set. It is proved equal to the ghost set `Reachability.Filtered`.
- **The signing caches are imperative.** The three static dictionaries of the source are fields of a `SigningInteractor` class, updated on a miss.
- **The loops of the source are methods.** `AllDependencies` loops over a project's targets and `Vendor` over the projects, and each is proved equal to its specification. `LookUpProfilesTwice` is a method that runs two cache look-ups in a row.
- **Every other part is a pure function.**

## Model

| member | source | states |
|---|---|---|
| ValueGraphTraverser.Traverse | Sources/TuistCore/ValueGraph/ValueGraphTraverser.swift:113-146 | The stack loop ends, starting from the root. It visits a set that holds the root and every successor of each node it expands. It reports exactly the visited nodes other than the root that `test` accepts. |
| ValueGraphTraverser.PushUnvisited | Sources/TuistCore/ValueGraph/ValueGraphTraverser.swift:139-143 | The old stack is kept below. Everything pushed above it is an edge target that is not yet visited. Every such target is pushed, and each one exactly once. |
| ValueGraphTraverser.Visit | Sources/TuistCore/ValueGraph/ValueGraphTraverser.swift:121-143 | One pass of the loop pops the top node and marks it visited. It reports the node iff it is not the root and `test` accepts it. A skipped non-root node leaves the rest of the stack as it was. Otherwise the rest is kept below, and what is pushed above it is exactly the node's successors that are not yet visited, each once. The traversal invariant is preserved. |
| ValueGraphTraverser.FilterDependencies | Sources/TuistCore/ValueGraph/ValueGraphTraverser.swift:109-147 | The root is never reported. A node is reported iff it is not the root, `test` accepts it, and a walk from the root reaches it whose inner nodes are not skipped. |
| Reachability.FilteredMembership | Sources/TuistCore/ValueGraph/ValueGraphTraverser.swift:131-137 | Membership in the specification set is: not the root, accepted by `test`, and reached through expanded nodes. |
| Reachability.DefaultFilterIsReachability | Sources/TuistCore/ValueGraph/ValueGraphTraverser.swift:110-111 | With the default closures, the result is every node other than the root that some path of the graph leads to. |
| Reachability.PruningIgnoresSkippedEdges | Sources/TuistCore/ValueGraph/ValueGraphTraverser.swift:135-137 | Filtering with `skip` equals filtering, without skip, the graph in which the out-edges of the nodes where `skip` is true are removed. So `skip` returning true stops the descent. |
| Reachability.SkipOnlyRemoves | Sources/TuistCore/ValueGraph/ValueGraphTraverser.swift:135-137 | Whatever `skip`, the result is a subset of the result without skipping. |
| Reachability.SkippedNodeIsReported | Sources/TuistCore/ValueGraph/ValueGraphTraverser.swift:131-137 | A reached node that is both accepted and skipped is still reported; only its successors are cut off. |
| Reachability.ReachedSetProperties | Sources/TuistCore/ValueGraph/ValueGraphTraverser.swift:113-144 | The reached nodes form a finite set that contains the root and is closed under expansion. This is the bound the traversal's termination measure uses. |
| Reachability.ClosedSetContainsReached | Sources/TuistCore/ValueGraph/ValueGraphTraverser.swift:113-144 | A set that contains the root and is closed under expansion contains every reached node. The visited set is such a set. |
| Reachability.Prune | Sources/TuistCore/ValueGraph/ValueGraphTraverser.swift:135-137 | In the pruned graph a node has its original successors if the traversal expands it, and none otherwise. |
| ValueGraphTraverser.AllDependencies | Sources/TuistCore/ValueGraph/ValueGraphTraverser.swift:90-101 | The result is empty for an unknown project path. Otherwise a node is in it iff some target of the project reaches it, with default closures, and it is not that target's own node. |
| ValueGraphTraverser.TargetAt | Sources/TuistCore/ValueGraph/ValueGraphTraverser.swift:12-14 | A target is found iff the path and the name are both present. The target found is the one stored under that path and name, so it is one of the project's targets. |
| ValueGraphTraverser.TargetFrom | Sources/TuistCore/ValueGraph/ValueGraphTraverser.swift:58-63 | Only target nodes resolve. A target node resolves exactly as `target(path:name:)` with its own path and name. |
| ValueGraphTraverser.TargetsAt | Sources/TuistCore/ValueGraph/ValueGraphTraverser.swift:16-19 | The result is sorted by name and empty for an unknown path. It has one entry per dictionary entry, and its members are exactly the project's targets. |
| ValueGraphTraverser.TargetsAtIndependentOfOrder | Sources/TuistCore/ValueGraph/ValueGraphTraverser.swift:18 | When targets are stored under their names, sorting any enumeration of the dictionary's values gives the same list. |
| ValueGraphTraverser.ResolvedSuccessors | Sources/TuistCore/ValueGraph/ValueGraphTraverser.swift:23-27 | The result has one target per edge that resolves to a target. Non-target edges and dangling target edges contribute nothing. |
| ValueGraphTraverser.DirectTargetDependencies | Sources/TuistCore/ValueGraph/ValueGraphTraverser.swift:21-29 | The result is sorted, and empty when the node has no entry. Its members are exactly the targets its edges resolve to, one per resolvable edge. |
| ValueGraphTraverser.AppExtensionDependencies | Sources/TuistCore/ValueGraph/ValueGraphTraverser.swift:65-72 | The result is sorted. Each target occurs as often as it does among the direct target dependencies when it is one of the four extension products, and not at all otherwise. |
| ValueGraphTraverser.ResourceBundleDependencies | Sources/TuistCore/ValueGraph/ValueGraphTraverser.swift:31-49 | The result is sorted and holds only bundles. It is empty for a missing or resource-less target. Otherwise its members are exactly the bundle targets reached without descending into resource-capable targets, one per node. |
| ValueGraphTraverser.TestTargetsDependingOn | Sources/TuistCore/ValueGraph/ValueGraphTraverser.swift:51-56 | The result is sorted and empty for an unknown path. Its members are exactly the test bundles of the same project that have a direct edge to the subject. For a known path it has one entry per such value of the project's dictionary. |
| ValueGraphTraverser.DirectStaticDependencies | Sources/TuistCore/ValueGraph/ValueGraphTraverser.swift:74-86 | The result is sorted by target name and empty when there is no entry. A reference is in it iff it is the product reference of a static target that a direct edge resolves to. It holds one reference per such edge, so equal references from two projects' same-named targets are both kept. |
| ValueGraphTraverser.StaticTargets | Sources/TuistCore/ValueGraph/ValueGraphTraverser.swift:189-200 | Every member has a static product. A target is a member iff it is reached, without descending into nodes that can link static products, and its node is static. |
| ValueGraphTraverser.HostTarget | Sources/TuistCore/ValueGraph/ValueGraphTraverser.swift:202-208 | A found host belongs to the same project and has a direct edge to the subject. Nothing is found iff the path is unknown or no target of the project has such an edge. |
| TraverserScenarios.ReachedFromFramework | Sources/TuistCore/ValueGraph/ValueGraphTraverser.swift:189-192 | In app D → framework A → static B → static C, the walk from A pruned at linkers reaches exactly A, B and C. |
| TraverserScenarios.ReachedFromApp | Sources/TuistCore/ValueGraph/ValueGraphTraverser.swift:189-192 | The same walk from app D stops at framework A. |
| TraverserScenarios.FrameworkLinksStaticLibraries | Sources/TuistCore/ValueGraph/ValueGraphTraverser.swift:189-200 | The framework's static targets are exactly B and C. |
| TraverserScenarios.AppLinksNoStaticLibraries | Sources/TuistCore/ValueGraph/ValueGraphTraverser.swift:189-200 | The app has no static targets, because the framework links them. |
| TraverserScenarios.ReachedFromResourceApp | Sources/TuistCore/ValueGraph/ValueGraphTraverser.swift:35-45 | In app X → framework Y → bundle Z, the walk from X pruned at resource hosts stops at Y. |
| TraverserScenarios.ReachedFromResourceFramework | Sources/TuistCore/ValueGraph/ValueGraphTraverser.swift:35-45 | The walk from Y reaches exactly Y and Z. |
| TraverserScenarios.AppEmbedsNoBundle | Sources/TuistCore/ValueGraph/ValueGraphTraverser.swift:31-49 | The app's list of resource bundles is empty, because the descent stops at the framework, which can host resources. |
| TraverserScenarios.FrameworkEmbedsBundle | Sources/TuistCore/ValueGraph/ValueGraphTraverser.swift:31-49 | The framework's resource bundles are exactly [Z]. |
| BundleLibraryResourcesGraphMapper.DoesntSupportResourcesIsComplement | Sources/TuistGenerator/GraphMappers/BundleLibraryResourcesGraphMapper.swift:24-25 | The mapper's product list is exactly the products that do not support resources. |
| BundleLibraryResourcesGraphMapper.ResourcesBundle | Sources/TuistGenerator/GraphMappers/BundleLibraryResourcesGraphMapper.swift:34-41 | The bundle is named `<name>-Resources`, with bundle id `<bundleId>.resources`. It is on the same platform, has no sources, and carries the target's resources. |
| BundleLibraryResourcesGraphMapper.AccessorPath | Sources/TuistGenerator/GraphMappers/BundleLibraryResourcesGraphMapper.swift:82-85 | The accessor lives at the project path followed by the derived folder, the extensions folder and `Bundle+<name>.swift`. |
| BundleLibraryResourcesGraphMapper.AccessorFile | Sources/TuistGenerator/GraphMappers/BundleLibraryResourcesGraphMapper.swift:58-89 | The accessor is at the accessor path. It looks up the named bundle in the main bundle iff the product cannot carry resources, and otherwise uses the target's own class bundle. |
| BundleLibraryResourcesGraphMapper.MapTargetNode | Sources/TuistGenerator/GraphMappers/BundleLibraryResourcesGraphMapper.swift:20-56 | As written, every target loses its resources and gains the accessor source, and no side effect is returned. A resource-less product also gains the bundle as its last dependency and its project gains it as its last target; nothing else changes. |
| BundleLibraryResourcesGraphMapper.LibraryResourcesMoveToBundle | Sources/TuistGenerator/GraphMappers/BundleLibraryResourcesGraphMapper.swift:27-46 | For a product without resources no resource is lost. The appended dependency is the appended project target, it carries the resources, and the accessor names it. |
| BundleLibraryResourcesGraphMapper.ResourcesLostForResourceCapableTarget | Sources/TuistGenerator/GraphMappers/BundleLibraryResourcesGraphMapper.swift:28-51 | An app with one resource and no dependencies comes out with neither the resource nor a bundle carrying it. |
| BundleLibraryResourcesGraphMapper.AccessorSourceNeverWritten | Sources/TuistGenerator/GraphMappers/BundleLibraryResourcesGraphMapper.swift:30-55 | As written, the accessor's path is among the mapped target's sources while no returned side effect writes that path. |
| BundleLibraryResourcesGraphMapper.MapTargetNodeKeepingResources | Sources/TuistGenerator/GraphMappers/BundleLibraryResourcesGraphMapper.swift:20-56 | With the correction, a resource-capable target keeps its resources and the accessor file is returned as the one side effect. Dependencies and project are as in the source. |
| BundleLibraryResourcesGraphMapper.CorrectedMappingKeepsResources | Sources/TuistGenerator/GraphMappers/BundleLibraryResourcesGraphMapper.swift:20-56 | With the correction no resource is lost for any product. Every new source is written by a returned side effect. |
| ValueGraphTraverser.IsBundle | Sources/TuistCore/ValueGraph/ValueGraphTraverser.swift:39-41 | Only target nodes that resolve to an existing bundle target are accepted. Every such node is also a resource host, so the traversal never descends below a bundle. |
| ValueGraphTraverser.CanHostResources | Sources/TuistCore/ValueGraph/ValueGraphTraverser.swift:35-38 | Only target nodes that resolve to an existing target whose product supports resources stop the descent. Such a node is never static. |
| ValueGraphTraverser.IsStaticNode | Sources/TuistCore/ValueGraph/ValueGraphTraverser.swift:212-223 | Package products, SDKs and pods are never static. A static target node resolves to a target whose product does not support resources and does not link static products itself. |
| ValueGraphTraverser.CanLinkStaticNode | Sources/TuistCore/ValueGraph/ValueGraphTraverser.swift:225-236 | Framework, xcframework and library nodes always link static products, and package products, SDKs and pods never do. A target node that does resolves to a target whose product is not static. |
| APIKeyParser.Parse | Sources/TuistSigning/APIKey/APIKeyParser.swift:31-49 | The parse fails with invalidFormat iff the name does not have exactly three dots. It fails with invalidPrivateKey iff the name is well formed and the text has fewer than two newlines. A parsed private key has no newline. |
| APIKeyParser.PrivateKeyHasNoNewline | Sources/TuistSigning/APIKey/APIKeyParser.swift:39-41 | Joining lines that contain no newline yields text without a newline. |
| APIKeyParser.ParsedNameComponents | Sources/TuistSigning/APIKey/APIKeyParser.swift:32-37 | On success the file name is `teamId.apiKeyId.issuerId.ext`, where none of the four parts contains a dot. |
| APIKeyParser.PrivateKeyIsPemBody | Sources/TuistSigning/APIKey/APIKeyParser.swift:39-41 | On success the private key is the text between the first and the last newline, with the newlines removed. |
| ProjectDescriptionSigning.KindFromRawValue | Sources/ProjectDescription/Signing.swift:13-16 | A kind exists iff the string is "development" or "distribution", and its raw value is that string. |
| ProjectDescriptionSigning.Encode | Sources/ProjectDescription/Signing.swift:31-43 | Exactly the keys kind, teamId and configuration are written, with the kind matching the case and the two fields unswapped. |
| ProjectDescriptionSigning.Decode | Sources/ProjectDescription/Signing.swift:18-29 | A missing kind gives keyNotFound and an unknown kind gives dataCorrupted. Success happens iff all three keys are present with a valid kind, and then the fields are carried unswapped with the case given by the kind. |
| ProjectDescriptionSigning.DecodeEncode | Sources/ProjectDescription/Signing.swift:18-43 | Decoding an encoding gives back the same signing, for both cases. |
| ProjectDescriptionSigning.EncodeDecode | Sources/ProjectDescription/Signing.swift:18-43 | A decodable container agrees with the re-encoding of its value on every key written. |
| ProjectDescriptionSigning.DecodeMissingKey | Sources/ProjectDescription/Signing.swift:19-22 | After a valid kind, a missing teamId is reported first, then a missing configuration. |
| SigningManifestMapper.FromManifest | Sources/TuistLoader/Models+ManifestMappers/Signing+ManifestMapper.swift:10-17 | The mapping is total. It keeps the case, and it copies the team id and the configuration. |
| SigningManifestMapper.FromManifestInjective | Sources/TuistLoader/Models+ManifestMappers/Signing+ManifestMapper.swift:11-16 | Different manifest signings map to different core signings. |
| SigningManifestMapper.FromManifestSurjective | Sources/TuistLoader/Models+ManifestMappers/Signing+ManifestMapper.swift:11-16 | Every core signing is the image of some manifest signing. |
| XcodeBuildTarget.TargetPath | Sources/TuistCore/Automation/XcodeBuildTarget.swift:22-27 | The path is the associated path of either case. |
| XcodeBuildTarget.XcodebuildArguments | Sources/TuistCore/Automation/XcodeBuildTarget.swift:12-19 | There are two arguments: `-project` or `-workspace` according to the case, then the target path's string. |
| XcodeBuildTarget.ArgumentsIdentifyKind | Sources/TuistCore/Automation/XcodeBuildTarget.swift:12-19 | Equal arguments imply the same case. |
| SigningInteractor.LookUp | Sources/TuistSigning/SigningInteractor.swift:240-241 | The nested dictionary look-up succeeds iff both keys are present, with the stored value. |
| SigningInteractor.Merging | Sources/TuistSigning/SigningInteractor.swift:233-235 | The merged keys are the union, and on a shared key the target's value wins. |
| SigningInteractor.ConsideredConfigurations | Sources/TuistSigning/SigningInteractor.swift:230-237 | A configuration is considered iff the project has it or the target has settings that have it. |
| SigningInteractor.TargetWithoutSettingsUsesProjectConfigurations | Sources/TuistSigning/SigningInteractor.swift:230 | A target with nil settings contributes no configuration. |
| SigningInteractor.PairFor | Sources/TuistSigning/SigningInteractor.swift:238-246 | A configuration yields a pair iff both a profile and a certificate are recorded for the target under its name, and the pair is those two. |
| SigningInteractor.SigningPairs | Sources/TuistSigning/SigningInteractor.swift:232-246 | The pairs are exactly those of the considered configurations, one per configuration that has both a profile and a certificate. |
| SigningInteractor.InstalledCertificates | Sources/TuistSigning/SigningInteractor.swift:248-250 | One certificate is installed per considered configuration that has both a profile and a certificate. The i-th is the certificate of the i-th signing pair. |
| SigningInteractor.InstalledProfiles | Sources/TuistSigning/SigningInteractor.swift:251 | One profile is installed per considered configuration that has both a certificate and a profile. The i-th is the profile of the i-th signing pair. |
| SigningInteractor.InstalledCertificatesAreSelected | Sources/TuistSigning/SigningInteractor.swift:248-250 | A certificate is installed iff some considered configuration has both a profile and that certificate under its name. |
| SigningInteractor.InstalledProfilesAreSelected | Sources/TuistSigning/SigningInteractor.swift:251 | A profile is installed iff some considered configuration has both a certificate and that profile under its name. |
| SigningInteractor.InstalledPairsAlign | Sources/TuistSigning/SigningInteractor.swift:248-251 | Certificates and profiles are installed in equal numbers, and the i-th of each come from the same configuration. |
| SigningInteractor.CacheLookup | Sources/TuistSigning/SigningInteractor.swift:183-195 | The controller is called iff the team id is absent. A hit returns the stored list and changes nothing. On a success the list returned is the one stored under the team id. A failure stores nothing, and no existing entry ever changes. |
| SigningInteractor.SameTeamIdSharesEntry | Sources/TuistSigning/SigningInteractor.swift:184-192 | After a successful lookup, a lookup with any API key of the same team id is a hit. It returns the same list and calls nothing. |
| SigningInteractor.FailureIsRetried | Sources/TuistSigning/SigningInteractor.swift:187-192 | After a failed fetch, the next lookup calls the controller again. |
| SigningInteractor.SigningInteractor.constructor | Sources/TuistSigning/SigningInteractor.swift:22-26 | All three caches start empty. |
| SigningInteractor.SigningInteractor.RemoteProvisioningProfilesFor | Sources/TuistSigning/SigningInteractor.swift:183-195 | The profile cache makes one get-or-fetch step as `CacheLookup`, and the other two caches are unchanged. |
| SigningInteractor.SigningInteractor.DeviceIdsFor | Sources/TuistSigning/SigningInteractor.swift:197-209 | The device cache makes one get-or-fetch step as `CacheLookup`, and the other two caches are unchanged. |
| SigningInteractor.SigningInteractor.CertificatesFor | Sources/TuistSigning/SigningInteractor.swift:211-223 | The certificate cache makes one get-or-fetch step as `CacheLookup`, and the other two caches are unchanged. |
| SigningInteractor.LookUpProfilesTwice | Sources/TuistSigning/SigningInteractor.swift:183-195 | For two keys of one team, the second lookup returns the first one's list without a call. After a failure it calls again. |
| SigningInteractor.SigningTargets | Sources/TuistSigning/SigningInteractor.swift:88-91 | A (target, signing) pair is listed iff the target is the project's and has that signing. |
| SigningInteractor.APIKeyFor | Sources/TuistSigning/SigningInteractor.swift:115 | A chosen key is one of the keys, and its file name starts with the team id. None is chosen iff no file name does. |
| SigningInteractor.VendorDecisionFor | Sources/TuistSigning/SigningInteractor.swift:92-118 | The target is skipped iff its recorded profile has not expired at `now`. Otherwise it is skipped iff no key name starts with the team id. Otherwise a matching key is used with the signing's type and configuration. |
| SigningInteractor.VendorPlan | Sources/TuistSigning/SigningInteractor.swift:87-118 | A target has a decision iff it is a signing target of some project. This row states membership only; order and multiplicity are in the next row. |
| SigningInteractor.VendorPlanFollowsSignedTargets | Sources/TuistSigning/SigningInteractor.swift:87-92 | The plan has exactly one decision per signed target, project by project and then in target order. The i-th decision is for the i-th signed target and is taken for that target's own signing. |
| SigningInteractor.Vendor | Sources/TuistSigning/SigningInteractor.swift:87-92 | The loop over projects produces exactly the plan. |
| SigningInteractor.ChosenKeyTeamIdStartsWithTeamId | Sources/TuistSigning/SigningInteractor.swift:115-119 | A chosen key that parses has a team id component that starts with the signing's team id. |

## Left out

- The placeholder queries `linkableDependencies`, `librariesPublicHeadersFolders`, `librariesSearchPaths`, `librariesSwiftIncludePaths`, `runPathSearchPaths`, `embeddableFrameworks`, `copyProductDependencies` and `allDependencyReferences`. Each returns a constant empty list.
- `map(graph:)` of the mapper and `TargetNodeGraphMapper`, which applies the per-target rewrite across a graph. TargetNodeGraphMapper is not part of this model.
- The bundle target's `filesGroup`, and the generated Swift text. The accessor is represented by which of its two forms it takes and the names it mentions.
- The product predicates and `productNameWithExtension`, which the core uses but does not define. They are written as concrete tables in `Models`. The `Product` enumeration is cut down to the 12 products these rules mention. Other products, such as watch apps, app clips or command-line tools, are not modelled. `Comparable` on `Target` and on `GraphDependencyReference` is modelled as the lexicographic order on the target name.
- `Constants.DerivedFolder.name` and `.extensions` are not part of this model. Placeholder strings stand for them, and no property depends on their values.
- Swift `Set`/`Dictionary` iteration order: modelled as one arbitrary enumeration. Where the result is unsorted (`hostTarget`, signing pairs) the model fixes one order; the contracts hold for any.
- The doc comment of `filterDependencies` says skipping happens when `skip` returns false, but the code stops descending when it returns true. The model follows the code (`Reachability.PruningIgnoresSkippedEdges`).
- `install` and `vendor` orchestration:
  - locating the signing directory, the keychain, cipher decryption and encryption, folder creation;
  - the installer and linter calls. Only what is handed to them is modelled;
  - `Date()`, which becomes the `now` parameter.
- The rest of `vendor` after the API key is chosen. This covers parsing, the remote profile and device look-ups and the certificate checks. The caches those steps use are modelled.
- SigningInteractor.VendorPlan: the plan is what `vendor` decides only when no API key parse and no App Store Connect call throws (SigningInteractor.swift:119-137). In the source a throw at one target ends the whole `forEach`, so no later target is considered. The plan does not model that early exit.
- Strings are compared by code point, for sorting, for prefixes and as dictionary keys. Swift's `String` comparison, `hasPrefix` and `Dictionary` keys use Unicode canonical equivalence, and `hasPrefix` matches whole grapheme clusters. The two agree for NFC and ASCII text, which is what team ids, target names and configuration names are in practice. For names that are not normalised, the model can sort differently, choose a different key or miss a profile.
- App Store Connect calls: the controller's answer is an input. A Rx/blocking error is a `Failure`.
- The static caches are shared by every interactor in the source. Here they are the fields of one object, and concurrent access is not modelled.
- Reading the API key file: the file text is an input.
- `ProjectDescriptionSigning.Decode`: values are strings, so the `typeMismatch` error of a non-string value cannot arise.
- The declaration of `ValueGraphDependency` is not part of this model. Its `xcframework` case has four associated values, as the pattern at ValueGraphTraverser.swift:215 shows. Only the fourth, the linking, is read. The names of the other three are chosen here, and `primaryBinaryPath` is one of them.
- `ProvisioningProfile`'s definition is not part of this model. Only the fields read here are modelled.
- `ValueGraphTraverser.TargetsAtIndependentOfOrder` assumes each target is stored under its own name, as the graph loader builds it.

## Findings

| source | as written | input that shows it | evidently intended | confidence | as-written member | corrected member |
|---|---|---|---|---|---|---|
| Sources/TuistGenerator/GraphMappers/BundleLibraryResourcesGraphMapper.swift:28-51 | Every target has its resources removed. Only products that cannot carry resources get a bundle that holds them. | An `App` target with one resource and no dependencies: the mapped target has no resources and no bundle dependency. | A resource-capable target keeps its own resources; only resource-less products move them to the bundle. | medium, not executed | BundleLibraryResourcesGraphMapper.ResourcesLostForResourceCapableTarget | BundleLibraryResourcesGraphMapper.CorrectedMappingKeepsResources |
| Sources/TuistGenerator/GraphMappers/BundleLibraryResourcesGraphMapper.swift:30-55 | The side effects are a constant empty list. The accessor file descriptor is computed and its path added to the sources, but the file is never written. | Any target: `MapTargetNode(node).1 == []` while the sources name `Bundle+<name>.swift`. | The accessor descriptor is returned as a side effect so that the source the target names exists. | high, not executed | BundleLibraryResourcesGraphMapper.AccessorSourceNeverWritten | BundleLibraryResourcesGraphMapper.MapTargetNodeKeepingResources |
