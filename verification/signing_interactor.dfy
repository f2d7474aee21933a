/** SigningInteractor: which certificate and provisioning profile pairs are
    installed for a target, the team-id keyed memo caches in front of the
    App Store Connect controller, and the choice of targets and API keys at
    the start of vendoring. Keychains, ciphers, the controller's network
    calls and the installer are not modelled; what the controller returns
    is an input. */
module SigningInteractor {
  import opened Wrappers
  import opened Strings
  import opened Paths
  import opened Models
  import opened Sequences
  import opened APIKeyParser

  datatype Certificate = Certificate(
    publicKey: AbsolutePath,
    privateKey: AbsolutePath,
    id: string,
    developmentTeam: string,
    name: string,
    targetName: string,
    configurationName: string,
    isRevoked: bool)

  /** The fields of a provisioning profile this model reads; the expiration
      date is a point in time on an integer clock. */
  datatype ProvisioningProfile = ProvisioningProfile(
    name: string,
    targetName: string,
    configurationName: string,
    expirationDate: int)

  /** [TargetName: [ConfigurationName: T]], as the signing matcher returns them. */
  type ByTargetAndConfiguration<T> = map<string, map<string, T>>

  datatype SigningPair = SigningPair(certificate: Certificate, provisioningProfile: ProvisioningProfile)

  /** dictionary[targetName]?[configurationName] */
  function LookUp<T>(m: ByTargetAndConfiguration<T>, targetName: string, configurationName: string): (r: Option<T>)
    ensures r.Some? <==> targetName in m && configurationName in m[targetName]
    ensures r.Some? ==> r.value == m[targetName][configurationName]
  {
    if targetName in m && configurationName in m[targetName] then Some(m[targetName][configurationName]) else None
  }

  // ---------------------------------------------------------------------
  // install(target:project:...): the pairs to install

  /** Dictionary.merging(_:uniquingKeysWith:) keeping the receiver's value
      on a shared key. */
  function Merging<K, V>(a: map<K, V>, b: map<K, V>): (m: map<K, V>)
    ensures m.Keys == a.Keys + b.Keys
    ensures forall k :: k in a ==> m[k] == a[k]
    ensures forall k :: k in b && k !in a ==> m[k] == b[k]
  {
    map k | k in a.Keys + b.Keys :: if k in a then a[k] else b[k]
  }

  /** target.settings?.configurations ?? [:] */
  function TargetConfigurations(target: Target): map<BuildConfiguration, Option<Configuration>> {
    match target.settings
    case None => map[]
    case Some(settings) => settings.configurations
  }

  /** The configurations whose pairs are considered: the keys of the
      target's configurations merged with the project's. */
  function ConsideredConfigurations(target: Target, project: Project): (cs: set<BuildConfiguration>)
    ensures forall c :: c in cs <==>
              c in project.settings.configurations ||
              (target.settings.Some? && c in target.settings.value.configurations)
  {
    Merging(TargetConfigurations(target), project.settings.configurations).Keys
  }

  /** The pair for one configuration: present only when both a provisioning
      profile and a certificate are recorded for the target under the
      configuration's name. */
  function PairFor(target: Target, certificates: ByTargetAndConfiguration<Certificate>,
                   profiles: ByTargetAndConfiguration<ProvisioningProfile>, configuration: BuildConfiguration): (r: Option<SigningPair>)
    ensures r.Some? <==> LookUp(profiles, target.name, configuration.name).Some? &&
                         LookUp(certificates, target.name, configuration.name).Some?
    ensures r.Some? ==> r.value.certificate == certificates[target.name][configuration.name] &&
                        r.value.provisioningProfile == profiles[target.name][configuration.name]
  {
    match LookUp(profiles, target.name, configuration.name)
    case None => None
    case Some(profile) =>
      match LookUp(certificates, target.name, configuration.name)
      case None => None
      case Some(certificate) => Some(SigningPair(certificate, profile))
  }

  /** The set of considered configurations in its iteration order, compact-mapped to pairs. */
  ghost function SigningPairs(target: Target, project: Project, certificates: ByTargetAndConfiguration<Certificate>,
                              profiles: ByTargetAndConfiguration<ProvisioningProfile>): (pairs: seq<SigningPair>)
    ensures forall p :: p in pairs <==>
              exists c :: c in ConsideredConfigurations(target, project) && PairFor(target, certificates, profiles, c) == Some(p)
    ensures |pairs| == |set c | c in ConsideredConfigurations(target, project) && PairFor(target, certificates, profiles, c).Some?|
  {
    var cs := ConsideredConfigurations(target, project);
    var pairOf := PairOf(target, certificates, profiles);
    var present := set c | c in cs && PairFor(target, certificates, profiles, c).Some?;
    CompactMapCount(cs, pairOf, present);
    var pairs := CompactMap(Elements(cs), pairOf);
    assert forall p :: p in pairs <==> exists c :: c in cs && pairOf(c) == Some(p);
    pairs
  }

  function PairOf(target: Target, certificates: ByTargetAndConfiguration<Certificate>,
                  profiles: ByTargetAndConfiguration<ProvisioningProfile>): BuildConfiguration -> Option<SigningPair>
  {
    c => PairFor(target, certificates, profiles, c)
  }

  function PairCertificate(p: SigningPair): Certificate {
    p.certificate
  }

  function PairProfile(p: SigningPair): ProvisioningProfile {
    p.provisioningProfile
  }

  /** The certificates handed to the installer, in pair order. */
  ghost function InstalledCertificates(target: Target, project: Project, certificates: ByTargetAndConfiguration<Certificate>,
                                       profiles: ByTargetAndConfiguration<ProvisioningProfile>): (r: seq<Certificate>)
    ensures |r| == |set c | c in ConsideredConfigurations(target, project) && PairFor(target, certificates, profiles, c).Some?|
    ensures forall i :: 0 <= i < |r| ==> r[i] == SigningPairs(target, project, certificates, profiles)[i].certificate
  {
    Map(SigningPairs(target, project, certificates, profiles), PairCertificate)
  }

  /** The provisioning profiles handed to the installer, in pair order. */
  ghost function InstalledProfiles(target: Target, project: Project, certificates: ByTargetAndConfiguration<Certificate>,
                                   profiles: ByTargetAndConfiguration<ProvisioningProfile>): (r: seq<ProvisioningProfile>)
    ensures |r| == |set c | c in ConsideredConfigurations(target, project) && PairFor(target, certificates, profiles, c).Some?|
    ensures forall i :: 0 <= i < |r| ==> r[i] == SigningPairs(target, project, certificates, profiles)[i].provisioningProfile
  {
    Map(SigningPairs(target, project, certificates, profiles), PairProfile)
  }

  /** A certificate is installed iff some considered configuration has
      both a certificate and a provisioning profile under its name and that
      certificate is the recorded one. */
  lemma InstalledCertificatesAreSelected(target: Target, project: Project, certificates: ByTargetAndConfiguration<Certificate>,
                                         profiles: ByTargetAndConfiguration<ProvisioningProfile>, cert: Certificate)
    ensures cert in InstalledCertificates(target, project, certificates, profiles) <==>
              exists c :: c in ConsideredConfigurations(target, project) && LookUp(profiles, target.name, c.name).Some? &&
                          LookUp(certificates, target.name, c.name) == Some(cert)
  {
    var cs := ConsideredConfigurations(target, project);
    var pairs := SigningPairs(target, project, certificates, profiles);
    if cert in InstalledCertificates(target, project, certificates, profiles) {
      var p :| p in pairs && cert == PairCertificate(p);
      var c :| c in cs && PairFor(target, certificates, profiles, c) == Some(p);
      assert LookUp(certificates, target.name, c.name) == Some(cert);
    }
    if exists c :: c in cs && LookUp(profiles, target.name, c.name).Some? && LookUp(certificates, target.name, c.name) == Some(cert) {
      var c :| c in cs && LookUp(profiles, target.name, c.name).Some? && LookUp(certificates, target.name, c.name) == Some(cert);
      var p := PairFor(target, certificates, profiles, c).value;
      assert p in pairs && PairCertificate(p) == cert;
    }
  }

  /** A provisioning profile is installed iff some considered configuration
      has both a certificate and a profile under its name and that profile
      is the recorded one. */
  lemma InstalledProfilesAreSelected(target: Target, project: Project, certificates: ByTargetAndConfiguration<Certificate>,
                                     profiles: ByTargetAndConfiguration<ProvisioningProfile>, profile: ProvisioningProfile)
    ensures profile in InstalledProfiles(target, project, certificates, profiles) <==>
              exists c :: c in ConsideredConfigurations(target, project) && LookUp(certificates, target.name, c.name).Some? &&
                          LookUp(profiles, target.name, c.name) == Some(profile)
  {
    var cs := ConsideredConfigurations(target, project);
    var pairs := SigningPairs(target, project, certificates, profiles);
    if profile in InstalledProfiles(target, project, certificates, profiles) {
      var p :| p in pairs && profile == PairProfile(p);
      var c :| c in cs && PairFor(target, certificates, profiles, c) == Some(p);
      assert LookUp(profiles, target.name, c.name) == Some(profile);
    }
    if exists c :: c in cs && LookUp(certificates, target.name, c.name).Some? && LookUp(profiles, target.name, c.name) == Some(profile) {
      var c :| c in cs && LookUp(certificates, target.name, c.name).Some? && LookUp(profiles, target.name, c.name) == Some(profile);
      var p := PairFor(target, certificates, profiles, c).value;
      assert p in pairs && PairProfile(p) == profile;
    }
  }

  /** The installer gets as many certificates as profiles, and the i-th of
      each come from the same considered configuration. */
  lemma InstalledPairsAlign(target: Target, project: Project, certificates: ByTargetAndConfiguration<Certificate>,
                            profiles: ByTargetAndConfiguration<ProvisioningProfile>)
    ensures |InstalledProfiles(target, project, certificates, profiles)| == |InstalledCertificates(target, project, certificates, profiles)|
    ensures forall i :: 0 <= i < |InstalledCertificates(target, project, certificates, profiles)| ==>
              InstalledAtSameConfiguration(target, project, certificates, profiles, i)
  {
    forall i | 0 <= i < |InstalledCertificates(target, project, certificates, profiles)|
      ensures InstalledAtSameConfiguration(target, project, certificates, profiles, i)
    {
      InstalledPairAt(target, project, certificates, profiles, i);
    }
  }

  /** The i-th installed certificate and the i-th installed profile are the
      ones recorded under one considered configuration. */
  ghost predicate InstalledAtSameConfiguration(target: Target, project: Project, certificates: ByTargetAndConfiguration<Certificate>,
                                               profiles: ByTargetAndConfiguration<ProvisioningProfile>, i: int)
  {
    var installedCertificates := InstalledCertificates(target, project, certificates, profiles);
    var installedProfiles := InstalledProfiles(target, project, certificates, profiles);
    0 <= i < |installedCertificates| && i < |installedProfiles| &&
    exists c :: c in ConsideredConfigurations(target, project) &&
                LookUp(certificates, target.name, c.name) == Some(installedCertificates[i]) &&
                LookUp(profiles, target.name, c.name) == Some(installedProfiles[i])
  }

  /** One index of InstalledPairsAlign. */
  lemma InstalledPairAt(target: Target, project: Project, certificates: ByTargetAndConfiguration<Certificate>,
                        profiles: ByTargetAndConfiguration<ProvisioningProfile>, i: int)
    ensures 0 <= i < |InstalledCertificates(target, project, certificates, profiles)| ==>
              InstalledAtSameConfiguration(target, project, certificates, profiles, i)
  {
    var pairs := SigningPairs(target, project, certificates, profiles);
    var installedCertificates := InstalledCertificates(target, project, certificates, profiles);
    var installedProfiles := InstalledProfiles(target, project, certificates, profiles);
    if 0 <= i < |installedCertificates| {
      assert installedCertificates[i] == pairs[i].certificate;
      assert installedProfiles[i] == pairs[i].provisioningProfile;
      assert pairs[i] in pairs;
      var c :| c in ConsideredConfigurations(target, project) && PairFor(target, certificates, profiles, c) == Some(pairs[i]);
      PairComponentsAreLookedUp(target, certificates, profiles, c);
    }
  }

  /** A pair's certificate and profile are the ones recorded for its configuration. */
  lemma PairComponentsAreLookedUp(target: Target, certificates: ByTargetAndConfiguration<Certificate>,
                                  profiles: ByTargetAndConfiguration<ProvisioningProfile>, c: BuildConfiguration)
    requires PairFor(target, certificates, profiles, c).Some?
    ensures LookUp(certificates, target.name, c.name) == Some(PairFor(target, certificates, profiles, c).value.certificate)
    ensures LookUp(profiles, target.name, c.name) == Some(PairFor(target, certificates, profiles, c).value.provisioningProfile)
  {
  }

  /** A target without settings contributes no configuration: only the
      project's configurations are considered. */
  lemma TargetWithoutSettingsUsesProjectConfigurations(target: Target, project: Project)
    requires target.settings.None?
    ensures ConsideredConfigurations(target, project) == project.settings.configurations.Keys
  {
  }

  // ---------------------------------------------------------------------
  // The team-id memo caches

  datatype RemoteProvisioningProfile = RemoteProvisioningProfile(id: string, name: string)

  datatype RemoteCertificateType = RemoteDevelopment | RemoteDistribution

  datatype RemoteCertificate = RemoteCertificate(id: string, certificateType: RemoteCertificateType)

  /** What one cached lookup gives: the list or the controller's error, the
      cache afterwards, and whether the controller was called. */
  datatype CacheOutcome<T> = CacheOutcome(result: Result<seq<T>, string>, entries: map<string, seq<T>>, calledController: bool)

  /** One get-or-fetch on a cache keyed by team id; fetched is what the
      controller answers when it is asked. */
  function CacheLookup<T>(entries: map<string, seq<T>>, teamId: string, fetched: Result<seq<T>, string>): (r: CacheOutcome<T>)
    ensures r.calledController <==> teamId !in entries
    ensures teamId in entries ==> r.result == Success(entries[teamId]) && r.entries == entries
    ensures teamId !in entries ==> r.result == fetched
    ensures r.result.Success? ==> teamId in r.entries && r.entries[teamId] == r.result.value
    ensures r.result.Failure? ==> r.entries == entries
    ensures r.entries.Keys <= entries.Keys + {teamId}
    ensures forall k :: k in entries ==> k in r.entries && r.entries[k] == entries[k]
  {
    if teamId in entries then CacheOutcome(Success(entries[teamId]), entries, false)
    else match fetched
      case Success(list) => CacheOutcome(fetched, entries[teamId := list], true)
      case Failure(_) => CacheOutcome(fetched, entries, true)
  }

  /** Once a lookup has succeeded, every later lookup with an API key of the
      same team id, whatever its other fields, returns the same list without
      calling the controller and leaves the cache as it is. */
  lemma SameTeamIdSharesEntry<T>(entries: map<string, seq<T>>, first: APIKey, second: APIKey,
                                 fetched: Result<seq<T>, string>, refetched: Result<seq<T>, string>)
    requires first.teamId == second.teamId
    requires CacheLookup(entries, first.teamId, fetched).result.Success?
    ensures var before := CacheLookup(entries, first.teamId, fetched);
            var after := CacheLookup(before.entries, second.teamId, refetched);
            !after.calledController && after.result == before.result && after.entries == before.entries
  {
  }

  /** A failed fetch is not remembered: the next lookup asks the controller again. */
  lemma FailureIsRetried<T>(entries: map<string, seq<T>>, teamId: string, fetched: Result<seq<T>, string>, refetched: Result<seq<T>, string>)
    requires CacheLookup(entries, teamId, fetched).result.Failure?
    ensures CacheLookup(CacheLookup(entries, teamId, fetched).entries, teamId, refetched).calledController
  {
  }

  /** The three caches. The source keeps them in static dictionaries shared
      by every interactor; here they are the fields of one object. */
  class SigningInteractor {
    var remoteProvisioningProfiles: map<string, seq<RemoteProvisioningProfile>>
    var devices: map<string, seq<string>>
    var certificates: map<string, seq<RemoteCertificate>>

    constructor()
      ensures remoteProvisioningProfiles == map[] && devices == map[] && certificates == map[]
    {
      remoteProvisioningProfiles := map[];
      devices := map[];
      certificates := map[];
    }

    /** remoteProvisioningProfiles(for:) */
    method RemoteProvisioningProfilesFor(apiKey: APIKey, fetched: Result<seq<RemoteProvisioningProfile>, string>)
      returns (r: Result<seq<RemoteProvisioningProfile>, string>, calledController: bool)
      modifies this
      ensures CacheOutcome(r, remoteProvisioningProfiles, calledController) ==
              CacheLookup(old(remoteProvisioningProfiles), apiKey.teamId, fetched)
      ensures devices == old(devices) && certificates == old(certificates)
    {
      if apiKey.teamId in remoteProvisioningProfiles {
        r, calledController := Success(remoteProvisioningProfiles[apiKey.teamId]), false;
      } else {
        r, calledController := fetched, true;
        if fetched.Success? {
          remoteProvisioningProfiles := remoteProvisioningProfiles[apiKey.teamId := fetched.value];
        }
      }
    }

    /** deviceIds(for:) */
    method DeviceIdsFor(apiKey: APIKey, fetched: Result<seq<string>, string>)
      returns (r: Result<seq<string>, string>, calledController: bool)
      modifies this
      ensures CacheOutcome(r, devices, calledController) == CacheLookup(old(devices), apiKey.teamId, fetched)
      ensures remoteProvisioningProfiles == old(remoteProvisioningProfiles) && certificates == old(certificates)
    {
      if apiKey.teamId in devices {
        r, calledController := Success(devices[apiKey.teamId]), false;
      } else {
        r, calledController := fetched, true;
        if fetched.Success? {
          devices := devices[apiKey.teamId := fetched.value];
        }
      }
    }

    /** certificates(for:) */
    method CertificatesFor(apiKey: APIKey, fetched: Result<seq<RemoteCertificate>, string>)
      returns (r: Result<seq<RemoteCertificate>, string>, calledController: bool)
      modifies this
      ensures CacheOutcome(r, certificates, calledController) == CacheLookup(old(certificates), apiKey.teamId, fetched)
      ensures remoteProvisioningProfiles == old(remoteProvisioningProfiles) && devices == old(devices)
    {
      if apiKey.teamId in certificates {
        r, calledController := Success(certificates[apiKey.teamId]), false;
      } else {
        r, calledController := fetched, true;
        if fetched.Success? {
          certificates := certificates[apiKey.teamId := fetched.value];
        }
      }
    }
  }

  /** Two profile lookups for API keys of one team: the second is served
      from the cache whatever the controller would have answered. */
  method LookUpProfilesTwice(interactor: SigningInteractor, first: APIKey, second: APIKey,
                             fetched: Result<seq<RemoteProvisioningProfile>, string>,
                             refetched: Result<seq<RemoteProvisioningProfile>, string>)
    returns (r1: Result<seq<RemoteProvisioningProfile>, string>, r2: Result<seq<RemoteProvisioningProfile>, string>, calledAgain: bool)
    requires first.teamId == second.teamId
    modifies interactor
    ensures r1.Success? ==> !calledAgain && r2 == r1
    ensures r1.Failure? ==> calledAgain && r2 == refetched
  {
    var called;
    r1, called := interactor.RemoteProvisioningProfilesFor(first, fetched);
    r2, calledAgain := interactor.RemoteProvisioningProfilesFor(second, refetched);
  }

  // ---------------------------------------------------------------------
  // vendor(graph:): which targets are vendored, with which API key

  datatype SigningType = DevelopmentSigning | DistributionSigning

  function SigningTypeOf(signing: Signing): SigningType {
    match signing
    case Development(_, _) => DevelopmentSigning
    case Distribution(_, _) => DistributionSigning
  }

  function SigningOf(t: Target): Option<(Target, Signing)> {
    match t.signing
    case None => None
    case Some(signing) => Some((t, signing))
  }

  /** The project's targets that have a signing, each with it, in order. */
  function SigningTargets(project: Project): (r: seq<(Target, Signing)>)
    ensures forall t, s :: (t, s) in r <==> t in project.targets && t.signing == Some(s)
  {
    var r := CompactMap(project.targets, SigningOf);
    assert forall t, s :: (t, s) in r ==> SigningOf(t) == Some((t, s));
    r
  }

  /** The first API key, in the key set's iteration order apiKeys, whose file
      name starts with the team id. */
  function APIKeyFor(apiKeys: seq<AbsolutePath>, teamId: string): (r: Option<AbsolutePath>)
    ensures r.Some? ==> r.value in apiKeys && HasPrefix(r.value.Basename(), teamId)
    ensures r.None? <==> forall k :: k in apiKeys ==> !HasPrefix(k.Basename(), teamId)
  {
    First(apiKeys, (k: AbsolutePath) => HasPrefix(k.Basename(), teamId))
  }

  /** What vendoring does with one signing target before talking to App
      Store Connect. */
  datatype VendorDecision =
    | SkipValidProfile(profile: ProvisioningProfile)
    | SkipMissingAPIKey(teamId: string)
    | UseAPIKey(apiKeyPath: AbsolutePath, signingType: SigningType, configuration: string)

  /** A target whose recorded profile has not expired at now is skipped; so
      is one with no API key for its team; otherwise the first matching key
      is used. */
  function VendorDecisionFor(target: Target, signing: Signing, profiles: ByTargetAndConfiguration<ProvisioningProfile>,
                             apiKeys: seq<AbsolutePath>, now: int): (d: VendorDecision)
    ensures d.SkipValidProfile? <==>
              LookUp(profiles, target.name, signing.configuration).Some? &&
              profiles[target.name][signing.configuration].expirationDate >= now
    ensures d.SkipValidProfile? ==> d.profile == profiles[target.name][signing.configuration]
    ensures d.SkipMissingAPIKey? <==>
              !d.SkipValidProfile? && forall k :: k in apiKeys ==> !HasPrefix(k.Basename(), signing.teamId)
    ensures d.SkipMissingAPIKey? ==> d.teamId == signing.teamId
    ensures d.UseAPIKey? ==> d.apiKeyPath in apiKeys && HasPrefix(d.apiKeyPath.Basename(), signing.teamId) &&
                             d.signingType == SigningTypeOf(signing) && d.configuration == signing.configuration
  {
    var profile := LookUp(profiles, target.name, signing.configuration);
    if profile.Some? && profile.value.expirationDate >= now then SkipValidProfile(profile.value)
    else
      match APIKeyFor(apiKeys, signing.teamId)
      case None => SkipMissingAPIKey(signing.teamId)
      case Some(path) => UseAPIKey(path, SigningTypeOf(signing), signing.configuration)
  }

  function DecideFor(profiles: ByTargetAndConfiguration<ProvisioningProfile>, apiKeys: seq<AbsolutePath>, now: int):
    ((Target, Signing)) -> (Target, VendorDecision)
  {
    (ts: (Target, Signing)) => (ts.0, VendorDecisionFor(ts.0, ts.1, profiles, apiKeys, now))
  }

  /** One decision per signing target of every project, projects in order. */
  function VendorPlan(projects: seq<Project>, profiles: ByTargetAndConfiguration<ProvisioningProfile>,
                      apiKeys: seq<AbsolutePath>, now: int): (plan: seq<(Target, VendorDecision)>)
    ensures forall t, d :: (t, d) in plan <==>
              exists p, s :: p in projects && t in p.targets && t.signing == Some(s) &&
                             d == VendorDecisionFor(t, s, profiles, apiKeys, now)
  {
    if projects == [] then []
    else
      var init := projects[..|projects| - 1];
      var last := projects[|projects| - 1];
      var rest := VendorPlan(init, profiles, apiKeys, now);
      var decided := Map(SigningTargets(last), DecideFor(profiles, apiKeys, now));
      assert forall p :: p in projects <==> p in init || p == last;
      rest + decided
  }

  /** The loop over the graph's projects and their signing targets. */
  predicate HasSigning(t: Target) {
    t.signing.Some?
  }

  /** The targets of every project, project after project, each project's
      targets in their own order. */
  function AllTargets(projects: seq<Project>): seq<Target> {
    if projects == [] then []
    else AllTargets(projects[..|projects| - 1]) + projects[|projects| - 1].targets
  }

  /** The targets vendoring considers, in the order it considers them. */
  function SignedTargets(projects: seq<Project>): seq<Target> {
    Filter(AllTargets(projects), HasSigning)
  }

  /** plan holds one decision per target of targets, in the same order, each
      the decision for that target's own signing. */
  predicate PlanFollows(plan: seq<(Target, VendorDecision)>, targets: seq<Target>,
                        profiles: ByTargetAndConfiguration<ProvisioningProfile>, apiKeys: seq<AbsolutePath>, now: int)
  {
    |plan| == |targets| &&
    forall i :: 0 <= i < |plan| ==> DecidedFor(plan[i], targets[i], profiles, apiKeys, now)
  }

  /** entry is the decision for the signed target t and its own signing. */
  predicate DecidedFor(entry: (Target, VendorDecision), t: Target,
                       profiles: ByTargetAndConfiguration<ProvisioningProfile>, apiKeys: seq<AbsolutePath>, now: int)
  {
    entry.0 == t && t.signing.Some? && entry.1 == VendorDecisionFor(t, t.signing.value, profiles, apiKeys, now)
  }

  /** Vendoring decides once for every signed target of every project, in
      project order and then target order. */
  lemma {:induction false} VendorPlanFollowsSignedTargets(projects: seq<Project>, profiles: ByTargetAndConfiguration<ProvisioningProfile>,
                                                          apiKeys: seq<AbsolutePath>, now: int)
    ensures PlanFollows(VendorPlan(projects, profiles, apiKeys, now), SignedTargets(projects), profiles, apiKeys, now)
    decreases |projects|
  {
    if projects != [] {
      var init := projects[..|projects| - 1];
      var last := projects[|projects| - 1];
      VendorPlanFollowsSignedTargets(init, profiles, apiKeys, now);
      FilterAppend(AllTargets(init), last.targets, HasSigning);
      SigningTargetsFollowTargets(last.targets);
      DecisionsFollow(SigningTargets(last), Filter(last.targets, HasSigning), profiles, apiKeys, now);
      PlanFollowsAppend(VendorPlan(init, profiles, apiKeys, now), Map(SigningTargets(last), DecideFor(profiles, apiKeys, now)),
                        SignedTargets(init), Filter(last.targets, HasSigning), profiles, apiKeys, now);
    }
  }

  /** pairs holds each target of targets, in order, with its signing. */
  predicate PairsFollow(pairs: seq<(Target, Signing)>, targets: seq<Target>) {
    |pairs| == |targets| &&
    forall i :: 0 <= i < |pairs| ==> pairs[i].0 == targets[i] && targets[i].signing == Some(pairs[i].1)
  }

  /** The (target, signing) pairs of targets are its signed targets, in order. */
  lemma {:induction false} SigningTargetsFollowTargets(targets: seq<Target>)
    ensures PairsFollow(CompactMap(targets, SigningOf), Filter(targets, HasSigning))
  {
    if targets != [] {
      SigningTargetsFollowTargets(targets[1..]);
      var rest, frest := CompactMap(targets[1..], SigningOf), Filter(targets[1..], HasSigning);
      if HasSigning(targets[0]) {
        PairsFollowCons(targets[0], targets[0].signing.value, rest, frest);
      } else {
        assert CompactMap(targets, SigningOf) == rest && Filter(targets, HasSigning) == frest;
      }
    }
  }

  lemma PairsFollowCons(t: Target, s: Signing, pairs: seq<(Target, Signing)>, targets: seq<Target>)
    requires PairsFollow(pairs, targets) && t.signing == Some(s)
    ensures PairsFollow([(t, s)] + pairs, [t] + targets)
  {
    forall i | 0 < i < |pairs| + 1
      ensures ([(t, s)] + pairs)[i].0 == ([t] + targets)[i] && ([t] + targets)[i].signing == Some(([(t, s)] + pairs)[i].1)
    {
      assert ([(t, s)] + pairs)[i] == pairs[i - 1] && ([t] + targets)[i] == targets[i - 1];
    }
  }

  lemma DecisionsFollow(pairs: seq<(Target, Signing)>, targets: seq<Target>,
                        profiles: ByTargetAndConfiguration<ProvisioningProfile>, apiKeys: seq<AbsolutePath>, now: int)
    requires PairsFollow(pairs, targets)
    ensures PlanFollows(Map(pairs, DecideFor(profiles, apiKeys, now)), targets, profiles, apiKeys, now)
  {
  }

  lemma PlanFollowsAppend(a: seq<(Target, VendorDecision)>, b: seq<(Target, VendorDecision)>, ta: seq<Target>, tb: seq<Target>,
                          profiles: ByTargetAndConfiguration<ProvisioningProfile>, apiKeys: seq<AbsolutePath>, now: int)
    requires PlanFollows(a, ta, profiles, apiKeys, now) && PlanFollows(b, tb, profiles, apiKeys, now)
    ensures PlanFollows(a + b, ta + tb, profiles, apiKeys, now)
  {
    forall i | 0 <= i < |a + b|
      ensures DecidedFor((a + b)[i], (ta + tb)[i], profiles, apiKeys, now)
    {
      if i < |a| {
        assert (a + b)[i] == a[i] && (ta + tb)[i] == ta[i];
      } else {
        assert (a + b)[i] == b[i - |a|] && (ta + tb)[i] == tb[i - |a|];
      }
    }
  }

  method Vendor(projects: seq<Project>, profiles: ByTargetAndConfiguration<ProvisioningProfile>,
                apiKeys: seq<AbsolutePath>, now: int) returns (plan: seq<(Target, VendorDecision)>)
    ensures plan == VendorPlan(projects, profiles, apiKeys, now)
  {
    plan := [];
    for i := 0 to |projects|
      invariant plan == VendorPlan(projects[..i], profiles, apiKeys, now)
    {
      assert projects[..i + 1][..i] == projects[..i];
      plan := plan + Map(SigningTargets(projects[i]), DecideFor(profiles, apiKeys, now));
    }
    assert projects[..|projects|] == projects;
  }

  /** The key chosen for a team is matched by prefix only: when it parses,
      its team id component starts with the target's team id (and equals
      it only when no longer team id shares that prefix). */
  lemma ChosenKeyTeamIdStartsWithTeamId(path: AbsolutePath, teamId: string, text: string)
    requires HasPrefix(path.Basename(), teamId) && forall c :: c in teamId ==> c != '.'
    requires Parse(path, text).Success?
    ensures HasPrefix(Parse(path, text).value.teamId, teamId)
  {
    var b := path.Basename();
    SplitCount(b, IsDot);
    assert |Split(b, IsDot)| == 4;
    SplitHasSeparator(b, IsDot);
    var i := FirstIndexWhere(b, IsDot);
    assert i < |b|;
    SplitAtFirst(b, IsDot, i);
    assert Parse(path, text).value.teamId == b[..i];
    forall k | 0 <= k < |teamId| ensures !IsDot(b[k]) {
      assert b[k] == b[..|teamId|][k];
      assert teamId[k] in teamId;
    }
    assert b[..i][..|teamId|] == teamId;
  }
}
