/** TuistCore.Signing.from(manifest:): the manifest's signing turned into
    the core model's signing, case for case. */
module SigningManifestMapper {
  import Manifest = ProjectDescriptionSigning
  import Core = Models

  /** from(manifest:). It is declared throwing but has no failing case, so
      the model is a total function. */
  function FromManifest(manifest: Manifest.Signing): (r: Core.Signing)
    ensures manifest.Development? <==> r.Development?
    ensures r.teamId == manifest.teamId && r.configuration == manifest.configuration
  {
    match manifest
    case Development(teamId, configuration) => Core.Development(teamId, configuration)
    case Distribution(teamId, configuration) => Core.Distribution(teamId, configuration)
  }

  /** Different manifest signings map to different core signings. */
  lemma FromManifestInjective(a: Manifest.Signing, b: Manifest.Signing)
    requires FromManifest(a) == FromManifest(b)
    ensures a == b
  {
  }

  /** Every core signing comes from exactly one manifest signing: the
      mapping loses nothing and can be undone. */
  lemma FromManifestSurjective(s: Core.Signing)
    ensures exists m :: FromManifest(m) == s
  {
    var m := if s.Development? then Manifest.Development(s.teamId, s.configuration)
             else Manifest.Distribution(s.teamId, s.configuration);
    assert FromManifest(m) == s;
  }
}
