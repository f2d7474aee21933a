/** ProjectDescription's Signing and its Codable conformance. The keyed
    container is a map from key to encoded value; a kind is encoded as its
    raw value. */
module ProjectDescriptionSigning {
  import opened Wrappers

  datatype Signing =
    | Development(teamId: string, configuration: string)
    | Distribution(teamId: string, configuration: string)

  /** The private Kind enumeration. */
  datatype Kind = KindDevelopment | KindDistribution

  /** The coding keys. */
  const KindKey := "kind"
  const TeamIdKey := "teamId"
  const ConfigurationKey := "configuration"

  type Container = map<string, string>

  /** The two ways decoding a keyed container fails: a key is missing, or a
      value is not a raw value of the expected enumeration. */
  datatype DecodingError = KeyNotFound(key: string) | DataCorrupted(key: string)

  function KindRawValue(k: Kind): string {
    match k
    case KindDevelopment => "development"
    case KindDistribution => "distribution"
  }

  /** Kind(rawValue:): the kind whose raw value is s, if any. */
  function KindFromRawValue(s: string): (r: Option<Kind>)
    ensures r.Some? <==> s == "development" || s == "distribution"
    ensures r.Some? ==> KindRawValue(r.value) == s
  {
    if s == "development" then Some(KindDevelopment)
    else if s == "distribution" then Some(KindDistribution)
    else None
  }

  function KindOf(s: Signing): Kind {
    match s
    case Development(_, _) => KindDevelopment
    case Distribution(_, _) => KindDistribution
  }

  /** encode(to:): the kind, the team id and the configuration under their keys. */
  function Encode(s: Signing): (c: Container)
    ensures c.Keys == {KindKey, TeamIdKey, ConfigurationKey}
    ensures c[KindKey] == if s.Development? then "development" else "distribution"
    ensures c[TeamIdKey] == s.teamId && c[ConfigurationKey] == s.configuration
  {
    map[KindKey := KindRawValue(KindOf(s)), TeamIdKey := s.teamId, ConfigurationKey := s.configuration]
  }

  /** init(from:): read the kind, then the team id, then the configuration;
      the first of them that is missing or malformed is the error. */
  function Decode(c: Container): (r: Result<Signing, DecodingError>)
    ensures KindKey !in c ==> r == Failure(KeyNotFound(KindKey))
    ensures KindKey in c && KindFromRawValue(c[KindKey]).None? ==> r == Failure(DataCorrupted(KindKey))
    ensures r.Success? <==> KindKey in c && (c[KindKey] == "development" || c[KindKey] == "distribution") &&
                            TeamIdKey in c && ConfigurationKey in c
    ensures r.Success? ==> r.value.teamId == c[TeamIdKey] && r.value.configuration == c[ConfigurationKey] &&
                           (r.value.Development? <==> c[KindKey] == "development")
  {
    if KindKey !in c then Failure(KeyNotFound(KindKey))
    else match KindFromRawValue(c[KindKey])
      case None => Failure(DataCorrupted(KindKey))
      case Some(kind) =>
        if TeamIdKey !in c then Failure(KeyNotFound(TeamIdKey))
        else if ConfigurationKey !in c then Failure(KeyNotFound(ConfigurationKey))
        else match kind
          case KindDevelopment => Success(Development(c[TeamIdKey], c[ConfigurationKey]))
          case KindDistribution => Success(Distribution(c[TeamIdKey], c[ConfigurationKey]))
  }

  /** Decoding what was encoded gives back the same signing, for both kinds. */
  lemma DecodeEncode(s: Signing)
    ensures Decode(Encode(s)) == Success(s)
  {
    var c := Encode(s);
    assert KindFromRawValue(c[KindKey]) == Some(KindOf(s));
  }

  /** A container that decodes agrees with the encoding of what it decodes
      to on every key that encoding writes; other keys are ignored. */
  lemma EncodeDecode(c: Container)
    requires Decode(c).Success?
    ensures forall k :: k in Encode(Decode(c).value) ==> k in c && c[k] == Encode(Decode(c).value)[k]
  {
  }

  /** A missing team id or configuration fails with that key, once the kind is valid. */
  lemma DecodeMissingKey(c: Container)
    requires KindKey in c && KindFromRawValue(c[KindKey]).Some?
    ensures TeamIdKey !in c ==> Decode(c) == Failure(KeyNotFound(TeamIdKey))
    ensures TeamIdKey in c && ConfigurationKey !in c ==> Decode(c) == Failure(KeyNotFound(ConfigurationKey))
  {
  }
}
