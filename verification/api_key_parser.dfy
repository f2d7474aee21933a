/** APIKeyParser: reads an App Store Connect API key from a file named
    TeamId.APIKeyId.IssuerId.p8 whose text is a PEM block. The file name
    and the file text are inputs; reading the file is not modelled. */
module APIKeyParser {
  import opened Wrappers
  import opened Strings
  import opened Paths

  datatype APIKey = APIKey(teamId: string, issuerId: string, apiKeyId: string, privateKey: string)

  /** Each error carries the key's path string. */
  datatype APIKeyParserError = InvalidFormat(apiKey: string) | InvalidPrivateKey(apiKey: string)

  predicate IsDot(c: char) {
    c == '.'
  }

  /** Foundation's CharacterSet.newlines: U+000A through U+000D, U+0085,
      U+2028 and U+2029. */
  predicate IsNewline(c: char) {
    '\U{000A}' <= c <= '\U{000D}' || c == '\U{0085}' || c == '\U{2028}' || c == '\U{2029}'
  }

  /** The dot-separated components of the key's file name. */
  function NameComponents(path: AbsolutePath): seq<string> {
    Split(path.Basename(), IsDot)
  }

  /** The lines of the key file, cut at every newline character. */
  function Lines(text: string): seq<string> {
    Split(text, IsNewline)
  }

  /** parse(at:): the name must have exactly four dot-separated components,
      checked before the text is looked at; the text must have at least
      three lines; the private key is every line but the first and the
      last, glued together. */
  function Parse(path: AbsolutePath, text: string): (r: Result<APIKey, APIKeyParserError>)
    ensures r == Failure(InvalidFormat(path.PathString())) <==> CountWhere(path.Basename(), IsDot) != 3
    ensures r == Failure(InvalidPrivateKey(path.PathString())) <==>
              CountWhere(path.Basename(), IsDot) == 3 && CountWhere(text, IsNewline) < 2
    ensures r.Success? ==> forall c :: c in r.value.privateKey ==> !IsNewline(c)
  {
    var components := NameComponents(path);
    SplitCount(path.Basename(), IsDot);
    if |components| != 4 then Failure(InvalidFormat(path.PathString()))
    else
      var lines := Lines(text);
      SplitCount(text, IsNewline);
      if |lines| < 3 then Failure(InvalidPrivateKey(path.PathString()))
      else
        var privateKey := Concat(lines[1..|lines| - 1]);
        SplitComponentsHaveNoSeparator(text, IsNewline);
        PrivateKeyHasNoNewline(lines[1..|lines| - 1]);
        Success(APIKey(components[0], components[2], components[1], privateKey))
  }

  /** Gluing lines that contain no newline gives a text with no newline. */
  lemma {:induction false} PrivateKeyHasNoNewline(lines: seq<string>)
    requires forall i, c :: 0 <= i < |lines| && c in lines[i] ==> !IsNewline(c)
    ensures forall c :: c in Concat(lines) ==> !IsNewline(c)
  {
    if lines != [] {
      PrivateKeyHasNoNewline(lines[1..]);
      assert forall c :: c in Concat(lines) ==> c in lines[0] || c in Concat(lines[1..]);
    }
  }

  /** A successful parse reads the three identifiers from the file name:
      the name is teamId.apiKeyId.issuerId.extension, none of the four
      parts containing a dot. */
  lemma ParsedNameComponents(path: AbsolutePath, text: string)
    requires Parse(path, text).Success?
    ensures var key := Parse(path, text).value;
            exists ext :: path.Basename() == key.teamId + "." + key.apiKeyId + "." + key.issuerId + "." + ext &&
                          forall c :: c in key.teamId + key.apiKeyId + key.issuerId + ext ==> c != '.'
  {
    var key := Parse(path, text).value;
    var cs := NameComponents(path);
    JoinSplit(path.Basename(), IsDot, '.');
    SplitComponentsHaveNoSeparator(path.Basename(), IsDot);
    assert |cs| == 4;
    assert Join(cs, ".") == cs[0] + "." + cs[1] + "." + cs[2] + "." + cs[3] by {
      assert Join(cs[3..], ".") == cs[3];
      assert Join(cs[2..], ".") == cs[2] + "." + cs[3] by { assert cs[2..][1..] == cs[3..]; }
      assert Join(cs[1..], ".") == cs[1] + "." + Join(cs[2..], ".") by { assert cs[1..][1..] == cs[2..]; }
    }
    assert key.teamId == cs[0] && key.apiKeyId == cs[1] && key.issuerId == cs[2];
    var ext := cs[3];
    assert path.Basename() == key.teamId + "." + key.apiKeyId + "." + key.issuerId + "." + ext;
    forall c | c in key.teamId + key.apiKeyId + key.issuerId + ext ensures c != '.' {
      assert c in cs[0] || c in cs[1] || c in cs[2] || c in cs[3];
      if c in cs[0] { assert !IsDot(c); }
      else if c in cs[1] { assert !IsDot(c); }
      else if c in cs[2] { assert !IsDot(c); }
      else { assert 3 < |cs| && c in cs[3]; assert !IsDot(c); }
    }
  }

  /** The private key is the text strictly between the first and the last
      newline, with the newlines in between removed: the PEM body without
      its header and footer lines. */
  lemma PrivateKeyIsPemBody(path: AbsolutePath, text: string)
    requires Parse(path, text).Success?
    ensures exists i, j :: 0 <= i < j < |text| && IsNewline(text[i]) && IsNewline(text[j]) &&
                           (forall k :: 0 <= k < i ==> !IsNewline(text[k])) &&
                           (forall k :: j < k < |text| ==> !IsNewline(text[k])) &&
                           Parse(path, text).value.privateKey == RemoveWhere(text[i + 1..j], IsNewline)
  {
    var lines := Lines(text);
    SplitHasSeparator(text, IsNewline);
    var i := FirstIndexWhere(text, IsNewline);
    SplitAtFirst(text, IsNewline, i);
    var rest := text[i + 1..];
    SplitHasSeparator(rest, IsNewline);
    var jr := LastIndexWhere(rest, IsNewline);
    var j := i + 1 + jr;
    NoNewlineAfterLast(text, i, rest, jr);
    PemBodyLines(text, i, j);
    ConcatSplit(text[i + 1..j], IsNewline);
  }

  /** The last newline of the text after position i is the last newline of the text. */
  lemma NoNewlineAfterLast(text: string, i: nat, rest: string, jr: nat)
    requires i < |text| && rest == text[i + 1..] && jr < |rest|
    requires forall k :: jr < k < |rest| ==> !IsNewline(rest[k])
    ensures forall k :: i + 1 + jr < k < |text| ==> !IsNewline(text[k])
  {
    forall k | i + 1 + jr < k < |text| ensures !IsNewline(text[k]) {
      assert text[k] == rest[k - i - 1];
    }
  }

  /** With i the first and j the last newline, the lines between the first
      and the last are the lines of the text strictly between i and j. */
  lemma PemBodyLines(text: string, i: nat, j: nat)
    requires i < j < |text| && IsNewline(text[i]) && IsNewline(text[j])
    requires forall k :: 0 <= k < i ==> !IsNewline(text[k])
    requires forall k :: j < k < |text| ==> !IsNewline(text[k])
    ensures |Lines(text)| >= 2
    ensures Lines(text)[1..|Lines(text)| - 1] == Split(text[i + 1..j], IsNewline)
  {
    SplitAtFirst(text, IsNewline, i);
    var rest := text[i + 1..];
    var jr := j - i - 1;
    assert rest[jr] == text[j];
    forall k | jr < k < |rest| ensures !IsNewline(rest[k]) {
      assert rest[k] == text[k + i + 1];
    }
    SplitAtLast(rest, IsNewline, jr);
    assert rest[..jr] == text[i + 1..j];
  }
}
