/**
 The key-encryption keys held in the process, over an ideal authenticated cipher. Random bytes are
 arguments, and the text encoding and the cipher are parameters.
 */
module Kek {
  import opened Wrappers
  import opened Base64Url

  type Bytes = seq<Byte>

  const IV_BYTES := 12
  const TAG_BYTES := 16
  const DATA_KEY_BYTES := 32
  const KEK_BYTES := 32

  datatype Sealed = Sealed(tag: Bytes, body: Bytes)

  /** UTF-8 both ways, and AES-256-GCM: key, IV, associated data, then the text or the tag and body. */
  datatype Primitives = Primitives(
    utf8: string -> Bytes,
    text: Bytes -> string,
    seal: (Bytes, Bytes, Bytes, Bytes) -> Sealed,
    open: (Bytes, Bytes, Bytes, Bytes, Bytes) -> Option<Bytes>)

  /** What was sealed opens again, and sealing keeps lengths. */
  ghost predicate Correct(p: Primitives) {
    && (forall key: Bytes, iv: Bytes, aad: Bytes, plain: Bytes ::
          var s := p.seal(key, iv, aad, plain);
          |s.tag| == TAG_BYTES && |s.body| == |plain| && p.open(key, iv, aad, s.tag, s.body) == Some(plain))
    && (forall key: Bytes, iv: Bytes, aad: Bytes, tag: Bytes, body: Bytes ::
          var r := p.open(key, iv, aad, tag, body);
          r.Some? ==> |r.value| == |body|)
  }

  /** A version that survives UTF-8, as every well-formed, non-empty string does. */
  predicate WellFormed(p: Primitives, version: string) {
    version != "" && |p.utf8(version)| > 0 && p.text(p.utf8(version)) == version
  }

  datatype Error = InvalidKey | UnknownVersion(version: string) | DecryptionFailed | Malformed

  datatype Kek = Kek(keys: map<string, Bytes>, current: string)

  datatype WrappedKey = WrappedKey(wrapped: Bytes, keyVersion: string)

  predicate Valid(kek: Kek) {
    && kek.current in kek.keys
    && forall version <- kek.keys :: version != "" && |kek.keys[version]| == KEK_BYTES
  }

  /** The constructor: refused exactly when the options could not serve. */
  function FromOptions(keys: map<string, Bytes>, currentVersion: string): (r: Result<Kek, Error>)
    ensures r.Ok? <==> Valid(Kek(keys, currentVersion))
    ensures r.Ok? ==> r.value == Kek(keys, currentVersion)
  {
    if |keys| == 0 then assert currentVersion in keys ==> |keys| > 0; Err(InvalidKey)
    else if exists version <- keys :: version == "" || |keys[version]| != KEK_BYTES then Err(InvalidKey)
    else if currentVersion !in keys then Err(InvalidKey)
    else Ok(Kek(keys, currentVersion))
  }

  /** Wraps under the current version, which is authenticated with the key. */
  function Wrap(p: Primitives, kek: Kek, iv: Bytes, dataKey: Bytes): WrappedKey
    requires Valid(kek)
  {
    var s := p.seal(kek.keys[kek.current], iv, p.utf8(kek.current), dataKey);
    WrappedKey(iv + s.tag + s.body, kek.current)
  }

  function Unwrap(p: Primitives, kek: Kek, key: WrappedKey): Result<Bytes, Error> {
    if key.keyVersion !in kek.keys then Err(UnknownVersion(key.keyVersion))
    else if |key.wrapped| <= IV_BYTES + TAG_BYTES then Err(DecryptionFailed)
    else
      var iv := key.wrapped[..IV_BYTES];
      var tag := key.wrapped[IV_BYTES..IV_BYTES + TAG_BYTES];
      var body := key.wrapped[IV_BYTES + TAG_BYTES..];
      match p.open(kek.keys[key.keyVersion], iv, p.utf8(key.keyVersion), tag, body)
      case Some(dataKey) => Ok(dataKey)
      case None => Err(DecryptionFailed)
  }

  /** One provider still holds another's current key. */
  predicate StillServes(later: Kek, kek: Kek) {
    kek.current in kek.keys && kek.current in later.keys && later.keys[kek.current] == kek.keys[kek.current]
  }

  /** A wrapped key unwraps under any provider that still holds the version it was wrapped under. */
  lemma {:induction false} UnwrapWrap(p: Primitives, kek: Kek, later: Kek, iv: Bytes, dataKey: Bytes)
    requires Correct(p) && Valid(kek) && StillServes(later, kek) && |iv| == IV_BYTES && |dataKey| > 0
    ensures Unwrap(p, later, Wrap(p, kek, iv, dataKey)) == Ok(dataKey)
    ensures |Wrap(p, kek, iv, dataKey).wrapped| > IV_BYTES + TAG_BYTES
  {
    var s := p.seal(kek.keys[kek.current], iv, p.utf8(kek.current), dataKey);
    var wrapped := iv + s.tag + s.body;
    assert wrapped[..IV_BYTES] == iv;
    assert wrapped[IV_BYTES..IV_BYTES + TAG_BYTES] == s.tag;
    assert wrapped[IV_BYTES + TAG_BYTES..] == s.body;
  }

  lemma {:induction false} UnwrappedIsNotEmpty(p: Primitives, kek: Kek, key: WrappedKey)
    requires Correct(p) && Unwrap(p, kek, key).Ok?
    ensures |Unwrap(p, kek, key).value| == |key.wrapped| - IV_BYTES - TAG_BYTES > 0
  {
  }
}
