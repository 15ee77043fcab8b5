/**
 Envelope encryption of one stored value: a data key of its own, wrapped under the KEK, in a text
 of four parts. Rotation changes the wrapped key only.
 */
module Envelope {
  import opened Wrappers
  import opened Text
  import opened Base64Url
  import opened Kek

  const FORMAT := "enc1"
  const FORMAT_PREFIX := "enc1."

  datatype Parsed = Parsed(key: WrappedKey, body: Bytes)

  function Print(p: Primitives, key: WrappedKey, body: Bytes): string {
    Join([FORMAT, Encode(p.utf8(key.keyVersion)), Encode(key.wrapped), Encode(body)], '.')
  }

  function FromBase64Url(s: string): Result<Bytes, Error> {
    if s == "" || !IsText(s) then Err(Malformed) else Ok(Decode(s))
  }

  function Parse(p: Primitives, ciphertext: string): (r: Result<Parsed, Error>)
    ensures r.Err? ==> r.error == Malformed
    ensures r.Ok? ==> |r.value.body| >= IV_BYTES + TAG_BYTES && r.value.key.keyVersion != ""
  {
    var parts := Split(ciphertext, '.');
    if |parts| != 4 || parts[0] != FORMAT then Err(Malformed)
    else
      match (FromBase64Url(parts[1]), FromBase64Url(parts[2]), FromBase64Url(parts[3]))
      case (Ok(version), Ok(wrapped), Ok(body)) =>
        if p.text(version) == "" || |body| < IV_BYTES + TAG_BYTES then Err(Malformed)
        else Ok(Parsed(WrappedKey(wrapped, p.text(version)), body))
      case _ => Err(Malformed)
  }

  /** What `encrypt` and `rotate` print: a well-formed version, a wrapped key, an IV and a tag at least. */
  predicate Printable(p: Primitives, key: WrappedKey, body: Bytes) {
    WellFormed(p, key.keyVersion) && |key.wrapped| > 0 && |body| >= IV_BYTES + TAG_BYTES
  }

  lemma {:induction false} EncodedReadsBack(bytes: Bytes)
    requires |bytes| > 0
    ensures FromBase64Url(Encode(bytes)) == Ok(bytes)
  {
    RoundTrip(bytes);
  }

  lemma {:induction false} PrintedParts(p: Primitives, key: WrappedKey, body: Bytes)
    ensures Split(Print(p, key, body), '.') == [FORMAT, Encode(p.utf8(key.keyVersion)), Encode(key.wrapped), Encode(body)]
  {
    HasNoDot(p.utf8(key.keyVersion));
    HasNoDot(key.wrapped);
    HasNoDot(body);
    SplitJoin([FORMAT, Encode(p.utf8(key.keyVersion)), Encode(key.wrapped), Encode(body)], '.');
  }

  /** Parsing inverts printing. */
  lemma {:induction false} ParsePrint(p: Primitives, key: WrappedKey, body: Bytes)
    requires Printable(p, key, body)
    ensures Parse(p, Print(p, key, body)) == Ok(Parsed(key, body))
  {
    PrintedParts(p, key, body);
    EncodedReadsBack(p.utf8(key.keyVersion));
    EncodedReadsBack(key.wrapped);
    EncodedReadsBack(body);
  }

  // ---------- Encrypt, decrypt, rotate ----------

  function AadBytes(p: Primitives, aad: Option<string>): Bytes {
    match aad
    case None => []
    case Some(text) => p.utf8(text)
  }

  /** `encrypt` with its three random values given. */
  function Encrypted(p: Primitives, kek: Kek, dataKey: Bytes, iv: Bytes, wrapIv: Bytes, plain: Bytes, aad: Option<string>): string
    requires Valid(kek)
  {
    var s := p.seal(dataKey, iv, AadBytes(p, aad), plain);
    Print(p, Wrap(p, kek, wrapIv, dataKey), iv + s.tag + s.body)
  }

  function Opened(p: Primitives, dataKey: Bytes, body: Bytes, aad: Option<string>): Result<Bytes, Error>
    requires |body| >= IV_BYTES + TAG_BYTES
  {
    if |dataKey| != DATA_KEY_BYTES then Err(DecryptionFailed)
    else
      match p.open(dataKey, body[..IV_BYTES], AadBytes(p, aad), body[IV_BYTES..IV_BYTES + TAG_BYTES], body[IV_BYTES + TAG_BYTES..])
      case Some(plain) => Ok(plain)
      case None => Err(DecryptionFailed)
  }

  function Decrypted(p: Primitives, kek: Kek, ciphertext: string, aad: Option<string>): Result<Bytes, Error> {
    match Parse(p, ciphertext)
    case Err(e) => Err(e)
    case Ok(parsed) =>
      match Unwrap(p, kek, parsed.key)
      case Err(e) => Err(e)
      case Ok(dataKey) => Opened(p, dataKey, parsed.body, aad)
  }

  function Rotated(p: Primitives, kek: Kek, wrapIv: Bytes, ciphertext: string): Result<string, Error>
    requires Valid(kek)
  {
    match Parse(p, ciphertext)
    case Err(e) => Err(e)
    case Ok(parsed) =>
      if parsed.key.keyVersion == kek.current then Ok(ciphertext)
      else
        match Unwrap(p, kek, parsed.key)
        case Err(e) => Err(e)
        case Ok(dataKey) => Ok(Print(p, Wrap(p, kek, wrapIv, dataKey), parsed.body))
  }

  function NeedsRotation(p: Primitives, kek: Kek, ciphertext: string): Result<bool, Error> {
    match Parse(p, ciphertext)
    case Err(e) => Err(e)
    case Ok(parsed) => Ok(parsed.key.keyVersion != kek.current)
  }

  /** A value decrypts, under its own associated data, wherever its key version is still held. */
  lemma {:induction false} DecryptEncrypt(p: Primitives, kek: Kek, later: Kek, dataKey: Bytes, iv: Bytes, wrapIv: Bytes,
                                          plain: Bytes, aad: Option<string>)
    requires Correct(p) && Valid(kek) && WellFormed(p, kek.current) && StillServes(later, kek)
    requires |dataKey| == DATA_KEY_BYTES && |iv| == |wrapIv| == IV_BYTES
    ensures Decrypted(p, later, Encrypted(p, kek, dataKey, iv, wrapIv, plain, aad), aad) == Ok(plain)
  {
    var s := p.seal(dataKey, iv, AadBytes(p, aad), plain);
    var body := iv + s.tag + s.body;
    UnwrapWrap(p, kek, later, wrapIv, dataKey);
    ParsePrint(p, Wrap(p, kek, wrapIv, dataKey), body);
    assert body[..IV_BYTES] == iv;
    assert body[IV_BYTES..IV_BYTES + TAG_BYTES] == s.tag;
    assert body[IV_BYTES + TAG_BYTES..] == s.body;
  }

  // ---------- What does not open ----------

  /** Nothing opens but what was sealed under the same key, IV and associated data. */
  ghost predicate Authentic(p: Primitives) {
    forall key: Bytes, iv: Bytes, aad: Bytes, tag: Bytes, body: Bytes ::
      var r := p.open(key, iv, aad, tag, body);
      r.Some? ==> p.seal(key, iv, aad, r.value) == Sealed(tag, body)
  }

  /** The three parts of a sealed value. */
  predicate IsSealed(p: Primitives, key: Bytes, iv: Bytes, aad: Bytes, plain: Bytes, bytes: Bytes) {
    var s := p.seal(key, iv, aad, plain);
    bytes == iv + s.tag + s.body
  }

  /** What the cipher makes of three parts in one. */
  function OpenedParts(p: Primitives, key: Bytes, aad: Bytes, bytes: Bytes): Option<Bytes>
    requires |bytes| >= IV_BYTES + TAG_BYTES
  {
    p.open(key, bytes[..IV_BYTES], aad, bytes[IV_BYTES..IV_BYTES + TAG_BYTES], bytes[IV_BYTES + TAG_BYTES..])
  }

  lemma {:induction false} OpensIffSealed(p: Primitives, key: Bytes, aad: Bytes, bytes: Bytes, plain: Bytes)
    requires Correct(p) && Authentic(p) && |bytes| >= IV_BYTES + TAG_BYTES
    ensures OpenedParts(p, key, aad, bytes) == Some(plain) <==> IsSealed(p, key, bytes[..IV_BYTES], aad, plain, bytes)
  {
    var iv, tag, body := bytes[..IV_BYTES], bytes[IV_BYTES..IV_BYTES + TAG_BYTES], bytes[IV_BYTES + TAG_BYTES..];
    var s := p.seal(key, iv, aad, plain);
    assert bytes == iv + tag + body;
    assert |s.tag| == TAG_BYTES && p.open(key, iv, aad, s.tag, s.body) == Some(plain);
    if IsSealed(p, key, iv, aad, plain, bytes) {
      assert (iv + s.tag + s.body)[IV_BYTES..IV_BYTES + TAG_BYTES] == s.tag;
      assert (iv + s.tag + s.body)[IV_BYTES + TAG_BYTES..] == s.body;
    }
  }

  /** The wrapped key was sealed under the named version's key, with the version; the value under the data key, with `aad`. */
  ghost predicate Genuine(p: Primitives, kek: Kek, parsed: Parsed, aad: Option<string>, dataKey: Bytes, plain: Bytes)
    requires |parsed.body| >= IV_BYTES
  {
    && parsed.key.keyVersion in kek.keys && |parsed.key.wrapped| > IV_BYTES + TAG_BYTES && |dataKey| == DATA_KEY_BYTES
    && IsSealed(p, kek.keys[parsed.key.keyVersion], parsed.key.wrapped[..IV_BYTES], p.utf8(parsed.key.keyVersion), dataKey,
                parsed.key.wrapped)
    && IsSealed(p, dataKey, parsed.body[..IV_BYTES], AadBytes(p, aad), plain, parsed.body)
  }

  /** A stored text decrypts to exactly what was sealed in it: both parts genuine, each with its own associated data. */
  lemma {:induction false} DecryptsIffGenuine(p: Primitives, kek: Kek, ciphertext: string, aad: Option<string>, plain: Bytes)
    requires Correct(p) && Authentic(p)
    ensures Decrypted(p, kek, ciphertext, aad) == Ok(plain) <==>
            Parse(p, ciphertext).Ok? && exists dataKey :: Genuine(p, kek, Parse(p, ciphertext).value, aad, dataKey, plain)
  {
    if Parse(p, ciphertext).Ok? {
      var parsed := Parse(p, ciphertext).value;
      var version := parsed.key.keyVersion;
      if version in kek.keys && |parsed.key.wrapped| > IV_BYTES + TAG_BYTES {
        forall dataKey
          ensures Genuine(p, kek, parsed, aad, dataKey, plain) <==>
                  && |dataKey| == DATA_KEY_BYTES
                  && OpenedParts(p, kek.keys[version], p.utf8(version), parsed.key.wrapped) == Some(dataKey)
                  && OpenedParts(p, dataKey, AadBytes(p, aad), parsed.body) == Some(plain)
        {
          OpensIffSealed(p, kek.keys[version], p.utf8(version), parsed.key.wrapped, dataKey);
          OpensIffSealed(p, dataKey, AadBytes(p, aad), parsed.body, plain);
        }
      }
    }
  }

  /** Some text sealed under the other associated data gives the very same tag and body. */
  ghost predicate Collides(p: Primitives, dataKey: Bytes, iv: Bytes, plain: Bytes, aad: Option<string>, other: Option<string>) {
    exists text :: p.seal(dataKey, iv, AadBytes(p, other), text) == p.seal(dataKey, iv, AadBytes(p, aad), plain)
  }

  /**
   A value moved elsewhere, so read under other associated data, is refused; exactly unless the cipher
   collides, sealing some text there to the same bytes.
   */
  lemma {:induction false} MovedValueIsRefused(p: Primitives, kek: Kek, later: Kek, dataKey: Bytes, iv: Bytes, wrapIv: Bytes,
                                               plain: Bytes, aad: Option<string>, other: Option<string>)
    requires Correct(p) && Authentic(p) && Valid(kek) && WellFormed(p, kek.current) && StillServes(later, kek)
    requires |dataKey| == DATA_KEY_BYTES && |iv| == |wrapIv| == IV_BYTES
    ensures var r := Decrypted(p, later, Encrypted(p, kek, dataKey, iv, wrapIv, plain, aad), other);
            if Collides(p, dataKey, iv, plain, aad, other) then r.Ok? else r == Err(DecryptionFailed)
  {
    var s := p.seal(dataKey, iv, AadBytes(p, aad), plain);
    var body := iv + s.tag + s.body;
    UnwrapWrap(p, kek, later, wrapIv, dataKey);
    ParsePrint(p, Wrap(p, kek, wrapIv, dataKey), body);
    assert body[..IV_BYTES] == iv;
    assert body[IV_BYTES..IV_BYTES + TAG_BYTES] == s.tag;
    assert body[IV_BYTES + TAG_BYTES..] == s.body;
    if text :| p.seal(dataKey, iv, AadBytes(p, other), text) == s {
      assert p.open(dataKey, iv, AadBytes(p, other), s.tag, s.body) == Some(text);
    }
  }

  // ---------- Rotation ----------

  /** Rotation fails exactly when the value cannot be read, or its old version is gone. */
  predicate Rotatable(p: Primitives, kek: Kek, ciphertext: string) {
    && Parse(p, ciphertext).Ok?
    && (Parse(p, ciphertext).value.key.keyVersion == kek.current || Unwrap(p, kek, Parse(p, ciphertext).value.key).Ok?)
  }

  /**
   Rotation succeeds exactly on rotatable values. The result is under the current version with its
   IV, tag and sealed bytes untouched, and needs no further rotation.
   */
  lemma {:induction false} RotateReachesCurrent(p: Primitives, kek: Kek, wrapIv: Bytes, ciphertext: string)
    requires Correct(p) && Valid(kek) && WellFormed(p, kek.current) && |wrapIv| == IV_BYTES
    ensures Rotated(p, kek, wrapIv, ciphertext).Ok? <==> Rotatable(p, kek, ciphertext)
    ensures Rotatable(p, kek, ciphertext) ==>
      var next := Rotated(p, kek, wrapIv, ciphertext).value;
      && Parse(p, next).Ok?
      && Parse(p, next).value.body == Parse(p, ciphertext).value.body
      && NeedsRotation(p, kek, next) == Ok(false)
      && Rotated(p, kek, wrapIv, next) == Ok(next)
  {
    if Rotatable(p, kek, ciphertext) {
      var parsed := Parse(p, ciphertext).value;
      if parsed.key.keyVersion != kek.current {
        var dataKey := Unwrap(p, kek, parsed.key).value;
        UnwrappedIsNotEmpty(p, kek, parsed.key);
        UnwrapWrap(p, kek, kek, wrapIv, dataKey);
        ParsePrint(p, Wrap(p, kek, wrapIv, dataKey), parsed.body);
      }
    }
  }

  /** Once rotated, a value no longer needs any older version: they can be retired. */
  lemma {:induction false} OldVersionsCanGo(p: Primitives, kek: Kek, later: Kek, wrapIv: Bytes, ciphertext: string, aad: Option<string>)
    requires Correct(p) && Valid(kek) && WellFormed(p, kek.current) && |wrapIv| == IV_BYTES && StillServes(later, kek)
    requires Rotated(p, kek, wrapIv, ciphertext).Ok?
    ensures Decrypted(p, later, Rotated(p, kek, wrapIv, ciphertext).value, aad) == Decrypted(p, kek, ciphertext, aad)
  {
    RotateKeepsMeaning(p, kek, kek, wrapIv, ciphertext, aad);
    RotateReachesCurrent(p, kek, wrapIv, ciphertext);
  }

  // ---------- Finding rows by prefix ----------

  function CurrentPrefix(p: Primitives, kek: Kek): string {
    FORMAT_PREFIX + Encode(p.utf8(kek.current)) + "."
  }

  /** SQL's `left(value, n)`. */
  function Left(s: string, n: nat): string {
    if |s| <= n then s else s[..n]
  }

  /** The SQL predicate of the re-wrap job, on a value that is not null. */
  predicate UnderOlderVersion(value: string, currentPrefix: string) {
    Left(value, |FORMAT_PREFIX|) == FORMAT_PREFIX && Left(value, |currentPrefix|) != currentPrefix
  }

  lemma {:induction false} LeftIsPrefix(s: string, prefix: string)
    ensures Left(s, |prefix|) == prefix <==> prefix <= s
  {
  }

  /** Text up to a separator is a prefix of other text exactly when both begin with the same piece. */
  lemma {:induction false} FirstPiece(piece: string, s: string)
    requires '.' !in piece
    ensures piece + "." <= s <==> (Split(s, '.')[0] == piece && |Split(s, '.')| > 1)
  {
    var parts := Split(s, '.');
    if piece + "." <= s {
      assert s == piece + ['.'] + s[|piece| + 1..];
      SplitFirst(piece, '.', s[|piece| + 1..]);
    }
    if parts[0] == piece && |parts| > 1 {
      JoinSplit(s, '.');
      assert s == piece + ['.'] + Join(parts[1..], '.');
    }
  }

  /** Behind the format's prefix, a value that parses starts with its version. */
  lemma {:induction false} VersionFollows(p: Primitives, value: string) returns (rest: string)
    requires Parse(p, value).Ok?
    ensures value == FORMAT_PREFIX + rest && |Split(rest, '.')| == 3 && Split(rest, '.')[0] == Split(value, '.')[1]
  {
    var parts := Split(value, '.');
    rest := Join(parts[1..], '.');
    JoinSplit(value, '.');
    SplitJoin(parts[1..], '.');
  }

  /** On a value that parses, the prefix test looks at the version's own text. */
  lemma {:induction false} PrefixReadsVersion(p: Primitives, kek: Kek, value: string)
    requires Parse(p, value).Ok?
    ensures UnderOlderVersion(value, CurrentPrefix(p, kek)) <==> Split(value, '.')[1] != Encode(p.utf8(kek.current))
  {
    var rest := VersionFollows(p, value);
    var piece := Encode(p.utf8(kek.current));
    HasNoDot(p.utf8(kek.current));
    FirstPiece(piece, rest);
    LeftIsPrefix(value, FORMAT_PREFIX);
    LeftIsPrefix(value, CurrentPrefix(p, kek));
    assert CurrentPrefix(p, kek) == FORMAT_PREFIX + (piece + ".");
    PrefixAfter(FORMAT_PREFIX, piece + ".", rest);
  }

  lemma {:induction false} PrefixAfter(front: string, a: string, b: string)
    ensures front + a <= front + b <==> a <= b
  {
    if front + a <= front + b {
      assert a == (front + a)[|front|..] && b == (front + b)[|front|..];
      assert b[..|a|] == (front + b)[..|front + a|][|front|..];
    }
  }

  /** For everything `encrypt` and `rotate` print, the SQL test finds exactly the values that need rotation. */
  lemma {:induction false} PrefixTestIsNeedsRotation(p: Primitives, kek: Kek, key: WrappedKey, body: Bytes)
    requires Printable(p, key, body) && WellFormed(p, kek.current)
    ensures NeedsRotation(p, kek, Print(p, key, body)) == Ok(UnderOlderVersion(Print(p, key, body), CurrentPrefix(p, kek)))
  {
    var value := Print(p, key, body);
    ParsePrint(p, key, body);
    PrefixReadsVersion(p, kek, value);
    RoundTrip(p.utf8(key.keyVersion));
    RoundTrip(p.utf8(kek.current));
    PrintedParts(p, key, body);
  }

  /** The version is written the way the encoder writes it. */
  predicate CanonicalVersion(p: Primitives, value: string)
    requires Parse(p, value).Ok?
  {
    Split(value, '.')[1] == Encode(p.utf8(Parse(p, value).value.key.keyVersion))
  }

  /** The test misses nothing; on any stored text that parses it is exact unless the current version is oddly spelled. */
  lemma {:induction false} PrefixTestOnAnyValue(p: Primitives, kek: Kek, value: string)
    requires Parse(p, value).Ok? && WellFormed(p, kek.current)
    ensures NeedsRotation(p, kek, value) == Ok(true) ==> UnderOlderVersion(value, CurrentPrefix(p, kek))
    ensures NeedsRotation(p, kek, value) == Ok(UnderOlderVersion(value, CurrentPrefix(p, kek)))
       <==> (NeedsRotation(p, kek, value) == Ok(false) ==> CanonicalVersion(p, value))
  {
    PrefixReadsVersion(p, kek, value);
    RoundTrip(p.utf8(kek.current));
  }

  lemma {:induction false} OddText()
    ensures IsText("ax") && Decode("ax") == [0x6B] && Encode([0x6B]) == "aw" && '.' !in "ax"
  {
    assert DigitOf('a') == 26 && DigitOf('x') == 49;
  }

  /**
   Such a value exists: "ax" and "aw" both spell the byte of the version "k". The test selects it for
   rotation for ever, though it is under the current version and `rotate` gives it back unchanged.
   */
  lemma {:induction false} OddSpellingIsSelected(p: Primitives, kek: Kek, wrapped: Bytes, body: Bytes, wrapIv: Bytes)
    requires p.utf8("k") == [0x6B] && p.text([0x6B]) == "k" && Valid(kek) && kek.current == "k"
    requires |wrapped| > 0 && |body| >= IV_BYTES + TAG_BYTES
    ensures var value := Join([FORMAT, "ax", Encode(wrapped), Encode(body)], '.');
            && NeedsRotation(p, kek, value) == Ok(false)
            && UnderOlderVersion(value, CurrentPrefix(p, kek))
            && Rotated(p, kek, wrapIv, value) == Ok(value)
  {
    var value := Join([FORMAT, "ax", Encode(wrapped), Encode(body)], '.');
    OddText();
    HasNoDot(wrapped);
    HasNoDot(body);
    SplitJoin([FORMAT, "ax", Encode(wrapped), Encode(body)], '.');
    EncodedReadsBack(wrapped);
    EncodedReadsBack(body);
    assert Parse(p, value) == Ok(Parsed(WrappedKey(wrapped, "k"), body));
    PrefixReadsVersion(p, kek, value);
  }

  // ---------- Several providers ----------

  /** The keys one provider holds are among another's. */
  predicate Extends(all: Kek, kek: Kek) {
    forall version <- kek.keys :: version in all.keys && all.keys[version] == kek.keys[version]
  }

  /**
   Rotation by any copy of the service keeps the meaning of a value, for any reader that holds its
   keys and under every associated data: what decrypted before decrypts to the same bytes after, and
   what was refused is refused alike.
   */
  lemma {:induction false} RotateKeepsMeaning(p: Primitives, all: Kek, kek: Kek, wrapIv: Bytes, ciphertext: string, aad: Option<string>)
    requires Correct(p) && Valid(kek) && WellFormed(p, kek.current) && |wrapIv| == IV_BYTES && Extends(all, kek)
    requires Rotated(p, kek, wrapIv, ciphertext).Ok?
    ensures Decrypted(p, all, Rotated(p, kek, wrapIv, ciphertext).value, aad) == Decrypted(p, all, ciphertext, aad)
  {
    var parsed := Parse(p, ciphertext).value;
    if parsed.key.keyVersion != kek.current {
      var dataKey := Unwrap(p, kek, parsed.key).value;
      assert Unwrap(p, all, parsed.key) == Ok(dataKey);
      UnwrappedIsNotEmpty(p, kek, parsed.key);
      UnwrapWrap(p, kek, all, wrapIv, dataKey);
      ParsePrint(p, Wrap(p, kek, wrapIv, dataKey), parsed.body);
    }
  }

  // ---------- The operations, with their buffers ----------

  method Wipe(buffer: array<Byte>)
    modifies buffer
    ensures forall i :: 0 <= i < buffer.Length ==> buffer[i] == 0
  {
    var i := 0;
    while i < buffer.Length
      invariant 0 <= i <= buffer.Length
      invariant forall j :: 0 <= j < i ==> buffer[j] == 0
    {
      buffer[i] := 0;
      i := i + 1;
    }
  }

  /** `dataKey` holds the fresh random key; it does not survive the call. */
  method Encrypt(p: Primitives, kek: Kek, dataKey: array<Byte>, iv: Bytes, wrapIv: Bytes, plain: Bytes, aad: Option<string>)
      returns (ciphertext: string)
    requires Valid(kek)
    modifies dataKey
    ensures ciphertext == Encrypted(p, kek, old(dataKey[..]), iv, wrapIv, plain, aad)
    ensures forall i :: 0 <= i < dataKey.Length ==> dataKey[i] == 0
  {
    var s := p.seal(dataKey[..], iv, AadBytes(p, aad), plain);
    var body := iv + s.tag + s.body;
    var wrapped := Wrap(p, kek, wrapIv, dataKey[..]);
    Wipe(dataKey);
    ciphertext := Join([FORMAT, Encode(p.utf8(wrapped.keyVersion)), Encode(wrapped.wrapped), Encode(body)], '.');
  }

  method UnwrapToBuffer(p: Primitives, kek: Kek, key: WrappedKey) returns (r: Result<array<Byte>, Error>)
    ensures r.Ok? <==> Unwrap(p, kek, key).Ok?
    ensures r.Ok? ==> fresh(r.value) && r.value[..] == Unwrap(p, kek, key).value
    ensures r.Err? ==> r.error == Unwrap(p, kek, key).error
  {
    var unwrapped := Unwrap(p, kek, key);
    match unwrapped
    case Err(e) => r := Err(e);
    case Ok(bytes) =>
      var buffer := new Byte[|bytes|](i requires 0 <= i < |bytes| => bytes[i]);
      r := Ok(buffer);
  }

  /** `used` is the buffer the data key was in, if there was one: wiped, whether or not it opened the value. */
  method Decrypt(p: Primitives, kek: Kek, ciphertext: string, aad: Option<string>)
      returns (r: Result<Bytes, Error>, used: Option<array<Byte>>)
    ensures r == Decrypted(p, kek, ciphertext, aad)
    ensures used.Some? ==> fresh(used.value) && forall i :: 0 <= i < used.value.Length ==> used.value[i] == 0
    ensures r.Ok? ==> used.Some?
  {
    used := None;
    var parsed := Parse(p, ciphertext);
    if parsed.Err? {
      return Err(parsed.error), None;
    }
    var dataKey := UnwrapToBuffer(p, kek, parsed.value.key);
    if dataKey.Err? {
      return Err(dataKey.error), None;
    }
    r := Opened(p, dataKey.value[..], parsed.value.body, aad);
    Wipe(dataKey.value);
    used := Some(dataKey.value);
  }

  method Rotate(p: Primitives, kek: Kek, wrapIv: Bytes, ciphertext: string)
      returns (r: Result<string, Error>, used: Option<array<Byte>>)
    requires Valid(kek)
    ensures r == Rotated(p, kek, wrapIv, ciphertext)
    ensures used.Some? ==> fresh(used.value) && forall i :: 0 <= i < used.value.Length ==> used.value[i] == 0
    ensures r.Ok? ==> r.value == ciphertext || used.Some?
  {
    used := None;
    var parsed := Parse(p, ciphertext);
    if parsed.Err? {
      return Err(parsed.error), None;
    }
    if parsed.value.key.keyVersion == kek.current {
      return Ok(ciphertext), None;
    }
    var dataKey := UnwrapToBuffer(p, kek, parsed.value.key);
    if dataKey.Err? {
      return Err(dataKey.error), None;
    }
    var rewrapped := Wrap(p, kek, wrapIv, dataKey.value[..]);
    r := Ok(Print(p, rewrapped, parsed.value.body));
    Wipe(dataKey.value);
    used := Some(dataKey.value);
  }
}
