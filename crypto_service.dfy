/**
 * The hybrid-cipher envelope: an AES-256-CBC encryption of the JSON text
 * whose key is wrapped with RSA-OAEP (SHA-256), packaged as three base64
 * fields separated by ':'. The cryptographic, base64, UTF-8, hashing and
 * JSON primitives are function-valued parameters; the laws they must obey
 * are collected in `Lawful`.
 */
module CryptoService {
  import opened JsValues

  type Byte = b: int | 0 <= b < 256
  type Bytes = seq<Byte>

  /** crypto.randomBytes(32): the AES-256 key */
  const AesKeyBytes: nat := 32
  /** crypto.randomBytes(16): the CBC initialisation vector */
  const IvBytes: nat := 16
  /** The separator between the three fields of a package. */
  const Delimiter: char := ':'

  /** The RSA key pair read once at start-up (PEM texts). */
  datatype KeyPair = KeyPair(privateKey: string, publicKey: string)

  /** The platform primitives the envelope and the store are built from. */
  datatype Primitives = Primitives(
    stringify: Json -> string,               // JSON.stringify(v)
    stringifyIndented: Json -> string,       // JSON.stringify(v, null, 2)
    parse: string -> Option<Json>,           // JSON.parse, None when it throws
    sha256Hex: string -> string,             // sha256(utf8(text)).digest('hex')
    b64Encode: Bytes -> string,              // buffer.toString('base64')
    b64Decode: string -> Bytes,              // Buffer.from(text, 'base64')
    utf8Encode: string -> Bytes,             // Buffer.from(text, 'utf8')
    utf8Decode: Bytes -> string,             // buffer.toString('utf8')
    aesEncrypt: (Bytes, Bytes, string) -> string,          // key, iv, utf8 text -> base64
    aesDecrypt: (Bytes, Bytes, string) -> Option<string>,  // key, iv, base64 -> utf8 text
    rsaEncrypt: (string, Bytes) -> Bytes,                  // publicEncrypt, OAEP/SHA-256
    rsaDecrypt: (string, Bytes) -> Option<Bytes>)          // privateDecrypt, OAEP/SHA-256

  /** The process-wide cipher configuration: primitives and key pair. */
  datatype Codec = Codec(prims: Primitives, keys: KeyPair)

  /** The inverse laws of the primitives for the configured key pair. */
  ghost predicate Lawful(c: Codec) {
    var p := c.prims;
    && (forall j :: p.parse(p.stringify(j)) == Some(j))
    && (forall j :: p.parse(p.stringifyIndented(j)) == Some(j))
    && p.parse("") == None
    && (forall b :: p.b64Decode(p.b64Encode(b)) == b)
    && (forall b :: Delimiter !in p.b64Encode(b))
    && (forall s :: p.utf8Decode(p.utf8Encode(s)) == s)
    && (forall k, iv, t :: Delimiter !in p.aesEncrypt(k, iv, t))
    && (forall k, iv, t | |k| == AesKeyBytes && |iv| == IvBytes ::
          p.aesDecrypt(k, iv, p.aesEncrypt(k, iv, t)) == Some(t))
    && (forall m | |m| == AesKeyBytes ::
          p.rsaDecrypt(c.keys.privateKey, p.rsaEncrypt(c.keys.publicKey, m)) == Some(m))
  }

  // ------------------------------------------------------------ key loading

  datatype InitError = MissingPrivateKey | MissingPublicKey

  /** Module initialisation: the private key file is checked first, then the
      public one; `None` stands for a file that does not exist. */
  function LoadKeys(privateFile: Option<string>, publicFile: Option<string>): (r: Result<KeyPair, InitError>)
    ensures r.Success? <==> privateFile.Some? && publicFile.Some?
    ensures r.Success? ==> r.value.privateKey == privateFile.value && r.value.publicKey == publicFile.value
    ensures privateFile.None? ==> r == Failure(MissingPrivateKey)
    ensures privateFile.Some? && publicFile.None? ==> r == Failure(MissingPublicKey)
  {
    if privateFile.None? then Failure(MissingPrivateKey)
    else if publicFile.None? then Failure(MissingPublicKey)
    else Success(KeyPair(privateFile.value, publicFile.value))
  }

  // --------------------------------------------------------------- encrypt

  /** The three fields of a package, in order. */
  function PackageFields(c: Codec, obj: Json, aesKey: Bytes, iv: Bytes): seq<string> {
    var p := c.prims;
    [ p.b64Encode(iv),
      p.b64Encode(p.rsaEncrypt(c.keys.publicKey, aesKey)),
      p.aesEncrypt(aesKey, iv, p.stringify(obj)) ]
  }

  /** encryptJson: `aesKey` and `iv` are the fresh random bytes it draws;
      RSA encrypts only the AES key. */
  function EncryptJson(c: Codec, obj: Json, aesKey: Bytes, iv: Bytes): string
    requires |aesKey| == AesKeyBytes && |iv| == IvBytes
  {
    var p := c.prims;
    var json := p.stringify(obj);
    var encryptedData := p.aesEncrypt(aesKey, iv, json);
    var encryptedAesKey := p.rsaEncrypt(c.keys.publicKey, aesKey);
    p.b64Encode(iv) + [Delimiter] + p.b64Encode(encryptedAesKey) + [Delimiter] + encryptedData
  }

  lemma PackageIsJoinedFields(c: Codec, obj: Json, aesKey: Bytes, iv: Bytes)
    requires |aesKey| == AesKeyBytes && |iv| == IvBytes
    ensures EncryptJson(c, obj, aesKey, iv) == Join(PackageFields(c, obj, aesKey, iv), Delimiter)
  {
    var f := PackageFields(c, obj, aesKey, iv);
    assert f[1..][1..] == [f[2]];
    assert Join(f[1..], Delimiter) == f[1] + [Delimiter] + f[2];
    assert Join(f, Delimiter) == f[0] + [Delimiter] + (f[1] + [Delimiter] + f[2]);
  }

  /** Because base64 never produces ':', splitting a package gives back
      exactly its three fields in order. */
  lemma PackageSplitsIntoFields(c: Codec, obj: Json, aesKey: Bytes, iv: Bytes)
    requires Lawful(c)
    requires |aesKey| == AesKeyBytes && |iv| == IvBytes
    ensures Split(EncryptJson(c, obj, aesKey, iv), Delimiter) == PackageFields(c, obj, aesKey, iv)
  {
    PackageIsJoinedFields(c, obj, aesKey, iv);
    SplitJoin(PackageFields(c, obj, aesKey, iv), Delimiter);
  }

  // --------------------------------------------------------------- decrypt

  /** The failures decryption can raise. On the three-field path the
      underlying error propagates as it is; on the legacy path every failure
      becomes `UnknownFormat` ('Formato de cifrado desconocido o corrupto'). */
  datatype CryptoError =
    | RsaDecryptError       // privateDecrypt rejects the wrapped key or payload
    | CipherInitError       // createDecipheriv: key not 32 bytes or IV not 16 bytes
    | AesDecryptError       // decipher.final: bad padding or corrupt data
    | PlaintextSyntaxError  // JSON.parse of the decrypted text throws
    | UnknownFormat

  /** decryptJsonLegacy: the whole text is one base64 RSA-only ciphertext. */
  function DecryptJsonLegacy(c: Codec, base64Cipher: string): Result<Json, CryptoError> {
    var p := c.prims;
    match p.rsaDecrypt(c.keys.privateKey, p.b64Decode(base64Cipher))
    case None => Failure(RsaDecryptError)
    case Some(decrypted) =>
      match p.parse(p.utf8Decode(decrypted))
      case None => Failure(PlaintextSyntaxError)
      case Some(v) => Success(v)
  }

  /** The hybrid path for a package that split into exactly three fields. */
  function DecryptHybrid(c: Codec, parts: seq<string>): Result<Json, CryptoError>
    requires |parts| == 3
  {
    var p := c.prims;
    var iv := p.b64Decode(parts[0]);
    var encryptedAesKey := p.b64Decode(parts[1]);
    match p.rsaDecrypt(c.keys.privateKey, encryptedAesKey)
    case None => Failure(RsaDecryptError)
    case Some(aesKey) =>
      if |aesKey| != AesKeyBytes || |iv| != IvBytes then Failure(CipherInitError)
      else
        match p.aesDecrypt(aesKey, iv, parts[2])
        case None => Failure(AesDecryptError)
        case Some(text) =>
          match p.parse(text)
          case None => Failure(PlaintextSyntaxError)
          case Some(v) => Success(v)
  }

  /** decryptJson: the field count alone selects the path. */
  function DecryptJson(c: Codec, packageStr: string): (r: Result<Json, CryptoError>)
    // `UnknownFormat` is reported exactly when the legacy path was taken and failed
    ensures r.Failure? ==> (r.error == UnknownFormat <==> |Split(packageStr, Delimiter)| != 3)
    // a package that does not have three fields decrypts as a legacy ciphertext
    ensures |Split(packageStr, Delimiter)| != 3 ==>
              (r.Success? <==> DecryptJsonLegacy(c, packageStr).Success?) &&
              (r.Success? ==> r == DecryptJsonLegacy(c, packageStr))
    // a three-field package never reaches the legacy path: its failures propagate as they are
    ensures |Split(packageStr, Delimiter)| == 3 ==> r == DecryptHybrid(c, Split(packageStr, Delimiter))
  {
    var parts := Split(packageStr, Delimiter);
    if |parts| != 3 then
      match DecryptJsonLegacy(c, packageStr)
      case Success(v) => Success(v)
      case Failure(_) => Failure(UnknownFormat)
    else
      DecryptHybrid(c, parts)
  }

  /** decryptJson(encryptJson(o)) == o under the inverse laws. */
  lemma RoundTrip(c: Codec, obj: Json, aesKey: Bytes, iv: Bytes)
    requires Lawful(c)
    requires |aesKey| == AesKeyBytes && |iv| == IvBytes
    ensures DecryptJson(c, EncryptJson(c, obj, aesKey, iv)) == Success(obj)
  {
    PackageSplitsIntoFields(c, obj, aesKey, iv);
  }

  /** What the pre-hybrid writer stored: base64 of the RSA ciphertext of the JSON text. */
  function LegacyPackage(c: Codec, obj: Json): string {
    c.prims.b64Encode(c.prims.rsaEncrypt(c.keys.publicKey, c.prims.utf8Encode(c.prims.stringify(obj))))
  }

  /** A legacy package is still read, provided RSA inverts on that payload
      (the old payloads were small enough for the key). */
  lemma LegacyCompatible(c: Codec, obj: Json)
    requires Lawful(c)
    requires var m := c.prims.utf8Encode(c.prims.stringify(obj));
             c.prims.rsaDecrypt(c.keys.privateKey, c.prims.rsaEncrypt(c.keys.publicKey, m)) == Some(m)
    ensures DecryptJson(c, LegacyPackage(c, obj)) == Success(obj)
  {
    var pkg := LegacyPackage(c, obj);
    assert Delimiter !in pkg;
    SplitJoin([pkg], Delimiter);
  }
}
