/** The primitives the SDK takes from WebCrypto and the noble libraries, as parameters.
    `Lawful` lists the algebraic laws the proofs use; nothing is assumed about forgery or collisions
    except where a theorem states it for the values of one run. */
module Platform {
  import opened Options
  import opened Text
  import B = Base64Url
  import Json
  import Jcs

  datatype Platform = Platform(
    sign: (Bytes, Bytes) -> Bytes,                        // message, Ed25519 private key
    verify: (Bytes, Bytes, Bytes) -> bool,                // message, signature, Ed25519 public key
    edPub: Bytes -> Bytes,                                // Ed25519 public key of a private key
    xPub: Bytes -> Bytes,                                 // X25519 public key of a private key
    shared: (Bytes, Bytes) -> Option<Bytes>,              // X25519; None: the library throws
    hkdf: Bytes -> Bytes,                                 // sealed-box key of a shared secret
    seal: (Bytes, Bytes, Bytes, Bytes) -> Bytes,          // AES-GCM: key, nonce, plaintext, AAD
    open: (Bytes, Bytes, Bytes, Bytes) -> Option<Bytes>,  // AES-GCM: key, nonce, ciphertext, AAD
    sha256: Bytes -> Bytes,
    lossy: Bytes -> string)                               // TextDecoder on bytes that are not UTF-8

  const KEY_LENGTH := 32
  const NONCE_LENGTH := 12
  const TAG_LENGTH := 16

  ghost predicate Lawful(p: Platform) {
    && (forall m, k :: p.verify(m, p.sign(m, k), p.edPub(k)))
    && (forall m, k :: p.sign(m, k) != [])
    && (forall a, b :: p.shared(a, p.xPub(b)) == p.shared(b, p.xPub(a)))
    && (forall k :: |p.edPub(k)| == KEY_LENGTH && |p.xPub(k)| == KEY_LENGTH && |p.hkdf(k)| == KEY_LENGTH)
    && (forall b :: |p.sha256(b)| == 32)
    && (forall k, n, t, a :: p.open(k, n, p.seal(k, n, t, a), a) == Some(t))
    && (forall k, n, t, a :: |p.seal(k, n, t, a)| == |t| + TAG_LENGTH)
  }

  /** The laws are consistent: a (useless) platform satisfies them. */
  lemma LawfulPlatformExists() returns (p: Platform)
    ensures Lawful(p)
  {
    var zeros: Bytes := seq(32, i => 0);
    var tag: Bytes := seq(TAG_LENGTH, i => 0);
    p := Platform(
      (m, k) => [0], (m, s, k) => true, k => zeros, k => zeros, (a, b) => Some(zeros), s => zeros,
      (k, n, t, a) => t + tag,
      (k, n, c, a) => if |c| < TAG_LENGTH then None else Some(c[..|c| - TAG_LENGTH]),
      b => zeros, b => "");
    forall t: Bytes ensures (t + tag)[..|t + tag| - TAG_LENGTH] == t {}
  }

  function ToyTag(own: Bytes, aad: Bytes): Bytes {
    seq(TAG_LENGTH, i => if aad == own then 1 else 0)
  }

  function ToyOpen(own: Bytes, c: Bytes, aad: Bytes): Option<Bytes> {
    if |c| < TAG_LENGTH || c[|c| - TAG_LENGTH..] != ToyTag(own, aad) then None else Some(c[..|c| - TAG_LENGTH])
  }

  /** So is rejection of everything sealed with one associated data under any other. */
  lemma AadBindingPlatformExists(own: Bytes) returns (p: Platform)
    ensures Lawful(p)
    ensures forall k, n, t, aad :: aad != own ==> p.open(k, n, p.seal(k, n, t, own), aad) == None
  {
    var zeros: Bytes := seq(32, i => 0);
    p := Platform(
      (m, k) => [0], (m, s, k) => true, k => zeros, k => zeros, (a, b) => Some(zeros), s => zeros,
      (k, n, t, a) => t + ToyTag(own, a), (k, n, c, a) => ToyOpen(own, c, a), b => zeros, b => "");
    forall t: Bytes, a: Bytes, b: Bytes
      ensures ToyOpen(own, t + ToyTag(own, a), a) == Some(t)
      ensures b != own ==> ToyOpen(own, t + ToyTag(own, own), b) == None
    {
      Untagged(t, ToyTag(own, a));
      Untagged(t, ToyTag(own, own));
      assert ToyTag(own, own)[0] == 1 && (b != own ==> ToyTag(own, b)[0] == 0);
    }
  }

  lemma Untagged(t: Bytes, tag: Bytes)
    requires |tag| == TAG_LENGTH
    ensures (t + tag)[|t + tag| - TAG_LENGTH..] == tag && (t + tag)[..|t + tag| - TAG_LENGTH] == t
  {
  }

  /** TextDecoder: drops a leading byte order mark and replaces what is not UTF-8. */
  function DecodeText(p: Platform, b: Bytes): string {
    match Utf8Decode(b)
    case None => p.lossy(b)
    case Some(s) => if s != "" && s[0] == '\U{FEFF}' then s[1..] else s
  }

  /** TextDecoder undoes TextEncoder exactly on strings that do not start with a byte order mark. */
  lemma DecodedTextExactly(p: Platform, s: string)
    ensures DecodeText(p, Utf8(s)) == s <==> s == "" || s[0] != '\U{FEFF}'
  {
    Utf8RoundTrip(s);
    if s != "" { assert |s[1..]| < |s|; }
  }

  /** JSON.parse(DECODER.decode(b)); None where JSON.parse throws. */
  function ParseBytes(p: Platform, b: Bytes): Option<Json.Json> {
    Json.Parse(DecodeText(p, b))
  }

  lemma ParseBytesJcs(p: Platform, v: Json.Json)
    requires Json.WellFormed(v)
    ensures ParseBytes(p, Jcs.JcsBytes(v)) == Some(Jcs.Canon(v)) && Json.WellFormed(Jcs.Canon(v))
  {
    Jcs.ParseJcs(v);
    Json.PrintHead(Jcs.Canon(v), "");
  }

  // ----- leaf checks of the wire schemas (packages/core/src/schemas/primitives.ts) -----

  /** HEX_32: 64 lowercase hexadecimal characters. */
  predicate IsHex32(s: string) {
    |s| == 64 && IsHex(s)
  }

  const MAX_SAFE_INTEGER := 0x1F_FFFF_FFFF_FFFF

  predicate IsSafeInt(n: int) {
    -MAX_SAFE_INTEGER <= n <= MAX_SAFE_INTEGER
  }

  /** JavaScript's `s.length`. */
  function JsLength(s: string): nat {
    |Utf16(s)|
  }

  lemma KeyHex(k: Bytes)
    requires |k| == KEY_LENGTH
    ensures IsHex32(HexEncode(k)) && HexDecode(HexEncode(k)) == Some(k)
  {
    HexRoundTrip(k);
  }

  lemma EncodedIsBase64Url(b: Bytes)
    ensures B.Decode(B.Encode(b)) == Some(b)
    ensures B.IsBase64Url(B.Encode(b)) <==> b != []
  {
    B.RoundTrip(b);
    B.EncodedLength(b);
  }

  lemma HexText(s: string)
    requires IsHex32(s)
    ensures |Utf8(s)| == 64 && Utf8Decode(Utf8(s)) == Some(s)
  {
    forall i | 0 <= i < |s| ensures s[i] < '\U{0080}' { assert HexValue(s[i]).Some?; }
    AsciiIsUtf8(s);
    Utf8RoundTrip(s);
  }
}
