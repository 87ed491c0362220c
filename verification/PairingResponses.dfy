/** The pairing response: the media server seals the per-server key K to the user's encryption key and
    signs the sealed box, prefixed by its own public key. */
module PairingResponses {
  import opened Options
  import opened Text
  import Json
  import Jcs
  import opened Platform
  import opened Schemas
  import Keys
  import opened SealedBoxes
  import opened Stringified
  import B = Base64Url

  datatype Response = Response(sealed: SealedBox, sig: string)

  datatype ServerKey = ServerKey(pub: Bytes, priv: Bytes)

  // ----- the signed message -----

  const BOX_KEYS := ["ct", "ephPub", "nonce"]

  function BoxValues(box: SealedBox): seq<Json.Json> {
    [Json.Str(box.ct), Json.Str(box.ephPub), Json.Str(box.nonce)]
  }

  function BoxJson(box: SealedBox): Json.Json {
    Record(BOX_KEYS, BoxValues(box))
  }

  function SigMessage(serverPubKeyHex: string, box: SealedBox): Bytes {
    Utf8(serverPubKeyHex) + Stringify(BoxJson(box))
  }

  method BuildSigMessage(serverPubKeyHex: string, box: SealedBox) returns (out: array<byte>)
    ensures fresh(out) && out[..] == SigMessage(serverPubKeyHex, box)
  {
    var a := Utf8(serverPubKeyHex);
    var b := Stringify(BoxJson(box));
    out := new byte[|a| + |b|](i => 0);
    forall i | 0 <= i < |a| {
      out[i] := a[i];
    }
    forall i | 0 <= i < |b| {
      out[|a| + i] := b[i];
    }
    assert out[..|a|] == a && out[|a|..] == b;
  }

  /** The reader of a signed message: a 64-character key, then the box. */
  function ReadSigMessage(m: Bytes): Option<(string, SealedBox)> {
    if |m| < 64 then None
    else
      match (Utf8Decode(m[..64]), Unstringify(m[64..]))
      case (Some(hex), Some(j)) =>
        var g := MembersOf(j);
        Some((hex, SealedBox(TextAt(g, "ct"), TextAt(g, "ephPub"), TextAt(g, "nonce"))))
      case _ => None
  }

  lemma BoxReads(box: SealedBox)
    ensures Unstringify(Stringify(BoxJson(box))).Some?
    ensures var g := MembersOf(Unstringify(Stringify(BoxJson(box))).value);
      TextAt(g, "ct") == box.ct && TextAt(g, "ephPub") == box.ephPub && TextAt(g, "nonce") == box.nonce
  {
    var ks, vs := BOX_KEYS, BoxValues(box);
    SortedRecordReads(ks, vs, 0);
    SortedRecordReads(ks, vs, 1);
    SortedRecordReads(ks, vs, 2);
    var g := MembersOf(Unstringify(Stringify(BoxJson(box))).value);
    assert g(ks[0]) == Some(vs[0]) && g(ks[1]) == Some(vs[1]) && g(ks[2]) == Some(vs[2]);
  }

  /** The signed message determines the server key and the box. */
  lemma SigMessageDecodes(serverPubKeyHex: string, box: SealedBox)
    requires IsHex32(serverPubKeyHex)
    ensures ReadSigMessage(SigMessage(serverPubKeyHex, box)) == Some((serverPubKeyHex, box))
  {
    HexText(serverPubKeyHex);
    BoxReads(box);
    var m := SigMessage(serverPubKeyHex, box);
    assert m[..64] == Utf8(serverPubKeyHex) && m[64..] == Stringify(BoxJson(box));
  }

  lemma SigMessageInjective(s: string, a: SealedBox, t: string, b: SealedBox)
    requires IsHex32(s) && IsHex32(t) && SigMessage(s, a) == SigMessage(t, b)
    ensures s == t && a == b
  {
    SigMessageDecodes(s, a);
    SigMessageDecodes(t, b);
  }

  // ----- building -----

  function Zeros(): Bytes {
    seq(KEY_LENGTH, i => 0)
  }

  predicate ValidRecipient(userEncPubKey: Bytes, serverPubKey: Bytes) {
    |userEncPubKey| == KEY_LENGTH && userEncPubKey != Zeros() && userEncPubKey != serverPubKey
  }

  method AssertValidRecipient(userEncPubKey: Bytes, serverPubKey: Bytes) returns (ok: bool)
    ensures ok <==> ValidRecipient(userEncPubKey, serverPubKey)
  {
    if |userEncPubKey| != 32 {
      return false;
    }
    var allZero := true;
    for i := 0 to 32
      invariant allZero <==> forall j :: 0 <= j < i ==> userEncPubKey[j] == 0
    {
      if userEncPubKey[i] != 0 {
        allZero := false;
        break;
      }
    }
    assert allZero <==> userEncPubKey == Zeros();
    if allZero {
      return false;
    }
    if |serverPubKey| == 32 {
      var equalsServer := true;
      for i := 0 to 32
        invariant equalsServer <==> userEncPubKey[..i] == serverPubKey[..i]
      {
        if userEncPubKey[i] != serverPubKey[i] {
          equalsServer := false;
          break;
        }
      }
      assert equalsServer <==> userEncPubKey == serverPubKey;
      if equalsServer {
        return false;
      }
    }
    return true;
  }

  /** The parts of a request to build a response. */
  datatype ResponseInput = ResponseInput(
    connInfoKey: Bytes, serverKey: ServerKey, userEncPubKey: Keys.KeyLike, userPubKey: Keys.KeyLike, issuedAtSec: int,
    expectedUserEncPubKeyHex: Option<string>)

  function SealedPlain(x: ResponseInput): ResponseSealed {
    ResponseSealed(B.Encode(x.connInfoKey), x.issuedAtSec, HexEncode(x.serverKey.pub))
  }

  function Sign(p: Platform, serverKey: ServerKey, box: SealedBox): Response {
    Response(box, B.Encode(p.sign(SigMessage(HexEncode(serverKey.pub), box), serverKey.priv)))
  }

  /** The recipient the checks before sealing let through. */
  function Recipient(x: ResponseInput): Option<Bytes> {
    match Keys.AsKey(x.userEncPubKey)
    case None => None
    case Some(enc) =>
      if !ValidRecipient(enc, x.serverKey.pub) then None
      else if x.expectedUserEncPubKeyHex.Some? && HexEncode(enc) != x.expectedUserEncPubKeyHex.value then None
      else match Keys.AsKey(x.userPubKey)
           case None => None
           case Some(user) => if HexEncode(user) == HexEncode(enc) then None else Some(enc)
  }

  function Build(p: Platform, x: ResponseInput, d: Draw): Outcome<Response> {
    match Recipient(x)
    case None => Threw
    case Some(enc) =>
      match SelfChecked(p, Jcs.JcsBytes(ResponseJson(SealedPlain(x))), enc, [], d)
      case Threw => Threw
      case Returned(box) => Returned(Sign(p, x.serverKey, box))
  }

  method BuildPairingResponse(p: Platform, x: ResponseInput, d: Draw) returns (r: Outcome<Response>)
    ensures r == Build(p, x, d)
  {
    var enc := Keys.AsKey(x.userEncPubKey);
    if enc.None? {
      return Threw;
    }
    var valid := AssertValidRecipient(enc.value, x.serverKey.pub);
    if !valid {
      return Threw;
    }
    var serverPubKeyHex := HexEncode(x.serverKey.pub);
    var userEncPubKeyHex := HexEncode(enc.value);
    if x.expectedUserEncPubKeyHex.Some? && userEncPubKeyHex != x.expectedUserEncPubKeyHex.value {
      return Threw;
    }
    var user := Keys.AsKey(x.userPubKey);
    if user.None? || HexEncode(user.value) == userEncPubKeyHex {
      return Threw;
    }
    var plain := ResponseSealed(B.Encode(x.connInfoKey), x.issuedAtSec, serverPubKeyHex);
    var sealed := EncryptWithSelfCheck(p, Jcs.JcsBytes(ResponseJson(plain)), enc.value, [], d);
    if sealed.Threw? {
      return Threw;
    }
    var sigMsg := BuildSigMessage(serverPubKeyHex, sealed.value);
    return Returned(Response(sealed.value, B.Encode(p.sign(sigMsg[..], x.serverKey.priv))));
  }

  // ----- opening -----

  datatype ResponseError =
    | SigInvalid
    | RecipientPrivMismatch
    | DecryptFailed
    | PayloadNotJson
    | ShapeInvalid
    | InnerServerMismatch

  function ReadPlain(p: Platform, plain: Option<Bytes>,
                     serverPubKeyHex: string): Result<ResponseSealed, ResponseError>
  {
    match plain
    case None => Err(DecryptFailed)
    case Some(bytes) =>
      match ParseBytes(p, bytes)
      case None => Err(PayloadNotJson)
      case Some(j) =>
        match ResponseOf(j)
        case None => Err(ShapeInvalid)
        case Some(r) => if r.serverPubKey != serverPubKeyHex then Err(InnerServerMismatch) else Ok(r)
  }

  /** Keys of the wrong length throw where they are read, and so does decoding the signature. */
  function Open(p: Platform, r: Response, userEncPrivKey: Bytes, serverPubKey: Bytes, expectedRecipient: Option<Bytes>)
    : Outcome<Result<ResponseSealed, ResponseError>> {
    var hex := HexEncode(serverPubKey);
    match B.Decode(r.sig)
    case None => Threw
    case Some(sig) =>
      if |serverPubKey| != KEY_LENGTH || |userEncPrivKey| != KEY_LENGTH then Threw
      else if !p.verify(SigMessage(hex, r.sealed), sig, serverPubKey) then Returned(Err(SigInvalid))
      else if expectedRecipient.Some? && |expectedRecipient.value| != KEY_LENGTH then Threw
      else if expectedRecipient.Some? && p.xPub(userEncPrivKey) != expectedRecipient.value then
        Returned(Err(RecipientPrivMismatch))
      else Returned(ReadPlain(p, Decrypt(p, r.sealed, userEncPrivKey, []), hex))
  }

  method OpenPairingResponse(p: Platform, r: Response, userEncPrivKey: Bytes, serverPubKey: Bytes,
                             expectedRecipient: Option<Bytes>)
    returns (o: Outcome<Result<ResponseSealed, ResponseError>>)
    ensures o == Open(p, r, userEncPrivKey, serverPubKey, expectedRecipient)
  {
    if |serverPubKey| != KEY_LENGTH || |userEncPrivKey| != KEY_LENGTH {
      return Threw;
    }
    var hex := HexEncode(serverPubKey);
    var sigMsg := BuildSigMessage(hex, r.sealed);
    var sig := B.Decode(r.sig);
    if sig.None? {
      return Threw;
    }
    if !p.verify(sigMsg[..], sig.value, serverPubKey) {
      return Returned(Err(SigInvalid));
    }
    if expectedRecipient.Some? {
      if |expectedRecipient.value| != KEY_LENGTH {
        return Threw;
      }
      var expectedPub, derivedPub := expectedRecipient.value, p.xPub(userEncPrivKey);
      var equal := |derivedPub| == |expectedPub|;
      if equal {
        for i := 0 to |derivedPub|
          invariant equal <==> derivedPub[..i] == expectedPub[..i]
        {
          if derivedPub[i] != expectedPub[i] {
            equal := false;
            break;
          }
        }
      }
      assert equal <==> derivedPub == expectedPub;
      if !equal {
        return Returned(Err(RecipientPrivMismatch));
      }
    }
    return Returned(ReadPlain(p, Decrypt(p, r.sealed, userEncPrivKey, []), hex));
  }

  /** With proper keys, opening throws exactly when the signature is not base64url. */
  lemma OpenThrowsExactly(p: Platform, r: Response, userEncPrivKey: Bytes, serverPubKey: Bytes,
                          expectedRecipient: Option<Bytes>)
    requires |userEncPrivKey| == |serverPubKey| == KEY_LENGTH
    requires expectedRecipient.Some? ==> |expectedRecipient.value| == KEY_LENGTH
    ensures Open(p, r, userEncPrivKey, serverPubKey, expectedRecipient) == Threw <==> B.Decode(r.sig).None?
  {
  }

  /** The server signed this very box. */
  ghost predicate SignedByServer(p: Platform, r: Response, serverPubKey: Bytes) {
    && B.Decode(r.sig).Some?
    && p.verify(SigMessage(HexEncode(serverPubKey), r.sealed), B.Decode(r.sig).value, serverPubKey)
  }

  ghost predicate ForRecipient(p: Platform, userEncPrivKey: Bytes, expectedRecipient: Option<Bytes>) {
    expectedRecipient.Some? ==> expectedRecipient.value == p.xPub(userEncPrivKey)
  }

  /** The payload these bytes carry, if the schema accepts it. */
  ghost function PayloadIn(p: Platform, bytes: Bytes): Option<ResponseSealed> {
    match ParseBytes(p, bytes) case None => None case Some(j) => ResponseOf(j)
  }

  /** What is opened was signed by the expected server over the box and its own key, is for the expected
      recipient, decrypts under the private key given, and names that server inside as well. */
  lemma AcceptedResponseIsSigned(p: Platform, r: Response, userEncPrivKey: Bytes, serverPubKey: Bytes,
                                 expectedRecipient: Option<Bytes>, x: ResponseSealed)
    requires Open(p, r, userEncPrivKey, serverPubKey, expectedRecipient) == Returned(Ok(x))
    ensures SignedByServer(p, r, serverPubKey) && ForRecipient(p, userEncPrivKey, expectedRecipient)
    ensures var plain := Decrypt(p, r.sealed, userEncPrivKey, []); plain.Some? && PayloadIn(p, plain.value) == Some(x)
    ensures x.serverPubKey == HexEncode(serverPubKey)
  {
  }

  lemma ReadErrors(p: Platform, plain: Option<Bytes>, hex: string)
    ensures var r := ReadPlain(p, plain, hex);
      && r != Err(SigInvalid) && r != Err(RecipientPrivMismatch)
      && (r == Err(DecryptFailed) <==> plain.None?)
      && (r == Err(PayloadNotJson) <==> plain.Some? && ParseBytes(p, plain.value).None?)
      && (r == Err(ShapeInvalid) <==>
            plain.Some? && ParseBytes(p, plain.value).Some? && PayloadIn(p, plain.value).None?)
      && (r == Err(InnerServerMismatch) <==>
            plain.Some? && PayloadIn(p, plain.value).Some? && PayloadIn(p, plain.value).value.serverPubKey != hex)
  {
  }

  /** What opening reports, with proper keys and a decodable signature, in order. */
  lemma OpenErrorsExactly(p: Platform, r: Response, userEncPrivKey: Bytes, serverPubKey: Bytes,
                          expectedRecipient: Option<Bytes>)
    requires |userEncPrivKey| == |serverPubKey| == KEY_LENGTH && B.Decode(r.sig).Some?
    requires expectedRecipient.Some? ==> |expectedRecipient.value| == KEY_LENGTH
    ensures var o := Open(p, r, userEncPrivKey, serverPubKey, expectedRecipient);
            var meant := SignedByServer(p, r, serverPubKey) && ForRecipient(p, userEncPrivKey, expectedRecipient);
            var plain := Decrypt(p, r.sealed, userEncPrivKey, []);
      && o.Returned?
      && (o.value == Err(SigInvalid) <==> !SignedByServer(p, r, serverPubKey))
      && (o.value == Err(RecipientPrivMismatch) <==>
            SignedByServer(p, r, serverPubKey) && !ForRecipient(p, userEncPrivKey, expectedRecipient))
      && (o.value == Err(DecryptFailed) <==> meant && plain.None?)
      && (o.value == Err(PayloadNotJson) <==> meant && plain.Some? && ParseBytes(p, plain.value).None?)
      && (o.value == Err(ShapeInvalid) <==>
            meant && plain.Some? && ParseBytes(p, plain.value).Some? && PayloadIn(p, plain.value).None?)
      && (o.value == Err(InnerServerMismatch) <==>
            && meant && plain.Some? && PayloadIn(p, plain.value).Some?
            && PayloadIn(p, plain.value).value.serverPubKey != HexEncode(serverPubKey))
  {
    ReadErrors(p, Decrypt(p, r.sealed, userEncPrivKey, []), HexEncode(serverPubKey));
  }

  /** A response is built exactly for a recipient key that is a key, is not all zeros and is not the server's,
      that is the one the assertion named, that differs from the user's master key, and that the key
      agreement takes. */
  lemma BuildsExactly(p: Platform, x: ResponseInput, d: Draw)
    requires Lawful(p)
    ensures var enc, user := Keys.AsKey(x.userEncPubKey), Keys.AsKey(x.userPubKey);
      Build(p, x, d).Returned? <==>
        && enc.Some? && user.Some? && enc.value != seq(32, i => 0) && enc.value != x.serverKey.pub
        && (x.expectedUserEncPubKeyHex.Some? ==> x.expectedUserEncPubKeyHex.value == HexEncode(enc.value))
        && user.value != enc.value && p.shared(d.ephPriv, enc.value).Some?
  {
    var enc, user := Keys.AsKey(x.userEncPubKey), Keys.AsKey(x.userPubKey);
    if enc.Some? && user.Some? {
      KeyLikeLength(x.userEncPubKey);
      KeyLikeLength(x.userPubKey);
      KeyHex(enc.value);
      KeyHex(user.value);
    }
    if Recipient(x).Some? {
      SelfCheckIsSound(p, Jcs.JcsBytes(ResponseJson(SealedPlain(x))), enc.value, [], d);
    }
  }

  lemma KeyLikeLength(k: Keys.KeyLike)
    ensures Keys.AsKey(k).Some? ==> |Keys.AsKey(k).value| == KEY_LENGTH
  {
    if k.KeyText? && IsHex32(k.text) { HexDecodes(k.text); }
  }
}
