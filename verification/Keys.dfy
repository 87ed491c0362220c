/** Key values: 32 bytes, given as bytes or as one of two string forms. */
module Keys {
  import opened Options
  import opened Text
  import opened Platform
  import B = Base64Url

  /** What the SDK accepts where it wants a key. */
  datatype KeyLike = KeyBytes(bytes: Bytes) | KeyText(text: string)

  /** None: the constructor throws. */
  function AsKey(k: KeyLike): Option<Bytes> {
    match k
    case KeyBytes(b) => if |b| == KEY_LENGTH then Some(b) else None
    case KeyText(s) => DecodeKeyString(s)
  }

  function DecodeKeyString(s: string): Option<Bytes> {
    if IsHex32(s) then HexDecode(s)
    else if |s| == 43 && B.IsBase64Url(s) then
      match B.Decode(s)
      case None => None
      case Some(b) => if |b| == KEY_LENGTH then Some(b) else None
    else None
  }

  /** A key has exactly two spellings, lowercase hex and unpadded base64url, and they never clash. */
  lemma KeySpellings(s: string, k: Bytes)
    ensures DecodeKeyString(s) == Some(k) <==> |k| == KEY_LENGTH && (s == HexEncode(k) || s == B.Encode(k))
  {
    HexRoundTrip(k);
    B.RoundTrip(k);
    B.EncodedLength(k);
    if IsHex32(s) {
      HexDecodes(s);
    } else if B.Decode(s).Some? {
      B.Canonical(s);
    }
  }

  /** `Key.equalsBytes` */
  method EqualsBytes(bytes: Bytes, other: Bytes) returns (equal: bool)
    ensures equal <==> bytes == other
  {
    if |other| != |bytes| {
      return false;
    }
    for i := 0 to |bytes|
      invariant bytes[..i] == other[..i]
    {
      if other[i] != bytes[i] {
        return false;
      }
    }
    assert bytes[..|bytes|] == bytes && other[..|bytes|] == other;
    return true;
  }

  /** `PublicKey.equals`: what cannot be read as a key is unequal. */
  method PublicKeyEquals(bytes: Bytes, other: KeyLike) returns (equal: bool)
    requires |bytes| == KEY_LENGTH
    ensures equal <==>
            other == KeyBytes(bytes) || other == KeyText(HexEncode(bytes)) || other == KeyText(B.Encode(bytes))
  {
    if other.KeyText? { KeySpellings(other.text, bytes); }
    match AsKey(other) {
      case None => return false;
      case Some(k) => equal := EqualsBytes(bytes, k);
    }
  }
}
