/** The sealed box: an ephemeral X25519 key agreement, HKDF, AES-GCM. */
module SealedBoxes {
  import opened Options
  import opened Text
  import opened Platform
  import B = Base64Url

  datatype SealedBox = SealedBox(ct: string, ephPub: string, nonce: string)

  /** The random choices of one encryption. */
  datatype Draw = Draw(ephPriv: Bytes, nonce: Bytes)

  function BoxUnder(p: Platform, key: Bytes, plaintext: Bytes, aad: Bytes, d: Draw): SealedBox {
    SealedBox(B.Encode(p.seal(key, d.nonce, plaintext, aad)), B.Encode(p.xPub(d.ephPriv)), B.Encode(d.nonce))
  }

  /** The key agreement throws on degenerate keys. */
  function Encrypt(p: Platform, plaintext: Bytes, recipientPub: Bytes, aad: Bytes, d: Draw): Outcome<SealedBox> {
    match p.shared(d.ephPriv, recipientPub)
    case None => Threw
    case Some(secret) => Returned(BoxUnder(p, p.hkdf(secret), plaintext, aad, d))
  }

  /** The box is returned only if it decrypts, under the key it was made with, to the plaintext. */
  function SelfChecked(p: Platform, plaintext: Bytes, recipientPub: Bytes, aad: Bytes, d: Draw): Outcome<SealedBox> {
    match p.shared(d.ephPriv, recipientPub)
    case None => Threw
    case Some(secret) =>
      var key := p.hkdf(secret);
      if p.open(key, d.nonce, p.seal(key, d.nonce, plaintext, aad), aad) == Some(plaintext)
      then Returned(BoxUnder(p, key, plaintext, aad, d))
      else Threw
  }

  method EncryptWithSelfCheck(p: Platform, plaintext: Bytes, recipientPub: Bytes, aad: Bytes, d: Draw)
    returns (r: Outcome<SealedBox>)
    ensures r == SelfChecked(p, plaintext, recipientPub, aad, d)
  {
    var secret := p.shared(d.ephPriv, recipientPub);
    if secret.None? {
      return Threw;
    }
    var key := p.hkdf(secret.value);
    var ct := p.seal(key, d.nonce, plaintext, aad);
    var plainCheck := p.open(key, d.nonce, ct, aad);
    if plainCheck.None? {
      return Threw;
    }
    var checkBytes := plainCheck.value;
    if |checkBytes| != |plaintext| {
      return Threw;
    }
    for i := 0 to |checkBytes|
      invariant checkBytes[..i] == plaintext[..i]
    {
      if checkBytes[i] != plaintext[i] {
        return Threw;
      }
    }
    assert checkBytes[..|checkBytes|] == checkBytes && plaintext[..|checkBytes|] == plaintext;
    return Returned(SealedBox(B.Encode(ct), B.Encode(p.xPub(d.ephPriv)), B.Encode(d.nonce)));
  }

  /** Every failure, from decoding to authentication, reads as null. */
  function DecryptWith(p: Platform, box: SealedBox, derive: Bytes -> Option<Bytes>, aad: Bytes): Option<Bytes> {
    match (B.Decode(box.ephPub), B.Decode(box.nonce), B.Decode(box.ct))
    case (Some(ephPub), Some(nonce), Some(ct)) =>
      (match derive(ephPub) case None => None case Some(secret) => p.open(p.hkdf(secret), nonce, ct, aad))
    case _ => None
  }

  function Decrypt(p: Platform, box: SealedBox, recipientPriv: Bytes, aad: Bytes): Option<Bytes> {
    if |recipientPriv| != KEY_LENGTH then None
    else DecryptWith(p, box, ephPub => p.shared(recipientPriv, ephPub), aad)
  }

  /** The caller computes the shared secret, so the private key never reaches the SDK. */
  function DecryptHandle(p: Platform, box: SealedBox, deriveShared: Bytes -> Option<Bytes>, aad: Bytes): Option<Bytes> {
    DecryptWith(p, box, ephPub => match deriveShared(ephPub)
                                  case Some(secret) => if |secret| == KEY_LENGTH then Some(secret) else None
                                  case None => None, aad)
  }

  /** With working primitives the self-check never fires; with any primitives, what passes it opens
      for the recipient, whose private key need not be at hand. */
  lemma SelfCheckIsSound(p: Platform, plaintext: Bytes, recipientPub: Bytes, aad: Bytes, d: Draw)
    ensures Lawful(p) ==> SelfChecked(p, plaintext, recipientPub, aad, d) == Encrypt(p, plaintext, recipientPub, aad, d)
    ensures var r := SelfChecked(p, plaintext, recipientPub, aad, d);
      r.Returned? ==> DecryptWith(p, r.value, ephPub => p.shared(d.ephPriv, recipientPub), aad) == Some(plaintext)
  {
    var r := SelfChecked(p, plaintext, recipientPub, aad, d);
    if r.Returned? {
      var key := p.hkdf(p.shared(d.ephPriv, recipientPub).value);
      B.RoundTrip(p.seal(key, d.nonce, plaintext, aad));
      B.RoundTrip(p.xPub(d.ephPriv));
      B.RoundTrip(d.nonce);
    }
  }

  /** Whoever holds the private key of the recipient's public key reads the plaintext. */
  lemma BoxRoundTrip(p: Platform, plaintext: Bytes, recipientPriv: Bytes, aad: Bytes, d: Draw)
    requires Lawful(p) && |recipientPriv| == KEY_LENGTH
    requires Encrypt(p, plaintext, p.xPub(recipientPriv), aad, d).Returned?
    ensures Decrypt(p, Encrypt(p, plaintext, p.xPub(recipientPriv), aad, d).value, recipientPriv, aad) ==
            Some(plaintext)
  {
    assert p.shared(d.ephPriv, p.xPub(recipientPriv)) == p.shared(recipientPriv, p.xPub(d.ephPriv));
    var key := p.hkdf(p.shared(d.ephPriv, p.xPub(recipientPriv)).value);
    B.RoundTrip(p.seal(key, d.nonce, plaintext, aad));
    B.RoundTrip(p.xPub(d.ephPriv));
    B.RoundTrip(d.nonce);
  }

  /** A handle that computes the same 32-byte secrets decrypts the same. */
  lemma HandleAgrees(p: Platform, box: SealedBox, recipientPriv: Bytes, aad: Bytes,
                     deriveShared: Bytes -> Option<Bytes>)
    requires |recipientPriv| == KEY_LENGTH
    requires forall ephPub :: deriveShared(ephPub) == p.shared(recipientPriv, ephPub)
    requires forall ephPub :: p.shared(recipientPriv, ephPub).Some? ==>
                                |p.shared(recipientPriv, ephPub).value| == KEY_LENGTH
    ensures DecryptHandle(p, box, deriveShared, aad) == Decrypt(p, box, recipientPriv, aad)
  {
    if B.Decode(box.ephPub).Some? {
      assert deriveShared(B.Decode(box.ephPub).value) == p.shared(recipientPriv, B.Decode(box.ephPub).value);
    }
  }
}
