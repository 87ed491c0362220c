/** The multi-passkey vault: one vault key VK encrypts the payload, and each enrolled passkey wraps VK. */
module Vault {
  import opened Options
  import opened Text
  import Jcs
  import opened Platform
  import opened VaultPayloads
  import B = Base64Url

  datatype Wrap = Wrap(credentialId: string, prfSalt: string, wrapIv: string, wrappedKey: string)

  datatype Blob = Blob(ciphertext: string, createdAt: int, iv: string, updatedAt: Option<int>, wraps: seq<Wrap>)

  datatype OpenError = WrapNotFound | UnwrapFailed | PayloadDecryptFailed

  datatype Opened = Opened(payload: VaultPayload, vk: Bytes)

  function WrapVaultKey(p: Platform, vk: Bytes, credentialId: string, prfSalt: string, wrappingKey: Bytes,
                        iv: Bytes): Wrap
  {
    Wrap(credentialId, prfSalt, B.Encode(iv), B.Encode(p.seal(wrappingKey, iv, vk, [])))
  }

  /** Importing a raw AES key of any other length throws. */
  predicate IsAesKeyLength(n: nat) {
    n == 16 || n == 24 || n == 32
  }

  function UnwrapVaultKey(p: Platform, w: Wrap, wrappingKey: Bytes): Outcome<Option<Bytes>> {
    match (B.Decode(w.wrappedKey), B.Decode(w.wrapIv))
    case (Some(ct), Some(iv)) =>
      (match p.open(wrappingKey, iv, ct, [])
       case None => Returned(None)
       case Some(raw) => if IsAesKeyLength(|raw|) then Returned(Some(raw)) else Threw)
    case _ => Threw
  }

  function EncryptVault(p: Platform, vk: Bytes, x: VaultPayload, iv: Bytes): Bytes {
    p.seal(vk, iv, Jcs.JcsBytes(VaultJson(x)), [])
  }

  function DecryptVault(p: Platform, vk: Bytes, ciphertext: string, iv: string): Outcome<Option<VaultPayload>> {
    match (B.Decode(ciphertext), B.Decode(iv))
    case (Some(ct), Some(nonce)) =>
      (match p.open(vk, nonce, ct, [])
       case None => Returned(None)
       case Some(raw) =>
         match ParseBytes(p, raw)
         case None => Returned(None)
         case Some(j) => Returned(VaultOf(j)))
    case _ => Threw
  }

  function FindWrap(wraps: seq<Wrap>, credentialId: string): Option<Wrap> {
    if wraps == [] then None
    else if wraps[0].credentialId == credentialId then Some(wraps[0])
    else FindWrap(wraps[1..], credentialId)
  }

  function OtherWraps(wraps: seq<Wrap>, credentialId: string): seq<Wrap> {
    if wraps == [] then []
    else
      var rest := OtherWraps(wraps[1..], credentialId);
      if wraps[0].credentialId == credentialId then rest else [wraps[0]] + rest
  }

  function CreateVault(p: Platform, x: VaultPayload, credentialId: string, prfSalt: string, wrappingKey: Bytes,
                       vk: Bytes, iv: Bytes, wrapIv: Bytes, now: int): Blob
  {
    Blob(B.Encode(EncryptVault(p, vk, x, iv)), now, B.Encode(iv), None,
         [WrapVaultKey(p, vk, credentialId, prfSalt, wrappingKey, wrapIv)])
  }

  function OpenVault(p: Platform, b: Blob, credentialId: string,
                     wrappingKey: Bytes): Outcome<Result<Opened, OpenError>>
  {
    match FindWrap(b.wraps, credentialId)
    case None => Returned(Err(WrapNotFound))
    case Some(w) =>
      match UnwrapVaultKey(p, w, wrappingKey)
      case Threw => Threw
      case Returned(None) => Returned(Err(UnwrapFailed))
      case Returned(Some(vk)) =>
        match DecryptVault(p, vk, b.ciphertext, b.iv)
        case Threw => Threw
        case Returned(None) => Returned(Err(PayloadDecryptFailed))
        case Returned(Some(x)) => Returned(Ok(Opened(x, vk)))
  }

  datatype Change =
    | AddPasskey(credentialId: string, prfSalt: string, wrappingKey: Bytes, wrapIv: Bytes)
    | RemovePasskey(credentialId: string)
    | ReplacePayload(payload: VaultPayload, iv: Bytes)

  function Apply(p: Platform, vk: Bytes, b: Blob, c: Change, now: int): Blob {
    match c
    case AddPasskey(id, salt, key, iv) =>
      b.(updatedAt := Some(now), wraps := OtherWraps(b.wraps, id) + [WrapVaultKey(p, vk, id, salt, key, iv)])
    case RemovePasskey(id) => b.(updatedAt := Some(now), wraps := OtherWraps(b.wraps, id))
    case ReplacePayload(x, iv) =>
      b.(ciphertext := B.Encode(EncryptVault(p, vk, x, iv)), iv := B.Encode(iv), updatedAt := Some(now))
  }

  function ApplyAll(p: Platform, vk: Bytes, b: Blob, cs: seq<(Change, int)>): Blob {
    if cs == [] then b
    else
      var n := |cs| - 1;
      Apply(p, vk, ApplyAll(p, vk, b, cs[..n]), cs[n].0, cs[n].1)
  }

  // ----- what a vault is for: a map of enrolled passkeys and a current payload -----

  datatype Contents = Contents(keys: map<string, Bytes>, payload: VaultPayload)

  function Change1(m: Contents, c: Change): Contents {
    match c
    case AddPasskey(id, _, key, _) => m.(keys := m.keys[id := key])
    case RemovePasskey(id) => m.(keys := m.keys - {id})
    case ReplacePayload(x, _) => m.(payload := x)
  }

  function ChangeAll(m: Contents, cs: seq<(Change, int)>): Contents {
    if cs == [] then m else Change1(ChangeAll(m, cs[..|cs| - 1]), cs[|cs| - 1].0)
  }

  function LatestOf(m: Contents, vk: Bytes): Result<Opened, OpenError> {
    if ValidVault(m.payload) then Ok(Opened(m.payload, vk)) else Err(PayloadDecryptFailed)
  }

  ghost predicate DistinctIds(wraps: seq<Wrap>) {
    forall i, j :: 0 <= i < j < |wraps| ==> wraps[i].credentialId != wraps[j].credentialId
  }

  ghost predicate WrapsRefine(p: Platform, vk: Bytes, wraps: seq<Wrap>, keys: map<string, Bytes>) {
    && DistinctIds(wraps)
    && (forall w :: w in wraps ==> Holds(p, vk, w, keys))
    && (forall id :: id in keys ==> FindWrap(wraps, id).Some?)
  }

  ghost predicate Holds(p: Platform, vk: Bytes, w: Wrap, keys: map<string, Bytes>) {
    w.credentialId in keys && UnwrapVaultKey(p, w, keys[w.credentialId]) == Returned(Some(vk))
  }

  function Readable(x: VaultPayload): Option<VaultPayload> {
    if ValidVault(x) then Some(x) else None
  }

  ghost predicate Refines(p: Platform, vk: Bytes, b: Blob, m: Contents) {
    && WrapsRefine(p, vk, b.wraps, m.keys)
    && DecryptVault(p, vk, b.ciphertext, b.iv) == Returned(Readable(m.payload))
  }

  lemma WrapOpens(p: Platform, vk: Bytes, id: string, salt: string, key: Bytes, iv: Bytes)
    requires Lawful(p) && IsAesKeyLength(|vk|)
    ensures UnwrapVaultKey(p, WrapVaultKey(p, vk, id, salt, key, iv), key) == Returned(Some(vk))
  {
    B.RoundTrip(iv);
    B.RoundTrip(p.seal(key, iv, vk, []));
  }

  /** What unwrapping reports for any wrap: undecodable text throws, a wrap the key does not open is null, and
      what it opens must have the length of an AES key or the import throws. */
  lemma UnwrapsExactly(p: Platform, w: Wrap, wrappingKey: Bytes)
    ensures var ct, iv, r := B.Decode(w.wrappedKey), B.Decode(w.wrapIv), UnwrapVaultKey(p, w, wrappingKey);
            var raw := if ct.None? || iv.None? then None else p.open(wrappingKey, iv.value, ct.value, []);
      && (r == Returned(None) <==> ct.Some? && iv.Some? && raw.None?)
      && (forall vk :: r == Returned(Some(vk)) <==> raw == Some(vk) && (|vk| == 16 || |vk| == 24 || |vk| == 32))
      && (r == Threw <==>
            || ct.None? || iv.None?
            || (raw.Some? && |raw.value| != 16 && |raw.value| != 24 && |raw.value| != 32))
  {
  }

  lemma BodyOpens(p: Platform, vk: Bytes, x: VaultPayload, iv: Bytes)
    requires Lawful(p)
    ensures DecryptVault(p, vk, B.Encode(EncryptVault(p, vk, x, iv)), B.Encode(iv)) == Returned(Readable(x))
  {
    B.RoundTrip(iv);
    B.RoundTrip(EncryptVault(p, vk, x, iv));
    VaultRoundTrip(x);
    ParseBytesJcs(p, VaultJson(x));
  }

  lemma {:induction false} Others(wraps: seq<Wrap>, id: string)
    ensures forall w :: w in OtherWraps(wraps, id) <==> w in wraps && w.credentialId != id
  {
    if wraps != [] {
      Others(wraps[1..], id);
      assert wraps == [wraps[0]] + wraps[1..];
    }
  }

  lemma {:induction false} OthersDistinct(wraps: seq<Wrap>, id: string)
    requires DistinctIds(wraps)
    ensures DistinctIds(OtherWraps(wraps, id))
  {
    if wraps != [] {
      OthersDistinct(wraps[1..], id);
      Others(wraps[1..], id);
      var rest := OtherWraps(wraps[1..], id);
      forall j | 0 <= j < |rest| ensures rest[j].credentialId != wraps[0].credentialId {
        assert rest[j] in wraps[1..];
      }
    }
  }

  lemma {:induction false} NoOthers(wraps: seq<Wrap>, id: string)
    requires forall w :: w in wraps ==> w.credentialId == id
    ensures OtherWraps(wraps, id) == []
  {
    if wraps != [] { NoOthers(wraps[1..], id); }
  }

  lemma {:induction false} Found(wraps: seq<Wrap>, id: string)
    ensures FindWrap(wraps, id).Some? <==> exists w :: w in wraps && w.credentialId == id
    ensures FindWrap(wraps, id).Some? ==>
            FindWrap(wraps, id).value in wraps && FindWrap(wraps, id).value.credentialId == id
  {
    if wraps != [] {
      Found(wraps[1..], id);
      assert wraps == [wraps[0]] + wraps[1..];
    }
  }

  /** Removing a passkey drops its wrap and touches no other. */
  lemma RemoveRefines(p: Platform, vk: Bytes, wraps: seq<Wrap>, keys: map<string, Bytes>, id: string)
    requires WrapsRefine(p, vk, wraps, keys)
    ensures WrapsRefine(p, vk, OtherWraps(wraps, id), keys - {id})
  {
    Others(wraps, id);
    OthersDistinct(wraps, id);
    forall k | k in keys - {id} ensures FindWrap(OtherWraps(wraps, id), k).Some? {
      Found(wraps, k);
      Found(OtherWraps(wraps, id), k);
    }
    forall w | w in OtherWraps(wraps, id) ensures Holds(p, vk, w, keys - {id}) {
      assert Holds(p, vk, w, keys);
    }
  }

  /** Enrolling a passkey again replaces its wrap. */
  lemma AddRefines(p: Platform, vk: Bytes, wraps: seq<Wrap>, keys: map<string, Bytes>, w: Wrap, key: Bytes)
    requires WrapsRefine(p, vk, wraps, keys) && w.credentialId !in keys
    requires UnwrapVaultKey(p, w, key) == Returned(Some(vk))
    ensures WrapsRefine(p, vk, wraps + [w], keys[w.credentialId := key])
  {
    var keys' := keys[w.credentialId := key];
    forall v | v in wraps + [w] ensures Holds(p, vk, v, keys') {
      if v in wraps { assert Holds(p, vk, v, keys); }
    }
    forall k | k in keys' ensures FindWrap(wraps + [w], k).Some? {
      Found(wraps + [w], k);
      if k == w.credentialId {
        assert w in wraps + [w];
      } else {
        Found(wraps, k);
        assert FindWrap(wraps, k).value in wraps + [w];
      }
    }
    forall i, j | 0 <= i < j < |wraps + [w]| ensures (wraps + [w])[i].credentialId != (wraps + [w])[j].credentialId {
      assert Holds(p, vk, wraps[i], keys);
    }
  }

  lemma ChangeRefines(p: Platform, vk: Bytes, b: Blob, m: Contents, c: Change, now: int)
    requires Lawful(p) && IsAesKeyLength(|vk|) && Refines(p, vk, b, m)
    ensures Refines(p, vk, Apply(p, vk, b, c, now), Change1(m, c))
  {
    match c {
      case AddPasskey(id, salt, key, iv) =>
        RemoveRefines(p, vk, b.wraps, m.keys, id);
        WrapOpens(p, vk, id, salt, key, iv);
        AddRefines(p, vk, OtherWraps(b.wraps, id), m.keys - {id}, WrapVaultKey(p, vk, id, salt, key, iv), key);
        assert (m.keys - {id})[id := key] == m.keys[id := key];
      case RemovePasskey(id) =>
        RemoveRefines(p, vk, b.wraps, m.keys, id);
      case ReplacePayload(x, iv) =>
        BodyOpens(p, vk, x, iv);
    }
  }

  lemma {:induction false} ChangesRefine(p: Platform, vk: Bytes, b: Blob, m: Contents, cs: seq<(Change, int)>)
    requires Lawful(p) && IsAesKeyLength(|vk|) && Refines(p, vk, b, m)
    ensures Refines(p, vk, ApplyAll(p, vk, b, cs), ChangeAll(m, cs))
  {
    if cs != [] {
      var n := |cs| - 1;
      ChangesRefine(p, vk, b, m, cs[..n]);
      ChangeRefines(p, vk, ApplyAll(p, vk, b, cs[..n]), ChangeAll(m, cs[..n]), cs[n].0, cs[n].1);
    }
  }

  lemma CreateRefines(p: Platform, x: VaultPayload, id: string, salt: string, key: Bytes, vk: Bytes, iv: Bytes,
                      wrapIv: Bytes, now: int)
    requires Lawful(p) && IsAesKeyLength(|vk|)
    ensures Refines(p, vk, CreateVault(p, x, id, salt, key, vk, iv, wrapIv, now), Contents(map[id := key], x))
  {
    WrapOpens(p, vk, id, salt, key, wrapIv);
    BodyOpens(p, vk, x, iv);
    FirstWrap(p, vk, WrapVaultKey(p, vk, id, salt, key, wrapIv), key);
  }

  lemma FirstWrap(p: Platform, vk: Bytes, w: Wrap, key: Bytes)
    requires UnwrapVaultKey(p, w, key) == Returned(Some(vk))
    ensures WrapsRefine(p, vk, [w], map[w.credentialId := key])
  {
    AddRefines(p, vk, [], map[], w, key);
    assert [] + [w] == [w];
  }

  lemma RefinedOpens(p: Platform, vk: Bytes, b: Blob, m: Contents, id: string)
    requires Refines(p, vk, b, m)
    ensures id !in m.keys ==> forall key :: OpenVault(p, b, id, key) == Returned(Err(WrapNotFound))
    ensures id in m.keys ==> OpenVault(p, b, id, m.keys[id]) == Returned(LatestOf(m, vk))
  {
    Found(b.wraps, id);
    var found := FindWrap(b.wraps, id);
    if found.Some? {
      assert Holds(p, vk, found.value, m.keys);
    }
  }

  /** A vault refines (passkey to wrapping key, payload): after any changes made with its own key, an
      enrolled passkey's latest wrapping key opens it to the latest payload and the same VK, unless
      that payload is one the vault schema refuses; a passkey not enrolled finds no wrap. */
  lemma VaultRefinesItsContents(p: Platform, x: VaultPayload, first: string, salt: string, key: Bytes, vk: Bytes,
                                iv: Bytes, wrapIv: Bytes, now: int, cs: seq<(Change, int)>, id: string)
    requires Lawful(p) && |vk| == KEY_LENGTH
    ensures var b := ApplyAll(p, vk, CreateVault(p, x, first, salt, key, vk, iv, wrapIv, now), cs);
            var m := ChangeAll(Contents(map[first := key], x), cs);
      && (id !in m.keys ==> forall k :: OpenVault(p, b, id, k) == Returned(Err(WrapNotFound)))
      && (id in m.keys ==> OpenVault(p, b, id, m.keys[id]) == Returned(LatestOf(m, vk)))
  {
    var b, m := CreateVault(p, x, first, salt, key, vk, iv, wrapIv, now), Contents(map[first := key], x);
    CreateRefines(p, x, first, salt, key, vk, iv, wrapIv, now);
    ChangesRefine(p, vk, b, m, cs);
    RefinedOpens(p, vk, ApplyAll(p, vk, b, cs), ChangeAll(m, cs), id);
  }

  /** Nothing keeps the last passkey: a vault can be left with no way to open it. */
  lemma LastPasskeyCanBeRemoved(p: Platform, vk: Bytes, b: Blob, m: Contents, last: string, now: int, id: string,
                                key: Bytes)
    requires Refines(p, vk, b, m) && m.keys.Keys == {last}
    ensures Apply(p, vk, b, RemovePasskey(last), now).wraps == []
    ensures OpenVault(p, Apply(p, vk, b, RemovePasskey(last), now), id, key) == Returned(Err(WrapNotFound))
  {
    forall w | w in b.wraps ensures w.credentialId == last {
      assert Holds(p, vk, w, m.keys);
    }
    NoOthers(b.wraps, last);
  }

  // ----- what else a blob says -----

  /** The salts the passkeys were last enrolled with. */
  function SaltsAfter(salts: map<string, string>, cs: seq<(Change, int)>): map<string, string> {
    if cs == [] then salts
    else
      var before := SaltsAfter(salts, cs[..|cs| - 1]);
      match cs[|cs| - 1].0
      case AddPasskey(id, salt, _, _) => before[id := salt]
      case RemovePasskey(id) => before - {id}
      case ReplacePayload(_, _) => before
  }

  ghost predicate Salted(wraps: seq<Wrap>, salts: map<string, string>) {
    forall w :: w in wraps ==> w.credentialId in salts && w.prfSalt == salts[w.credentialId]
  }

  /** Over any run each wrap carries the salt its passkey was last enrolled with. */
  lemma {:induction false} SaltsAreKept(p: Platform, vk: Bytes, b: Blob, salts: map<string, string>,
                                        cs: seq<(Change, int)>)
    requires Salted(b.wraps, salts)
    ensures Salted(ApplyAll(p, vk, b, cs).wraps, SaltsAfter(salts, cs))
  {
    if cs != [] {
      var n := |cs| - 1;
      SaltsAreKept(p, vk, b, salts, cs[..n]);
      var before := ApplyAll(p, vk, b, cs[..n]).wraps;
      if !cs[n].0.ReplacePayload? { Others(before, cs[n].0.credentialId); }
    }
  }

  /** The time of creation stays, and the time of the update is that of the last change. */
  lemma {:induction false} TimesAreKept(p: Platform, vk: Bytes, b: Blob, cs: seq<(Change, int)>)
    ensures ApplyAll(p, vk, b, cs).createdAt == b.createdAt
    ensures ApplyAll(p, vk, b, cs).updatedAt == if cs == [] then b.updatedAt else Some(cs[|cs| - 1].1)
  {
    if cs != [] { TimesAreKept(p, vk, b, cs[..|cs| - 1]); }
  }

  /** A new vault carries the first passkey's salt, its time of creation, and no update. */
  lemma CreatedVault(p: Platform, x: VaultPayload, id: string, salt: string, key: Bytes, vk: Bytes, iv: Bytes,
                     wrapIv: Bytes, now: int)
    ensures var b := CreateVault(p, x, id, salt, key, vk, iv, wrapIv, now);
      Salted(b.wraps, map[id := salt]) && |b.wraps| == 1 && b.createdAt == now && b.updatedAt == None
  {
    OneSalted(WrapVaultKey(p, vk, id, salt, key, wrapIv));
  }

  lemma OneSalted(w: Wrap)
    ensures Salted([w], map[w.credentialId := w.prfSalt])
  {
  }

  // ----- superseded wrapping keys -----

  /** The wrapping keys and nonces a run wraps the vault key with. */
  function WrapsMade(key: Bytes, wrapIv: Bytes, cs: seq<(Change, int)>): set<(Bytes, Bytes)> {
    if cs == [] then {(key, wrapIv)}
    else WrapsMade(key, wrapIv, cs[..|cs| - 1]) + WrapMade(cs[|cs| - 1].0)
  }

  function WrapMade(c: Change): set<(Bytes, Bytes)> {
    match c case AddPasskey(_, _, key, iv) => {(key, iv)} case _ => {}
  }

  ghost predicate MadeWrap(p: Platform, vk: Bytes, w: Wrap, keys: map<string, Bytes>, made: set<(Bytes, Bytes)>) {
    && w.credentialId in keys
    && exists iv :: (keys[w.credentialId], iv) in made
                    && w == WrapVaultKey(p, vk, w.credentialId, w.prfSalt, keys[w.credentialId], iv)
  }

  ghost predicate AllMade(p: Platform, vk: Bytes, wraps: seq<Wrap>, keys: map<string, Bytes>,
                          made: set<(Bytes, Bytes)>)
  {
    forall w :: w in wraps ==> MadeWrap(p, vk, w, keys, made)
  }

  lemma MadeMore(p: Platform, vk: Bytes, w: Wrap, keys: map<string, Bytes>, more: map<string, Bytes>,
                 made: set<(Bytes, Bytes)>, all: set<(Bytes, Bytes)>)
    requires MadeWrap(p, vk, w, keys, made) && made <= all
    requires w.credentialId in more && more[w.credentialId] == keys[w.credentialId]
    ensures MadeWrap(p, vk, w, more, all)
  {
    var iv :| (keys[w.credentialId], iv) in made
              && w == WrapVaultKey(p, vk, w.credentialId, w.prfSalt, keys[w.credentialId], iv);
    assert (more[w.credentialId], iv) in all;
  }

  lemma ChangeMakes(p: Platform, vk: Bytes, b: Blob, m: Contents, c: Change, now: int, made: set<(Bytes, Bytes)>)
    requires AllMade(p, vk, b.wraps, m.keys, made)
    ensures AllMade(p, vk, Apply(p, vk, b, c, now).wraps, Change1(m, c).keys, made + WrapMade(c))
  {
    var wraps', keys', all := Apply(p, vk, b, c, now).wraps, Change1(m, c).keys, made + WrapMade(c);
    if !c.ReplacePayload? { Others(b.wraps, c.credentialId); }
    forall w | w in wraps' ensures MadeWrap(p, vk, w, keys', all) {
      if w in b.wraps && (c.ReplacePayload? || w.credentialId != c.credentialId) {
        MadeMore(p, vk, w, m.keys, keys', made, all);
      } else {
        assert (c.wrappingKey, c.wrapIv) in all;
        assert w == WrapVaultKey(p, vk, w.credentialId, w.prfSalt, c.wrappingKey, c.wrapIv);
      }
    }
  }

  lemma {:induction false} RunMakes(p: Platform, vk: Bytes, b: Blob, m: Contents, key: Bytes, wrapIv: Bytes,
                                    cs: seq<(Change, int)>)
    requires AllMade(p, vk, b.wraps, m.keys, {(key, wrapIv)})
    ensures AllMade(p, vk, ApplyAll(p, vk, b, cs).wraps, ChangeAll(m, cs).keys, WrapsMade(key, wrapIv, cs))
  {
    if cs != [] {
      var n := |cs| - 1;
      RunMakes(p, vk, b, m, key, wrapIv, cs[..n]);
      ChangeMakes(p, vk, ApplyAll(p, vk, b, cs[..n]), ChangeAll(m, cs[..n]), cs[n].0, cs[n].1,
                  WrapsMade(key, wrapIv, cs[..n]));
    }
  }

  /** Among the wrapping keys tried, each wrap of the run opens under the key it was made with only. */
  ghost predicate WrapsAreBound(p: Platform, vk: Bytes, made: set<(Bytes, Bytes)>, tried: set<Bytes>) {
    forall x, k :: x in made && k in tried && k != x.0 ==> p.open(k, x.1, p.seal(x.0, x.1, vk, []), []) == None
  }

  lemma OtherKeyFails(p: Platform, vk: Bytes, w: Wrap, keys: map<string, Bytes>, made: set<(Bytes, Bytes)>,
                      tried: set<Bytes>, k: Bytes)
    requires MadeWrap(p, vk, w, keys, made) && WrapsAreBound(p, vk, made, tried) && k in tried
    requires k != keys[w.credentialId]
    ensures UnwrapVaultKey(p, w, k) == Returned(None)
  {
    var key := keys[w.credentialId];
    var iv :| (key, iv) in made && w == WrapVaultKey(p, vk, w.credentialId, w.prfSalt, key, iv);
    B.RoundTrip(iv);
    B.RoundTrip(p.seal(key, iv, vk, []));
    assert p.open(k, (key, iv).1, p.seal((key, iv).0, (key, iv).1, vk, []), []) == None;
  }

  lemma SupersededFails(p: Platform, vk: Bytes, b: Blob, m: Contents, made: set<(Bytes, Bytes)>, tried: set<Bytes>,
                        id: string, k: Bytes)
    requires Refines(p, vk, b, m) && AllMade(p, vk, b.wraps, m.keys, made) && WrapsAreBound(p, vk, made, tried)
    requires id in m.keys && k in tried && k != m.keys[id]
    ensures OpenVault(p, b, id, k) == Returned(Err(UnwrapFailed))
  {
    Found(b.wraps, id);
    OtherKeyFails(p, vk, FindWrap(b.wraps, id).value, m.keys, made, tried, k);
  }

  lemma FirstMade(p: Platform, vk: Bytes, id: string, salt: string, key: Bytes, iv: Bytes)
    ensures AllMade(p, vk, [WrapVaultKey(p, vk, id, salt, key, iv)], map[id := key], {(key, iv)})
  {
    var w := WrapVaultKey(p, vk, id, salt, key, iv);
    assert (map[id := key][id], iv) in {(key, iv)};
    assert MadeWrap(p, vk, w, map[id := key], {(key, iv)});
  }

  lemma LatestKeyDecides(p: Platform, vk: Bytes, b: Blob, m: Contents, made: set<(Bytes, Bytes)>, tried: set<Bytes>,
                         id: string, k: Bytes)
    requires Refines(p, vk, b, m) && AllMade(p, vk, b.wraps, m.keys, made) && WrapsAreBound(p, vk, made, tried)
    requires id in m.keys && k in tried
    ensures OpenVault(p, b, id, k) == Returned(if k == m.keys[id] then LatestOf(m, vk) else Err(UnwrapFailed))
  {
    if k == m.keys[id] {
      RefinedOpens(p, vk, b, m, id);
    } else {
      SupersededFails(p, vk, b, m, made, tried, id, k);
    }
  }

  /** Which key opens which passkey: after any run an enrolled passkey opens under its latest wrapping key,
      and under any other key tried, superseded ones included, it reports that unwrapping failed. */
  lemma OnlyTheLatestKeyOpens(p: Platform, x: VaultPayload, first: string, salt: string, key: Bytes, vk: Bytes,
                              iv: Bytes, wrapIv: Bytes, now: int, cs: seq<(Change, int)>, id: string,
                              tried: set<Bytes>, k: Bytes)
    requires Lawful(p) && |vk| == KEY_LENGTH && k in tried && WrapsAreBound(p, vk, WrapsMade(key, wrapIv, cs), tried)
    requires id in ChangeAll(Contents(map[first := key], x), cs).keys
    ensures var b := ApplyAll(p, vk, CreateVault(p, x, first, salt, key, vk, iv, wrapIv, now), cs);
            var m := ChangeAll(Contents(map[first := key], x), cs);
      OpenVault(p, b, id, k) == Returned(if k == m.keys[id] then LatestOf(m, vk) else Err(UnwrapFailed))
  {
    var b, m := CreateVault(p, x, first, salt, key, vk, iv, wrapIv, now), Contents(map[first := key], x);
    CreateRefines(p, x, first, salt, key, vk, iv, wrapIv, now);
    FirstMade(p, vk, first, salt, key, wrapIv);
    LatestKeyAfter(p, vk, b, m, key, wrapIv, cs, id, tried, k);
  }

  lemma LatestKeyAfter(p: Platform, vk: Bytes, b: Blob, m: Contents, key: Bytes, wrapIv: Bytes, cs: seq<(Change, int)>,
                       id: string, tried: set<Bytes>, k: Bytes)
    requires Lawful(p) && IsAesKeyLength(|vk|) && Refines(p, vk, b, m)
    requires AllMade(p, vk, b.wraps, m.keys, {(key, wrapIv)})
    requires k in tried && WrapsAreBound(p, vk, WrapsMade(key, wrapIv, cs), tried) && id in ChangeAll(m, cs).keys
    ensures OpenVault(p, ApplyAll(p, vk, b, cs), id, k)
            == Returned(if k == ChangeAll(m, cs).keys[id] then LatestOf(ChangeAll(m, cs), vk) else Err(UnwrapFailed))
  {
    RunMakes(p, vk, b, m, key, wrapIv, cs);
    ChangesRefine(p, vk, b, m, cs);
    LatestKeyDecides(p, vk, ApplyAll(p, vk, b, cs), ChangeAll(m, cs), WrapsMade(key, wrapIv, cs), tried, id, k);
  }

  function PlaceOf(keys: seq<Bytes>, k: Bytes): (n: nat)
    ensures n <= |keys| && (n < |keys| ==> keys[n] == k) && (n == |keys| ==> k !in keys)
  {
    if keys == [] || keys[0] == k then 0 else 1 + PlaceOf(keys[1..], k)
  }

  function KeyTag(keys: seq<Bytes>, k: Bytes): (t: Bytes)
    requires |keys| < 256
    ensures |t| == TAG_LENGTH && t[0] == PlaceOf(keys, k)
  {
    var place: byte := PlaceOf(keys, k);
    seq(TAG_LENGTH, i => place)
  }

  function OpenTagged(tag: Bytes, c: Bytes): Option<Bytes> {
    if |c| < TAG_LENGTH || |tag| != TAG_LENGTH || c[|c| - TAG_LENGTH..] != tag then None
    else Some(c[..|c| - TAG_LENGTH])
  }

  /** That hypothesis is consistent with the laws, for any run with fewer than 256 wrapping keys and any keys tried. */
  lemma KeyBindingPlatformExists(vk: Bytes, made: set<(Bytes, Bytes)>, tried: set<Bytes>, keys: seq<Bytes>)
    returns (p: Platform)
    requires |keys| < 256 && forall x :: x in made ==> x.0 in keys
    ensures Lawful(p) && WrapsAreBound(p, vk, made, tried)
  {
    var zeros: Bytes := seq(32, i => 0);
    p := Platform(
      (m, k) => [0], (m, s, k) => true, k => zeros, k => zeros, (a, b) => Some(zeros), s => zeros,
      (k, n, t, a) => t + KeyTag(keys, k), (k, n, c, a) => OpenTagged(KeyTag(keys, k), c), b => zeros, b => "");
    forall t: Bytes, tag: Bytes, other: Bytes | |tag| == |other| == TAG_LENGTH
      ensures OpenTagged(other, t + tag) == if other == tag then Some(t) else None
    {
      var c := t + tag;
      assert c[|c| - TAG_LENGTH..] == tag && c[..|c| - TAG_LENGTH] == t;
    }
  }
}
