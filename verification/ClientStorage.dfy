/** The client's in-memory storage backend: the identity, the key bundle and the session tokens. */
module ClientStorage {
  import opened Options
  import AuthStores
  import opened ClientBundles

  datatype StoredIdentity = StoredIdentity(
    clientId: string, clientPriv: Option<string>, clientEncPriv: Option<string>, signedCertBytes: string,
    certSignature: string, userPubKey: string, exp: int, iat: int)

  datatype Token = Token(token: string, expiresAt: string)

  datatype Stored = Stored(identity: Option<StoredIdentity>, bundle: Option<Bundle>, tokens: map<string, Token>)

  const NOTHING := Stored(None, None, map[])

  function NamesOf(servers: seq<BundleServer>): seq<string> {
    seq(|servers|, i requires 0 <= i < |servers| => servers[i].serverPubKey)
  }

  /** `bundle?.servers.find(...)`: the K of a server. */
  function KeyIn(servers: seq<BundleServer>, server: string): Option<string> {
    if servers == [] then None
    else if servers[0].serverPubKey == server then Some(servers[0].connInfoKey)
    else KeyIn(servers[1..], server)
  }

  function KeyOf(bundle: Option<Bundle>, server: string): Option<string> {
    match bundle case None => None case Some(b) => KeyIn(b.servers, server)
  }

  function Others(servers: seq<BundleServer>, server: string): seq<BundleServer> {
    if servers == [] then []
    else if servers[0].serverPubKey == server then Others(servers[1..], server)
    else [servers[0]] + Others(servers[1..], server)
  }

  /** A refreshed K replaces the server's entry and moves it to the end. */
  function WithKey(bundle: Option<Bundle>, server: string, connInfoKey: string, nowSec: int): Bundle {
    var entry := BundleServer(connInfoKey, server);
    match bundle
    case None => Bundle(nowSec, [entry])
    case Some(b) => Bundle(b.issuedAtSec, Others(b.servers, server) + [entry])
  }

  function WithToken(tokens: map<string, Token>, server: string, token: Option<Token>): map<string, Token> {
    match token case None => tokens - {server} case Some(t) => tokens[server := t]
  }

  lemma {:induction false} KeyInAppended(servers: seq<BundleServer>, entry: BundleServer, server: string)
    ensures KeyIn(servers + [entry], server) ==
      if KeyIn(servers, server).Some? then KeyIn(servers, server)
      else if entry.serverPubKey == server then Some(entry.connInfoKey) else None
  {
    if servers != [] {
      KeyInAppended(servers[1..], entry, server);
      assert (servers + [entry])[1..] == servers[1..] + [entry];
    }
  }

  lemma {:induction false} KeyInOthers(servers: seq<BundleServer>, gone: string, server: string)
    ensures KeyIn(Others(servers, gone), server) == if server == gone then None else KeyIn(servers, server)
  {
    if servers != [] { KeyInOthers(servers[1..], gone, server); }
  }

  /** Setting one server's K sets it and no other's, puts the server last, and keeps the bundle's issue
      time; a bundle that was not there is issued now. */
  lemma WithKeyLooksUp(bundle: Option<Bundle>, server: string, connInfoKey: string, nowSec: int, other: string)
    ensures var b := WithKey(bundle, server, connInfoKey, nowSec);
      && b.issuedAtSec == (if bundle.Some? then bundle.value.issuedAtSec else nowSec)
      && b.servers != [] && b.servers[|b.servers| - 1] == BundleServer(connInfoKey, server)
    ensures KeyOf(Some(WithKey(bundle, server, connInfoKey, nowSec)), other) ==
      if other == server then Some(connInfoKey) else KeyOf(bundle, other)
  {
    if bundle.None? {
      KeyInAppended([], BundleServer(connInfoKey, server), other);
      assert [] + [BundleServer(connInfoKey, server)] == [BundleServer(connInfoKey, server)];
    } else {
      KeyInOthers(bundle.value.servers, server, other);
      KeyInAppended(Others(bundle.value.servers, server), BundleServer(connInfoKey, server), other);
    }
  }

  class MemoryStorageBackend {
    var identity: Option<StoredIdentity>
    var bundle: Option<Bundle>
    var tokens: map<string, Token>

    constructor ()
      ensures View() == NOTHING
    {
      identity := None;
      bundle := None;
      tokens := map[];
    }

    ghost function View(): Stored
      reads this
    {
      Stored(identity, bundle, tokens)
    }

    method SetIdentity(i: Option<StoredIdentity>)
      modifies this
      ensures View() == old(View()).(identity := i)
    {
      identity := i;
    }

    method SetBundle(b: Option<Bundle>)
      modifies this
      ensures View() == old(View()).(bundle := b)
    {
      bundle := b;
    }

    method UpsertServerKey(server: string, connInfoKey: string, nowSec: int)
      modifies this
      ensures View() == old(View()).(bundle := Some(WithKey(old(bundle), server, connInfoKey, nowSec)))
    {
      var servers := if bundle.None? then [] else Others(bundle.value.servers, server);
      servers := servers + [BundleServer(connInfoKey, server)];
      assert old(bundle).None? ==> servers == [BundleServer(connInfoKey, server)];
      bundle := Some(Bundle(if bundle.None? then nowSec else bundle.value.issuedAtSec, servers));
    }

    method GetServerToken(server: string) returns (t: Option<Token>)
      ensures t == AuthStores.Find(tokens, server)
    {
      t := AuthStores.Find(tokens, server);
    }

    method SetServerToken(server: string, t: Option<Token>)
      modifies this
      ensures View() == old(View()).(tokens := WithToken(old(tokens), server, t))
    {
      if t.None? {
        tokens := tokens - {server};
      } else {
        tokens := tokens[server := t.value];
      }
    }
  }
}
