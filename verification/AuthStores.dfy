/** The media server's in-memory stores, each a map its methods update in place. */
module AuthStores {
  import opened Options
  import opened Text
  import JsMaps

  datatype ClientRow = ClientRow(
    clientId: string, userId: string, clientPubKey: string, clientEncPubKey: string, deviceName: string,
    certExpiresAt: string, lastSeenAt: string, revoked: bool)

  datatype UserRow = UserRow(id: string, userPubKey: string, userEncPubKey: string, towerUserId: string)

  type Challenges = map<string, int>          // challenge -> issuedAtMs
  type Clients = map<string, ClientRow>       // by clientId
  type Users = map<string, UserRow>           // by userPubKey

  const CHALLENGE_BYTES := 16

  function Find<V>(m: map<string, V>, k: string): Option<V> {
    if k in m then Some(m[k]) else None
  }

  predicate Revoked(clients: Clients, clientId: string) {
    clientId in clients && clients[clientId].revoked
  }

  function WithRevoked(clients: Clients, clientId: string): Clients {
    if clientId in clients then clients[clientId := clients[clientId].(revoked := true)] else clients
  }

  function WithUser(users: Users, u: UserRow): Users {
    users[u.userPubKey := u]
  }

  lemma HexStep(b: byte, rest: Bytes)
    ensures HexEncode([b] + rest) == [HexDigit(b / 16), HexDigit(b % 16)] + HexEncode(rest)
  {
    assert ([b] + rest)[1..] == rest;
  }

  class SessionChallengeStore {
    var rows: Challenges

    constructor ()
      ensures rows == map[]
    {
      rows := map[];
    }

    /** The challenge is the hex form of 16 random bytes; a timer that expires it is started. */
    method Create(random: Bytes, nowMs: int) returns (challenge: string)
      requires |random| == CHALLENGE_BYTES
      modifies this
      ensures challenge == HexEncode(random) && rows == old(rows)[challenge := nowMs]
    {
      challenge := "";
      for i := 0 to |random|
        invariant challenge + HexEncode(random[i..]) == HexEncode(random) && rows == old(rows)
      {
        ghost var before, rest := challenge, HexEncode(random[i + 1..]);
        var byteText := [HexDigit(random[i] / 16), HexDigit(random[i] % 16)];
        challenge := challenge + byteText;
        HexStep(random[i], random[i + 1..]);
        assert random[i..] == [random[i]] + random[i + 1..];
        assert before + (byteText + rest) == challenge + rest;
      }
      assert random[|random|..] == [] && challenge + "" == challenge;
      rows := rows[challenge := nowMs];
    }

    method Consume(challenge: string) returns (row: Option<int>)
      modifies this
      ensures row == Find(old(rows), challenge) && rows == old(rows) - {challenge}
    {
      row := Find(rows, challenge);
      if row.Some? {
        rows := rows - {challenge};
      }
    }

    /** The timer's callback. */
    method Expire(challenge: string)
      modifies this
      ensures rows == old(rows) - {challenge}
    {
      rows := rows - {challenge};
    }
  }

  class IdentityClientStore {
    var rows: Clients

    constructor ()
      ensures rows == map[]
    {
      rows := map[];
    }

    method Upsert(row: ClientRow)
      modifies this
      ensures rows == old(rows)[row.clientId := row]
    {
      rows := rows[row.clientId := row];
    }

    method Revoke(clientId: string)
      modifies this
      ensures rows == WithRevoked(old(rows), clientId)
    {
      if clientId in rows {
        rows := rows[clientId := rows[clientId].(revoked := true)];
      }
    }

    method IsRevoked(clientId: string) returns (r: bool)
      ensures r == Revoked(rows, clientId)
    {
      r := clientId in rows && rows[clientId].revoked;
    }
  }

  class IdentityUserStore {
    var rowsByPub: JsMaps.JsMap<UserRow>

    constructor ()
      ensures rowsByPub.Valid() && rowsByPub.at == map[]
    {
      rowsByPub := JsMaps.Empty();
    }

    method Seed(row: UserRow)
      requires rowsByPub.Valid()
      modifies this
      ensures rowsByPub.Valid() && rowsByPub.at == WithUser(old(rowsByPub.at), row)
    {
      rowsByPub := rowsByPub.Set(row.userPubKey, row);
    }

    method GetByPublicKey(userPubKey: string) returns (row: Option<UserRow>)
      ensures row == Find(rowsByPub.at, userPubKey)
    {
      row := Find(rowsByPub.at, userPubKey);
    }

    /** Every row of the user takes the new key; other rows, and the order of rows, stay. */
    method UpsertUserEncPubKey(userId: string, userEncPubKey: string)
      requires rowsByPub.Valid()
      modifies this
      ensures rowsByPub.Valid() && rowsByPub.keys == old(rowsByPub.keys)
      ensures rowsByPub.at == WithEncKey(old(rowsByPub.at), userId, userEncPubKey)
    {
      ghost var before := rowsByPub;
      var keys := rowsByPub.keys;
      for i := 0 to |keys|
        invariant rowsByPub.Valid() && rowsByPub.keys == keys
        invariant forall j :: 0 <= j < i ==>
                    keys[j] in before.at && rowsByPub.at[keys[j]] == ReKeyed(before.at[keys[j]], userId, userEncPubKey)
        invariant forall j :: i <= j < |keys| ==> keys[j] in before.at && rowsByPub.at[keys[j]] == before.at[keys[j]]
      {
        assert keys[i] in JsMaps.Elements(keys);
        var v := rowsByPub.at[keys[i]];
        if v.id == userId {
          rowsByPub := rowsByPub.Set(keys[i], v.(userEncPubKey := userEncPubKey));
        }
      }
      forall k | k in before.at
        ensures rowsByPub.at[k] == WithEncKey(before.at, userId, userEncPubKey)[k]
      {
        assert k in JsMaps.Elements(keys);
        var j :| 0 <= j < |keys| && keys[j] == k;
      }
    }
  }

  function ReKeyed(row: UserRow, userId: string, userEncPubKey: string): UserRow {
    if row.id == userId then row.(userEncPubKey := userEncPubKey) else row
  }

  function WithEncKey(users: Users, userId: string, userEncPubKey: string): Users {
    map k | k in users :: ReKeyed(users[k], userId, userEncPubKey)
  }
}
