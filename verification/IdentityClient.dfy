/** The client orchestrator: a connection per server, a cached snapshot for subscribers, pairing, sign-in
    and sign-out over the in-memory storage backend.  A method here is one stretch of code between
    awaits, or several that are documented not to overlap with others. */
module IdentityClients {
  import opened Options
  import opened Text
  import opened JsMaps
  import opened Platform
  import Keys
  import SealedBoxes
  import Sessions
  import opened ClientBundles
  import opened ClientStorage
  import opened StoredIdentities
  import opened SignIns
  import B = Base64Url

  /** A frozen array; its identity matters to subscribers that compare snapshots by reference. */
  class Snapshot {
    const items: seq<Connection>

    constructor (items: seq<Connection>)
      ensures this.items == items
    {
      this.items := items;
    }
  }

  /** The connections of a fresh bundle: one idle entry per server, in order of first occurrence. */
  function Seeded(servers: seq<BundleServer>): (m: JsMap<Connection>)
    ensures Coherent(m)
  {
    if servers == [] then Empty()
    else
      var s := servers[|servers| - 1].serverPubKey;
      Seeded(servers[..|servers| - 1]).Set(s, Connection(s, Idle))
  }

  function BundleServers(b: Option<Bundle>): seq<BundleServer> {
    match b case None => [] case Some(x) => x.servers
  }

  lemma {:induction false} SeededDomain(servers: seq<BundleServer>)
    ensures Seeded(servers).at.Keys == ServerNames(servers)
    ensures forall s :: s in Seeded(servers).at ==> Seeded(servers).at[s] == Connection(s, Idle)
  {
    if servers != [] {
      var n := |servers| - 1;
      SeededDomain(servers[..n]);
      NamesGrow(servers);
    }
  }

  lemma NamesGrow(servers: seq<BundleServer>)
    requires servers != []
    ensures ServerNames(servers) == ServerNames(servers[..|servers| - 1]) + {servers[|servers| - 1].serverPubKey}
  {
    assert servers == servers[..|servers| - 1] + [servers[|servers| - 1]];
  }

  lemma DistinctPrefix(servers: seq<BundleServer>)
    requires servers != [] && Distinct(NamesOf(servers))
    ensures var n := |servers| - 1;
      && NamesOf(servers) == NamesOf(servers[..n]) + [servers[n].serverPubKey] && Distinct(NamesOf(servers[..n]))
      && servers[n].serverPubKey !in ServerNames(servers[..n])
  {
    var n, names := |servers| - 1, NamesOf(servers);
    var init := NamesOf(servers[..n]);
    assert names == init + [servers[n].serverPubKey];
    forall i, j | 0 <= i < j < n ensures init[i] != init[j] {
      assert names[i] == init[i] && names[j] == init[j];
    }
    forall s | s in servers[..n] ensures s.serverPubKey != servers[n].serverPubKey {
      var i :| 0 <= i < n && servers[i] == s;
      assert names[i] != names[n];
    }
  }

  /** Seeding lists the servers of the bundle, idle, in the bundle's order. */
  lemma {:induction false} SeededLists(servers: seq<BundleServer>)
    requires Distinct(NamesOf(servers))
    ensures Seeded(servers).keys == NamesOf(servers)
    ensures forall s :: s in Seeded(servers).at ==> Seeded(servers).at[s] == Connection(s, Idle)
  {
    SeededDomain(servers);
    if servers != [] {
      var n := |servers| - 1;
      DistinctPrefix(servers);
      SeededLists(servers[..n]);
      SeededDomain(servers[..n]);
    }
  }

  /** Tower's answer to a poll. */
  datatype PollAnswer =
    | StillPending
    | ClaimedByUser
    | DeniedByUser
    | PairingExpired
    | Completed(cert: Sessions.CertEnvelope, box: SealedBoxes.SealedBox)
    | CompletedIncomplete  // no certificate or no bundle
    | PollBroke            // the request throws

  datatype PollResult = PollState(answer: PollAnswer) | PollDone(identity: StoredIdentity)

  /** What one poll comes to. */
  datatype PollStep = Reports | Throws | Pairs(x: Paired)

  function PollStepOf(p: Platform, appId: string, keys: ClientKeys, aborted: bool, answer: PollAnswer,
                      nowSec: int): PollStep
  {
    if aborted || answer.CompletedIncomplete? || answer.PollBroke? then Throws
    else if !answer.Completed? then Reports
    else match Pair(p, appId, answer.cert, answer.box, keys, nowSec) case Threw => Throws case Returned(x) => Pairs(x)
  }

  /** What the caller and Tower do in the rounds of the polling loop. */
  datatype Rounds = Rounds(cancelled: nat -> bool, aborted: nat -> bool, poll: nat -> PollAnswer, nowSec: nat -> int)

  predicate Waits(r: Rounds, i: nat) {
    !r.cancelled(i) && !r.aborted(i) && (r.poll(i) == StillPending || r.poll(i) == ClaimedByUser)
  }

  function FirstDecisive(r: Rounds, i: nat, maxAttempts: nat): Option<nat>
    decreases maxAttempts - i
  {
    if i >= maxAttempts then None
    else if !Waits(r, i) then Some(i)
    else FirstDecisive(r, i + 1, maxAttempts)
  }

  function RoundOutcome(p: Platform, appId: string, keys: ClientKeys, r: Rounds, i: nat): Outcome<Paired> {
    if r.cancelled(i) then Threw
    else match PollStepOf(p, appId, keys, r.aborted(i), r.poll(i), r.nowSec(i))
         case Pairs(x) => Returned(x)
         case _ => Threw
  }

  function Decision(p: Platform, appId: string, keys: ClientKeys, maxAttempts: nat, r: Rounds): Outcome<Paired> {
    match FirstDecisive(r, 0, maxAttempts) case None => Threw case Some(i) => RoundOutcome(p, appId, keys, r, i)
  }

  /** The first decisive round is the least one in which the caller stops or Tower no longer says to wait. */
  lemma {:induction false} FirstDecisiveIsFirst(r: Rounds, i: nat, maxAttempts: nat)
    ensures match FirstDecisive(r, i, maxAttempts)
            case None => forall j :: i <= j < maxAttempts ==> Waits(r, j)
            case Some(n) => i <= n < maxAttempts && !Waits(r, n) && forall j :: i <= j < n ==> Waits(r, j)
    decreases maxAttempts - i
  {
    if i < maxAttempts { FirstDecisiveIsFirst(r, i + 1, maxAttempts); }
  }

  /** A poll pairs exactly when the request was not aborted and Tower hands out a certificate and a bundle this
      device can pair with; while the user has not decided, or has declined, it only reports that. */
  lemma PollsExactly(p: Platform, appId: string, keys: ClientKeys, aborted: bool, answer: PollAnswer, nowSec: int)
    ensures var step := PollStepOf(p, appId, keys, aborted, answer, nowSec);
      && (forall x :: step == Pairs(x) <==>
            && !aborted && answer.Completed?
            && Pair(p, appId, answer.cert, answer.box, keys, nowSec) == Returned(x))
      && (step == Reports <==>
            && !aborted
            && (|| answer == StillPending || answer == ClaimedByUser || answer == DeniedByUser
                || answer == PairingExpired))
  {
  }

  /** The caller has not stopped, and Tower says that the user has not decided yet. */
  ghost predicate Undecided(r: Rounds, i: nat) {
    !r.cancelled(i) && !r.aborted(i) && r.poll(i) in {StillPending, ClaimedByUser}
  }

  /** Round `i` is the first that decides. */
  ghost predicate Decides(r: Rounds, i: nat) {
    !Undecided(r, i) && forall j: nat :: j < i ==> Undecided(r, j)
  }

  lemma DecisiveRound(r: Rounds, i: nat, maxAttempts: nat)
    ensures FirstDecisive(r, 0, maxAttempts) == Some(i) <==> i < maxAttempts && Decides(r, i)
  {
    FirstDecisiveIsFirst(r, 0, maxAttempts);
    forall j: nat ensures Waits(r, j) <==> Undecided(r, j) {}
  }

  /** The polling loop pairs exactly when, within the attempts, the first round that decides was not stopped
      and hands out what this device can pair with. */
  lemma AwaitsExactly(p: Platform, appId: string, keys: ClientKeys, maxAttempts: nat, r: Rounds, x: Paired)
    ensures Decision(p, appId, keys, maxAttempts, r) == Returned(x) <==>
      exists i: nat :: i < maxAttempts && Decides(r, i) && Completes(p, appId, keys, r, i, x)
  {
    var first := FirstDecisive(r, 0, maxAttempts);
    forall i: nat ensures first == Some(i) <==> i < maxAttempts && Decides(r, i) {
      DecisiveRound(r, i, maxAttempts);
    }
    if first.Some? { RoundCompletes(p, appId, keys, r, first.value, x); }
  }

  ghost predicate Completes(p: Platform, appId: string, keys: ClientKeys, r: Rounds, i: nat, x: Paired) {
    && !r.cancelled(i) && !r.aborted(i) && r.poll(i).Completed?
    && Pair(p, appId, r.poll(i).cert, r.poll(i).box, keys, r.nowSec(i)) == Returned(x)
  }

  lemma RoundCompletes(p: Platform, appId: string, keys: ClientKeys, r: Rounds, i: nat, x: Paired)
    ensures RoundOutcome(p, appId, keys, r, i) == Returned(x) <==> Completes(p, appId, keys, r, i, x)
  {
    PollsExactly(p, appId, keys, r.aborted(i), r.poll(i), r.nowSec(i));
  }

  /** The device once a pairing has gone through: tokens of earlier servers stay. */
  function PairedDevice(d: Device, x: Paired): Device {
    Device(Seeded(x.bundle.servers), d.stored.(identity := Some(x.identity), bundle := Some(x.bundle)))
  }

  /** A paired device lists exactly the servers of its bundle, idle and in order, finds their Ks, and keeps every
      token it had. */
  lemma PairingSetsUp(d: Device, x: Paired, server: string)
    requires Distinct(NamesOf(x.bundle.servers))
    ensures var y := PairedDevice(d, x);
      && y.connections.keys == NamesOf(x.bundle.servers)
      && (server in y.connections.at ==> y.connections.at[server] == Connection(server, Idle))
      && y.stored.identity == Some(x.identity) && y.stored.tokens == d.stored.tokens
      && KeyOf(y.stored.bundle, server) == KeyIn(x.bundle.servers, server)
  {
    SeededLists(x.bundle.servers);
  }

  /** A token of a server that is not in the new bundle outlives the next sign-out. */
  lemma TokenOutlivesSignOut(d: Device, x: Paired, server: string)
    requires server in d.stored.tokens && server !in ServerNames(x.bundle.servers)
    ensures var s := SignedOut(PairedDevice(d, x).stored); server in s.tokens && s != NOTHING
  {
  }

  /** Signing in to a server and pairing again without it leads there, whatever the schedule was. */
  lemma RepairingLeavesTokens(w: World, d: Device, servers: seq<string>, schedule: seq<nat>, server: string, x: Paired)
    requires Distinct(servers) && Coherent(d.connections) && server in servers
    requires server !in ServerNames(x.bundle.servers)
    requires AllDone(SignIns.Steps(w, StartAll(d, servers), schedule))
    requires Settled(w, server, StartOf(d, server)).token.Some?
    ensures SignedOut(PairedDevice(SignIns.Steps(w, StartAll(d, servers), schedule).d, x).stored) != NOTHING
  {
    var z := SignIns.Steps(w, StartAll(d, servers), schedule).d;
    SignInsAreConfluent(w, d, servers, schedule);
    assert LocalOf(z, Task(server, Settled(w, server, StartOf(d, server)).stage)) ==
           Settled(w, server, StartOf(d, server));
    TokenOutlivesSignOut(z, x, server);
  }

  // ----- what listeners are told -----

  /** A listener call: who was called, with which snapshot, and what the connections were at that moment. */
  datatype Heard = Heard(listener: nat, snapshot: Snapshot, values: seq<Connection>)

  function Calls(listeners: seq<nat>, s: Snapshot, values: seq<Connection>): seq<Heard> {
    seq(|listeners|, i requires 0 <= i < |listeners| => Heard(listeners[i], s, values))
  }

  /** The log without the identity of the snapshots. */
  function Told(heard: seq<Heard>): seq<(nat, seq<Connection>)> {
    seq(|heard|, i requires 0 <= i < |heard| => (heard[i].listener, heard[i].values))
  }

  function Listing(m: JsMap<Connection>): (vs: seq<Connection>)
    ensures m.Valid() ==> vs == m.Values()
  {
    assert m.Valid() ==> forall i :: 0 <= i < |m.keys| ==> m.keys[i] in Elements(m.keys);
    seq(|m.keys|, i requires 0 <= i < |m.keys| =>
                    if m.keys[i] in m.at then m.at[m.keys[i]] else Connection(m.keys[i], Idle))
  }

  function TellAll(listeners: seq<nat>, values: seq<Connection>): seq<(nat, seq<Connection>)> {
    seq(|listeners|, i requires 0 <= i < |listeners| => (listeners[i], values))
  }

  /** What the starts of the sign-ins tell: after each, the connections as they are then. */
  function ToldByStarts(d: Device, servers: seq<string>, listeners: seq<nat>): seq<(nat, seq<Connection>)> {
    if servers == [] then []
    else
      ToldByStarts(d, servers[..|servers| - 1], listeners)
      + TellAll(listeners, Listing(StartAll(d, servers).d.connections))
  }

  predicate TurnReports(w: World, y: SignIns.System, i: nat) {
    i < |y.tasks| && Turn(w, y.tasks[i].server, y.tasks[i].stage, KeyOf(y.d.stored.bundle, y.tasks[i].server)).1.Report?
  }

  /** What the turns tell: exactly the turns that report a status, each the connections after it. */
  function ToldByTurns(w: World, y: SignIns.System, schedule: seq<nat>,
                       listeners: seq<nat>): seq<(nat, seq<Connection>)>
  {
    if schedule == [] then []
    else
      var n := |schedule| - 1;
      var z := SignIns.Steps(w, y, schedule[..n]);
      ToldByTurns(w, y, schedule[..n], listeners) +
      if TurnReports(w, z, schedule[n]) then TellAll(listeners, Listing(SignIns.Step(w, z, schedule[n]).d.connections))
      else []
  }

  lemma ToldMore(heard: seq<Heard>, listeners: seq<nat>, s: Snapshot, values: seq<Connection>)
    ensures Told(heard + Calls(listeners, s, values)) == Told(heard) + TellAll(listeners, values)
  {
  }

  class AviatoPilotClient {
    const appId: string
    const storage: MemoryStorageBackend
    var connections: JsMap<Connection>
    var connectionsSnapshot: Snapshot?
    var listeners: seq<nat>                  // a Set, in the order of subscription
    ghost var heard: seq<Heard>              // every listener call so far

    /** At every await the cached snapshot is unset or lists the connection map's values in insertion
        order, and each entry is filed under its own key; and so it was at every listener call. */
    ghost predicate Valid()
      reads this
    {
      && Coherent(connections) && Distinct(listeners)
      && (connectionsSnapshot != null ==> connectionsSnapshot.items == connections.Values())
      && SnapshotsWereCurrent()
    }

    ghost predicate SnapshotsWereCurrent()
      reads this
    {
      forall i :: 0 <= i < |heard| ==> heard[i].snapshot.items == heard[i].values
    }

    ghost function View(): Device
      reads this, storage
    {
      Device(connections, storage.View())
    }

    constructor (appId: string, storage: MemoryStorageBackend)
      ensures Valid() && this.appId == appId && this.storage == storage
      ensures connections == Empty() && connectionsSnapshot == null && listeners == [] && heard == []
    {
      this.appId := appId;
      this.storage := storage;
      connections := Empty();
      connectionsSnapshot := null;
      listeners := [];
      heard := [];
    }

    method Subscribe(l: nat)
      requires Valid()
      modifies this`listeners
      ensures Valid() && listeners == if l in old(listeners) then old(listeners) else old(listeners) + [l]
    {
      if l !in listeners {
        listeners := listeners + [l];
      }
    }

    /** Every listener, in order of subscription, gets the same new snapshot of the current connections. */
    method Emit()
      requires Coherent(connections) && Distinct(listeners) && SnapshotsWereCurrent()
      modifies this`connectionsSnapshot, this`heard
      ensures Valid() && connectionsSnapshot != null && fresh(connectionsSnapshot)
      ensures heard == old(heard) + Calls(listeners, connectionsSnapshot, connections.Values())
    {
      var snapshot := new Snapshot(connections.Values());
      connectionsSnapshot := snapshot;
      for i := 0 to |listeners|
        invariant connectionsSnapshot == snapshot && SnapshotsWereCurrent()
        invariant heard == old(heard) + Calls(listeners[..i], snapshot, connections.Values())
      {
        heard := heard + [Heard(listeners[i], snapshot, connections.Values())];
        assert listeners[..i + 1] == listeners[..i] + [listeners[i]];
      }
      assert listeners[..|listeners|] == listeners;
    }

    method SetStatus(server: string, status: Status)
      requires Valid()
      modifies this`connections, this`connectionsSnapshot, this`heard
      ensures Valid() && View() == WithStatus(old(View()), server, status)
      ensures connectionsSnapshot != null && fresh(connectionsSnapshot)
      ensures heard == old(heard) + Calls(listeners, connectionsSnapshot, connections.Values())
    {
      connections := connections.Set(server, Connection(server, status));
      Emit();
    }

    /** Between two changes the same object comes back, so a subscriber sees nothing new. */
    method GetConnections() returns (s: Snapshot)
      requires Valid()
      modifies this`connectionsSnapshot
      ensures Valid() && s == connectionsSnapshot && s.items == connections.Values()
      ensures old(connectionsSnapshot) != null ==> s == old(connectionsSnapshot)
    {
      if connectionsSnapshot == null {
        connectionsSnapshot := new Snapshot(connections.Values());
      }
      s := connectionsSnapshot;
    }

    method Reseed(servers: seq<BundleServer>)
      requires Valid()
      modifies this`connections, this`connectionsSnapshot, this`heard
      ensures Valid() && connections == Seeded(servers)
      ensures connectionsSnapshot != null && fresh(connectionsSnapshot)
      ensures heard == old(heard) + Calls(listeners, connectionsSnapshot, connections.Values())
    {
      connections := Empty();
      for i := 0 to |servers|
        invariant connections == Seeded(servers[..i]) && heard == old(heard)
      {
        assert servers[..i + 1][..i] == servers[..i];
        connections := connections.Set(servers[i].serverPubKey, Connection(servers[i].serverPubKey, Idle));
      }
      assert servers[..|servers|] == servers;
      Emit();
    }

    method Hydrate() returns (found: bool)
      requires Valid()
      modifies this`connections, this`connectionsSnapshot, this`heard
      ensures Valid() && found == storage.identity.Some?
      ensures connections == if found then Seeded(BundleServers(storage.bundle)) else old(connections)
      ensures !found ==> connectionsSnapshot == old(connectionsSnapshot) && heard == old(heard)
      ensures found ==> connectionsSnapshot != null
      ensures found ==> heard == old(heard) + Calls(listeners, connectionsSnapshot, connections.Values())
    {
      if storage.identity.None? {
        return false;
      }
      Reseed(BundleServers(storage.bundle));
      return true;
    }

    /** Nothing is stored and no listener is called unless every check passes. */
    method FinalizePair(p: Platform, cert: Sessions.CertEnvelope, box: SealedBoxes.SealedBox, keys: ClientKeys,
                        nowSec: int)
      returns (r: Outcome<StoredIdentity>)
      requires Valid()
      modifies this`connections, this`connectionsSnapshot, this`heard, storage
      ensures Valid()
      ensures match Pair(p, appId, cert, box, keys, nowSec)
              case Threw => r == Threw && View() == old(View()) && connectionsSnapshot == old(connectionsSnapshot)
                            && heard == old(heard)
              case Returned(x) => r == Returned(x.identity) && View() == PairedDevice(old(View()), x)
      ensures r.Returned? ==> connectionsSnapshot != null && fresh(connectionsSnapshot)
      ensures r.Returned? ==> heard == old(heard) + Calls(listeners, connectionsSnapshot, connections.Values())
    {
      var verified := Sessions.VerifyClientCert(p, cert, None, nowSec, Sessions.CLOCK_SKEW_SEC);
      if !verified.CertOk? {
        return Threw;
      }
      var c := verified.payload;
      if c.clientPubKey != HexEncode(keys.pub) {
        return Threw;
      }
      if c.clientEncPubKey != HexEncode(keys.encPub) {
        return Threw;
      }
      if c.appId != appId {
        return Threw;
      }
      var bundle := OpenClientBundle(p, box, keys.encPriv);
      if bundle.Err? {
        return Threw;
      }
      var identity := IdentityFrom(cert, c, keys);
      storage.SetIdentity(Some(identity));
      storage.SetBundle(Some(bundle.value));
      Reseed(bundle.value.servers);
      return Returned(identity);
    }

    method PollPair(p: Platform, keys: ClientKeys, aborted: bool, answer: PollAnswer, nowSec: int)
      returns (r: Outcome<PollResult>)
      requires Valid()
      modifies this`connections, this`connectionsSnapshot, this`heard, storage
      ensures Valid()
      ensures match PollStepOf(p, appId, keys, aborted, answer, nowSec)
              case Throws => r == Threw && View() == old(View()) && connectionsSnapshot == old(connectionsSnapshot)
                            && heard == old(heard)
              case Reports => r == Returned(PollState(answer)) && View() == old(View())
                            && connectionsSnapshot == old(connectionsSnapshot) && heard == old(heard)
              case Pairs(x) => r == Returned(PollDone(x.identity)) && View() == PairedDevice(old(View()), x)
      ensures r.Returned? && r.value.PollDone? ==> connectionsSnapshot != null && fresh(connectionsSnapshot)
      ensures r.Returned? && r.value.PollDone? ==>
                heard == old(heard) + Calls(listeners, connectionsSnapshot, connections.Values())
    {
      if aborted {
        return Threw;
      }
      if answer.PollBroke? {
        return Threw;
      }
      if answer.CompletedIncomplete? {
        return Threw;
      }
      if !answer.Completed? {
        return Returned(PollState(answer));
      }
      var identity := FinalizePair(p, answer.cert, answer.box, keys, nowSec);
      return if identity.Threw? then Threw else Returned(PollDone(identity.value));
    }

    /** The polling loop of `beginPair`: the first round that decides settles the pairing; at most one
        pairing is finalized, its listeners are called once, and running out of attempts stores nothing. */
    method AwaitPairing(p: Platform, keys: ClientKeys, maxAttempts: nat, rounds: Rounds)
      returns (r: Outcome<StoredIdentity>)
      requires Valid()
      modifies this`connections, this`connectionsSnapshot, this`heard, storage
      ensures Valid()
      ensures match Decision(p, appId, keys, maxAttempts, rounds)
              case Threw => r == Threw && View() == old(View()) && connectionsSnapshot == old(connectionsSnapshot)
                            && heard == old(heard)
              case Returned(x) => r == Returned(x.identity) && View() == PairedDevice(old(View()), x)
      ensures r.Returned? ==> connectionsSnapshot != null && fresh(connectionsSnapshot)
      ensures r.Returned? ==> heard == old(heard) + Calls(listeners, connectionsSnapshot, connections.Values())
    {
      for i := 0 to maxAttempts
        invariant Valid() && View() == old(View()) && connectionsSnapshot == old(connectionsSnapshot)
        invariant heard == old(heard)
        invariant FirstDecisive(rounds, 0, maxAttempts) == FirstDecisive(rounds, i, maxAttempts)
      {
        if rounds.cancelled(i) || rounds.aborted(i) {
          return Threw;
        }
        var result := PollPair(p, keys, rounds.aborted(i), rounds.poll(i), rounds.nowSec(i));
        if result.Threw? {
          return Threw;
        }
        if result.value.PollDone? {
          return Returned(result.value.identity);
        }
        if result.value.answer == DeniedByUser || result.value.answer == PairingExpired {
          return Threw;
        }
      }
      return Threw;
    }

    // ----- signing in -----

    method StartSignIn(server: string) returns (stage: Stage)
      requires Valid()
      modifies this`connections, this`connectionsSnapshot, this`heard
      ensures Valid() && View() == WithStatus(old(View()), server, Connecting)
      ensures stage == AwaitIdentity(storage.identity)
      ensures connectionsSnapshot != null && fresh(connectionsSnapshot)
      ensures heard == old(heard) + Calls(listeners, connectionsSnapshot, connections.Values())
    {
      SetStatus(server, Connecting);
      return AwaitIdentity(storage.identity);
    }

    /** One turn, as the code between two awaits writes it. */
    method ResumeSignIn(w: World, server: string, stage: Stage) returns (next: Stage)
      requires Valid()
      modifies this`connections, this`connectionsSnapshot, this`heard, storage
      ensures Valid()
      ensures var (stage', effect) := Turn(w, server, stage, KeyOf(old(storage.bundle), server));
        && next == stage' && View() == SignIns.Apply(w, old(View()), server, effect)
        && (if effect.Report? then connectionsSnapshot != null && fresh(connectionsSnapshot)
                                   && heard == old(heard) + Calls(listeners, connectionsSnapshot, connections.Values())
            else connectionsSnapshot == old(connectionsSnapshot) && heard == old(heard))
    {
      next := stage;
      match stage {
        case AwaitIdentity(read) =>
          if read.None? {
            SetStatus(server, Failed(NoIdentity, None));
            return Done(false);
          }
          return AwaitBundle(read.value, KeyOf(storage.bundle, server));
        case AwaitBundle(identity, key) =>
          if key.None? {
            SetStatus(server, Unauthorized(None));
            return Done(false);
          }
          var k := B.Decode(key.value);
          return if k.None? then Done(true) else AwaitResolve(identity, k.value);
        case AwaitResolve(identity, k) =>
          var resolved := w.resolve(server, k);
          if resolved.Threw? {
            return Done(true);
          }
          if resolved.value.Err? {
            SetStatus(server, ResolveStatus(resolved.value.error));
            return Done(false);
          }
          if identity.clientPriv.None? || identity.clientEncPriv.None? {
            SetStatus(server, Failed(ShapeError, None));
            return Done(false);
          }
          if B.Decode(identity.clientEncPriv.value).None? || B.Decode(identity.clientPriv.value).None? {
            SetStatus(server, Failed(UnknownError, None));
            return Done(false);
          }
          return AwaitAuth(identity, BaseUrl(resolved.value.value));
        case AwaitAuth(identity, url) =>
          var auth := w.authenticate(server, identity, url);
          match auth {
            case Broke =>
              SetStatus(server, Failed(UnknownError, None));
              return Done(false);
            case Denied(code, status) =>
              if code == HttpError && status == Some(401) {
                SetStatus(server, Unauthorized(Some(401)));
              } else {
                SetStatus(server, Failed(code, status));
              }
              return Done(false);
            case Granted(session, _) =>
              storage.SetServerToken(server, Some(session));
              return AwaitToken(url, auth);
          }
        case AwaitToken(url, granted) =>
          if granted.Granted? {
            if granted.refreshedKey.Some? {
              storage.UpsertServerKey(server, granted.refreshedKey.value, w.nowSec);
              return AwaitUpsert(url, granted.session);
            }
            SetStatus(server, Online(url, granted.session));
            return Done(false);
          }
        case AwaitUpsert(url, session) =>
          SetStatus(server, Online(url, session));
          return Done(false);
        case Done(_) =>
      }
    }

    /** Signs in to every server of the bundle; `schedule` is the order in which the event loop resumes
        the sign-ins.  Once all are done the result does not depend on it.  Listeners hear of every
        start and of every turn that reports a status, with the connections of that moment. */
    method InitializeAllConnections(w: World, schedule: seq<nat>) returns (tasks: seq<Task>)
      requires Valid()
      modifies this`connections, this`connectionsSnapshot, this`heard, storage
      ensures Valid()
      ensures storage.identity == old(storage.identity)
      ensures old(storage.identity).None? || old(storage.bundle).None? ==>
                && tasks == [] && View() == old(View())
                && connectionsSnapshot == old(connectionsSnapshot) && heard == old(heard)
      ensures old(storage.identity).Some? && old(storage.bundle).Some? ==>
                var (d, names) := (old(View()), NamesOf(old(storage.bundle).value.servers));
                && SignIns.System(View(), tasks) == SignIns.Steps(w, StartAll(d, names), schedule)
                && Told(heard) == old(Told(heard)) + ToldByStarts(d, names, listeners)
                                  + ToldByTurns(w, StartAll(d, names), schedule, listeners)
                && (AllDone(SignIns.System(View(), tasks)) && Distinct(names) ==> SettledState(w, d, names, View()))
    {
      tasks := [];
      if storage.identity.None? || storage.bundle.None? {
        return;
      }
      var names := NamesOf(storage.bundle.value.servers);
      ghost var d := View();
      tasks := StartSignIns(names);
      tasks := RunSignIns(w, tasks, schedule);
      if Distinct(names) && AllDone(SignIns.System(View(), tasks)) {
        SignInsAreConfluent(w, d, names, schedule);
      }
    }

    /** The synchronous part: every sign-in up to its first await, in the bundle's order. */
    method StartSignIns(names: seq<string>) returns (tasks: seq<Task>)
      requires Valid()
      modifies this`connections, this`connectionsSnapshot, this`heard
      ensures Valid() && SignIns.System(View(), tasks) == StartAll(old(View()), names)
      ensures Told(heard) == old(Told(heard)) + ToldByStarts(old(View()), names, listeners)
    {
      tasks := [];
      ghost var d := View();
      for i := 0 to |names|
        invariant Valid() && SignIns.System(View(), tasks) == StartAll(d, names[..i])
        invariant Told(heard) == old(Told(heard)) + ToldByStarts(d, names[..i], listeners)
      {
        assert names[..i + 1][..i] == names[..i];
        ghost var log := heard;
        var stage := StartSignIn(names[i]);
        tasks := tasks + [Task(names[i], stage)];
        ToldMore(log, listeners, connectionsSnapshot, connections.Values());
      }
      assert names[..|names|] == names;
    }

    /** The event loop. */
    method RunSignIns(w: World, tasks: seq<Task>, schedule: seq<nat>) returns (r: seq<Task>)
      requires Valid()
      modifies this`connections, this`connectionsSnapshot, this`heard, storage
      ensures Valid() && storage.identity == old(storage.identity)
      ensures SignIns.System(View(), r) == SignIns.Steps(w, SignIns.System(old(View()), tasks), schedule)
      ensures Told(heard) == old(Told(heard)) + ToldByTurns(w, SignIns.System(old(View()), tasks), schedule, listeners)
    {
      r := tasks;
      ghost var y := SignIns.System(View(), tasks);
      for i := 0 to |schedule|
        invariant Valid() && storage.identity == old(storage.identity)
        invariant SignIns.System(View(), r) == SignIns.Steps(w, y, schedule[..i])
        invariant Told(heard) == old(Told(heard)) + ToldByTurns(w, y, schedule[..i], listeners)
      {
        assert schedule[..i + 1][..i] == schedule[..i];
        r := ResumeTask(w, r, schedule[i]);
      }
      assert schedule[..|schedule|] == schedule;
    }

    /** One resumption by the event loop. */
    method ResumeTask(w: World, tasks: seq<Task>, j: nat) returns (r: seq<Task>)
      requires Valid()
      modifies this`connections, this`connectionsSnapshot, this`heard, storage
      ensures Valid() && storage.identity == old(storage.identity)
      ensures SignIns.System(View(), r) == SignIns.Step(w, SignIns.System(old(View()), tasks), j)
      ensures Told(heard) == old(Told(heard)) +
                if TurnReports(w, SignIns.System(old(View()), tasks), j) then TellAll(listeners, Listing(connections))
                else []
    {
      r := tasks;
      if j < |tasks| {
        ghost var log := heard;
        var stage := ResumeSignIn(w, tasks[j].server, tasks[j].stage);
        r := tasks[j := tasks[j].(stage := stage)];
        if TurnReports(w, SignIns.System(old(View()), tasks), j) {
          ToldMore(log, listeners, connectionsSnapshot, connections.Values());
        }
      }
    }

    // ----- renewal and sign-out -----

    /** The clock is read once to decide and, after Tower has answered, once more to verify. */
    method RenewCertIfNeeded(p: Platform, answer: RenewAnswer, withinDays: int, nowMs: int, verifiedMs: int)
      returns (r: RenewResult)
      requires Valid()
      modifies storage
      ensures Valid()
      ensures var (identity, result) := Renew(p, old(storage.identity), answer, withinDays, nowMs, verifiedMs);
        r == result && storage.View() == old(storage.View()).(identity := identity)
    {
      if storage.identity.None? {
        return Unavailable;
      }
      var identity := storage.identity.value;
      var remainingMs := identity.exp * 1000 - nowMs;
      if remainingMs > withinDays * DAY_MS {
        return NotNeeded;
      }
      match answer {
        case TowerRefused => return RenewalFailed;
        case RequestBroke => return RenewalThrew;
        case NewCert(bytes, sig) =>
          var verified := Sessions.VerifyClientCert(p, Sessions.CertEnvelope(bytes, sig),
                                                    Some(Keys.KeyText(identity.userPubKey)), verifiedMs / 1000,
                                                    Sessions.CLOCK_SKEW_SEC);
          match verified {
            case CertThrew => return RenewalThrew;
            case CertErr(_) => return RenewalFailed;
            case CertOk(c) =>
              storage.SetIdentity(Some(identity.(certSignature := sig, exp := c.exp, iat := c.iat,
                                                 signedCertBytes := bytes)));
              return Renewed;
          }
      }
    }

    method SignOut()
      requires Valid()
      modifies this`connections, this`connectionsSnapshot, this`heard, storage
      ensures Valid() && connections == Empty() && storage.View() == SignedOut(old(storage.View()))
      ensures connectionsSnapshot != null
      ensures heard == old(heard) + Calls(listeners, connectionsSnapshot, connections.Values())
    {
      if storage.identity.Some? {
        var servers := BundleServers(storage.bundle);
        for i := 0 to |servers|
          invariant Valid() && heard == old(heard) && storage.bundle == old(storage.bundle)
          invariant storage.View() == old(storage.View()).(tokens := old(storage.tokens) - ServerNames(servers[..i]))
        {
          assert servers[..i + 1] == servers[..i] + [servers[i]];
          assert ServerNames(servers[..i + 1]) == ServerNames(servers[..i]) + {servers[i].serverPubKey};
          storage.SetServerToken(servers[i].serverPubKey, None);
        }
        assert servers[..|servers|] == servers;
      }
      storage.SetIdentity(None);
      storage.SetBundle(None);
      Reseed([]);
    }
  }
}
