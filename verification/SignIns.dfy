/** Signing in to servers.  A sign-in runs without interruption between its awaits, so it is a stage
    that one turn of the event loop carries to the next; the turns of several sign-ins interleave
    freely over one connection map and one storage. */
module SignIns {
  import opened Options
  import opened Text
  import Json
  import opened JsMaps
  import opened Platform
  import AuthStores
  import opened ConnInfoPayloads
  import ConnInfos
  import opened ClientStorage
  import B = Base64Url

  datatype ErrorCode =
    | HttpError | ShapeError | SigError | NoServerPubKey | TowerSigError | ConnInfoShapeError | NoIdentity
    | UnknownError

  datatype Status =
    | Idle
    | Connecting
    | Online(baseUrl: string, session: Token)
    | Offline
    | Unauthorized(httpStatus: Option<int>)
    | StaleK
    | Failed(code: ErrorCode, status: Option<int>)

  datatype Connection = Connection(serverPubKey: string, status: Status)

  /** How a media server answers the handshake. */
  datatype AuthAnswer =
    | Granted(session: Token, refreshedKey: Option<string>)
    | Denied(code: ErrorCode, status: Option<int>)
    | Broke

  /** The outside world, fixed per server: what Tower's record resolves to under a K, and how the
      server answers. */
  datatype World = World(
    resolve: (string, Bytes) -> Outcome<Result<ConnInfo, ConnInfos.ResolveError>>,
    authenticate: (string, StoredIdentity, string) -> AuthAnswer,
    nowSec: int)

  /** What a sign-in awaits, with what it has read so far.  The bundle it reads is never updated in
      place, so the server's K can be taken from it at once. */
  datatype Stage =
    | AwaitIdentity(read: Option<StoredIdentity>)
    | AwaitBundle(identity: StoredIdentity, key: Option<string>)
    | AwaitResolve(identity: StoredIdentity, k: Bytes)
    | AwaitAuth(identity: StoredIdentity, baseUrl: string)
    | AwaitToken(baseUrl: string, granted: AuthAnswer)
    | AwaitUpsert(baseUrl: string, session: Token)
    | Done(threw: bool)

  /** What a turn does to the shared state. */
  datatype Effect = Keep | Report(status: Status) | SaveToken(session: Token) | SaveKey(connInfoKey: string)

  function BaseUrl(x: ConnInfo): string {
    x.protocol + "://" + x.publicHost + ":" + Json.Print(Json.Num(x.port))
  }

  function ResolveStatus(e: ConnInfos.ResolveError): Status {
    match e
    case StaleKOrDecryptFailed => StaleK
    case NotFound => Offline
    case TowerSigInvalid => Failed(TowerSigError, None)
    case ShapeInvalid => Failed(ConnInfoShapeError, None)
  }

  function DeniedStatus(code: ErrorCode, status: Option<int>): Status {
    if code == HttpError && status == Some(401) then Unauthorized(Some(401)) else Failed(code, status)
  }

  /** From the resolved record to the handshake: the stored identity must hold both raw keys, and they
      must decode. */
  function Prepare(identity: StoredIdentity, x: ConnInfo): (Stage, Effect) {
    match (identity.clientPriv, identity.clientEncPriv)
    case (Some(priv), Some(encPriv)) =>
      if B.Decode(encPriv).None? || B.Decode(priv).None? then (Done(false), Report(Failed(UnknownError, None)))
      else (AwaitAuth(identity, BaseUrl(x)), Keep)
    case _ => (Done(false), Report(Failed(ShapeError, None)))
  }

  /** One turn of the sign-in to `server`; `stored` is the K the bundle holds for it now. */
  function Turn(w: World, server: string, stage: Stage, stored: Option<string>): (Stage, Effect) {
    match stage
    case AwaitIdentity(None) => (Done(false), Report(Failed(NoIdentity, None)))
    case AwaitIdentity(Some(identity)) => (AwaitBundle(identity, stored), Keep)
    case AwaitBundle(_, None) => (Done(false), Report(Unauthorized(None)))
    case AwaitBundle(identity, Some(text)) =>
      (match B.Decode(text) case None => (Done(true), Keep) case Some(k) => (AwaitResolve(identity, k), Keep))
    case AwaitResolve(identity, k) =>
      (match w.resolve(server, k)
       case Threw => (Done(true), Keep)
       case Returned(Err(e)) => (Done(false), Report(ResolveStatus(e)))
       case Returned(Ok(x)) => Prepare(identity, x))
    case AwaitAuth(identity, url) =>
      (match w.authenticate(server, identity, url)
       case Broke => (Done(false), Report(Failed(UnknownError, None)))
       case Denied(code, status) => (Done(false), Report(DeniedStatus(code, status)))
       case Granted(session, key) => (AwaitToken(url, Granted(session, key)), SaveToken(session)))
    case AwaitToken(url, Granted(session, Some(k))) => (AwaitUpsert(url, session), SaveKey(k))
    case AwaitToken(url, Granted(session, None)) => (Done(false), Report(Online(url, session)))
    case AwaitUpsert(url, session) => (Done(false), Report(Online(url, session)))
    case _ => (stage, Keep)
  }

  // ----- the shared state -----

  datatype Device = Device(connections: JsMap<Connection>, stored: Stored)

  function WithStatus(d: Device, server: string, status: Status): Device {
    d.(connections := d.connections.Set(server, Connection(server, status)))
  }

  function Apply(w: World, d: Device, server: string, e: Effect): Device {
    match e
    case Keep => d
    case Report(status) => WithStatus(d, server, status)
    case SaveToken(session) => d.(stored := d.stored.(tokens := WithToken(d.stored.tokens, server, Some(session))))
    case SaveKey(k) => d.(stored := d.stored.(bundle := Some(WithKey(d.stored.bundle, server, k, w.nowSec))))
  }

  datatype Task = Task(server: string, stage: Stage)

  datatype System = System(d: Device, tasks: seq<Task>)

  /** The synchronous start of every sign-in, in the order of the list: report `connecting`, read the identity. */
  function StartAll(d: Device, servers: seq<string>): System {
    if servers == [] then System(d, [])
    else
      var n := |servers| - 1;
      var y := StartAll(d, servers[..n]);
      System(WithStatus(y.d, servers[n], Connecting), y.tasks + [Task(servers[n], AwaitIdentity(d.stored.identity))])
  }

  function Step(w: World, y: System, i: nat): System {
    if i < |y.tasks| then
      var t := y.tasks[i];
      var (stage, effect) := Turn(w, t.server, t.stage, KeyOf(y.d.stored.bundle, t.server));
      System(Apply(w, y.d, t.server, effect), y.tasks[i := t.(stage := stage)])
    else y
  }

  /** The event loop resumes the tasks in the order the schedule says. */
  function Steps(w: World, y: System, schedule: seq<nat>): System {
    if schedule == [] then y
    else Step(w, Steps(w, y, schedule[..|schedule| - 1]), schedule[|schedule| - 1])
  }

  predicate AllDone(y: System) {
    forall i :: 0 <= i < |y.tasks| ==> y.tasks[i].stage.Done?
  }

  // ----- one sign-in by itself -----

  /** Everything that concerns one server. */
  datatype Local = Local(stage: Stage, status: Option<Status>, token: Option<Token>, key: Option<string>)

  function StatusOf(d: Device, server: string): Option<Status> {
    if server in d.connections.at then Some(d.connections.at[server].status) else None
  }

  function LocalStep(w: World, server: string, l: Local): Local {
    var (stage, effect) := Turn(w, server, l.stage, l.key);
    match effect
    case Keep => l.(stage := stage)
    case Report(status) => l.(stage := stage, status := Some(status))
    case SaveToken(session) => l.(stage := stage, token := Some(session))
    case SaveKey(k) => l.(stage := stage, key := Some(k))
  }

  function LocalSteps(w: World, server: string, l: Local, n: nat): Local {
    if n == 0 then l else LocalStep(w, server, LocalSteps(w, server, l, n - 1))
  }

  const TURNS := 6

  /** How a sign-in ends when nothing else runs. */
  function Settled(w: World, server: string, l: Local): Local {
    LocalSteps(w, server, l, TURNS)
  }

  function Remaining(s: Stage): nat {
    match s
    case AwaitIdentity(_) => 6
    case AwaitBundle(_, _) => 5
    case AwaitResolve(_, _) => 4
    case AwaitAuth(_, _) => 3
    case AwaitToken(_, _) => 2
    case AwaitUpsert(_, _) => 1
    case Done(_) => 0
  }

  /** An answer is awaited only after it was granted. */
  predicate Sensible(s: Stage) {
    s.AwaitToken? ==> s.granted.Granted?
  }

  lemma TurnAdvances(w: World, server: string, s: Stage, stored: Option<string>)
    requires Sensible(s)
    ensures var s' := Turn(w, server, s, stored).0;
      Sensible(s') && if s.Done? then Turn(w, server, s, stored) == (s, Keep) else Remaining(s') < Remaining(s)
  {
  }

  lemma {:induction false} LocalProgress(w: World, server: string, l: Local, n: nat)
    requires Sensible(l.stage)
    ensures Sensible(LocalSteps(w, server, l, n).stage)
    ensures var after := LocalSteps(w, server, l, n).stage;
      after.Done? || Remaining(after) + n <= Remaining(l.stage)
  {
    if n > 0 {
      LocalProgress(w, server, l, n - 1);
      var before := LocalSteps(w, server, l, n - 1);
      TurnAdvances(w, server, before.stage, before.key);
    }
  }

  lemma {:induction false} DoneStays(w: World, server: string, l: Local, n: nat, m: nat)
    requires n <= m && LocalSteps(w, server, l, n).stage.Done?
    ensures LocalSteps(w, server, l, m) == LocalSteps(w, server, l, n)
  {
    if n < m {
      DoneStays(w, server, l, n, m - 1);
    }
  }

  /** A finished sign-in has settled, whatever number of turns it took. */
  lemma DoneIsSettled(w: World, server: string, l: Local, n: nat)
    requires Sensible(l.stage) && LocalSteps(w, server, l, n).stage.Done?
    ensures LocalSteps(w, server, l, n) == Settled(w, server, l)
  {
    LocalProgress(w, server, l, TURNS);
    if n <= TURNS { DoneStays(w, server, l, n, TURNS); } else { DoneStays(w, server, l, TURNS, n); }
  }

  // ----- interleaved sign-ins do not touch each other -----

  function LocalOf(d: Device, t: Task): Local {
    Local(t.stage, StatusOf(d, t.server), AuthStores.Find(d.stored.tokens, t.server), KeyOf(d.stored.bundle, t.server))
  }

  ghost predicate DistinctTasks(ts: seq<Task>) {
    forall i, j :: 0 <= i < j < |ts| ==> ts[i].server != ts[j].server
  }

  /** An effect for one server is invisible at every other. */
  lemma EffectsAreLocal(w: World, d: Device, server: string, e: Effect, other: string, s: Stage)
    requires other != server
    ensures LocalOf(Apply(w, d, server, e), Task(other, s)) == LocalOf(d, Task(other, s))
  {
    if e.SaveKey? { WithKeyLooksUp(d.stored.bundle, server, e.connInfoKey, w.nowSec, other); }
  }

  lemma OwnTurn(w: World, d: Device, t: Task)
    ensures var (stage, effect) := Turn(w, t.server, t.stage, KeyOf(d.stored.bundle, t.server));
      LocalOf(Apply(w, d, t.server, effect), t.(stage := stage)) == LocalStep(w, t.server, LocalOf(d, t))
  {
    var effect := Turn(w, t.server, t.stage, KeyOf(d.stored.bundle, t.server)).1;
    if effect.SaveKey? { WithKeyLooksUp(d.stored.bundle, t.server, effect.connInfoKey, w.nowSec, t.server); }
  }

  function Turns(schedule: seq<nat>, i: nat): nat {
    if schedule == [] then 0
    else Turns(schedule[..|schedule| - 1], i) + if schedule[|schedule| - 1] == i then 1 else 0
  }

  lemma {:induction false} TasksKept(w: World, y: System, schedule: seq<nat>)
    ensures var z := Steps(w, y, schedule);
      |z.tasks| == |y.tasks| && forall i :: 0 <= i < |y.tasks| ==> z.tasks[i].server == y.tasks[i].server
  {
    if schedule != [] { TasksKept(w, y, schedule[..|schedule| - 1]); }
  }

  /** After any interleaving each sign-in stands where its own turns alone would have brought it. */
  lemma {:induction false} InterleavingIsInvisible(w: World, y: System, schedule: seq<nat>, i: nat)
    requires DistinctTasks(y.tasks) && i < |y.tasks|
    ensures var z := Steps(w, y, schedule);
      |z.tasks| == |y.tasks| && LocalOf(z.d, z.tasks[i]) ==
        LocalSteps(w, y.tasks[i].server, LocalOf(y.d, y.tasks[i]), Turns(schedule, i))
  {
    if schedule != [] {
      var n := |schedule| - 1;
      var z, j := Steps(w, y, schedule[..n]), schedule[n];
      InterleavingIsInvisible(w, y, schedule[..n], i);
      TasksKept(w, y, schedule[..n]);
      if j < |z.tasks| {
        OwnTurn(w, z.d, z.tasks[j]);
        if j != i {
          var (stage, effect) := Turn(w, z.tasks[j].server, z.tasks[j].stage,
                                      KeyOf(z.d.stored.bundle, z.tasks[j].server));
          EffectsAreLocal(w, z.d, z.tasks[j].server, effect, z.tasks[i].server, z.tasks[i].stage);
        }
      }
    }
  }

  // ----- signing in to every server of the bundle -----

  /** A sign-in to `server` just after its synchronous start. */
  function StartOf(d: Device, server: string): Local {
    Local(AwaitIdentity(d.stored.identity), Some(Connecting), AuthStores.Find(d.stored.tokens, server),
          KeyOf(d.stored.bundle, server))
  }

  lemma {:induction false} Started(d: Device, servers: seq<string>)
    requires Distinct(servers) && d.connections.Valid()
    ensures var y := StartAll(d, servers);
      && |y.tasks| == |servers| && DistinctTasks(y.tasks) && y.d.stored == d.stored && y.d.connections.Valid()
      && forall i :: 0 <= i < |servers| ==> y.tasks[i] == Task(servers[i], AwaitIdentity(d.stored.identity))
  {
    if servers != [] { Started(d, servers[..|servers| - 1]); }
  }

  lemma {:induction false} StartedStatus(d: Device, servers: seq<string>, s: string)
    ensures StatusOf(StartAll(d, servers).d, s) == if s in servers then Some(Connecting) else StatusOf(d, s)
    ensures StartAll(d, servers).d.stored == d.stored
  {
    if servers != [] {
      var n := |servers| - 1;
      StartedStatus(d, servers[..n], s);
      assert servers == servers[..n] + [servers[n]];
    }
  }

  lemma StartedLocal(d: Device, servers: seq<string>, i: nat)
    requires Distinct(servers) && d.connections.Valid() && i < |servers|
    ensures i < |StartAll(d, servers).tasks|
    ensures LocalOf(StartAll(d, servers).d, StartAll(d, servers).tasks[i]) == StartOf(d, servers[i])
  {
    Started(d, servers);
    StartedStatus(d, servers, servers[i]);
  }

  /** Each entry of the connection map is for the server it is filed under. */
  ghost predicate Coherent(m: JsMap<Connection>) {
    m.Valid() && forall s :: s in m.at ==> m.at[s].serverPubKey == s
  }

  lemma {:induction false} StartedCoherent(d: Device, servers: seq<string>)
    requires Coherent(d.connections)
    ensures Coherent(StartAll(d, servers).d.connections)
    ensures (forall s :: s in servers ==> s in d.connections.at) ==>
            StartAll(d, servers).d.connections.keys == d.connections.keys
  {
    if servers != [] {
      var n := |servers| - 1;
      StartedCoherent(d, servers[..n]);
      StartedDomain(d, servers[..n]);
    }
  }

  lemma {:induction false} StartedDomain(d: Device, servers: seq<string>)
    ensures StartAll(d, servers).d.connections.at.Keys == d.connections.at.Keys + Elements(servers)
  {
    if servers != [] {
      var n := |servers| - 1;
      StartedDomain(d, servers[..n]);
      assert servers == servers[..n] + [servers[n]];
      assert Elements(servers) == Elements(servers[..n]) + {servers[n]};
    }
  }

  /** Turns overwrite entries that are there: no connection is added, dropped or moved, and nothing
      changes for servers that are not signing in. */
  lemma {:induction false} StepsFrame(w: World, y: System, schedule: seq<nat>)
    requires Coherent(y.d.connections) && forall i :: 0 <= i < |y.tasks| ==> y.tasks[i].server in y.d.connections.at
    ensures var z := Steps(w, y, schedule);
      && Coherent(z.d.connections) && z.d.connections.keys == y.d.connections.keys
      && z.d.stored.identity == y.d.stored.identity
      && forall s, g :: (forall i :: 0 <= i < |y.tasks| ==> y.tasks[i].server != s) ==>
           LocalOf(z.d, Task(s, g)) == LocalOf(y.d, Task(s, g))
  {
    if schedule != [] {
      var n := |schedule| - 1;
      var z, j := Steps(w, y, schedule[..n]), schedule[n];
      StepsFrame(w, y, schedule[..n]);
      TasksKept(w, y, schedule[..n]);
      if j < |z.tasks| {
        StepFrame(w, z, j);
      }
    }
  }

  lemma StepFrame(w: World, z: System, j: nat)
    requires j < |z.tasks| && Coherent(z.d.connections) && z.tasks[j].server in z.d.connections.at
    ensures var z' := Step(w, z, j);
      && Coherent(z'.d.connections) && z'.d.connections.keys == z.d.connections.keys
      && z'.d.stored.identity == z.d.stored.identity
      && forall s, g :: s != z.tasks[j].server ==> LocalOf(z'.d, Task(s, g)) == LocalOf(z.d, Task(s, g))
  {
    var t := z.tasks[j];
    var effect := Turn(w, t.server, t.stage, KeyOf(z.d.stored.bundle, t.server)).1;
    forall s, g | s != t.server ensures LocalOf(Step(w, z, j).d, Task(s, g)) == LocalOf(z.d, Task(s, g)) {
      EffectsAreLocal(w, z.d, t.server, effect, s, g);
    }
  }

  /** The state in which every sign-in of the list has settled and nothing else has changed. */
  ghost predicate SettledState(w: World, d: Device, servers: seq<string>, z: Device) {
    && z.connections.keys == StartAll(d, servers).d.connections.keys && Coherent(z.connections)
    && z.stored.identity == d.stored.identity
    && (forall s :: s in servers ==>
          LocalOf(z, Task(s, Settled(w, s, StartOf(d, s)).stage)) == Settled(w, s, StartOf(d, s)))
    && (forall s, g :: s !in servers ==> LocalOf(z, Task(s, g)) == LocalOf(d, Task(s, g)))
  }

  lemma TaskSettles(w: World, d: Device, servers: seq<string>, schedule: seq<nat>, i: nat)
    requires Distinct(servers) && d.connections.Valid() && i < |servers|
    requires AllDone(Steps(w, StartAll(d, servers), schedule))
    ensures var z, s := Steps(w, StartAll(d, servers), schedule).d, servers[i];
      LocalOf(z, Task(s, Settled(w, s, StartOf(d, s)).stage)) == Settled(w, s, StartOf(d, s))
  {
    var y, s := StartAll(d, servers), servers[i];
    Started(d, servers);
    StartedLocal(d, servers, i);
    TasksKept(w, y, schedule);
    InterleavingIsInvisible(w, y, schedule, i);
    assert Steps(w, y, schedule).tasks[i].stage.Done?;
    DoneIsSettled(w, s, StartOf(d, s), Turns(schedule, i));
  }

  lemma StartedFrame(d: Device, servers: seq<string>)
    requires Distinct(servers) && Coherent(d.connections)
    ensures var y := StartAll(d, servers);
      && Coherent(y.d.connections) && forall i :: 0 <= i < |y.tasks| ==> y.tasks[i].server in y.d.connections.at
    ensures var y := StartAll(d, servers);
      forall s :: s !in servers ==> forall i :: 0 <= i < |y.tasks| ==> y.tasks[i].server != s
  {
    var y := StartAll(d, servers);
    Started(d, servers);
    StartedCoherent(d, servers);
    StartedDomain(d, servers);
    forall i | 0 <= i < |y.tasks| ensures y.tasks[i].server in y.d.connections.at {
      assert servers[i] in Elements(servers);
    }
  }

  lemma OthersUntouched(w: World, d: Device, servers: seq<string>, schedule: seq<nat>, s: string, g: Stage)
    requires Distinct(servers) && Coherent(d.connections) && s !in servers
    ensures LocalOf(Steps(w, StartAll(d, servers), schedule).d, Task(s, g)) == LocalOf(d, Task(s, g))
  {
    StartedFrame(d, servers);
    StepsFrame(w, StartAll(d, servers), schedule);
    StartedStatus(d, servers, s);
  }

  /** Confluence: every complete interleaving of the sign-ins ends in the same settled state. */
  lemma SignInsAreConfluent(w: World, d: Device, servers: seq<string>, schedule: seq<nat>)
    requires Distinct(servers) && Coherent(d.connections)
    requires AllDone(Steps(w, StartAll(d, servers), schedule))
    ensures SettledState(w, d, servers, Steps(w, StartAll(d, servers), schedule).d)
  {
    var y := StartAll(d, servers);
    var z := Steps(w, y, schedule).d;
    Started(d, servers);
    StartedFrame(d, servers);
    StepsFrame(w, y, schedule);
    forall s | s in servers
      ensures LocalOf(z, Task(s, Settled(w, s, StartOf(d, s)).stage)) == Settled(w, s, StartOf(d, s))
    {
      var i :| 0 <= i < |servers| && servers[i] == s;
      TaskSettles(w, d, servers, schedule, i);
    }
    forall s, g | s !in servers ensures LocalOf(z, Task(s, g)) == LocalOf(d, Task(s, g)) {
      OthersUntouched(w, d, servers, schedule, s, g);
    }
  }

  /** A settled state is determined: the same connections in the same order, the same token for every
      server and the same K for every server. */
  lemma SettledStatesAgree(w: World, d: Device, servers: seq<string>, a: Device, b: Device)
    requires SettledState(w, d, servers, a) && SettledState(w, d, servers, b)
    ensures a.connections == b.connections && a.stored.tokens == b.stored.tokens
    ensures a.stored.identity == b.stored.identity
    ensures forall s :: KeyOf(a.stored.bundle, s) == KeyOf(b.stored.bundle, s)
  {
    forall s
      ensures StatusOf(a, s) == StatusOf(b, s)
      ensures AuthStores.Find(a.stored.tokens, s) == AuthStores.Find(b.stored.tokens, s)
      ensures KeyOf(a.stored.bundle, s) == KeyOf(b.stored.bundle, s)
    {
      var g := Settled(w, s, StartOf(d, s)).stage;
      assert LocalOf(a, Task(s, g)) == LocalOf(b, Task(s, g));
    }
    forall s ensures s in a.connections.at <==> s in b.connections.at {
      assert StatusOf(a, s) == StatusOf(b, s);
    }
    forall s | s in a.connections.at ensures a.connections.at[s] == b.connections.at[s] {
      assert StatusOf(a, s) == StatusOf(b, s);
    }
    forall s ensures s in a.stored.tokens <==> s in b.stored.tokens {
      assert AuthStores.Find(a.stored.tokens, s) == AuthStores.Find(b.stored.tokens, s);
    }
    forall s | s in a.stored.tokens ensures a.stored.tokens[s] == b.stored.tokens[s] {
      assert AuthStores.Find(a.stored.tokens, s) == AuthStores.Find(b.stored.tokens, s);
    }
  }

  ghost predicate AllSensible(ts: seq<Task>) {
    forall i :: 0 <= i < |ts| ==> Sensible(ts[i].stage)
  }

  /** Six turns finish a sign-in wherever it stands. */
  lemma FairTurnsFinish(w: World, y: System, schedule: seq<nat>)
    requires DistinctTasks(y.tasks) && AllSensible(y.tasks)
    requires forall i :: 0 <= i < |y.tasks| ==> Turns(schedule, i) >= TURNS
    ensures AllDone(Steps(w, y, schedule))
  {
    TasksKept(w, y, schedule);
    forall i | 0 <= i < |y.tasks| ensures Steps(w, y, schedule).tasks[i].stage.Done? {
      InterleavingIsInvisible(w, y, schedule, i);
      LocalProgress(w, y.tasks[i].server, LocalOf(y.d, y.tasks[i]), Turns(schedule, i));
    }
  }

  /** No fair schedule leaves a sign-in hanging. */
  lemma FairSchedulesFinish(w: World, d: Device, servers: seq<string>, schedule: seq<nat>)
    requires Distinct(servers) && d.connections.Valid()
    requires forall i :: 0 <= i < |servers| ==> Turns(schedule, i) >= TURNS
    ensures AllDone(Steps(w, StartAll(d, servers), schedule))
  {
    Started(d, servers);
    FairTurnsFinish(w, StartAll(d, servers), schedule);
  }

  // ----- schedules -----

  lemma {:induction false} StepsConcat(w: World, y: System, a: seq<nat>, b: seq<nat>)
    ensures Steps(w, y, a + b) == Steps(w, Steps(w, y, a), b)
  {
    if b == [] {
      assert a + b == a;
    } else {
      var n := |b| - 1;
      StepsConcat(w, y, a, b[..n]);
      assert (a + b)[..|a + b| - 1] == a + b[..n];
    }
  }

  lemma {:induction false} TurnsConcat(a: seq<nat>, b: seq<nat>, i: nat)
    ensures Turns(a + b, i) == Turns(a, i) + Turns(b, i)
  {
    if b == [] {
      assert a + b == a;
    } else {
      TurnsConcat(a, b[..|b| - 1], i);
      assert (a + b)[..|a + b| - 1] == a + b[..|b| - 1];
    }
  }

  function Twice(i: nat): seq<nat> {
    [i, i]
  }

  lemma TwiceTurns(i: nat, j: nat)
    ensures Turns(Twice(i), j) == if i == j then 2 else 0
  {
    assert Twice(i)[..1] == [i] && [i][..0] == [];
    assert Turns([i], j) == if i == j then 1 else 0;
  }

  function SixOf(i: nat): seq<nat> {
    Twice(i) + Twice(i) + Twice(i)
  }

  lemma SixTurnsOf(i: nat, j: nat)
    ensures Turns(SixOf(i), j) == if i == j then 6 else 0
  {
    TwiceTurns(i, j);
    TurnsConcat(Twice(i), Twice(i), j);
    TurnsConcat(Twice(i) + Twice(i), Twice(i), j);
  }

  /** Six turns for each of the first `n` tasks except task `i`. */
  function AllBut(n: nat, i: nat): seq<nat> {
    if n == 0 then [] else AllBut(n - 1, i) + SixUnless(n - 1, i)
  }

  function SixUnless(k: nat, i: nat): seq<nat> {
    if k == i then [] else SixOf(k)
  }

  lemma SixUnlessTurns(k: nat, i: nat, j: nat)
    ensures Turns(SixUnless(k, i), j) == if k == j && k != i then 6 else 0
  {
    SixTurnsOf(k, j);
  }

  lemma SumOfTurns(all: seq<nat>, a: seq<nat>, b: seq<nat>, k: nat, x: nat, y: nat)
    requires all == a + b && Turns(a, k) == x && Turns(b, k) == y
    ensures Turns(all, k) == x + y
  {
    TurnsConcat(a, b, k);
  }

  lemma {:induction false} AllButTurns(n: nat, i: nat, k: nat)
    ensures Turns(AllBut(n, i), k) == if k < n && k != i then 6 else 0
  {
    if n > 0 {
      var m := n - 1;
      AllButTurns(m, i, k);
      SixUnlessTurns(m, i, k);
      SumOfTurns(AllBut(n, i), AllBut(m, i), SixUnless(m, i), k, if k < m && k != i then 6 else 0,
                 if m == k && m != i then 6 else 0);
    }
  }

  // ----- one server's fate is its own -----

  ghost predicate SameAnswers(v: World, w: World, server: string) {
    && (forall k :: v.resolve(server, k) == w.resolve(server, k))
    && (forall i, url :: v.authenticate(server, i, url) == w.authenticate(server, i, url))
  }

  lemma {:induction false} SameAnswersSameSteps(v: World, w: World, server: string, l: Local, n: nat)
    requires SameAnswers(v, w, server)
    ensures LocalSteps(v, server, l, n) == LocalSteps(w, server, l, n)
  {
    if n > 0 { SameAnswersSameSteps(v, w, server, l, n - 1); }
  }

  /** Whatever happens at the other servers, in whatever order, a server ends with the same status,
      token and K. */
  lemma SiblingsDoNotMatter(v: World, w: World, d: Device, servers: seq<string>, more: seq<string>, server: string,
                            x: seq<nat>, y: seq<nat>, g: Stage)
    requires Distinct(servers) && Distinct(more) && Coherent(d.connections) && server in servers && server in more
    requires SameAnswers(v, w, server)
    requires AllDone(Steps(v, StartAll(d, servers), x)) && AllDone(Steps(w, StartAll(d, more), y))
    ensures LocalOf(Steps(v, StartAll(d, servers), x).d, Task(server, g)) ==
            LocalOf(Steps(w, StartAll(d, more), y).d, Task(server, g))
  {
    SignInsAreConfluent(v, d, servers, x);
    SignInsAreConfluent(w, d, more, y);
    SameAnswersSameSteps(v, w, server, StartOf(d, server), TURNS);
    var h := Settled(v, server, StartOf(d, server)).stage;
    assert LocalOf(Steps(v, StartAll(d, servers), x).d, Task(server, h)) ==
           LocalOf(Steps(w, StartAll(d, more), y).d, Task(server, h));
  }

  // ----- how a sign-in ends -----

  /** What one server's sign-in leaves behind, said directly. */
  function Ending(w: World, server: string, l: Local): Local
    requires l.stage.AwaitIdentity?
  {
    match l.stage.read
    case None => l.(stage := Done(false), status := Some(Failed(NoIdentity, None)))
    case Some(identity) =>
      match l.key
      case None => l.(stage := Done(false), status := Some(Unauthorized(None)))
      case Some(text) =>
        if B.Decode(text).None? then l.(stage := Done(true))
        else Resolution(w, server, l, identity, B.Decode(text).value)
  }

  function Resolution(w: World, server: string, l: Local, identity: StoredIdentity, k: Bytes): Local {
    match w.resolve(server, k)
    case Threw => l.(stage := Done(true))
    case Returned(Err(NotFound)) => l.(stage := Done(false), status := Some(Offline))
    case Returned(Err(StaleKOrDecryptFailed)) => l.(stage := Done(false), status := Some(StaleK))
    case Returned(Err(TowerSigInvalid)) => l.(stage := Done(false), status := Some(Failed(TowerSigError, None)))
    case Returned(Err(ShapeInvalid)) => l.(stage := Done(false), status := Some(Failed(ConnInfoShapeError, None)))
    case Returned(Ok(x)) => Handshake(w, server, l, identity, x)
  }

  /** `<protocol>://<host>:<port>` */
  function Address(x: ConnInfo): string {
    x.protocol + "://" + x.publicHost + ":" + Json.Print(Json.Num(x.port))
  }

  /** Both private keys are stored and are base64url. */
  predicate HoldsKeys(identity: StoredIdentity) {
    && identity.clientPriv.Some? && B.Decode(identity.clientPriv.value).Some?
    && identity.clientEncPriv.Some? && B.Decode(identity.clientEncPriv.value).Some?
  }

  function Handshake(w: World, server: string, l: Local, identity: StoredIdentity, x: ConnInfo): Local {
    if !HoldsKeys(identity) then
      var code := if identity.clientPriv.None? || identity.clientEncPriv.None? then ShapeError else UnknownError;
      l.(stage := Done(false), status := Some(Failed(code, None)))
    else
      match w.authenticate(server, identity, Address(x))
      case Broke => l.(stage := Done(false), status := Some(Failed(UnknownError, None)))
      case Denied(HttpError, Some(401)) => l.(stage := Done(false), status := Some(Unauthorized(Some(401))))
      case Denied(code, status) => l.(stage := Done(false), status := Some(Failed(code, status)))
      case Granted(session, refreshed) =>
        Local(Done(false), Some(Online(Address(x), session)), Some(session),
              if refreshed.Some? then refreshed else l.key)
  }

  function Four(w: World, server: string, l: Local): Local {
    LocalStep(w, server, LocalStep(w, server, LocalStep(w, server, LocalStep(w, server, l))))
  }

  lemma SixTurns(w: World, server: string, l: Local)
    ensures Settled(w, server, l) == Four(w, server, LocalStep(w, server, LocalStep(w, server, l)))
  {
    assert LocalSteps(w, server, l, 1) == LocalStep(w, server, l);
    assert LocalSteps(w, server, l, 2) == LocalStep(w, server, LocalSteps(w, server, l, 1));
    assert LocalSteps(w, server, l, 3) == LocalStep(w, server, LocalSteps(w, server, l, 2));
    assert LocalSteps(w, server, l, 4) == LocalStep(w, server, LocalSteps(w, server, l, 3));
    assert LocalSteps(w, server, l, 5) == LocalStep(w, server, LocalSteps(w, server, l, 4));
    assert LocalSteps(w, server, l, 6) == LocalStep(w, server, LocalSteps(w, server, l, 5));
  }

  lemma ResolutionEnds(w: World, server: string, l: Local)
    requires l.stage.AwaitResolve?
    ensures Four(w, server, l) == Resolution(w, server, l, l.stage.identity, l.stage.k)
  {
  }

  /** The turns compute that ending: a token and a fresh K are kept exactly when the server grants the
      session, and a sign-in that throws leaves its server `connecting`. */
  lemma SignInEnds(w: World, server: string, l: Local)
    requires l.stage.AwaitIdentity?
    ensures Settled(w, server, l) == Ending(w, server, l)
  {
    SixTurns(w, server, l);
    var two := LocalStep(w, server, LocalStep(w, server, l));
    if two.stage.AwaitResolve? { ResolutionEnds(w, server, two); }
  }

  /** From the media server's publish to the client's sign-in: with the K the record was sealed under and
      a server that grants the session, the connection comes online at the published address. */
  lemma PublishedServerComesOnline(p: Platform, w: World, server: string, l: Local, identity: StoredIdentity,
                                   x: ConnInfo, k: Bytes, serverPriv: Bytes, version: int, nonce: Bytes,
                                   granted: AuthAnswer)
    requires Lawful(p) && DistinctPaths(x) && ValidConn(x) && granted.Granted? && HoldsKeys(identity)
    requires ConnInfos.SealServerConnInfo(p, x, k, p.edPub(serverPriv), serverPriv, version, nonce).Returned?
    requires l.stage == AwaitIdentity(Some(identity)) && l.key == Some(B.Encode(k))
    requires var sealed := ConnInfos.SealServerConnInfo(p, x, k, p.edPub(serverPriv), serverPriv, version, nonce);
      w.resolve(server, k) == ConnInfos.Resolve(p, Some(sealed.value), k)
    requires w.authenticate(server, identity, Address(x)) == granted
    ensures Settled(w, server, l) == Local(Done(false), Some(Online(Address(x), granted.session)),
                                           Some(granted.session),
                                           if granted.refreshedKey.Some? then granted.refreshedKey else l.key)
  {
    ConnInfos.ResolvesWhatWasSealed(p, x, k, serverPriv, version, nonce);
    B.RoundTrip(k);
    SignInEnds(w, server, l);
    assert Address(Delivered(x)) == Address(x);
  }

  /** What the client shows for each answer of Tower under the K it holds: no record is `offline`, a bad
      server signature and a refused content are errors of their own, and a record that does not decrypt is
      `stale_k`; token and K stay as they were. */
  lemma TowerAnswerShows(p: Platform, w: World, server: string, l: Local, identity: StoredIdentity, text: string,
                         k: Bytes, fetched: Option<ConnInfos.Published>)
    requires l.stage == AwaitIdentity(Some(identity)) && l.key == Some(text) && B.Decode(text) == Some(k)
    requires w.resolve(server, k) == ConnInfos.Resolve(p, fetched, k)
    requires fetched.Some? ==>
               && IsHex32(fetched.value.body.serverPubKey) && B.Decode(fetched.value.sig).Some?
               && ConnInfos.Decodable(fetched.value.body)
    ensures var f := Settled(w, server, l);
      && (fetched.None? ==> f == l.(stage := Done(false), status := Some(Offline)))
      && (fetched.Some? && !ConnInfos.SignedByItsServer(p, fetched.value) ==>
            f == l.(stage := Done(false), status := Some(Failed(TowerSigError, None))))
      && (fetched.Some? && ConnInfos.SignedByItsServer(p, fetched.value) ==>
            match ConnInfos.Plaintext(p, fetched.value.body, k)
            case None => f == l.(stage := Done(false), status := Some(StaleK))
            case Some(bytes) =>
              var x := ConnInfos.PayloadIn(p, bytes);
              x.None? || x.value.rotationCounter != fetched.value.body.version ==>
                f == l.(stage := Done(false), status := Some(Failed(ConnInfoShapeError, None))))
  {
    ConnInfos.ResolvesExactly(p, fetched, k);
    var resolved := w.resolve(server, k).value;
    if resolved.Err? { FailureShows(w, server, l, identity, text, k, resolved.error); }
  }

  lemma FailureShows(w: World, server: string, l: Local, identity: StoredIdentity, text: string, k: Bytes,
                     e: ConnInfos.ResolveError)
    requires l.stage == AwaitIdentity(Some(identity)) && l.key == Some(text) && B.Decode(text) == Some(k)
    requires w.resolve(server, k) == Returned(Err(e))
    ensures Settled(w, server, l) == l.(
      stage := Done(false),
      status := Some(if e.NotFound? then Offline
                     else if e.StaleKOrDecryptFailed? then StaleK
                     else if e.TowerSigInvalid? then Failed(TowerSigError, None)
                     else Failed(ConnInfoShapeError, None)))
  {
    SignInEnds(w, server, l);
  }

  /** After a server has rotated its K: a client with an older one, under which the record is rejected, is told
      that its K is stale, and keeps what it has. */
  lemma RotatedKIsStale(p: Platform, w: World, server: string, l: Local, identity: StoredIdentity, x: ConnInfo,
                        stale: Bytes, k: Bytes, serverPriv: Bytes, version: int, nonce: Bytes)
    requires Lawful(p) && l.stage == AwaitIdentity(Some(identity)) && l.key == Some(B.Encode(stale))
    requires ConnInfos.SealServerConnInfo(p, x, k, p.edPub(serverPriv), serverPriv, version, nonce).Returned?
    requires var sealed := ConnInfos.SealServerConnInfo(p, x, k, p.edPub(serverPriv), serverPriv, version, nonce).value;
      && w.resolve(server, stale) == ConnInfos.Resolve(p, Some(sealed), stale)
      && ConnInfos.Decodable(sealed.body) && ConnInfos.Plaintext(p, sealed.body, stale).None?
    ensures Settled(w, server, l) == l.(stage := Done(false), status := Some(StaleK))
  {
    var sealed := ConnInfos.SealServerConnInfo(p, x, k, p.edPub(serverPriv), serverPriv, version, nonce).value;
    B.RoundTrip(stale);
    ConnInfos.SealedIsWellFormed(p, sealed.body, serverPriv);
    TowerAnswerShows(p, w, server, l, identity, B.Encode(stale), stale, Some(sealed));
  }

  /** A server is left `connecting` exactly when its stored K is not base64url or the request to Tower throws. */
  lemma StuckConnectingExactly(w: World, server: string, l: Local)
    requires l.stage.AwaitIdentity? && l.status == Some(Connecting)
    ensures Settled(w, server, l).status == Some(Connecting) <==>
      && l.stage.read.Some? && l.key.Some?
      && (B.Decode(l.key.value).None? || w.resolve(server, B.Decode(l.key.value).value) == Threw)
  {
    SignInEnds(w, server, l);
  }
}
