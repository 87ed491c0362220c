/** What does depend on the order in which overlapping sign-ins resume: the order of the servers in the
    stored bundle, because a fresh K moves its server to the end. */
module BundleOrders {
  import opened Options
  import JsMaps
  import ClientBundles
  import ClientStorage
  import opened SignIns
  import B = Base64Url

  /** The sign-in to the server goes through and brings a fresh K. */
  ghost predicate GrantsFreshKey(w: World, d: Device, server: string) {
    var key := ClientStorage.KeyOf(d.stored.bundle, server);
    && d.stored.identity.Some? && key.Some? && B.Decode(key.value).Some?
    && var resolved := w.resolve(server, B.Decode(key.value).value);
    && resolved.Returned? && resolved.value.Ok?
    && var url := BaseUrl(resolved.value.value);
    && Prepare(d.stored.identity.value, resolved.value.value) == (AwaitAuth(d.stored.identity.value, url), Keep)
    && HasFreshKey(w.authenticate(server, d.stored.identity.value, url))
  }

  predicate HasFreshKey(a: AuthAnswer) {
    a.Granted? && a.refreshedKey.Some?
  }

  ghost predicate HoldsFreshKey(s: Stage) {
    s.AwaitToken? && HasFreshKey(s.granted)
  }

  /** The K that sign-in brings. */
  ghost function FreshKey(w: World, d: Device, server: string): string
    requires GrantsFreshKey(w, d, server)
  {
    var identity := d.stored.identity.value;
    var x := w.resolve(server, B.Decode(ClientStorage.KeyOf(d.stored.bundle, server).value).value).value.value;
    w.authenticate(server, identity, BaseUrl(x)).refreshedKey.value
  }

  // ----- where a fresh K can appear -----

  /** What a stage of a sign-in started at `d` says about the answers so far. */
  ghost predicate Explained(w: World, d: Device, server: string, l: Local) {
    var key, identity := ClientStorage.KeyOf(d.stored.bundle, server), d.stored.identity;
    match l.stage
    case AwaitIdentity(read) => read == identity && l.key == key
    case AwaitBundle(i, k) => identity == Some(i) && k == key
    case AwaitResolve(i, k) => identity == Some(i) && key.Some? && B.Decode(key.value) == Some(k)
    case AwaitAuth(i, url) => Authenticates(w, d, server, i, url)
    case AwaitToken(url, granted) =>
      identity.Some? && Authenticates(w, d, server, identity.value, url)
      && granted == w.authenticate(server, identity.value, url)
    case _ => true
  }

  ghost predicate Authenticates(w: World, d: Device, server: string, i: ClientStorage.StoredIdentity, url: string) {
    var key := ClientStorage.KeyOf(d.stored.bundle, server);
    && d.stored.identity == Some(i) && key.Some? && B.Decode(key.value).Some?
    && var resolved := w.resolve(server, B.Decode(key.value).value);
    && resolved.Returned? && resolved.value.Ok? && url == BaseUrl(resolved.value.value)
    && Prepare(i, resolved.value.value) == (AwaitAuth(i, url), Keep)
  }

  lemma ExplainedStep(w: World, d: Device, server: string, l: Local)
    requires Explained(w, d, server, l)
    ensures Explained(w, d, server, LocalStep(w, server, l))
  {
  }

  lemma {:induction false} ExplainedSteps(w: World, d: Device, server: string, n: nat)
    ensures Explained(w, d, server, LocalSteps(w, server, StartOf(d, server), n))
  {
    if n > 0 {
      ExplainedSteps(w, d, server, n - 1);
      ExplainedStep(w, d, server, LocalSteps(w, server, StartOf(d, server), n - 1));
    }
  }

  /** Only a server that grants a fresh K ever has one to save. */
  lemma FreshKeysAreGranted(w: World, d: Device, server: string, n: nat)
    requires HoldsFreshKey(LocalSteps(w, server, StartOf(d, server), n).stage)
    ensures GrantsFreshKey(w, d, server)
    ensures LocalSteps(w, server, StartOf(d, server), n).stage.granted.refreshedKey == Some(FreshKey(w, d, server))
  {
    ExplainedSteps(w, d, server, n);
  }

  /** It has it after four turns, and saves it in the fifth. */
  lemma FreshStages(w: World, d: Device, server: string)
    requires GrantsFreshKey(w, d, server)
    ensures var l := StartOf(d, server);
      && (forall n :: 0 <= n < 4 ==>
            !LocalSteps(w, server, l, n).stage.AwaitToken? && !LocalSteps(w, server, l, n).stage.Done?)
      && HoldsFreshKey(LocalSteps(w, server, l, 4).stage)
      && LocalSteps(w, server, l, 5).stage.AwaitUpsert? && LocalSteps(w, server, l, 6).stage.Done?
  {
    var l := StartOf(d, server);
    assert LocalSteps(w, server, l, 0) == l;
    assert LocalSteps(w, server, l, 1) == LocalStep(w, server, l);
    assert LocalSteps(w, server, l, 2) == LocalStep(w, server, LocalSteps(w, server, l, 1));
    assert LocalSteps(w, server, l, 3) == LocalStep(w, server, LocalSteps(w, server, l, 2));
    assert LocalSteps(w, server, l, 4) == LocalStep(w, server, LocalSteps(w, server, l, 3));
    assert LocalSteps(w, server, l, 5) == LocalStep(w, server, LocalSteps(w, server, l, 4));
    assert LocalSteps(w, server, l, 6) == LocalStep(w, server, LocalSteps(w, server, l, 5));
  }

  /** The fifth turn of such a sign-in, and no other turn, holds a fresh K. */
  lemma FreshExactlyAtFour(w: World, d: Device, server: string, n: nat)
    requires GrantsFreshKey(w, d, server)
    ensures HoldsFreshKey(LocalSteps(w, server, StartOf(d, server), n).stage) <==> n == 4
    ensures LocalSteps(w, server, StartOf(d, server), n).stage.Done? ==> n > 5
  {
    FreshStages(w, d, server);
    if n > 6 { DoneStays(w, server, StartOf(d, server), 6, n); }
  }

  // ----- at most one fresh K -----

  ghost predicate AtMostOneFresh(w: World, d: Device, servers: seq<string>) {
    forall i, j :: 0 <= i < j < |servers| ==> !(GrantsFreshKey(w, d, servers[i]) && GrantsFreshKey(w, d, servers[j]))
  }

  /** The bundle after these turns, when `servers[i]` is the only server that can bring a fresh K. */
  ghost function BundleAfter(w: World, d: Device, servers: seq<string>, i: nat,
                             schedule: seq<nat>): Option<ClientBundles.Bundle>
    requires i < |servers|
  {
    if GrantsFreshKey(w, d, servers[i]) && Turns(schedule, i) > 4
    then Some(ClientStorage.WithKey(d.stored.bundle, servers[i], FreshKey(w, d, servers[i]), w.nowSec))
    else d.stored.bundle
  }

  ghost predicate OnlyFresh(w: World, d: Device, servers: seq<string>, i: nat) {
    forall j :: 0 <= j < |servers| && j != i ==> !GrantsFreshKey(w, d, servers[j])
  }

  /** A turn changes the bundle exactly when it holds a fresh K. */
  lemma BundleTurn(w: World, y: System, j: nat)
    requires j < |y.tasks|
    ensures var t := y.tasks[j];
      Step(w, y, j).d.stored.bundle ==
        if HoldsFreshKey(t.stage)
        then Some(ClientStorage.WithKey(y.d.stored.bundle, t.server, t.stage.granted.refreshedKey.value, w.nowSec))
        else y.d.stored.bundle
  {
  }

  lemma TaskStage(w: World, d: Device, servers: seq<string>, schedule: seq<nat>, j: nat)
    requires JsMaps.Distinct(servers) && d.connections.Valid() && j < |servers|
    ensures var z := Steps(w, StartAll(d, servers), schedule);
      && |z.tasks| == |servers| && z.tasks[j].server == servers[j]
      && z.tasks[j].stage == LocalSteps(w, servers[j], StartOf(d, servers[j]), Turns(schedule, j)).stage
  {
    Started(d, servers);
    StartedLocal(d, servers, j);
    TasksKept(w, StartAll(d, servers), schedule);
    InterleavingIsInvisible(w, StartAll(d, servers), schedule, j);
  }

  lemma {:induction false} BundleIsDetermined(w: World, d: Device, servers: seq<string>, i: nat, schedule: seq<nat>)
    requires JsMaps.Distinct(servers) && d.connections.Valid() && i < |servers| && OnlyFresh(w, d, servers, i)
    ensures Steps(w, StartAll(d, servers), schedule).d.stored.bundle == BundleAfter(w, d, servers, i, schedule)
  {
    if schedule == [] {
      Started(d, servers);
    } else {
      var n := |schedule| - 1;
      var z, j := Steps(w, StartAll(d, servers), schedule[..n]), schedule[n];
      BundleIsDetermined(w, d, servers, i, schedule[..n]);
      Started(d, servers);
      TasksKept(w, StartAll(d, servers), schedule[..n]);
      if j < |servers| {
        TaskStage(w, d, servers, schedule[..n], j);
        BundleTurn(w, z, j);
        OneTurn(w, d, servers, i, schedule[..n], j, z.tasks[j]);
      }
    }
  }

  /** Whether the task about to move holds a fresh K. */
  lemma OneTurn(w: World, d: Device, servers: seq<string>, i: nat, schedule: seq<nat>, j: nat, t: Task)
    requires i < |servers| && j < |servers| && OnlyFresh(w, d, servers, i) && t.server == servers[j]
    requires t.stage == LocalSteps(w, servers[j], StartOf(d, servers[j]), Turns(schedule, j)).stage
    ensures HoldsFreshKey(t.stage) ==>
              && j == i && Turns(schedule, i) == 4 && GrantsFreshKey(w, d, servers[i])
              && t.stage.granted.refreshedKey == Some(FreshKey(w, d, servers[i]))
    ensures j == i && GrantsFreshKey(w, d, servers[i]) && Turns(schedule, i) == 4 ==> HoldsFreshKey(t.stage)
  {
    if HoldsFreshKey(t.stage) { FreshKeysAreGranted(w, d, servers[j], Turns(schedule, j)); }
    if GrantsFreshKey(w, d, servers[j]) { FreshExactlyAtFour(w, d, servers[j], Turns(schedule, j)); }
  }

  /** The end of a complete schedule. */
  lemma CompleteBundle(w: World, d: Device, servers: seq<string>, i: nat, schedule: seq<nat>)
    requires JsMaps.Distinct(servers) && d.connections.Valid() && i < |servers| && OnlyFresh(w, d, servers, i)
    requires AllDone(Steps(w, StartAll(d, servers), schedule))
    ensures Steps(w, StartAll(d, servers), schedule).d.stored.bundle ==
      if GrantsFreshKey(w, d, servers[i])
      then Some(ClientStorage.WithKey(d.stored.bundle, servers[i], FreshKey(w, d, servers[i]), w.nowSec))
      else d.stored.bundle
  {
    BundleIsDetermined(w, d, servers, i, schedule);
    TaskStage(w, d, servers, schedule, i);
    assert Steps(w, StartAll(d, servers), schedule).tasks[i].stage.Done?;
    if GrantsFreshKey(w, d, servers[i]) { FreshExactlyAtFour(w, d, servers[i], Turns(schedule, i)); }
  }

  // ----- two fresh Ks -----

  lemma StepTwice(w: World, y: System, i: nat)
    ensures Steps(w, y, Twice(i)) == Step(w, Step(w, y, i), i)
  {
    assert Twice(i)[..1] == [i] && [i][..0] == [];
    assert Steps(w, y, [i]) == Step(w, y, i);
  }

  ghost predicate LastIs(b: Option<ClientBundles.Bundle>, server: string) {
    b.Some? && b.value.servers != [] && b.value.servers[|b.value.servers| - 1].serverPubKey == server
  }

  /** Saving a fresh K puts the server last. */
  lemma FinishOne(w: World, y: System, i: nat)
    requires i < |y.tasks| && HoldsFreshKey(y.tasks[i].stage)
    ensures var z := Steps(w, y, Twice(i));
      && LastIs(z.d.stored.bundle, y.tasks[i].server) && |z.tasks| == |y.tasks|
      && forall j :: 0 <= j < |y.tasks| && j != i ==> z.tasks[j] == y.tasks[j]
  {
    StepTwice(w, y, i);
    var mid := Step(w, y, i);
    assert mid.tasks[i].stage.AwaitUpsert?;
    assert LastIs(mid.d.stored.bundle, y.tasks[i].server);
  }

  /** Everyone else first, then task `i`. */
  function ILast(n: nat, i: nat): seq<nat> {
    AllBut(n, i) + (Twice(i) + Twice(i)) + Twice(i)
  }

  lemma ILastTurns(n: nat, i: nat, k: nat)
    requires i < n && k < n
    ensures Turns(ILast(n, i), k) == 6 && (k == i ==> Turns(AllBut(n, i) + (Twice(i) + Twice(i)), k) == 4)
  {
    AllButTurns(n, i, k);
    TwiceTurns(i, k);
    TurnsConcat(Twice(i), Twice(i), k);
    TurnsConcat(AllBut(n, i), Twice(i) + Twice(i), k);
    TurnsConcat(AllBut(n, i) + (Twice(i) + Twice(i)), Twice(i), k);
  }

  /** A server that brings a fresh K can end up last. */
  lemma CanBeLast(w: World, d: Device, servers: seq<string>, i: nat)
    requires JsMaps.Distinct(servers) && d.connections.Valid() && i < |servers| && GrantsFreshKey(w, d, servers[i])
    ensures var z := Steps(w, StartAll(d, servers), ILast(|servers|, i));
      AllDone(z) && LastIs(z.d.stored.bundle, servers[i])
  {
    var n := |servers|;
    var before := AllBut(n, i) + (Twice(i) + Twice(i));
    forall k: nat | k < n ensures Turns(ILast(n, i), k) >= TURNS { ILastTurns(n, i, k); }
    FairSchedulesFinish(w, d, servers, ILast(n, i));
    ILastTurns(n, i, i);
    TaskStage(w, d, servers, before, i);
    FreshStages(w, d, servers[i]);
    FinishOne(w, Steps(w, StartAll(d, servers), before), i);
    StepsConcat(w, StartAll(d, servers), before, Twice(i));
  }

  /** Two complete schedules whose stored bundles end with different servers. */
  lemma SchedulesDiffer(w: World, d: Device, servers: seq<string>, i: nat, j: nat) returns (x: seq<nat>, y: seq<nat>)
    requires JsMaps.Distinct(servers) && d.connections.Valid() && i < j < |servers|
    requires GrantsFreshKey(w, d, servers[i]) && GrantsFreshKey(w, d, servers[j])
    ensures var (a, b) := (Steps(w, StartAll(d, servers), x), Steps(w, StartAll(d, servers), y));
      && AllDone(a) && AllDone(b) && LastIs(a.d.stored.bundle, servers[i]) && LastIs(b.d.stored.bundle, servers[j])
      && a.d.stored.bundle != b.d.stored.bundle
  {
    x, y := ILast(|servers|, i), ILast(|servers|, j);
    CanBeLast(w, d, servers, i);
    CanBeLast(w, d, servers, j);
  }

  // ----- exactly -----

  ghost predicate BundleIsConfluent(w: World, d: Device, servers: seq<string>) {
    forall x, y ::
      AllDone(Steps(w, StartAll(d, servers), x)) && AllDone(Steps(w, StartAll(d, servers), y)) ==>
        Steps(w, StartAll(d, servers), x).d.stored.bundle == Steps(w, StartAll(d, servers), y).d.stored.bundle
  }

  /** The server that brings a fresh K, if any. */
  lemma TheFreshOne(w: World, d: Device, servers: seq<string>) returns (i: nat)
    requires servers != [] && AtMostOneFresh(w, d, servers)
    ensures i < |servers| && OnlyFresh(w, d, servers, i)
  {
    i := 0;
    if k :| 0 <= k < |servers| && GrantsFreshKey(w, d, servers[k]) { i := k; }
  }

  lemma {:induction false} NoServersNoChange(w: World, d: Device, schedule: seq<nat>)
    ensures Steps(w, StartAll(d, []), schedule) == StartAll(d, [])
  {
    if schedule != [] { NoServersNoChange(w, d, schedule[..|schedule| - 1]); }
  }

  /** All complete schedules of the sign-ins store the same bundle exactly when at most one of the
      servers brings a fresh K. */
  lemma BundleConfluentExactly(w: World, d: Device, servers: seq<string>)
    requires JsMaps.Distinct(servers) && d.connections.Valid()
    ensures BundleIsConfluent(w, d, servers) <==> AtMostOneFresh(w, d, servers)
  {
    if !AtMostOneFresh(w, d, servers) {
      var i, j :| 0 <= i < j < |servers| && GrantsFreshKey(w, d, servers[i]) && GrantsFreshKey(w, d, servers[j]);
      var x, y := SchedulesDiffer(w, d, servers, i, j);
    } else {
      forall x, y | AllDone(Steps(w, StartAll(d, servers), x)) && AllDone(Steps(w, StartAll(d, servers), y))
        ensures Steps(w, StartAll(d, servers), x).d.stored.bundle == Steps(w, StartAll(d, servers), y).d.stored.bundle
      {
        if servers == [] {
          NoServersNoChange(w, d, x);
          NoServersNoChange(w, d, y);
        } else {
          var i := TheFreshOne(w, d, servers);
          CompleteBundle(w, d, servers, i, x);
          CompleteBundle(w, d, servers, i, y);
        }
      }
    }
  }
}
