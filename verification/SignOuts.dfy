/** Signing out while sign-ins are still running.  A sign-out awaits every write to the storage, and the
    turns of the sign-ins may fall anywhere between its own. */
module SignOuts {
  import opened Options
  import opened JsMaps
  import AuthStores
  import opened ClientStorage
  import opened SignIns
  import ClientBundles
  import StoredIdentities
  import B = Base64Url

  /** What the sign-out awaits: the identity, the bundle or a token write, and then the last two writes. */
  datatype Exit =
    | Begin
    | IdentityRead(found: bool)
    | Dropping(left: seq<string>)
    | IdentityDropped
    | BundleDropped
    | Left

  function ExitTurn(d: Device, e: Exit): (Device, Exit) {
    var s := d.stored;
    match e
    case Begin => (d, IdentityRead(s.identity.Some?))
    case IdentityRead(found) =>
      if found then (d, Dropping(match s.bundle case None => [] case Some(b) => NamesOf(b.servers)))
      else (d.(stored := s.(identity := None)), IdentityDropped)
    case Dropping(left) =>
      if left == [] then (d.(stored := s.(identity := None)), IdentityDropped)
      else (d.(stored := s.(tokens := WithToken(s.tokens, left[0], None))), Dropping(left[1..]))
    case IdentityDropped => (d.(stored := s.(bundle := None)), BundleDropped)
    case BundleDropped => (d.(connections := Empty()), Left)
    case Left => (d, e)
  }

  function ExitTurns(d: Device, e: Exit, n: nat): (Device, Exit)
    decreases n
  {
    if n == 0 then (d, e)
    else
      var (d', e') := ExitTurn(d, e);
      ExitTurns(d', e', n - 1)
  }

  // ----- with no sign-in in between -----

  lemma {:induction false} Drops(d: Device, left: seq<string>)
    ensures ExitTurns(d, Dropping(left), |left| + 3) ==
            (Device(Empty(), Stored(None, None, d.stored.tokens - Elements(left))), Left)
    decreases |left|
  {
    if left == [] {
      var (d1, e1) := ExitTurn(d, Dropping(left));
      var (d2, e2) := ExitTurn(d1, e1);
      assert ExitTurns(d2, e2, 1) == ExitTurn(d2, e2);
      assert ExitTurns(d1, e1, 2) == ExitTurns(d2, e2, 1);
      assert d.stored.tokens - Elements(left) == d.stored.tokens;
    } else {
      var (d', e') := ExitTurn(d, Dropping(left));
      Drops(d', left[1..]);
      assert left == [left[0]] + left[1..];
      assert d'.stored.tokens - Elements(left[1..]) == d.stored.tokens - Elements(left);
    }
  }

  /** Undisturbed, the turns add up to the sign-out of the stored state, with no connection left. */
  lemma UndisturbedSignOut(d: Device) returns (n: nat)
    ensures ExitTurns(d, Begin, n) == (Device(Empty(), StoredIdentities.SignedOut(d.stored)), Left)
  {
    var s := d.stored;
    var e1 := IdentityRead(s.identity.Some?);
    var (d2, e2) := ExitTurn(d, e1);
    if s.identity.Some? {
      var names := match s.bundle case None => [] case Some(b) => NamesOf(b.servers);
      n := |names| + 5;
      Drops(d, names);
      assert ExitTurns(d, e1, |names| + 4) == ExitTurns(d, Dropping(names), |names| + 3);
      if s.bundle.Some? {
        NamesAreServers(s.bundle.value);
      } else {
        assert s.tokens - Elements(names) == s.tokens;
      }
    } else {
      n := 4;
      var (d3, e3) := ExitTurn(d2, e2);
      assert ExitTurns(d3, e3, 1) == ExitTurn(d3, e3);
      assert ExitTurns(d2, e2, 2) == ExitTurns(d3, e3, 1);
      assert ExitTurns(d, e1, 3) == ExitTurns(d2, e2, 2);
    }
  }

  lemma NamesAreServers(b: ClientBundles.Bundle)
    ensures Elements(NamesOf(b.servers)) == StoredIdentities.ServerNames(b.servers)
  {
    forall s ensures s in Elements(NamesOf(b.servers)) <==> s in StoredIdentities.ServerNames(b.servers) {
      if s in StoredIdentities.ServerNames(b.servers) {
        var x :| x in b.servers && x.serverPubKey == s;
        var i :| 0 <= i < |b.servers| && b.servers[i] == x;
        assert NamesOf(b.servers)[i] == s;
      }
    }
  }

  // ----- any interleaving -----

  datatype Mixed = Mixed(y: System, exit: Exit)

  datatype Move = Resume(i: nat) | ResumeExit

  function MixedStep(w: World, m: Mixed, a: Move): Mixed {
    match a
    case Resume(i) => m.(y := Step(w, m.y, i))
    case ResumeExit =>
      var (d, e) := ExitTurn(m.y.d, m.exit);
      Mixed(m.y.(d := d), e)
  }

  function MixedSteps(w: World, m: Mixed, acts: seq<Move>): Mixed {
    if acts == [] then m
    else MixedStep(w, MixedSteps(w, m, acts[..|acts| - 1]), acts[|acts| - 1])
  }

  lemma {:induction false} TasksStayDistinct(w: World, m: Mixed, acts: seq<Move>)
    requires DistinctTasks(m.y.tasks)
    ensures DistinctTasks(MixedSteps(w, m, acts).y.tasks)
  {
    if acts != [] { TasksStayDistinct(w, m, acts[..|acts| - 1]); }
  }

  /** The sign-in is over, or will end without having touched anything: by an exception. */
  predicate Silent(w: World, server: string, s: Stage) {
    match s
    case Done(_) => true
    case AwaitBundle(_, Some(text)) => B.Decode(text).None? || w.resolve(server, B.Decode(text).value) == Threw
    case AwaitResolve(_, k) => w.resolve(server, k) == Threw
    case _ => false
  }

  ghost predicate AllSilent(w: World, y: System) {
    forall i :: 0 <= i < |y.tasks| ==> Silent(w, y.tasks[i].server, y.tasks[i].stage)
  }

  lemma {:induction false} SilentStepsKeep(w: World, z: System, schedule: seq<nat>)
    requires AllSilent(w, z)
    ensures AllSilent(w, Steps(w, z, schedule)) && Steps(w, z, schedule).d == z.d
  {
    if schedule != [] {
      var n := |schedule| - 1;
      SilentStepsKeep(w, z, schedule[..n]);
      var y, j := Steps(w, z, schedule[..n]), schedule[n];
      if j < |y.tasks| { assert Silent(w, y.tasks[j].server, y.tasks[j].stage); }
    }
  }

  /** What is stored is never dropped by a sign-in. */
  lemma {:induction false} StoredStays(w: World, z: System, schedule: seq<nat>)
    requires z.d.stored != NOTHING
    ensures Steps(w, z, schedule).d.stored != NOTHING
  {
    if schedule != [] {
      var n := |schedule| - 1;
      StoredStays(w, z, schedule[..n]);
      OneStoredStays(w, Steps(w, z, schedule[..n]), schedule[n]);
    }
  }

  lemma OneStoredStays(w: World, y: System, j: nat)
    requires y.d.stored != NOTHING
    ensures Step(w, y, j).d.stored != NOTHING
  {
    if j < |y.tasks| {
      var t := y.tasks[j];
      var effect := Turn(w, t.server, t.stage, KeyOf(y.d.stored.bundle, t.server)).1;
      if effect.SaveToken? {
        assert t.server in Apply(w, y.d, t.server, effect).stored.tokens;
      }
    }
  }

  /** The sign-in has left a connection behind, or will. */
  ghost predicate LeavesATrace(w: World, y: System, i: nat)
    requires i < |y.tasks|
  {
    var t := y.tasks[i];
    || t.server in y.d.connections.at
    || (!Silent(w, t.server, t.stage) && (t.stage.AwaitIdentity? ==> KeyOf(y.d.stored.bundle, t.server) == None))
  }

  lemma TraceStep(w: World, y: System, i: nat, j: nat)
    requires DistinctTasks(y.tasks) && i < |y.tasks| && LeavesATrace(w, y, i)
    ensures LeavesATrace(w, Step(w, y, j), i)
  {
    if j < |y.tasks| && j != i {
      var t := y.tasks[j];
      var effect := Turn(w, t.server, t.stage, KeyOf(y.d.stored.bundle, t.server)).1;
      EffectsAreLocal(w, y.d, t.server, effect, y.tasks[i].server, y.tasks[i].stage);
    }
  }

  lemma {:induction false} TraceSteps(w: World, z: System, i: nat, schedule: seq<nat>)
    requires DistinctTasks(z.tasks) && i < |z.tasks| && LeavesATrace(w, z, i)
    ensures |Steps(w, z, schedule).tasks| == |z.tasks| && LeavesATrace(w, Steps(w, z, schedule), i)
  {
    TasksKept(w, z, schedule);
    if schedule != [] {
      var n := |schedule| - 1;
      TraceSteps(w, z, i, schedule[..n]);
      TasksKept(w, z, schedule[..n]);
      TraceStep(w, Steps(w, z, schedule[..n]), i, schedule[n]);
    }
  }

  lemma NothingLeftExactly(w: World, z: System, schedule: seq<nat>)
    requires DistinctTasks(z.tasks) && z.d.connections == Empty() && AllDone(Steps(w, z, schedule))
    ensures Steps(w, z, schedule).d == Device(Empty(), NOTHING) <==> z.d.stored == NOTHING && AllSilent(w, z)
  {
    if z.d.stored != NOTHING {
      StoredStays(w, z, schedule);
    } else if AllSilent(w, z) {
      SilentStepsKeep(w, z, schedule);
    } else {
      var i :| 0 <= i < |z.tasks| && !Silent(w, z.tasks[i].server, z.tasks[i].stage);
      TraceSteps(w, z, i, schedule);
      assert Steps(w, z, schedule).tasks[i].stage.Done?;
    }
  }

  // ----- what a sign-out leaves, seen from its start -----

  /** The turns of the sign-out by itself, at the end of a longer sequence of them. */
  lemma {:induction false} ExitTurnsLast(d: Device, e: Exit, n: nat)
    ensures var (d', e') := ExitTurns(d, e, n); ExitTurns(d, e, n + 1) == ExitTurn(d', e')
    decreases n
  {
    if n > 0 {
      var (d', e') := ExitTurn(d, e);
      ExitTurnsLast(d', e', n - 1);
    } else {
      var (d', e') := ExitTurn(d, e);
      assert ExitTurns(d', e', 0) == (d', e');
    }
  }

  lemma {:induction false} LeftStays(d: Device, e: Exit, n: nat, m: nat)
    requires n <= m && ExitTurns(d, e, n).1 == Left
    ensures ExitTurns(d, e, m) == ExitTurns(d, e, n)
  {
    if n < m {
      LeftStays(d, e, n, m - 1);
      ExitTurnsLast(d, e, m - 1);
    }
  }

  function ExitMoves(acts: seq<Move>): nat {
    if acts == [] then 0
    else ExitMoves(acts[..|acts| - 1]) + if acts[|acts| - 1] == ResumeExit then 1 else 0
  }

  /** Among silent sign-ins a sign-out runs as if it were alone. */
  lemma {:induction false} SilentMoves(w: World, m: Mixed, acts: seq<Move>)
    requires AllSilent(w, m.y)
    ensures var z := MixedSteps(w, m, acts);
      AllSilent(w, z.y) && (z.y.d, z.exit) == ExitTurns(m.y.d, m.exit, ExitMoves(acts))
  {
    if acts != [] {
      var n := |acts| - 1;
      SilentMoves(w, m, acts[..n]);
      var z := MixedSteps(w, m, acts[..n]);
      if acts[n] == ResumeExit {
        ExitTurnsLast(m.y.d, m.exit, ExitMoves(acts[..n]));
      } else {
        SilentMove(w, z, acts[n].i);
      }
    }
  }

  lemma SilentMove(w: World, z: Mixed, i: nat)
    requires AllSilent(w, z.y)
    ensures var z' := MixedStep(w, z, Resume(i)); AllSilent(w, z'.y) && z'.y.d == z.y.d && z'.exit == z.exit
  {
    if i < |z.y.tasks| { assert Silent(w, z.y.tasks[i].server, z.y.tasks[i].stage); }
  }

  function Exits(n: nat): seq<Move> {
    seq(n, i => ResumeExit)
  }

  lemma {:induction false} ExitsRun(w: World, m: Mixed, n: nat)
    ensures var (d, e) := ExitTurns(m.y.d, m.exit, n); MixedSteps(w, m, Exits(n)) == Mixed(m.y.(d := d), e)
  {
    if n > 0 {
      ExitsRun(w, m, n - 1);
      ExitTurnsLast(m.y.d, m.exit, n - 1);
      assert Exits(n)[..n - 1] == Exits(n - 1);
    }
  }

  function Resumes(schedule: seq<nat>): seq<Move> {
    seq(|schedule|, i requires 0 <= i < |schedule| => Resume(schedule[i]))
  }

  lemma {:induction false} ThenResumes(w: World, m: Mixed, acts: seq<Move>, schedule: seq<nat>)
    ensures var z := MixedSteps(w, m, acts);
      MixedSteps(w, m, acts + Resumes(schedule)) == Mixed(Steps(w, z.y, schedule), z.exit)
  {
    var all := acts + Resumes(schedule);
    if schedule == [] {
      assert all == acts;
    } else {
      var n := |schedule| - 1;
      ThenResumes(w, m, acts, schedule[..n]);
      assert all[..|all| - 1] == acts + Resumes(schedule[..n]);
    }
  }

  /** The sign-out, undisturbed, and then every sign-in to its end. */
  lemma SignOutThenTheRest(w: World, m: Mixed) returns (acts: seq<Move>, schedule: seq<nat>)
    requires m.exit == Begin && DistinctTasks(m.y.tasks) && AllSensible(m.y.tasks)
    ensures var z := m.y.(d := Device(Empty(), StoredIdentities.SignedOut(m.y.d.stored)));
      && MixedSteps(w, m, acts) == Mixed(Steps(w, z, schedule), Left) && AllDone(Steps(w, z, schedule))
  {
    var n := UndisturbedSignOut(m.y.d);
    var z := m.y.(d := Device(Empty(), StoredIdentities.SignedOut(m.y.d.stored)));
    schedule := AllBut(|m.y.tasks|, |m.y.tasks|);
    acts := Exits(n) + Resumes(schedule);
    ExitsRun(w, m, n);
    ThenResumes(w, m, Exits(n), schedule);
    forall k: nat | k < |m.y.tasks| ensures Turns(schedule, k) >= TURNS { AllButTurns(|m.y.tasks|, |m.y.tasks|, k); }
    FairTurnsFinish(w, z, schedule);
  }

  /** However the turns fall, once the sign-out and every sign-in have ended nothing is left. */
  ghost predicate AlwaysLeavesNothing(w: World, m: Mixed) {
    forall acts :: MixedSteps(w, m, acts).exit == Left && AllDone(MixedSteps(w, m, acts).y) ==>
                     MixedSteps(w, m, acts).y.d == Device(Empty(), NOTHING)
  }

  /** A sign-out started among running sign-ins always leaves nothing exactly when, as it starts, it
      would leave nothing by itself and every sign-in still running ends by an exception before its
      first effect. */
  lemma SignOutLeavesNothingExactly(w: World, m: Mixed)
    requires m.exit == Begin && DistinctTasks(m.y.tasks) && AllSensible(m.y.tasks)
    ensures AlwaysLeavesNothing(w, m) <==> StoredIdentities.SignedOut(m.y.d.stored) == NOTHING && AllSilent(w, m.y)
  {
    if AlwaysLeavesNothing(w, m) {
      var acts, schedule := SignOutThenTheRest(w, m);
      var z := m.y.(d := Device(Empty(), StoredIdentities.SignedOut(m.y.d.stored)));
      assert MixedSteps(w, m, acts).y.d == Device(Empty(), NOTHING);
      NothingLeftExactly(w, z, schedule);
      assert forall i :: 0 <= i < |m.y.tasks| ==> m.y.tasks[i] == z.tasks[i];
    }
    if StoredIdentities.SignedOut(m.y.d.stored) == NOTHING && AllSilent(w, m.y) {
      forall acts | MixedSteps(w, m, acts).exit == Left
        ensures MixedSteps(w, m, acts).y.d == Device(Empty(), NOTHING)
      {
        SilentEnd(w, m, acts);
      }
    }
  }

  lemma SilentEnd(w: World, m: Mixed, acts: seq<Move>)
    requires m.exit == Begin && AllSilent(w, m.y) && MixedSteps(w, m, acts).exit == Left
    ensures MixedSteps(w, m, acts).y.d == Device(Empty(), StoredIdentities.SignedOut(m.y.d.stored))
  {
    SilentMoves(w, m, acts);
    var n := UndisturbedSignOut(m.y.d);
    var k := ExitMoves(acts);
    if n <= k { LeftStays(m.y.d, Begin, n, k); } else { LeftStays(m.y.d, Begin, k, n); }
  }

  /** However the sign-out ran: what is left in the end is decided by what was stored as it ended and by
      the sign-ins then running. */
  lemma DecidedWhenItEnds(w: World, m: Mixed, before: seq<Move>, after: seq<nat>)
    requires DistinctTasks(m.y.tasks) && MixedSteps(w, m, before).exit == BundleDropped
    requires AllDone(Steps(w, MixedStep(w, MixedSteps(w, m, before), ResumeExit).y, after))
    ensures var z := MixedStep(w, MixedSteps(w, m, before), ResumeExit);
      && z.exit == Left
      && (Steps(w, z.y, after).d == Device(Empty(), NOTHING) <==> z.y.d.stored == NOTHING && AllSilent(w, z.y))
  {
    TasksStayDistinct(w, m, before);
    NothingLeftExactly(w, MixedStep(w, MixedSteps(w, m, before), ResumeExit).y, after);
  }

  // ----- the sign-in that comes back -----

  lemma GrantSettles(w: World, server: string, l: Local)
    requires l.stage.AwaitAuth? && w.authenticate(server, l.stage.identity, l.stage.baseUrl).Granted?
    ensures var session := w.authenticate(server, l.stage.identity, l.stage.baseUrl).session;
      && Settled(w, server, l).status == Some(Online(l.stage.baseUrl, session))
      && Settled(w, server, l).token == Some(session)
  {
    var l3 := LocalSteps(w, server, l, 3);
    assert LocalSteps(w, server, l, 1) == LocalStep(w, server, l);
    assert LocalSteps(w, server, l, 2) == LocalStep(w, server, LocalSteps(w, server, l, 1));
    assert l3 == LocalStep(w, server, LocalSteps(w, server, l, 2));
    DoneStays(w, server, l, 3, TURNS);
  }

  lemma GrantComesThrough(w: World, z: System, i: nat, schedule: seq<nat>)
    requires DistinctTasks(z.tasks) && i < |z.tasks| && z.tasks[i].stage.AwaitAuth?
    requires w.authenticate(z.tasks[i].server, z.tasks[i].stage.identity, z.tasks[i].stage.baseUrl).Granted?
    requires AllDone(Steps(w, z, schedule))
    ensures BroughtBack(w, z.tasks[i], Steps(w, z, schedule).d)
  {
    var t := z.tasks[i];
    TasksKept(w, z, schedule);
    InterleavingIsInvisible(w, z, schedule, i);
    assert Steps(w, z, schedule).tasks[i].stage.Done?;
    DoneIsSettled(w, t.server, LocalOf(z.d, t), Turns(schedule, i));
    GrantSettles(w, t.server, LocalOf(z.d, t));
  }

  /** The device has the token the server granted, and the connection is online. */
  ghost predicate BroughtBack(w: World, t: Task, f: Device)
    requires t.stage.AwaitAuth? && w.authenticate(t.server, t.stage.identity, t.stage.baseUrl).Granted?
  {
    var session := w.authenticate(t.server, t.stage.identity, t.stage.baseUrl).session;
    && StatusOf(f, t.server) == Some(Online(t.stage.baseUrl, session))
    && AuthStores.Find(f.stored.tokens, t.server) == Some(session)
  }

  /** A sign-in that still waits for its server when a sign-out has ended, and is then granted, brings
      its token and its connection back, however the rest is scheduled. */
  lemma GrantOutlivesSignOut(w: World, m: Mixed, before: seq<Move>, i: nat, after: seq<nat>)
    requires m.exit == Begin && DistinctTasks(m.y.tasks) && MixedSteps(w, m, before).exit == Left
    requires var ts := MixedSteps(w, m, before).y.tasks;
      && i < |ts| && ts[i].stage.AwaitAuth?
      && w.authenticate(ts[i].server, ts[i].stage.identity, ts[i].stage.baseUrl).Granted?
    requires AllDone(MixedSteps(w, m, before + Resumes(after)).y)
    ensures MixedSteps(w, m, before + Resumes(after)).exit == Left
    ensures BroughtBack(w, MixedSteps(w, m, before).y.tasks[i], MixedSteps(w, m, before + Resumes(after)).y.d)
  {
    TasksStayDistinct(w, m, before);
    ThenResumes(w, m, before, after);
    GrantComesThrough(w, MixedSteps(w, m, before).y, i, after);
  }

  /** And there is such a run from every sign-out that starts while a sign-in waits to be granted. */
  lemma GrantCanOutliveSignOut(w: World, m: Mixed, i: nat) returns (acts: seq<Move>)
    requires m.exit == Begin && DistinctTasks(m.y.tasks) && AllSensible(m.y.tasks)
    requires i < |m.y.tasks| && m.y.tasks[i].stage.AwaitAuth?
    requires w.authenticate(m.y.tasks[i].server, m.y.tasks[i].stage.identity, m.y.tasks[i].stage.baseUrl).Granted?
    ensures MixedSteps(w, m, acts).exit == Left && AllDone(MixedSteps(w, m, acts).y)
    ensures BroughtBack(w, m.y.tasks[i], MixedSteps(w, m, acts).y.d)
  {
    var schedule: seq<nat>;
    acts, schedule := SignOutThenTheRest(w, m);
    GrantComesThrough(w, m.y.(d := Device(Empty(), StoredIdentities.SignedOut(m.y.d.stored))), i, schedule);
  }
}
