/** Overlapping publishes.  The guard on the version and its update straddle two awaits, the sealing and
    the post, so other calls can pass the guard in between. */
module PublisherRuns {
  import opened Platform
  import opened ConnInfoPublishers

  datatype Publish =
    | Sealing(call: PublishCall)   // past the guard, awaiting the sealing
    | Posting(call: PublishCall)   // awaiting Tower
    | Published(call: PublishCall)
    | Failed(call: PublishCall)

  /** `last` is the field the guard reads; `log` lists the versions that were published, in order. */
  datatype Publisher = Publisher(last: int, calls: seq<Publish>, log: seq<int>)

  function Start(y: Publisher, c: PublishCall): Publisher {
    y.(calls := y.calls + [if c.version < 0 || c.version <= y.last then Failed(c) else Sealing(c)])
  }

  function Turn(p: Platform, cfg: Config, y: Publisher, i: nat): Publisher {
    if i >= |y.calls| then y
    else
      match y.calls[i]
      case Sealing(c) => y.(calls := y.calls[i := if SealedFor(p, cfg, c).Threw? then Failed(c) else Posting(c)])
      case Posting(c) =>
        if c.posted then Publisher(c.version, y.calls[i := Published(c)], y.log + [c.version])
        else y.(calls := y.calls[i := Failed(c)])
      case _ => y
  }

  function Turns(p: Platform, cfg: Config, y: Publisher, schedule: seq<nat>): Publisher {
    if schedule == [] then y
    else Turn(p, cfg, Turns(p, cfg, y, schedule[..|schedule| - 1]), schedule[|schedule| - 1])
  }

  /** Uninterrupted, a publish is the call of the publisher. */
  lemma UninterruptedIsAtomic(p: Platform, cfg: Config, y: Publisher, c: PublishCall)
    ensures var n, z := |y.calls|, Turn(p, cfg, Turn(p, cfg, Start(y, c), |y.calls|), |y.calls|);
            var ok := PublishOutcome(p, cfg, y.last, c).Returned?;
      && z.last == (if ok then c.version else y.last) && z.log == (if ok then y.log + [c.version] else y.log)
      && z.calls == y.calls + [if ok then Published(c) else Failed(c)]
  {
    var started := Start(y, c);
    var sealed := Turn(p, cfg, started, |y.calls|);
    assert started.calls[..|y.calls|] == y.calls;
    assert sealed.calls[..|y.calls|] == y.calls;
  }

  // ----- which calls in flight keep the published versions increasing -----

  /** The call is past its guard and will be published. */
  predicate Live(p: Platform, cfg: Config, b: Publish) {
    match b
    case Sealing(c) => SealedFor(p, cfg, c).Returned? && c.posted
    case Posting(c) => c.posted
    case _ => false
  }

  ghost predicate Ascending(log: seq<int>) {
    forall i, j :: 0 <= i < j < |log| ==> log[i] < log[j]
  }

  ghost predicate Above(log: seq<int>, v: int) {
    forall i :: 0 <= i < |log| ==> log[i] < v
  }

  /** At most one live call, above everything published. */
  ghost predicate Orderly(p: Platform, cfg: Config, y: Publisher) {
    && Ascending(y.log)
    && (forall i, j :: 0 <= i < j < |y.calls| ==> !(Live(p, cfg, y.calls[i]) && Live(p, cfg, y.calls[j])))
    && (forall i :: 0 <= i < |y.calls| && Live(p, cfg, y.calls[i]) ==> Above(y.log, y.calls[i].call.version))
  }

  ghost predicate StaysAscending(p: Platform, cfg: Config, y: Publisher) {
    forall schedule :: Ascending(Turns(p, cfg, y, schedule).log)
  }

  lemma OrderlyTurn(p: Platform, cfg: Config, y: Publisher, i: nat)
    requires Orderly(p, cfg, y)
    ensures Orderly(p, cfg, Turn(p, cfg, y, i))
  {
  }

  lemma {:induction false} OrderlyTurns(p: Platform, cfg: Config, y: Publisher, schedule: seq<nat>)
    requires Orderly(p, cfg, y)
    ensures Orderly(p, cfg, Turns(p, cfg, y, schedule))
  {
    if schedule != [] {
      var n := |schedule| - 1;
      OrderlyTurns(p, cfg, y, schedule[..n]);
      OrderlyTurn(p, cfg, Turns(p, cfg, y, schedule[..n]), schedule[n]);
    }
  }

  function TurnTwice(p: Platform, cfg: Config, y: Publisher, i: nat): Publisher {
    Turn(p, cfg, Turn(p, cfg, y, i), i)
  }

  /** Two turns publish a live call. */
  lemma LivePublishes(p: Platform, cfg: Config, y: Publisher, i: nat)
    requires i < |y.calls| && Live(p, cfg, y.calls[i])
    ensures var z := TurnTwice(p, cfg, y, i);
      && z.log == y.log + [y.calls[i].call.version] && |z.calls| == |y.calls|
      && forall k :: 0 <= k < |y.calls| && k != i ==> z.calls[k] == y.calls[k]
  {
  }

  lemma FourTurns(p: Platform, cfg: Config, y: Publisher, i: nat, j: nat)
    ensures Turns(p, cfg, y, [i, i]) == TurnTwice(p, cfg, y, i)
    ensures Turns(p, cfg, y, [i, i, j, j]) == TurnTwice(p, cfg, TurnTwice(p, cfg, y, i), j)
  {
    assert [i, i][..1] == [i] && [i][..0] == [];
    assert Turns(p, cfg, y, [i]) == Turn(p, cfg, y, i);
    assert [i, i, j][..2] == [i, i] && [i, i, j, j][..3] == [i, i, j];
    assert Turns(p, cfg, y, [i, i, j]) == Turn(p, cfg, Turns(p, cfg, y, [i, i]), j);
  }

  /** Publishing the higher version first leaves the lower one, or an equal one, to come after it. */
  lemma TwoLiveBreak(p: Platform, cfg: Config, y: Publisher, i: nat, j: nat)
    requires i < |y.calls| && j < |y.calls| && i != j && Live(p, cfg, y.calls[i]) && Live(p, cfg, y.calls[j])
    requires y.calls[i].call.version >= y.calls[j].call.version
    ensures !Ascending(Turns(p, cfg, y, [i, i, j, j]).log)
  {
    FourTurns(p, cfg, y, i, j);
    LivePublishes(p, cfg, y, i);
    NextPublishes(p, cfg, TurnTwice(p, cfg, y, i), y.calls[j], j);
    DescentBreaks(y.log, y.calls[i].call.version, y.calls[j].call.version);
  }

  lemma NextPublishes(p: Platform, cfg: Config, y: Publisher, b: Publish, j: nat)
    requires j < |y.calls| && y.calls[j] == b && Live(p, cfg, b)
    ensures TurnTwice(p, cfg, y, j).log == y.log + [b.call.version]
  {
    LivePublishes(p, cfg, y, j);
  }

  lemma DescentBreaks(log: seq<int>, a: int, b: int)
    requires a >= b
    ensures !Ascending(log + [a] + [b])
  {
    var all := log + [a] + [b];
    assert all[|log|] == a && all[|log| + 1] == b;
  }

  lemma StaleLiveBreaks(p: Platform, cfg: Config, y: Publisher, i: nat)
    requires i < |y.calls| && Live(p, cfg, y.calls[i]) && !Above(y.log, y.calls[i].call.version)
    ensures !Ascending(Turns(p, cfg, y, [i, i]).log)
  {
    FourTurns(p, cfg, y, i, i);
    LivePublishes(p, cfg, y, i);
    var k :| 0 <= k < |y.log| && y.log[k] >= y.calls[i].call.version;
    var log := Turns(p, cfg, y, [i, i]).log;
    assert log[k] == y.log[k] && log[|y.log|] == y.calls[i].call.version;
  }

  /** However the calls in flight go on, the versions published keep increasing exactly when at most one
      of them is past its guard and on its way to success, and it is above all that are published. */
  lemma OverlapKeepsOrderExactly(p: Platform, cfg: Config, y: Publisher)
    ensures StaysAscending(p, cfg, y) <==> Orderly(p, cfg, y)
  {
    if Orderly(p, cfg, y) {
      forall schedule ensures Ascending(Turns(p, cfg, y, schedule).log) {
        OrderlyTurns(p, cfg, y, schedule);
      }
    } else if StaysAscending(p, cfg, y) {
      assert Turns(p, cfg, y, []) == y && Ascending(y.log);
      if i, j :| 0 <= i < j < |y.calls| && Live(p, cfg, y.calls[i]) && Live(p, cfg, y.calls[j]) {
        if y.calls[i].call.version >= y.calls[j].call.version {
          TwoLiveBreak(p, cfg, y, i, j);
        } else {
          TwoLiveBreak(p, cfg, y, j, i);
        }
      } else {
        var i :| 0 <= i < |y.calls| && Live(p, cfg, y.calls[i]) && !Above(y.log, y.calls[i].call.version);
        StaleLiveBreaks(p, cfg, y, i);
      }
    }
  }

  /** Two calls that start together for good posts both pass the guard, and publish out of order. */
  lemma OverlappingStartsBreak(p: Platform, cfg: Config, last: int, high: PublishCall, low: PublishCall)
    requires 0 <= low.version <= high.version && last < low.version && high.posted && low.posted
    requires SealedFor(p, cfg, high).Returned? && SealedFor(p, cfg, low).Returned?
    ensures !Ascending(Turns(p, cfg, Start(Start(Publisher(last, [], []), high), low), [0, 0, 1, 1]).log)
  {
    var y := Start(Start(Publisher(last, [], []), high), low);
    assert y.calls == [Sealing(high), Sealing(low)];
    TwoLiveBreak(p, cfg, y, 0, 1);
  }
}
