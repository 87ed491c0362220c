/** Runs of deterministic machines: a state, a step that answers a call, and a sequence of calls. */
module Runs {

  ghost function Run<S, C, R>(step: (S, C) -> (S, R), start: S, calls: seq<C>): (S, seq<R>) {
    if calls == [] then (start, [])
    else
      var (s, rs) := Run(step, start, calls[..|calls| - 1]);
      var (s', r) := step(s, calls[|calls| - 1]);
      (s', rs + [r])
  }

  /** The i-th response is the answer given in the state after the first i calls. */
  lemma {:induction false} RunAt<S, C, R>(step: (S, C) -> (S, R), start: S, calls: seq<C>, i: nat)
    requires i < |calls|
    ensures var (s, rs) := Run(step, start, calls);
            var (before, earlier) := Run(step, start, calls[..i]);
      && |rs| == |calls| && rs[..i] == earlier && |earlier| == i
      && rs[i] == step(before, calls[i]).1
      && Run(step, start, calls[..i + 1]).0 == step(before, calls[i]).0
  {
    var n := |calls| - 1;
    RunLength(step, start, calls[..n]);
    if i < n {
      assert calls[..n][..i] == calls[..i] && calls[..n][..i + 1] == calls[..i + 1];
      RunAt(step, start, calls[..n], i);
      assert Run(step, start, calls).1[..i] == Run(step, start, calls[..n]).1[..i];
    } else {
      assert calls[..i] == calls[..n] && calls[..i + 1] == calls;
      assert Run(step, start, calls).1[..i] == Run(step, start, calls[..n]).1;
    }
  }

  lemma {:induction false} RunLength<S, C, R>(step: (S, C) -> (S, R), start: S, calls: seq<C>)
    ensures |Run(step, start, calls).1| == |calls|
  {
    if calls != [] { RunLength(step, start, calls[..|calls| - 1]); }
  }

  /** A relation kept by every good step, with equal answers, is kept by every run of good calls. */
  lemma {:induction false} RunSimulates<A(!new), B(!new), C(!new), R>(
      stepA: (A, C) -> (A, R), stepB: (B, C) -> (B, R), rel: (A, B) -> bool, good: C -> bool, a: A, b: B, calls: seq<C>)
    requires rel(a, b)
    requires forall x, y, c :: rel(x, y) && good(c) ==>
               rel(stepA(x, c).0, stepB(y, c).0) && stepA(x, c).1 == stepB(y, c).1
    requires forall i :: 0 <= i < |calls| ==> good(calls[i])
    ensures rel(Run(stepA, a, calls).0, Run(stepB, b, calls).0)
    ensures Run(stepA, a, calls).1 == Run(stepB, b, calls).1
  {
    if calls != [] {
      var n := |calls| - 1;
      RunSimulates(stepA, stepB, rel, good, a, b, calls[..n]);
      assert good(calls[n]);
    }
  }
}
