/** Optional values and outcomes shared by the whole model. */
module Options {

  datatype Option<+T> = None | Some(value: T)

  /** `Threw` stands for an exception that leaves the function; the message is not modelled. */
  datatype Outcome<+T> = Returned(value: T) | Threw

  datatype Result<+T, +E> = Ok(value: T) | Err(error: E)

  /** Applies `f` to the elements in order and stops at the first failure. */
  function Traverse<A, T, E>(f: A -> Result<T, E>, xs: seq<A>): Result<seq<T>, E> {
    if xs == [] then Ok([])
    else
      var n := |xs| - 1;
      var init := Traverse(f, xs[..n]);
      if init.Err? then init
      else match f(xs[n]) case Err(e) => Err(e) case Ok(y) => Ok(init.value + [y])
  }

  lemma {:induction false} FirstFailureDecides<A, T, E>(f: A -> Result<T, E>, xs: seq<A>, n: nat)
    requires n <= |xs| && Traverse(f, xs[..n]).Err?
    ensures Traverse(f, xs) == Traverse(f, xs[..n])
  {
    if n == |xs| {
      assert xs[..n] == xs;
    } else {
      assert xs[..|xs| - 1][..n] == xs[..n];
      FirstFailureDecides(f, xs[..|xs| - 1], n);
    }
  }

  lemma {:induction false} TraverseSucceeds<A, T, E>(f: A -> Result<T, E>, xs: seq<A>)
    requires forall i :: 0 <= i < |xs| ==> f(xs[i]).Ok?
    ensures Traverse(f, xs).Ok? && |Traverse(f, xs).value| == |xs|
    ensures forall i :: 0 <= i < |xs| ==> f(xs[i]) == Ok(Traverse(f, xs).value[i])
  {
    if xs != [] { TraverseSucceeds(f, xs[..|xs| - 1]); }
  }

  /** The first element that fails, and how it fails, is the result. */
  lemma FirstErrorIs<A, T, E>(f: A -> Result<T, E>, xs: seq<A>, n: nat)
    requires n < |xs| && f(xs[n]).Err? && forall i :: 0 <= i < n ==> f(xs[i]).Ok?
    ensures Traverse(f, xs) == Err(f(xs[n]).error)
  {
    TraverseSucceeds(f, xs[..n]);
    assert xs[..n + 1][..n] == xs[..n];
    FirstFailureDecides(f, xs, n + 1);
  }

  /** The loop form: push results until one fails. */
  method TraverseInOrder<A, T, E>(f: A -> Result<T, E>, xs: seq<A>) returns (r: Result<seq<T>, E>)
    ensures r == Traverse(f, xs)
  {
    var out := [];
    for i := 0 to |xs|
      invariant Traverse(f, xs[..i]) == Ok(out)
    {
      assert xs[..i + 1][..i] == xs[..i];
      match f(xs[i]) {
        case Err(e) =>
          FirstFailureDecides(f, xs, i + 1);
          return Err(e);
        case Ok(y) => out := out + [y];
      }
    }
    assert xs[..|xs|] == xs;
    r := Ok(out);
  }
}
