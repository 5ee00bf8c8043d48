/** Option and Result, the two shapes the Rust code returns, and the way
    a loop that pushes results one by one combines them. */
module Basics {

  datatype Option<+T> = None | Some(value: T)

  datatype Result<+T, +E> = Ok(value: T) | Err(error: E)

  /** The outcome of producing `a` and then `b`: the first error wins,
      otherwise the two sequences are concatenated in order. This is what
      a loop that stops at the first `?` and pushes every success computes. */
  function Chain<T, E>(a: Result<seq<T>, E>, b: Result<seq<T>, E>): (r: Result<seq<T>, E>)
    ensures a.Err? ==> r == a
    ensures a.Ok? && b.Err? ==> r == b
    ensures a.Ok? && b.Ok? ==> r == Ok(a.value + b.value)
  {
    match a
    case Err(e) => Err(e)
    case Ok(xs) =>
      match b
      case Err(e) => Err(e)
      case Ok(ys) => Ok(xs + ys)
  }

  /** Pushing `xs` and then `ys` in front of an outcome is pushing `xs + ys`. */
  lemma ChainOkAssoc<T, E>(xs: seq<T>, ys: seq<T>, rest: Result<seq<T>, E>)
    ensures Chain(Ok(xs), Chain(Ok(ys), rest)) == Chain(Ok(xs + ys), rest)
  {
    if rest.Ok? {
      assert xs + (ys + rest.value) == (xs + ys) + rest.value;
    }
  }

  lemma ChainNil<T, E>(rest: Result<seq<T>, E>)
    ensures Chain(Ok([]), rest) == rest
  {
    if rest.Ok? {
      assert [] + rest.value == rest.value;
    }
  }

  lemma ChainAssoc<T, E>(a: Result<seq<T>, E>, b: Result<seq<T>, E>, c: Result<seq<T>, E>)
    ensures Chain(Chain(a, b), c) == Chain(a, Chain(b, c))
  {
    if a.Ok? && b.Ok? && c.Ok? {
      assert (a.value + b.value) + c.value == a.value + (b.value + c.value);
    }
  }
}
