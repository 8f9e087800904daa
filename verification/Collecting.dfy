/** Building a list element by element, stopping at the first error: the shape of the loops and
    comprehensions that raise on a bad element. */
module Collecting {
  import opened Prelude

  /** Each element is made from its raw form and the elements made before it. */
  function Collect<A, B, E>(raws: seq<A>, step: (seq<B>, A) -> Result<B, E>): Result<seq<B>, E> {
    if raws == [] then Ok([])
    else
      match Collect(raws[..|raws| - 1], step)
      case Raised(e) => Raised(e)
      case Ok(before) =>
        match step(before, raws[|raws| - 1])
        case Raised(e) => Raised(e)
        case Ok(last) => Ok(before + [last])
  }

  /** An error stops the collection, whatever follows. */
  lemma {:induction false} CollectStops<A, B, E>(raws: seq<A>, step: (seq<B>, A) -> Result<B, E>, i: nat, e: E)
    requires i <= |raws| && Collect(raws[..i], step) == Raised(e)
    ensures Collect(raws, step) == Raised(e)
    decreases |raws|
  {
    if i == |raws| {
      assert raws[..i] == raws;
    } else {
      assert raws[..|raws| - 1][..i] == raws[..i];
      CollectStops(raws[..|raws| - 1], step, i, e);
    }
  }

  /** A collection is exactly a list each of whose elements its step makes. */
  lemma {:induction false} CollectExactly<A, B, E>(raws: seq<A>, step: (seq<B>, A) -> Result<B, E>, made: seq<B>)
    ensures Collect(raws, step) == Ok(made) <==>
              |made| == |raws| && forall i | 0 <= i < |raws| :: step(made[..i], raws[i]) == Ok(made[i])
    decreases |raws|
  {
    if raws != [] {
      var n := |raws| - 1;
      if |made| == |raws| {
        CollectExactly(raws[..n], step, made[..n]);
        StepsSplit(raws, step, made);
        assert made == made[..n] + [made[n]];
      } else {
        CollectCounts(raws, step);
      }
    }
  }

  lemma {:induction false} StepsSplit<A, B, E>(raws: seq<A>, step: (seq<B>, A) -> Result<B, E>, made: seq<B>)
    requires |made| == |raws| > 0
    ensures var n := |raws| - 1;
            (forall i | 0 <= i < |raws| :: step(made[..i], raws[i]) == Ok(made[i]))
            <==> (forall i | 0 <= i < n :: step(made[..n][..i], raws[..n][i]) == Ok(made[..n][i]))
                 && step(made[..n], raws[n]) == Ok(made[n])
  {
    var n := |raws| - 1;
    forall i | 0 <= i < n ensures made[..n][..i] == made[..i] && raws[..n][i] == raws[i] && made[..n][i] == made[i] {
    }
  }

  lemma {:induction false} CollectCounts<A, B, E>(raws: seq<A>, step: (seq<B>, A) -> Result<B, E>)
    ensures Collect(raws, step).Ok? ==> |Collect(raws, step).value| == |raws|
    decreases |raws|
  {
    if raws != [] {
      CollectCounts(raws[..|raws| - 1], step);
    }
  }

  /** An error comes from the step of some element. */
  lemma {:induction false} CollectBlames<A, B, E>(raws: seq<A>, step: (seq<B>, A) -> Result<B, E>) returns (i: nat)
    requires Collect(raws, step).Raised?
    ensures i < |raws| && Collect(raws[..i], step).Ok?
    ensures step(Collect(raws[..i], step).value, raws[i]) == Raised(Collect(raws, step).error)
    decreases |raws|
  {
    var n := |raws| - 1;
    if Collect(raws[..n], step).Raised? {
      i := CollectBlames(raws[..n], step);
      assert raws[..n][..i] == raws[..i];
    } else {
      i := n;
    }
  }

  /** Two elements from which the steps make the same. */
  ghost predicate StepAlike<A, B(!new), E>(
    stepA: (seq<B>, A) -> Result<B, E>, stepB: (seq<B>, A) -> Result<B, E>, a: A, b: A)
  {
    forall before :: stepA(before, a) == stepB(before, b)
  }

  /** Lists whose elements step alike collect alike. */
  lemma {:induction false} CollectAlike<A, B(!new), E>(
    a: seq<A>, b: seq<A>, stepA: (seq<B>, A) -> Result<B, E>, stepB: (seq<B>, A) -> Result<B, E>)
    requires |a| == |b| && forall i | 0 <= i < |a| :: StepAlike(stepA, stepB, a[i], b[i])
    ensures Collect(a, stepA) == Collect(b, stepB)
    decreases |a|
  {
    if a != [] {
      var n := |a| - 1;
      CollectAlike(a[..n], b[..n], stepA, stepB);
      assert StepAlike(stepA, stepB, a[n], b[n]);
    }
  }
}
