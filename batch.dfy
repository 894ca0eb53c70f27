/** Both mappers walk their input in order, convert one item at a time and stop at the first item
    whose conversion raises: the exception escapes and no partial result is returned. */
module Batch {
  import opened Wrappers

  /** The exception raised by the item at `index`. */
  datatype ItemFailure<+E> = ItemFailure(index: nat, error: E)

  /** Converting `xs` item by item: every item's result in order, or the first item's failure. */
  function MapAll<A, B, E>(f: A -> Result<B, E>, xs: seq<A>): (r: Result<seq<B>, ItemFailure<E>>)
    ensures r.Success? ==> |r.value| == |xs| && forall i :: 0 <= i < |xs| ==> f(xs[i]) == Success(r.value[i])
    ensures r.Failure? ==>
      && r.error.index < |xs|
      && f(xs[r.error.index]) == Failure(r.error.error)
      && forall i :: 0 <= i < r.error.index ==> f(xs[i]).Success?
    decreases |xs|
  {
    if |xs| == 0 then Success([])
    else
      var init := xs[..|xs| - 1];
      assert forall i :: 0 <= i < |init| ==> init[i] == xs[i];
      match MapAll(f, init)
      case Failure(e) => Failure(e)
      case Success(ys) =>
        match f(xs[|xs| - 1])
        case Failure(e) => Failure(ItemFailure(|xs| - 1, e))
        case Success(y) => Success(ys + [y])
  }

  /** The conversion succeeds exactly when every item converts; then it holds each item's result. */
  lemma MapAllSucceeds<A, B, E>(f: A -> Result<B, E>, xs: seq<A>)
    ensures MapAll(f, xs).Success? <==> forall i :: 0 <= i < |xs| ==> f(xs[i]).Success?
  {
    if MapAll(f, xs).Failure? {
      var k := MapAll(f, xs).error.index;
      assert !f(xs[k]).Success?;
    }
  }

  /** It fails with the failure of the first item that fails, and nothing after that item is looked at. */
  lemma MapAllFailsAtFirst<A, B, E>(f: A -> Result<B, E>, xs: seq<A>, k: nat, e: E)
    requires k < |xs| && f(xs[k]) == Failure(e)
    requires forall i :: 0 <= i < k ==> f(xs[i]).Success?
    ensures MapAll(f, xs) == Failure(ItemFailure(k, e))
  {
    MapAllSucceeds(f, xs);
  }

  /** Converting one more item extends a successful conversion of the items before it. */
  lemma MapAllStep<A, B, E>(f: A -> Result<B, E>, xs: seq<A>, i: nat, ys: seq<B>, y: B)
    requires i < |xs| && MapAll(f, xs[..i]) == Success(ys) && f(xs[i]) == Success(y)
    ensures MapAll(f, xs[..i + 1]) == Success(ys + [y])
  {
    assert xs[..i + 1][..i] == xs[..i];
  }

  /** A conversion that fails on the prefix `xs[..i]` fails the same way on all of `xs`. */
  lemma MapAllPrefixFailure<A, B, E>(f: A -> Result<B, E>, xs: seq<A>, i: nat)
    requires i <= |xs| && MapAll(f, xs[..i]).Failure?
    ensures MapAll(f, xs) == MapAll(f, xs[..i])
  {
    var fl := MapAll(f, xs[..i]).error;
    assert forall j :: 0 <= j < fl.index ==> xs[..i][j] == xs[j];
    MapAllFailsAtFirst(f, xs, fl.index, fl.error);
  }
}
