/** `parallelLimit` (utils.js) over `async.parallelLimit`: run one task per item
    and collect the results by item position; a task that rejects rejects the
    whole batch. Tasks run here one after the other, in item order. */
module Fanout {
  import opened Wrappers

  /** The batch outcome: every result at its item's index, or the error of the
      first item (in item order) whose task rejects. */
  function MapInOrder<T, R, E(==)>(items: seq<T>, func: T -> Result<R, E>): (r: Result<seq<R>, E>)
    ensures r.Success? <==> forall i :: 0 <= i < |items| ==> func(items[i]).Success?
    ensures r.Success? ==>
      |r.value| == |items| && forall i :: 0 <= i < |items| ==> r.value[i] == func(items[i]).value
    ensures r.Failure? ==>
      (exists i :: 0 <= i < |items| && func(items[i]).Failure? && func(items[i]).error == r.error &&
         forall j :: 0 <= j < i ==> func(items[j]).Success?)
  {
    if items == [] then Success([])
    else
      match func(items[0])
      case Failure(e) => Failure(e)
      case Success(x) =>
        match MapInOrder(items[1..], func)
        case Failure(e) =>
          var i :| 0 <= i < |items[1..]| && func(items[1..][i]).Failure? && func(items[1..][i]).error == e &&
            forall j :: 0 <= j < i ==> func(items[1..][j]).Success?;
          assert func(items[i + 1]).Failure? && func(items[i + 1]).error == e;
          Failure(e)
        case Success(xs) => Success([x] + xs)
  }

  /** `xs` in front of the results of a batch that succeeds. */
  function Prepend<R, E>(xs: seq<R>, r: Result<seq<R>, E>): Result<seq<R>, E>
  {
    match r
    case Failure(e) => Failure(e)
    case Success(ys) => Success(xs + ys)
  }

  lemma PrependPrepend<R, E>(xs: seq<R>, x: R, r: Result<seq<R>, E>)
    ensures Prepend(xs, Prepend([x], r)) == Prepend(xs + [x], r)
  {
    if r.Success? {
      assert xs + ([x] + r.value) == xs + [x] + r.value;
    }
  }

  /** `parallelLimit(dataList, func, limit)`: one task per item, results in item
      order. The concurrency ceiling `limit` does not change the results. */
  method ParallelLimit<T, R, E(==)>(dataList: seq<T>, func: T -> Result<R, E>) returns (r: Result<seq<R>, E>)
    ensures r == MapInOrder(dataList, func)
  {
    var results: seq<R> := [];
    var i := 0;
    assert Prepend(results, MapInOrder(dataList, func)) == MapInOrder(dataList, func) by {
      if MapInOrder(dataList, func).Success? {
        assert [] + MapInOrder(dataList, func).value == MapInOrder(dataList, func).value;
      }
    }
    while i < |dataList|
      invariant 0 <= i <= |dataList|
      invariant MapInOrder(dataList, func) == Prepend(results, MapInOrder(dataList[i..], func))
    {
      assert dataList[i..][0] == dataList[i];
      assert dataList[i..][1..] == dataList[i + 1..];
      var outcome := func(dataList[i]);
      if outcome.Failure? {
        assert MapInOrder(dataList[i..], func) == Failure(outcome.error);
        return Failure(outcome.error);
      }
      assert MapInOrder(dataList[i..], func) == Prepend([outcome.value], MapInOrder(dataList[i + 1..], func));
      PrependPrepend(results, outcome.value, MapInOrder(dataList[i + 1..], func));
      results := results + [outcome.value];
      i := i + 1;
    }
    assert dataList[i..] == [];
    assert results + [] == results;
    r := Success(results);
  }
}
