/**
 * `Promise.all` over the per-part promises. Promises settle one at a time in
 * some order unknown to the program; `Promise.all` stores each fulfilment
 * in the slot of the promise's own index, rejects with the first rejection
 * it observes, and fulfils with the slots once every promise has fulfilled.
 * The settlement order is a parameter.
 */
module Promises {
  import opened Wrappers

  /** `order` lists the settling promises: every index in `[0, n)` occurs, each settles once. */
  predicate IsSettleOrder(order: seq<nat>, n: nat) {
    && |order| == n
    && (forall k :: 0 <= k < |order| ==> order[k] < n)
    && (forall i :: 0 <= i < n ==> i in order)
  }

  /** The slots after the promises at `order` settled, or the first rejection among them. */
  function Settle<T, E>(results: seq<Result<T, E>>, order: seq<nat>, slots: seq<Option<T>>): (r: Result<seq<Option<T>>, E>)
    requires |slots| == |results|
    requires forall k :: 0 <= k < |order| ==> order[k] < |results|
    ensures r.Success? ==> |r.value| == |results|
    decreases |order|
  {
    if order == [] then Success(slots)
    else
      match results[order[0]]
      case Failure(e) => Failure(e)
      case Success(v) => Settle(results, order[1..], slots[order[0] := Some(v)])
  }

  /** What `Settle` leaves behind: the slot of every settled index holds its value, the others
      are untouched; and it fails exactly when a settled promise was rejected, with the reason
      of the first such promise. */
  lemma {:induction false} SettleMeaning<T, E>(results: seq<Result<T, E>>, order: seq<nat>, slots: seq<Option<T>>)
    requires |slots| == |results|
    requires forall k :: 0 <= k < |order| ==> order[k] < |results|
    ensures Settle(results, order, slots).Success? <==> forall k :: 0 <= k < |order| ==> results[order[k]].Success?
    ensures Settle(results, order, slots).Success? ==>
      forall i :: 0 <= i < |slots| ==>
        Settle(results, order, slots).value[i] == if i in order then Some(results[i].value) else slots[i]
    ensures Settle(results, order, slots).Failure? ==>
      exists k :: 0 <= k < |order| && results[order[k]] == Failure(Settle(results, order, slots).error)
        && forall j :: 0 <= j < k ==> results[order[j]].Success?
    decreases |order|
  {
    if order != [] {
      var first := order[0];
      if results[first].Success? {
        var next := slots[first := Some(results[first].value)];
        SettleMeaning(results, order[1..], next);
        var r := Settle(results, order, slots);
        assert r == Settle(results, order[1..], next);
        forall k | 0 < k < |order| ensures order[k] == order[1..][k - 1] { }
        if r.Success? {
          forall i | 0 <= i < |slots|
            ensures r.value[i] == if i in order then Some(results[i].value) else slots[i]
          {
            assert i in order <==> i == first || i in order[1..];
          }
        } else {
          var k' :| 0 <= k' < |order[1..]| && results[order[1..][k']] == Failure(r.error)
            && forall j :: 0 <= j < k' ==> results[order[1..][j]].Success?;
          assert results[order[k' + 1]] == Failure(r.error);
          assert forall j :: 0 <= j < k' + 1 ==> results[order[j]].Success?;
        }
      } else {
        assert results[order[0]] == Failure(Settle(results, order, slots).error);
      }
    }
  }

  /** `Promise.all(promises)` when the promises settle in `order`. */
  function All<T, E>(results: seq<Result<T, E>>, order: seq<nat>): (r: Result<seq<T>, E>)
    requires IsSettleOrder(order, |results|)
    ensures r.Success? ==> |r.value| == |results|
  {
    var empty: seq<Option<T>> := seq(|results|, _ => None);
    match Settle(results, order, empty)
    case Failure(e) => Failure(e)
    case Success(slots) =>
      SettleMeaning(results, order, empty);
      Success(seq(|slots|, i requires 0 <= i < |slots| => slots[i].value))
  }

  /** `Promise.all` fulfils exactly when every promise fulfils; its value lists the promises'
      values by index, whatever the order they settled in. */
  lemma AllFulfils<T, E>(results: seq<Result<T, E>>, order: seq<nat>)
    requires IsSettleOrder(order, |results|)
    ensures All(results, order).Success? <==> forall i :: 0 <= i < |results| ==> results[i].Success?
    ensures All(results, order).Success? ==>
      forall i :: 0 <= i < |results| ==> All(results, order).value[i] == results[i].value
  {
    var empty: seq<Option<T>> := seq(|results|, _ => None);
    SettleMeaning(results, order, empty);
    if forall i :: 0 <= i < |results| ==> results[i].Success? {
      assert forall k :: 0 <= k < |order| ==> results[order[k]].Success?;
    }
  }

  /** When `Promise.all` rejects, its reason is that of the first rejected promise to settle. */
  lemma AllRejects<T, E>(results: seq<Result<T, E>>, order: seq<nat>)
    requires IsSettleOrder(order, |results|)
    ensures All(results, order).Failure? ==>
      exists k :: 0 <= k < |order| && results[order[k]] == Failure(All(results, order).error)
        && forall j :: 0 <= j < k ==> results[order[j]].Success?
  {
    var empty: seq<Option<T>> := seq(|results|, _ => None);
    SettleMeaning(results, order, empty);
  }

  /** The settlement order cannot change whether `Promise.all` fulfils, nor its value. */
  lemma AllOrderIndependent<T, E>(results: seq<Result<T, E>>, order1: seq<nat>, order2: seq<nat>)
    requires IsSettleOrder(order1, |results|) && IsSettleOrder(order2, |results|)
    ensures All(results, order1).Success? <==> All(results, order2).Success?
    ensures All(results, order1).Success? ==> All(results, order1) == All(results, order2)
  {
    AllFulfils(results, order1);
    AllFulfils(results, order2);
    if All(results, order1).Success? {
      assert All(results, order1).value == All(results, order2).value;
    }
  }
}
