/** Streams delivered in batches: what a consumer receives when a row cannot be read. */
module Batches {
  /** An item, or the failure to read a row. */
  datatype Event<+T> = Emitted(item: T) | Failed

  datatype Batch<+T> = End | Items(items: seq<T>) | Failure

  function Events<T>(items: seq<T>): (events: seq<Event<T>>)
    ensures |events| == |items| && forall i :: 0 <= i < |items| ==> events[i] == Emitted(items[i])
  {
    seq(|items|, (i: nat) requires i < |items| => Emitted(items[i]))
  }

  /** The position of the first failure, or the length of the stream when there is none. */
  function FirstFailure<T>(events: seq<Event<T>>): (k: nat)
    ensures k <= |events| && (k < |events| ==> events[k].Failed?) && forall i :: 0 <= i < k ==> events[i].Emitted?
  {
    if events == [] || events[0].Failed? then 0 else 1 + FirstFailure(events[1..])
  }

  /** The largest number of whole batches' worth of items within `n`. */
  function Whole(n: nat, batchSize: nat): (w: nat)
    requires batchSize >= 1
    ensures w <= n < w + batchSize
  {
    if n < batchSize then 0 else batchSize + Whole(n - batchSize, batchSize)
  }

  /** What a consumer has received before a failure: whole batches only. */
  function Delivered<T>(events: seq<Event<T>>, batchSize: nat): seq<Event<T>>
    requires batchSize >= 1
  {
    var k := FirstFailure(events);
    if k == |events| then events else events[..Whole(k, batchSize)]
  }

  lemma EventsSnoc<T>(items: seq<T>, last: T)
    ensures Events(items + [last]) == Events(items) + [Emitted(last)]
  {
  }

  lemma WholeNothing(batchSize: nat)
    requires batchSize >= 1
    ensures Whole(0, batchSize) == 0
  {
  }

  lemma NoEvents<T>()
    ensures Events<T>([]) == []
  {
  }

  lemma EventsConcat<T>(a: seq<T>, b: seq<T>)
    ensures Events(a + b) == Events(a) + Events(b) && |Events(b)| == |b|
  {
  }

  lemma MoreBatches(n: nat, batchSize: nat)
    requires batchSize >= 1 && Whole(n, batchSize) == n
    ensures Whole(n + batchSize, batchSize) == n + batchSize
  {
  }

  lemma WholeStream<T>(items: seq<T>, events: seq<Event<T>>, batchSize: nat)
    requires batchSize >= 1 && events == Events(items) + []
    ensures Events(items) == Delivered(events, batchSize) && Failed !in events
  {
    assert events == Events(items);
  }

  lemma BrokenStream<T>(items: seq<T>, lost: seq<T>, rest: seq<Event<T>>, events: seq<Event<T>>, batchSize: nat)
    requires batchSize >= 1 && Whole(|items|, batchSize) == |items| && |lost| < batchSize
    requires events == Events(items) + (Events(lost) + [Failed] + rest)
    ensures Events(items) == Delivered(events, batchSize) && Failed in events
  {
    var k := |items| + |lost|;
    assert events[k] == Failed;
    assert FirstFailure(events) == k by {
      assert forall i :: 0 <= i < k ==> events[i].Emitted?;
    }
    WholeOfSum(|items|, |lost|, batchSize);
  }

  lemma {:induction false} WholeOfSum(n: nat, m: nat, batchSize: nat)
    requires batchSize >= 1 && Whole(n, batchSize) == n && m < batchSize
    ensures Whole(n + m, batchSize) == n
  {
    if n >= batchSize { WholeOfSum(n - batchSize, m, batchSize); }
  }

  // ----- When the batch size matters -----

  /** Consumers receive the same whatever the batch size. */
  ghost predicate Steady<T>(events: seq<Event<T>>) {
    forall a: nat, b: nat :: a >= 1 && b >= 1 ==> Delivered(events, a) == Delivered(events, b)
  }

  lemma {:induction false} WholeOfOnes(n: nat)
    ensures Whole(n, 1) == n
  {
    if n > 0 { WholeOfOnes(n - 1); }
  }

  /** The batch size matters exactly when something precedes a failure. */
  lemma SteadyIffNothingLost<T>(events: seq<Event<T>>)
    ensures Steady(events) <==> FirstFailure(events) == 0 || FirstFailure(events) == |events|
  {
    var k := FirstFailure(events);
    if 0 < k < |events| {
      WholeOfOnes(k);
      assert Whole(k, k + 1) == 0;
      assert |Delivered(events, 1)| == k && |Delivered(events, k + 1)| == 0;
    } else if k == 0 < |events| {
      forall a: nat | a >= 1 ensures Delivered(events, a) == [] {
        WholeNothing(a);
      }
    }
  }

  lemma FailureIsFound<T>(events: seq<Event<T>>)
    ensures Failed in events <==> FirstFailure(events) < |events|
  {
    if FirstFailure(events) < |events| { assert events[FirstFailure(events)] == Failed; }
  }

  lemma UnfailingIsSteady<T>(events: seq<Event<T>>)
    requires Failed !in events
    ensures Steady(events) && forall a: nat :: a >= 1 ==> Delivered(events, a) == events
  {
    FailureIsFound(events);
  }
}
