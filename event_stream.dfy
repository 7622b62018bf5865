/** The event streams the connect server's handlers poll, and what one run of
    a handler's `poll` loop does with one. */
module EventStreams {
  import opened Base

  /** `Async`: what a `poll` reports. */
  datatype Async = Ready | NotReady

  /** The handler's failure: the error its event stream reports, which `?`
      passes on. */
  datatype PollError = StreamFailed

  /** What one `poll` of the handler's event stream yields. */
  datatype StreamPoll<E> = Item(evt: E) | Finished | Pending | Failed

  /** The handler's event stream: the answers its `poll` will give, `pos` of
      them already given. Once they run out the stream reports that it has
      finished. */
  class EventStream<E> {
    const items: seq<StreamPoll<E>>
    var pos: nat

    predicate Valid()
      reads this
    {
      pos <= |items|
    }

    constructor (items: seq<StreamPoll<E>>)
      ensures this.items == items && pos == 0 && Valid()
    {
      this.items := items;
      pos := 0;
    }

    /** `Stream::poll`. */
    method Next() returns (r: StreamPoll<E>)
      requires Valid()
      modifies this
      ensures Valid()
      ensures old(pos) < |items| ==> r == items[old(pos)] && pos == old(pos) + 1
      ensures old(pos) == |items| ==> r == Finished && pos == old(pos)
    {
      if pos < |items| {
        r := items[pos];
        pos := pos + 1;
      } else {
        r := Finished;
      }
    }
  }

  /** The index of the first answer at or after `from` that is not an event,
      or `|items|` if there is none. */
  function StopAt<E>(items: seq<StreamPoll<E>>, from: nat): (r: nat)
    requires from <= |items|
    ensures from <= r <= |items|
    ensures forall i :: from <= i < r ==> items[i].Item?
    ensures r < |items| ==> !items[r].Item?
    decreases |items| - from
  {
    if from == |items| || !items[from].Item? then from else StopAt(items, from + 1)
  }

  /** An event answer does not end a poll. */
  lemma StopAtItem<E>(items: seq<StreamPoll<E>>, i: nat)
    requires i < |items| && items[i].Item?
    ensures StopAt(items, i) == StopAt(items, i + 1)
  {
  }

  /** The events answers `lo` up to `hi` of a stream carry, in order. */
  function EventsIn<E>(items: seq<StreamPoll<E>>, lo: nat, hi: nat): (r: seq<E>)
    requires lo <= hi <= |items|
    requires forall i :: lo <= i < hi ==> items[i].Item?
    ensures |r| == hi - lo
    ensures forall i :: 0 <= i < |r| ==> r[i] == items[lo + i].evt
    decreases hi - lo
  {
    if hi == lo then [] else EventsIn(items, lo, hi - 1) + [items[hi - 1].evt]
  }

  /** One more event answer extends the events by its event. */
  lemma EventsInSnoc<E>(items: seq<StreamPoll<E>>, lo: nat, hi: nat)
    requires lo <= hi < |items|
    requires forall i :: lo <= i <= hi ==> items[i].Item?
    ensures EventsIn(items, lo, hi + 1) == EventsIn(items, lo, hi) + [items[hi].evt]
  {
  }

  /** What a handler's `poll` loop returns once its stream stops giving
      events: `Ready` when the stream has finished, `NotReady` when it is
      pending, the stream's error when it fails. */
  function PollResult<E>(items: seq<StreamPoll<E>>, from: nat): Result<Async, PollError>
    requires from <= |items|
  {
    var stop := StopAt(items, from);
    if stop == |items| then Success(Ready)
    else match items[stop]
      case Pending => Success(NotReady)
      case Failed => Failure(StreamFailed)
      case _ => Success(Ready)
  }

  /** A poll answers `NotReady` exactly when it stops at a pending answer,
      fails exactly when it stops at a failure, and is otherwise `Ready`. */
  lemma PollResultCases<E>(items: seq<StreamPoll<E>>, from: nat)
    requires from <= |items|
    ensures var stop := StopAt(items, from);
      && (PollResult(items, from) == Success(NotReady) <==> stop < |items| && items[stop].Pending?)
      && (PollResult(items, from).Failure? <==> stop < |items| && items[stop].Failed?)
      && (PollResult(items, from) == Success(Ready) <==> stop == |items| || items[stop].Finished?)
  {
  }

  /** Where a handler's `poll` leaves its stream: past the answer that
      stopped it. */
  function PollEnd<E>(items: seq<StreamPoll<E>>, from: nat): (r: nat)
    requires from <= |items|
    ensures r <= |items|
  {
    var stop := StopAt(items, from);
    if stop == |items| then stop else stop + 1
  }

  /** A poll that has passed only events from `from` to `stop` and meets an
      answer that is not one there stops, with the result and the end that
      answer gives. */
  lemma PollStops<E>(items: seq<StreamPoll<E>>, from: nat, stop: nat)
    requires from <= stop <= |items|
    requires StopAt(items, from) == StopAt(items, stop)
    requires !(stop < |items| && items[stop].Item?)
    ensures StopAt(items, from) == stop
    ensures PollResult(items, from) == PollResult(items, stop)
    ensures PollEnd(items, from) == if stop < |items| then stop + 1 else stop
  {
  }
}
