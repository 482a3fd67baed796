/** The in-memory event store: streams that only grow, guarded by the version
    the writer expects, and the subscribers told of every appended event. */
module EventStores {
  import opened BankAccounts
  import opened Common

  type Streams = map<string, seq<Event>>

  function StreamOf(streams: Streams, id: string): seq<Event> {
    if id in streams then streams[id] else []
  }

  datatype AppendResult =
    | Appended(streams: Streams)
    | Conflict(expected: int, actual: nat)

  function AppendTo(streams: Streams, id: string, events: seq<Event>, expected: int): AppendResult {
    var current := StreamOf(streams, id);
    if |current| != expected then Conflict(expected, |current|)
    else Appended(streams[id := current + events])
  }

  /** `Array.prototype.slice(from)`: a negative start counts from the end. */
  function Slice<T>(s: seq<T>, from: int): seq<T> {
    if from < -|s| then s
    else if from < 0 then s[|s| + from..]
    else if from <= |s| then s[from..]
    else []
  }

  // ------------------------------------------------------------------
  // What subscribers see
  // ------------------------------------------------------------------

  type Handler = nat

  datatype Call = Call(handler: Handler, event: Event)

  function CallsFor(event: Event, handlers: seq<Handler>): seq<Call> {
    seq(|handlers|, i requires 0 <= i < |handlers| => Call(handlers[i], event))
  }

  function CallsForAll(events: seq<Event>, handlers: seq<Handler>): seq<Call> {
    if events == [] then []
    else CallsForAll(events[..|events| - 1], handlers) + CallsFor(events[|events| - 1], handlers)
  }

  function SeenBy(h: Handler, calls: seq<Call>): seq<Event> {
    if calls == [] then []
    else SeenBy(h, calls[..|calls| - 1]) +
         (if calls[|calls| - 1].handler == h then [calls[|calls| - 1].event] else [])
  }

  lemma {:induction false} SeenByConcat(h: Handler, first: seq<Call>, second: seq<Call>)
    ensures SeenBy(h, first + second) == SeenBy(h, first) + SeenBy(h, second)
    decreases |second|
  {
    if second == [] {
      assert first + second == first;
    } else {
      var init := second[..|second| - 1];
      assert (first + second)[..|first + second| - 1] == first + init;
      SeenByConcat(h, first, init);
    }
  }

  lemma {:induction false} SeenOfOneEvent(h: Handler, event: Event, handlers: seq<Handler>)
    requires Distinct(handlers)
    ensures SeenBy(h, CallsFor(event, handlers)) == if h in handlers then [event] else []
    decreases |handlers|
  {
    if handlers != [] {
      var init, last := handlers[..|handlers| - 1], handlers[|handlers| - 1];
      SeenOfOneEvent(h, event, init);
      var calls := CallsFor(event, handlers);
      assert calls[..|calls| - 1] == CallsFor(event, init);
      assert calls[|calls| - 1] == Call(last, event);
    }
  }

  /** A handler subscribed once is called with exactly the appended events, in
      order; a handler that is not subscribed is not called. */
  lemma {:induction false} SubscriberSeesTheAppend(h: Handler, events: seq<Event>, handlers: seq<Handler>)
    requires Distinct(handlers)
    ensures SeenBy(h, CallsForAll(events, handlers)) == if h in handlers then events else []
    decreases |events|
  {
    if events == [] {
      return;
    }
    hide Distinct, CallsFor, SeenBy;
    var init, last := events[..|events| - 1], events[|events| - 1];
    SubscriberSeesTheAppend(h, init, handlers);
    SeenByConcat(h, CallsForAll(init, handlers), CallsFor(last, handlers));
    SeenOfOneEvent(h, last, handlers);
    assert events == init + [last];
  }

  /** The events are announced one after the other, and each to all handlers in the order in
      which they subscribed. */
  lemma {:induction false} CallsAreInOrder(events: seq<Event>, handlers: seq<Handler>, i: nat, j: nat)
    requires i < |events| && j < |handlers|
    ensures var before := CallsForAll(events[..i], handlers);
            |CallsForAll(events[..i + 1], handlers)| == |before| + |handlers| &&
            |before| + j < |CallsForAll(events, handlers)| &&
            CallsForAll(events, handlers)[|before| + j] == Call(handlers[j], events[i])
    decreases |events|
  {
    assert events[..i + 1][..i] == events[..i];
    var init := events[..|events| - 1];
    if i < |init| {
      CallsAreInOrder(init, handlers, i, j);
      assert init[..i] == events[..i];
    } else {
      assert events[..i] == init && events[..i + 1] == events;
    }
  }

  function IndexOf(handlers: seq<Handler>, h: Handler): int {
    if handlers == [] then -1
    else if handlers[0] == h then 0
    else var i := IndexOf(handlers[1..], h); if i == -1 then -1 else i + 1
  }

  lemma {:induction false} IndexOfIsFirst(handlers: seq<Handler>, h: Handler)
    ensures var i := IndexOf(handlers, h);
            -1 <= i < |handlers| && (i == -1 <==> h !in handlers) &&
            (i >= 0 ==> handlers[i] == h && h !in handlers[..i])
  {
    if handlers != [] && handlers[0] != h {
      var rest := handlers[1..];
      IndexOfIsFirst(rest, h);
      var i := IndexOf(rest, h);
      if i >= 0 {
        assert handlers[..i + 1] == [handlers[0]] + rest[..i];
      }
    }
  }

  // ------------------------------------------------------------------
  // The store object
  // ------------------------------------------------------------------

  datatype AppendOutcome = Stored | ConcurrencyError(expected: int, actual: nat)

  class InMemoryEventStore {
    var streams: Streams
    var handlers: seq<Handler>
    var calls: seq<Call>  // every handler call made so far, in order

    constructor ()
      ensures streams == map[] && handlers == [] && calls == []
    {
      streams, handlers, calls := map[], [], [];
    }

    method Append(id: string, events: seq<Event>, expected: int) returns (outcome: AppendOutcome)
      modifies this`streams, this`calls
      ensures match AppendTo(old(streams), id, events, expected)
              case Conflict(e, a) =>
                outcome == ConcurrencyError(e, a) && streams == old(streams) && calls == old(calls)
              case Appended(updated) =>
                outcome == Stored && streams == updated &&
                calls == old(calls) + CallsForAll(events, handlers)
      ensures var before := StreamOf(old(streams), id);
              if |before| == expected then outcome == Stored && streams == old(streams)[id := before + events]
              else outcome == ConcurrencyError(expected, |before|) && streams == old(streams)
    {
      var current := StreamOf(streams, id);
      if |current| != expected {
        return ConcurrencyError(expected, |current|);
      }
      streams := streams[id := current + events];
      for i := 0 to |events|
        invariant streams == old(streams)[id := current + events]
        invariant calls == old(calls) + CallsForAll(events[..i], handlers)
      {
        ghost var before := calls;
        for j := 0 to |handlers|
          invariant streams == old(streams)[id := current + events]
          invariant calls == before + CallsFor(events[i], handlers)[..j]
        {
          calls := calls + [Call(handlers[j], events[i])];
        }
        assert events[..i + 1][..i] == events[..i];
      }
      assert events[..|events|] == events;
      return Stored;
    }

    method GetEvents(id: string, fromVersion: int) returns (events: seq<Event>)
      ensures events == Slice(StreamOf(streams, id), fromVersion)
      ensures fromVersion >= 0 ==>
                StreamOf(streams, id) == StreamOf(streams, id)[..Min(fromVersion, |StreamOf(streams, id)|)] + events
      ensures fromVersion < 0 ==>
                |events| == Min(-fromVersion, |StreamOf(streams, id)|) &&
                StreamOf(streams, id) == StreamOf(streams, id)[..|StreamOf(streams, id)| - |events|] + events
    {
      var stream := StreamOf(streams, id);
      return Slice(stream, fromVersion);
    }

    method Subscribe(h: Handler)
      modifies this`handlers
      ensures handlers == old(handlers) + [h]
    {
      handlers := handlers + [h];
    }

    /** The callback that `subscribe` returns: takes out the handler's first entry. */
    method Unsubscribe(h: Handler)
      modifies this`handlers
      ensures h !in old(handlers) ==> handlers == old(handlers)
      ensures h in old(handlers) ==>
        exists i :: 0 <= i < |old(handlers)| && old(handlers)[i] == h && h !in old(handlers)[..i] &&
                    handlers == old(handlers)[..i] + old(handlers)[i + 1..]
    {
      var index := IndexOf(handlers, h);
      IndexOfIsFirst(handlers, h);
      if index != -1 {
        handlers := handlers[..index] + handlers[index + 1..];
      }
    }
  }
}
