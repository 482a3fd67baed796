/** The messages that both event consumers read, and the bounded set of event ids that
    both keep against duplicates. */
module Envelopes {
  import opened Common

  /** `undefined` ids and types, as an empty message body yields, are None. */
  type EventId = Option<string>

  /** What `JSON.parse` makes of a message: an envelope, or an exception. */
  datatype Message = Garbled | Envelope(eventId: EventId, eventType: Option<string>)

  /** The bound on the set of processed ids. */
  const CAPACITY: nat := 10000

  predicate HasHandler(handlers: set<string>, message: Message) {
    message.Envelope? && message.eventType.Some? && message.eventType.value in handlers
  }

  /** `add` to the insertion-ordered set, then drop the first id when over the bound. */
  function Remember(processed: seq<EventId>, id: EventId): seq<EventId> {
    var grown := if id in processed then processed else processed + [id];
    if |grown| > CAPACITY then grown[1..] else grown
  }

  /** What a set bounded by `CAPACITY` still knows of a list of ids. */
  function LastIds(session: seq<EventId>): seq<EventId> {
    if |session| <= CAPACITY then session else session[|session| - CAPACITY..]
  }

  /** Ids handled at most `CAPACITY` places apart are different. */
  ghost predicate SpreadOut(session: seq<EventId>) {
    forall i, j :: 0 <= i < j < |session| && j - i <= CAPACITY ==> session[i] != session[j]
  }

  lemma RememberKeepsBounded(processed: seq<EventId>, session: seq<EventId>, id: EventId)
    requires SpreadOut(session) && processed == LastIds(session) && id !in processed
    ensures SpreadOut(session + [id]) && Remember(processed, id) == LastIds(session + [id])
  {
    var longer := session + [id];
    forall i, j | 0 <= i < j < |longer| && j - i <= CAPACITY ensures longer[i] != longer[j] {
      if j == |session| {
        if |session| > CAPACITY {
          assert session[i] == processed[i - (|session| - CAPACITY)];
        } else {
          assert session[i] == processed[i];
        }
      }
    }
  }

  // ------------------------------------------------------------------
  // Which ids are remembered
  // ------------------------------------------------------------------

  /** The ids in the order in which they entered the bounded set: an id handled again while
      the set still knows it does not enter again. */
  function Entered(handled: seq<EventId>): seq<EventId> {
    if handled == [] then []
    else
      var before, id := Entered(handled[..|handled| - 1]), handled[|handled| - 1];
      if id in LastIds(before) then before else before + [id]
  }

  /** At least `CAPACITY` different ids other than this one. */
  ghost predicate ManyOthers(ids: seq<EventId>, id: EventId) {
    |Elements(ids) - {id}| >= CAPACITY
  }

  /** The `p`-th id to enter did so at the handling `a`, and all that entered later were handled later. */
  ghost predicate EnteredAt(handled: seq<EventId>, p: nat, a: nat) {
    p < |Entered(handled)| && a < |handled| && handled[a] == Entered(handled)[p] &&
    forall q :: p < q < |Entered(handled)| ==> Entered(handled)[q] in handled[a + 1..]
  }

  lemma EnteredSnoc(handled: seq<EventId>, id: EventId)
    ensures Entered(handled + [id])
         == if id in LastIds(Entered(handled)) then Entered(handled) else Entered(handled) + [id]
  {
    assert (handled + [id])[..|handled|] == handled;
  }

  lemma {:induction false} EnteredIsSpreadOut(handled: seq<EventId>)
    ensures SpreadOut(Entered(handled))
    decreases |handled|
  {
    if handled != [] {
      var init, id := handled[..|handled| - 1], handled[|handled| - 1];
      EnteredIsSpreadOut(init);
      if id !in LastIds(Entered(init)) {
        RememberKeepsBounded(LastIds(Entered(init)), Entered(init), id);
      }
    }
  }

  lemma EnteredAtLater(handled: seq<EventId>, id: EventId, p: nat, a: nat)
    requires EnteredAt(handled, p, a)
    ensures EnteredAt(handled + [id], p, a)
  {
    EnteredSnoc(handled, id);
    hide LastIds, Entered;
    var later := handled[a + 1..];
    assert (handled + [id])[a + 1..] == later + [id];
    forall q | p < q < |Entered(handled + [id])| ensures Entered(handled + [id])[q] in later + [id] {
      if q < |Entered(handled)| {
        assert Entered(handled)[q] in later;
      } else {
        assert (later + [id])[|later|] == id;
      }
    }
  }

  lemma {:induction false} EnteredSomewhere(handled: seq<EventId>, p: nat) returns (a: nat)
    requires p < |Entered(handled)|
    ensures EnteredAt(handled, p, a) && a < |handled| && handled[a] == Entered(handled)[p]
    decreases |handled|
  {
    var init, id := handled[..|handled| - 1], handled[|handled| - 1];
    assert handled == init + [id];
    EnteredSnoc(init, id);
    if p < |Entered(init)| {
      a := EnteredSomewhere(init, p);
      EnteredAtLater(init, id, p, a);
    } else {
      a := |init|;
    }
  }

  /** The id at `p` is still known, or has been pushed out by that many others. */
  ghost predicate KnownOrPushedOut(handled: seq<EventId>, p: nat, a: nat) {
    EnteredAt(handled, p, a) && (|Entered(handled)| <= p + CAPACITY || ManyOthers(handled[a + 1..], handled[a]))
  }

  lemma MoreOthers(ids: seq<EventId>, more: EventId, id: EventId)
    requires ManyOthers(ids, id)
    ensures ManyOthers(ids + [more], id)
  {
    assert Elements(ids) - {id} <= Elements(ids + [more]) - {id};
    SubsetSize(Elements(ids) - {id}, Elements(ids + [more]) - {id});
  }

  lemma PushedOut(handled: seq<EventId>, p: nat, a: nat)
    requires EnteredAt(handled, p, a) && |Entered(handled)| > p + CAPACITY
    ensures ManyOthers(handled[a + 1..], handled[a])
  {
    EnteredIsSpreadOut(handled);
    hide Entered;
    var later := Entered(handled)[p + 1..p + 1 + CAPACITY];
    LaterAreOthers(handled, p, a);
    DistinctSize(later);
    hide EnteredAt, SpreadOut;
    SubsetSize(Elements(later), Elements(handled[a + 1..]) - {handled[a]});
  }

  lemma LaterAreOthers(handled: seq<EventId>, p: nat, a: nat)
    requires EnteredAt(handled, p, a) && |Entered(handled)| > p + CAPACITY && SpreadOut(Entered(handled))
    ensures var later := Entered(handled)[p + 1..p + 1 + CAPACITY];
            Distinct(later) && Elements(later) <= Elements(handled[a + 1..]) - {handled[a]}
  {
    hide Entered;
    var entered := Entered(handled);
    var later := entered[p + 1..p + 1 + CAPACITY];
    assert forall q :: 0 <= q < |later| ==> later[q] == entered[p + 1 + q];
    forall x | x in Elements(later) ensures x in Elements(handled[a + 1..]) - {handled[a]} {
      var q :| 0 <= q < |later| && later[q] == x;
      assert entered[p + 1 + q] == x;
    }
  }

  lemma OneMoreHandled(handled: seq<EventId>, id: EventId, p: nat, a: nat)
    requires KnownOrPushedOut(handled, p, a)
    ensures KnownOrPushedOut(handled + [id], p, a)
  {
    EnteredAtLater(handled, id, p, a);
    EnteredSnoc(handled, id);
    assert (handled + [id])[a + 1..] == handled[a + 1..] + [id];
    hide Entered, EnteredAt, ManyOthers;
    if |Entered(handled)| > p + CAPACITY {
      MoreOthers(handled[a + 1..], id, handled[a]);
    } else if |Entered(handled + [id])| > p + CAPACITY {
      PushedOut(handled + [id], p, a);
    }
  }

  lemma {:induction false} StaysKnownOrPushedOut(known: seq<EventId>, handled: seq<EventId>, p: nat, a: nat)
    requires known <= handled && KnownOrPushedOut(known, p, a) && a < |known|
    ensures KnownOrPushedOut(handled, p, a) && handled[a] == known[a]
    decreases |handled|
  {
    hide KnownOrPushedOut;
    if known != handled {
      var init, id := handled[..|handled| - 1], handled[|handled| - 1];
      StaysKnownOrPushedOut(known, init, p, a);
      assert handled == init + [id];
      OneMoreHandled(init, id, p, a);
    }
  }

  lemma LatestAreKnown(ids: seq<EventId>, p: nat)
    requires p < |ids| <= p + CAPACITY
    ensures ids[p] in LastIds(ids)
  {
    assert ids[p] == LastIds(ids)[p - (|ids| - |LastIds(ids)|)];
  }

  lemma KnownAfterHandling(handled: seq<EventId>, id: EventId) returns (p: nat)
    ensures p < |Entered(handled + [id])| <= p + CAPACITY && Entered(handled + [id])[p] == id
  {
    EnteredSnoc(handled, id);
    var entered := Entered(handled);
    hide Entered;
    if id in LastIds(entered) {
      var i :| 0 <= i < |LastIds(entered)| && LastIds(entered)[i] == id;
      p := |entered| - |LastIds(entered)| + i;
    } else {
      p := |entered|;
    }
  }

  /** However an id was handled, at some handling of it up to that one it was new, and once the
      set no longer knows it, `CAPACITY` different other ids have been handled after that. */
  lemma ForgottenAfter(before: seq<EventId>, id: EventId, handled: seq<EventId>) returns (a: nat)
    requires before + [id] <= handled && id !in LastIds(Entered(handled))
    ensures a <= |before| && handled[a] == id && ManyOthers(handled[a + 1..], id)
  {
    var known := before + [id];
    hide *;
    var p := KnownAfterHandling(before, id);
    a := EnteredSomewhere(known, p);
    StillKnown(known, p, a);
    StaysKnownOrPushedOut(known, handled, p, a);
    PushedOutUnlessKnown(handled, p, a);
  }

  lemma StillKnown(handled: seq<EventId>, p: nat, a: nat)
    requires EnteredAt(handled, p, a) && |Entered(handled)| <= p + CAPACITY
    ensures KnownOrPushedOut(handled, p, a)
  {
  }

  lemma PushedOutUnlessKnown(handled: seq<EventId>, p: nat, a: nat)
    requires a < |handled| && KnownOrPushedOut(handled, p, a) && handled[a] !in LastIds(Entered(handled))
    ensures ManyOthers(handled[a + 1..], handled[a])
  {
    hide Entered, LastIds, ManyOthers;
    if |Entered(handled)| <= p + CAPACITY {
      LatestAreKnown(Entered(handled), p);
    }
  }
}
