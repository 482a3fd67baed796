/** The Kafka event consumer with manual offset commits: deduplication by event id,
    the bounded set of processed ids, and the offset that is committed only once a
    message is done with. The broker's part is a log that grows, a committed offset per
    partition and an owner per partition; handlers fail, commits fail, members crash
    and partitions move at any time, also while a handler runs. */
module KafkaConsumers {
  import opened Common
  import opened Envelopes

  datatype Arrival = Throws | Passes | Calls

  /** What `handleMessage` does before its first await. */
  function Arrive(processed: seq<EventId>, handlers: set<string>, message: Message): Arrival {
    if message.Garbled? then Throws
    else if message.eventId in processed || !HasHandler(handlers, message) then Passes
    else Calls
  }

  // ------------------------------------------------------------------
  // The consumer group as a step system
  // ------------------------------------------------------------------

  /** Where a member is in `handleMessage`: between messages, awaiting the handler, or
      awaiting the commit. The epoch is that of the assignment the message came with. */
  datatype Phase =
    | Idle
    | Calling(partition: nat, offset: nat, epoch: nat)
    | Committing(partition: nat, offset: nat, epoch: nat)

  /** A group member between restarts; `session` lists the ids it has handled since it started. */
  datatype Member = Member(processed: seq<EventId>, session: seq<EventId>, phase: Phase)

  const FRESH := Member([], [], Idle)

  datatype Handling = Handling(partition: nat, offset: nat, id: EventId)

  /** `produced` is how much of each log has been written so far, and `first` the offset of
      the first message that was committed in each partition. */
  datatype State = State(
    produced: map<nat, nat>,
    committed: map<nat, nat>, first: map<nat, nat>, position: map<nat, nat>,
    owner: map<nat, nat>, epoch: map<nat, nat>,
    members: map<nat, Member>,
    done: seq<Handling>)  // every successful handler call so far

  const START := State(map[], map[], map[], map[], map[], map[], map[], [])

  /** The setting of a run: what is ever written to the partitions, the subscribed event
      types, and the `fromBeginning` option, which is false by default. */
  datatype Setting = Setting(log: seq<seq<Message>>, handlers: set<string>, fromBeginning: bool)

  datatype Step =
    | Produce(p: nat)
    | Deliver(m: nat, p: nat)
    | HandlerEnds(m: nat, ok: bool)
    | CommitEnds(m: nat, ok: bool)
    | Restart(m: nat)         // a crash, or stop followed by start
    | Assign(p: nat, m: nat)  // a rebalance
    | Rewind(p: nat, o: nat)  // redelivery from an earlier offset

  function At(m: map<nat, nat>, p: nat): nat {
    if p in m then m[p] else 0
  }

  /** Where an assignment begins: at the committed offset, and without one at the start of
      the log or at its present end. */
  function StartingPoint(c: Setting, s: State, p: nat): nat {
    if p in s.committed then s.committed[p] else if c.fromBeginning then 0 else At(s.produced, p)
  }

  predicate CanDeliver(c: Setting, s: State, m: nat, p: nat) {
    m in s.members && s.members[m].phase.Idle? && p in s.owner && s.owner[p] == m &&
    p < |c.log| && At(s.position, p) < At(s.produced, p) <= |c.log[p]|
  }

  function DoDeliver(c: Setting, s: State, m: nat, p: nat): State
    requires CanDeliver(c, s, m, p)
  {
    var o, epoch := At(s.position, p), At(s.epoch, p);
    var member := s.members[m];
    match Arrive(member.processed, c.handlers, c.log[p][o])
    case Throws => s
    case Passes => s.(members := s.members[m := member.(phase := Committing(p, o, epoch))])
    case Calls => s.(members := s.members[m := member.(phase := Calling(p, o, epoch))])
  }

  predicate IsCalling(c: Setting, s: State, m: nat) {
    m in s.members && s.members[m].phase.Calling? &&
    s.members[m].phase.partition < |c.log| && s.members[m].phase.offset < |c.log[s.members[m].phase.partition]| &&
    c.log[s.members[m].phase.partition][s.members[m].phase.offset].Envelope?
  }

  function AfterHandler(member: Member, id: EventId): Member
    requires member.phase.Calling?
  {
    Member(Remember(member.processed, id), member.session + [id],
           Committing(member.phase.partition, member.phase.offset, member.phase.epoch))
  }

  function DoHandler(c: Setting, s: State, m: nat, ok: bool): State
    requires IsCalling(c, s, m)
  {
    var member := s.members[m];
    var phase := member.phase;
    var id := c.log[phase.partition][phase.offset].eventId;
    if ok then
      s.(members := s.members[m := AfterHandler(member, id)],
         done := s.done + [Handling(phase.partition, phase.offset, id)])
    else s.(members := s.members[m := member.(phase := Idle)])
  }

  predicate IsCommitting(s: State, m: nat) {
    m in s.members && s.members[m].phase.Committing?
  }

  /** The broker takes a commit only from the partition's current assignment. */
  function DoCommit(s: State, m: nat, ok: bool): State
    requires IsCommitting(s, m)
  {
    var phase := s.members[m].phase;
    var p, o := phase.partition, phase.offset;
    var s' := s.(members := s.members[m := s.members[m].(phase := Idle)]);
    if ok && At(s.epoch, p) == phase.epoch then
      s'.(committed := s.committed[p := o + 1], position := s.position[p := o + 1],
          first := if p in s.first then s.first else s.first[p := o])
    else s'
  }

  function Next(c: Setting, s: State, step: Step): State {
    match step
    case Produce(p) =>
      if p < |c.log| && At(s.produced, p) < |c.log[p]|
      then s.(produced := s.produced[p := At(s.produced, p) + 1]) else s
    case Deliver(m, p) => if CanDeliver(c, s, m, p) then DoDeliver(c, s, m, p) else s
    case HandlerEnds(m, ok) => if IsCalling(c, s, m) then DoHandler(c, s, m, ok) else s
    case CommitEnds(m, ok) => if IsCommitting(s, m) then DoCommit(s, m, ok) else s
    case Restart(m) =>
      s.(members := s.members[m := FRESH], owner := map p | p in s.owner && s.owner[p] != m :: s.owner[p])
    case Assign(p, m) =>
      s.(owner := s.owner[p := m], epoch := s.epoch[p := At(s.epoch, p) + 1],
         position := s.position[p := StartingPoint(c, s, p)])
    case Rewind(p, o) =>
      if o <= At(s.position, p) then s.(position := s.position[p := o]) else s
  }

  function Run(c: Setting, s: State, steps: seq<Step>): State {
    if steps == [] then s else Next(c, Run(c, s, steps[..|steps| - 1]), steps[|steps| - 1])
  }

  // ------------------------------------------------------------------
  // At least once
  // ------------------------------------------------------------------

  ghost predicate Handled(done: seq<Handling>, id: EventId) {
    exists k :: 0 <= k < |done| && done[k].id == id
  }

  /** The message needs nothing more: it has no handler, or its event id was handled. */
  ghost predicate Settled(c: Setting, done: seq<Handling>, p: nat, o: nat) {
    p < |c.log| && o < |c.log[p]| && c.log[p][o].Envelope? &&
    (!HasHandler(c.handlers, c.log[p][o]) || Handled(done, c.log[p][o].eventId))
  }

  ghost predicate ProcessedInv(done: seq<Handling>, processed: seq<EventId>) {
    forall i :: 0 <= i < |processed| ==> Handled(done, processed[i])
  }

  /** What a member awaits: the handler of a message it has not processed, or the commit
      of one that is settled. */
  ghost predicate AwaitsInv(c: Setting, done: seq<Handling>, processed: seq<EventId>, phase: Phase) {
    match phase
    case Idle => true
    case Calling(p, o, _) =>
      p < |c.log| && o < |c.log[p]| && Arrive(processed, c.handlers, c.log[p][o]) == Calls
    case Committing(p, o, _) => Settled(c, done, p, o)
  }

  ghost predicate MemberInv(c: Setting, done: seq<Handling>, member: Member) {
    ProcessedInv(done, member.processed) && AwaitsInv(c, done, member.processed, member.phase)
  }

  /** A message whose commit the broker would still take belongs to the partition's owner
      and does not skip an offset. */
  ghost predicate PhaseInv(c: Setting, s: State, m: nat)
    requires m in s.members
  {
    var phase := s.members[m].phase;
    !phase.Idle? ==>
      phase.epoch <= At(s.epoch, phase.partition) &&
      (phase.epoch == At(s.epoch, phase.partition) ==>
         phase.partition in s.owner && s.owner[phase.partition] == m &&
         NoSkip(c, s, phase.partition, phase.offset))
  }

  ghost predicate NoSkip(c: Setting, s: State, p: nat, o: nat) {
    if p in s.committed then o <= s.committed[p] else c.fromBeginning ==> o == 0
  }

  ghost predicate OffsetsInv(c: Setting, s: State) {
    s.first.Keys == s.committed.Keys &&
    (forall p :: NoSkip(c, s, p, At(s.position, p))) &&
    (forall p :: p in s.first && c.fromBeginning ==> s.first[p] == 0) &&
    (forall p :: p in s.first ==> Settled(c, s.done, p, s.first[p])) &&
    (forall p, o :: p in s.committed && s.first[p] <= o < s.committed[p] ==> Settled(c, s.done, p, o))
  }

  ghost predicate DoneInv(c: Setting, done: seq<Handling>) {
    forall k :: 0 <= k < |done| ==>
      done[k].partition < |c.log| && done[k].offset < |c.log[done[k].partition]| &&
      c.log[done[k].partition][done[k].offset].Envelope? &&
      c.log[done[k].partition][done[k].offset].eventId == done[k].id
  }

  ghost predicate Inv(c: Setting, s: State) {
    OffsetsInv(c, s) && DoneInv(c, s.done) &&
    (forall m :: m in s.members ==> MemberInv(c, s.done, s.members[m])) &&
    (forall m :: m in s.members ==> Bounded(s.members[m])) &&
    (forall m :: m in s.members ==> PhaseInv(c, s, m))
  }

  // ------------------------------------------------------------------
  // The bounded set
  // ------------------------------------------------------------------

  ghost predicate Bounded(member: Member) {
    SpreadOut(member.session) && member.processed == LastIds(member.session)
  }

  // ------------------------------------------------------------------
  // Every step keeps the invariant
  // ------------------------------------------------------------------

  lemma MoreDoneKeepsSettled(c: Setting, done: seq<Handling>, h: Handling)
    ensures forall id :: Handled(done, id) ==> Handled(done + [h], id)
    ensures Handled(done + [h], h.id)
    ensures forall p, o :: Settled(c, done, p, o) ==> Settled(c, done + [h], p, o)
  {
    forall id | Handled(done, id) ensures Handled(done + [h], id) {
      var k :| 0 <= k < |done| && done[k].id == id;
      assert (done + [h])[k].id == id;
    }
    assert (done + [h])[|done|].id == h.id;
  }

  lemma RememberKeepsHandled(done: seq<Handling>, processed: seq<EventId>, id: EventId)
    requires ProcessedInv(done, processed) && Handled(done, id)
    ensures ProcessedInv(done, Remember(processed, id))
  {
    hide Handled;
    var grown := processed + [id];
    forall i | 0 <= i < |Remember(processed, id)| ensures Handled(done, Remember(processed, id)[i]) {
      assert Remember(processed, id)[i] in grown;
    }
  }

  lemma MoreDoneKeepsMember(c: Setting, done: seq<Handling>, h: Handling, member: Member)
    requires MemberInv(c, done, member)
    ensures MemberInv(c, done + [h], member)
  {
    MoreDoneKeepsSettled(c, done, h);
    hide Handled, Settled;
  }

  lemma MoreDoneKeepsDone(c: Setting, done: seq<Handling>, p: nat, o: nat)
    requires DoneInv(c, done) && p < |c.log| && o < |c.log[p]| && c.log[p][o].Envelope?
    ensures DoneInv(c, done + [Handling(p, o, c.log[p][o].eventId)])
  {
  }

  /** One member moves on while offsets, epochs and owners stay. */
  lemma MemberMoves(c: Setting, s: State, m: nat, member: Member)
    requires Inv(c, s) && MemberInv(c, s.done, member) && Bounded(member)
    requires PhaseInv(c, s.(members := s.members[m := member]), m)
    ensures Inv(c, s.(members := s.members[m := member]))
  {
    hide MemberInv, Bounded, DoneInv, Settled;
    var after := s.(members := s.members[m := member]);
    forall n | n in after.members
      ensures MemberInv(c, after.done, after.members[n]) && Bounded(after.members[n]) && PhaseInv(c, after, n)
    {
      assert n != m ==> n in s.members && PhaseInv(c, s, n) && Bounded(s.members[n]) &&
                        MemberInv(c, s.done, s.members[n]);
    }
    assert OffsetsInv(c, after);
  }

  lemma DeliverKeepsInv(c: Setting, s: State, m: nat, p: nat)
    requires Inv(c, s) && CanDeliver(c, s, m, p)
    ensures Inv(c, DoDeliver(c, s, m, p))
  {
    var member := s.members[m];
    var o := At(s.position, p);
    assert MemberInv(c, s.done, member) && Bounded(member) && NoSkip(c, s, p, o);
    if Arrive(member.processed, c.handlers, c.log[p][o]) != Throws {
      var after := DoDeliver(c, s, m, p);
      PassedIsSettled(c, s.done, member, p, o);
      hide Handled, Settled, DoneInv, Inv, OffsetsInv, Bounded, ProcessedInv;
      assert Bounded(after.members[m]) by { BoundedIgnoresPhase(member, after.members[m].phase); }
      assert NoSkip(c, after, p, o);
      MemberMoves(c, s, m, after.members[m]);
    }
  }

  lemma BoundedIgnoresPhase(member: Member, phase: Phase)
    requires Bounded(member)
    ensures Bounded(member.(phase := phase))
  {
  }

  lemma PassedIsSettled(c: Setting, done: seq<Handling>, member: Member, p: nat, o: nat)
    requires ProcessedInv(done, member.processed) && p < |c.log| && o < |c.log[p]|
    ensures Arrive(member.processed, c.handlers, c.log[p][o]) == Passes ==> Settled(c, done, p, o)
  {
    hide Handled;
  }

  lemma MoreDoneKeepsOffsets(c: Setting, s: State, h: Handling)
    requires OffsetsInv(c, s)
    ensures OffsetsInv(c, s.(done := s.done + [h]))
  {
    MoreDoneKeepsSettled(c, s.done, h);
    hide Handled, Settled;
  }

  lemma MoreDoneKeepsInv(c: Setting, s: State, p: nat, o: nat)
    requires Inv(c, s) && p < |c.log| && o < |c.log[p]| && c.log[p][o].Envelope?
    ensures Inv(c, s.(done := s.done + [Handling(p, o, c.log[p][o].eventId)]))
  {
    var h := Handling(p, o, c.log[p][o].eventId);
    var after := s.(done := s.done + [h]);
    MoreDoneKeepsOffsets(c, s, h);
    MoreDoneKeepsDone(c, s.done, p, o);
    hide OffsetsInv, DoneInv, Bounded, MemberInv, PhaseInv;
    forall n | n in after.members
      ensures MemberInv(c, after.done, after.members[n]) && PhaseInv(c, after, n)
    {
      MoreDoneKeepsMember(c, s.done, h, s.members[n]);
      assert PhaseInv(c, s, n);
      DoneDoesNotMatter(c, s, after.done, n);
    }
  }

  lemma DoneDoesNotMatter(c: Setting, s: State, done: seq<Handling>, n: nat)
    requires n in s.members && PhaseInv(c, s, n)
    ensures PhaseInv(c, s.(done := done), n)
  {
  }

  lemma HandledMemberInv(c: Setting, s: State, m: nat)
    requires Inv(c, s) && IsCalling(c, s, m)
    ensures var member := s.members[m];
            var phase := member.phase;
            var id := c.log[phase.partition][phase.offset].eventId;
            MemberInv(c, s.done + [Handling(phase.partition, phase.offset, id)], AfterHandler(member, id)) &&
            Bounded(AfterHandler(member, id))
  {
    var member := s.members[m];
    var phase := member.phase;
    var id := c.log[phase.partition][phase.offset].eventId;
    assert MemberInv(c, s.done, member) && Bounded(member);
    MoreDoneKeepsSettled(c, s.done, Handling(phase.partition, phase.offset, id));
    MoreDoneKeepsMember(c, s.done, Handling(phase.partition, phase.offset, id), member);
    hide Inv, SpreadOut, LastIds, Handled;
    RememberKeepsHandled(s.done + [Handling(phase.partition, phase.offset, id)], member.processed, id);
    RememberKeepsBounded(member.processed, member.session, id);
  }

  lemma HandlerKeepsInv(c: Setting, s: State, m: nat, ok: bool)
    requires Inv(c, s) && IsCalling(c, s, m)
    ensures Inv(c, DoHandler(c, s, m, ok))
  {
    var member := s.members[m];
    var phase := member.phase;
    assert MemberInv(c, s.done, member) && Bounded(member) && PhaseInv(c, s, m);
    if ok {
      var id := c.log[phase.partition][phase.offset].eventId;
      HandledMemberInv(c, s, m);
      MoreDoneKeepsInv(c, s, phase.partition, phase.offset);
      var more := s.(done := s.done + [Handling(phase.partition, phase.offset, id)]);
      hide Inv, MemberInv, Bounded;
      MemberMoves(c, more, m, AfterHandler(member, id));
    } else {
      hide Inv, ProcessedInv;
      BoundedIgnoresPhase(member, Idle);
      MemberMoves(c, s, m, member.(phase := Idle));
    }
  }

  lemma CommitKeepsSettled(c: Setting, s: State, m: nat)
    requires OffsetsInv(c, s) && IsCommitting(s, m) && PhaseInv(c, s, m)
    requires Settled(c, s.done, s.members[m].phase.partition, s.members[m].phase.offset)
    requires At(s.epoch, s.members[m].phase.partition) == s.members[m].phase.epoch
    ensures var after := DoCommit(s, m, true);
            (forall p :: p in after.first ==> Settled(c, after.done, p, after.first[p])) &&
            forall p, o :: p in after.committed && after.first[p] <= o < after.committed[p] ==>
              Settled(c, after.done, p, o)
  {
    hide Settled, At;
    var after := DoCommit(s, m, true);
    var phase := s.members[m].phase;
    forall p, o | p in after.committed && after.first[p] <= o < after.committed[p]
      ensures Settled(c, after.done, p, o)
    {
      if p == phase.partition && o == phase.offset {
        assert Settled(c, s.done, phase.partition, phase.offset);
      }
    }
  }

  lemma CommitKeepsNoSkip(c: Setting, s: State, m: nat)
    requires OffsetsInv(c, s) && IsCommitting(s, m) && PhaseInv(c, s, m)
    requires At(s.epoch, s.members[m].phase.partition) == s.members[m].phase.epoch
    ensures var after := DoCommit(s, m, true);
            (forall p :: NoSkip(c, after, p, At(after.position, p))) && after.first.Keys == after.committed.Keys &&
            forall p :: p in after.first && c.fromBeginning ==> after.first[p] == 0
  {
    hide Settled;
    var after := DoCommit(s, m, true);
    forall p ensures NoSkip(c, after, p, At(after.position, p)) {
      assert NoSkip(c, s, p, At(s.position, p));
    }
  }

  lemma CommitKeepsOffsets(c: Setting, s: State, m: nat)
    requires Inv(c, s) && IsCommitting(s, m)
    requires At(s.epoch, s.members[m].phase.partition) == s.members[m].phase.epoch
    ensures OffsetsInv(c, DoCommit(s, m, true))
  {
    assert MemberInv(c, s.done, s.members[m]) && PhaseInv(c, s, m);
    CommitKeepsSettled(c, s, m);
    CommitKeepsNoSkip(c, s, m);
    hide Settled, Handled, Bounded, DoneInv, ProcessedInv, DoCommit, NoSkip, At, Inv;
  }

  lemma CommitKeepsPhases(c: Setting, s: State, m: nat, ok: bool)
    requires Inv(c, s) && IsCommitting(s, m)
    ensures forall n :: n in s.members ==> PhaseInv(c, DoCommit(s, m, ok), n)
  {
    hide MemberInv, Bounded, DoneInv, OffsetsInv;
    forall n | n in s.members ensures PhaseInv(c, DoCommit(s, m, ok), n) {
      assert PhaseInv(c, s, n) && PhaseInv(c, s, m);
    }
  }

  lemma CommitKeepsInv(c: Setting, s: State, m: nat, ok: bool)
    requires Inv(c, s) && IsCommitting(s, m)
    ensures Inv(c, DoCommit(s, m, ok))
  {
    var member := s.members[m];
    assert MemberInv(c, s.done, member) && Bounded(member);
    BoundedIgnoresPhase(member, Idle);
    CommitKeepsPhases(c, s, m, ok);
    var after := DoCommit(s, m, ok);
    hide DoneInv, PhaseInv, Bounded, ProcessedInv, Settled;
    if ok && At(s.epoch, member.phase.partition) == member.phase.epoch {
      CommitKeepsOffsets(c, s, m);
      hide OffsetsInv, At;
      forall n | n in after.members ensures MemberInv(c, after.done, after.members[n]) && Bounded(after.members[n]) {
        assert n != m ==> MemberInv(c, s.done, s.members[n]) && Bounded(s.members[n]);
      }
    } else {
      MemberMoves(c, s, m, member.(phase := Idle));
    }
  }

  lemma RestartKeepsInv(c: Setting, s: State, m: nat)
    requires Inv(c, s)
    ensures Inv(c, Next(c, s, Restart(m)))
  {
    hide DoneInv, Settled, Handled;
    var after := Next(c, s, Restart(m));
    assert OffsetsInv(c, after);
    forall n | n in after.members
      ensures PhaseInv(c, after, n) && Bounded(after.members[n]) && MemberInv(c, after.done, after.members[n])
    {
      assert n != m ==> n in s.members && PhaseInv(c, s, n) && Bounded(s.members[n]) &&
                        MemberInv(c, s.done, s.members[n]);
    }
  }

  lemma AssignKeepsInv(c: Setting, s: State, p: nat, m: nat)
    requires Inv(c, s)
    ensures Inv(c, Next(c, s, Assign(p, m)))
  {
    hide DoneInv, Settled, Handled, Bounded, MemberInv;
    var after := Next(c, s, Assign(p, m));
    forall q ensures NoSkip(c, after, q, At(after.position, q)) {
      assert NoSkip(c, s, q, At(s.position, q));
    }
    assert OffsetsInv(c, after);
    forall n | n in after.members ensures PhaseInv(c, after, n) {
      assert PhaseInv(c, s, n);
    }
  }

  lemma RewindKeepsInv(c: Setting, s: State, p: nat, o: nat)
    requires Inv(c, s)
    ensures Inv(c, Next(c, s, Rewind(p, o)))
  {
    hide DoneInv, Settled, Handled, Bounded, MemberInv;
    var after := Next(c, s, Rewind(p, o));
    forall q ensures NoSkip(c, after, q, At(after.position, q)) {
      assert NoSkip(c, s, q, At(s.position, q));
    }
    assert OffsetsInv(c, after);
    forall n | n in after.members ensures PhaseInv(c, after, n) {
      assert PhaseInv(c, s, n);
    }
  }

  lemma ProduceKeepsInv(c: Setting, s: State, p: nat)
    requires Inv(c, s)
    ensures Inv(c, Next(c, s, Produce(p)))
  {
    hide DoneInv, Settled, Bounded, MemberInv;
    var after := Next(c, s, Produce(p));
    assert forall q :: NoSkip(c, s, q, At(s.position, q)) ==> NoSkip(c, after, q, At(after.position, q));
    assert OffsetsInv(c, after);
    forall n | n in after.members ensures PhaseInv(c, after, n) {
      assert PhaseInv(c, s, n);
    }
  }

  lemma NextKeepsInv(c: Setting, s: State, step: Step)
    requires Inv(c, s)
    ensures Inv(c, Next(c, s, step))
  {
    hide Inv, DoDeliver, DoHandler, DoCommit;
    match step
    case Deliver(m, p) => if CanDeliver(c, s, m, p) { DeliverKeepsInv(c, s, m, p); }
    case HandlerEnds(m, ok) => if IsCalling(c, s, m) { HandlerKeepsInv(c, s, m, ok); }
    case CommitEnds(m, ok) => if IsCommitting(s, m) { CommitKeepsInv(c, s, m, ok); }
    case Restart(m) => RestartKeepsInv(c, s, m);
    case Assign(p, m) => AssignKeepsInv(c, s, p, m);
    case Rewind(p, o) => RewindKeepsInv(c, s, p, o);
    case Produce(p) => ProduceKeepsInv(c, s, p);
  }

  lemma {:induction false} RunKeepsInv(c: Setting, steps: seq<Step>)
    ensures Inv(c, Run(c, START, steps))
    decreases |steps|
  {
    if steps != [] {
      hide Inv, Next;
      RunKeepsInv(c, steps[..|steps| - 1]);
      NextKeepsInv(c, Run(c, START, steps[..|steps| - 1]), steps[|steps| - 1]);
    }
  }

  // ------------------------------------------------------------------
  // The guarantees
  // ------------------------------------------------------------------

  /** Over every run, each offset from the first committed one up to the committed one was
      a readable message that has no handler or whose event id was handled successfully. */
  lemma CommittedMeansSettled(c: Setting, steps: seq<Step>, p: nat, o: nat)
    requires var s := Run(c, START, steps);
             p in s.committed && (c.fromBeginning || At(s.first, p) <= o) && o < s.committed[p]
    ensures Settled(c, Run(c, START, steps).done, p, o)
  {
    RunKeepsInv(c, steps);
    hide Settled;
  }

  ghost predicate LosesNothing(c: Setting, s: State) {
    forall p, o :: p in s.committed && 0 <= o < s.committed[p] ==> Settled(c, s.done, p, o)
  }

  /** A later message can be committed without the earlier one being settled: the earlier
      one cannot be read, or has a handler and another event id than a handled later one. */
  predicate CanBePassed(c: Setting, p: nat, o: nat, later: nat) {
    p < |c.log| && o < later < |c.log[p]| && c.log[p][later].Envelope? &&
    (c.log[p][o].Garbled? ||
     (HasHandler(c.handlers, c.log[p][o]) &&
      !(HasHandler(c.handlers, c.log[p][later]) && c.log[p][later].eventId == c.log[p][o].eventId)))
  }

  lemma NothingToPass(c: Setting, steps: seq<Step>)
    requires c.fromBeginning || forall p, o, later :: !CanBePassed(c, p, o, later)
    ensures LosesNothing(c, Run(c, START, steps))
  {
    RunKeepsInv(c, steps);
    var s := Run(c, START, steps);
    forall p, o | p in s.committed && 0 <= o < s.committed[p] ensures Settled(c, s.done, p, o) {
      if c.fromBeginning || s.first[p] <= o {
        CommittedMeansSettled(c, steps, p, o);
      } else {
        assert Settled(c, s.done, p, s.first[p]);
        assert !CanBePassed(c, p, o, s.first[p]);
      }
    }
  }

  function Produces(p: nat, n: nat): seq<Step> {
    seq(n, i => Produce(p))
  }

  lemma RunSnoc(c: Setting, steps: seq<Step>, last: Step)
    ensures Run(c, START, steps + [last]) == Next(c, Run(c, START, steps), last)
  {
    assert (steps + [last])[..|steps|] == steps;
  }

  /** The group is there and the partition assigned before anything is written. */
  function Opening(p: nat, n: nat): seq<Step> {
    [Restart(0), Assign(p, 0)] + Produces(p, n)
  }

  lemma {:induction false} OpeningState(c: Setting, p: nat, n: nat)
    requires p < |c.log| && n <= |c.log[p]|
    ensures var s := Run(c, START, Opening(p, n));
            At(s.produced, p) == n && s.committed == map[] && s.first == map[] && s.done == []
    decreases n
  {
    if n == 0 {
      assert Opening(p, 0) == ([] + [Restart(0)]) + [Assign(p, 0)];
      RunSnoc(c, [], Restart(0));
      RunSnoc(c, [] + [Restart(0)], Assign(p, 0));
    } else {
      OpeningState(c, p, n - 1);
      assert Opening(p, n) == Opening(p, n - 1) + [Produce(p)];
      RunSnoc(c, Opening(p, n - 1), Produce(p));
    }
  }

  /** The member restarts before anything was committed, and goes on at the end of the log. */
  function Reopening(p: nat, n: nat): seq<Step> {
    Opening(p, n) + [Restart(0)] + [Assign(p, 0)] + [Produce(p)] + [Deliver(0, p)]
  }

  lemma RestartedState(c: Setting, p: nat, n: nat)
    requires p < |c.log| && n < |c.log[p]| && !c.fromBeginning
    ensures var s := Run(c, START, Opening(p, n) + [Restart(0)] + [Assign(p, 0)]);
            s.committed == map[] && s.first == map[] && s.done == [] && 0 in s.members && s.members[0] == FRESH &&
            At(s.position, p) == At(s.produced, p) == n && p in s.owner && s.owner[p] == 0
  {
    OpeningState(c, p, n);
    RunSnoc(c, Opening(p, n), Restart(0));
    RunSnoc(c, Opening(p, n) + [Restart(0)], Assign(p, 0));
    hide Run;
    var s1 := Next(c, Run(c, START, Opening(p, n)), Restart(0));
    assert s1.members[0] == FRESH && At(s1.produced, p) == n;
  }

  lemma ReopeningState(c: Setting, p: nat, n: nat)
    requires p < |c.log| && n < |c.log[p]| && !c.fromBeginning && c.log[p][n].Envelope?
    ensures var s := Run(c, START, Reopening(p, n));
            s.committed == map[] && s.first == map[] && s.done == [] && 0 in s.members &&
            s.members[0].phase == if HasHandler(c.handlers, c.log[p][n]) then Calling(p, n, At(s.epoch, p))
                                  else Committing(p, n, At(s.epoch, p))
  {
    RestartedState(c, p, n);
    var restarted := Opening(p, n) + [Restart(0)] + [Assign(p, 0)];
    RunSnoc(c, restarted, Produce(p));
    RunSnoc(c, restarted + [Produce(p)], Deliver(0, p));
    hide Run, Opening, Produces;
    var s3 := Next(c, Run(c, START, restarted), Produce(p));
    assert At(s3.produced, p) == n + 1 && CanDeliver(c, s3, 0, p);
  }

  function LosingRun(c: Setting, p: nat, later: nat): seq<Step>
    requires p < |c.log| && later < |c.log[p]|
  {
    (if HasHandler(c.handlers, c.log[p][later]) then Reopening(p, later) + [HandlerEnds(0, true)]
     else Reopening(p, later)) + [CommitEnds(0, true)]
  }

  lemma PassedIsNotSettled(c: Setting, p: nat, o: nat, later: nat)
    requires CanBePassed(c, p, o, later)
    ensures var h := Handling(p, later, c.log[p][later].eventId);
            !Settled(c, if HasHandler(c.handlers, c.log[p][later]) then [h] else [], p, o)
  {
  }

  /** The rest of the run, from a member that has the later message at hand. */
  lemma Finishing(c: Setting, s: State, p: nat, later: nat)
    requires p < |c.log| && later < |c.log[p]| && c.log[p][later].Envelope?
    requires s.committed == map[] && s.first == map[] && s.done == [] && 0 in s.members
    requires s.members[0].phase == if HasHandler(c.handlers, c.log[p][later]) then Calling(p, later, At(s.epoch, p))
                                   else Committing(p, later, At(s.epoch, p))
    ensures var handled := if HasHandler(c.handlers, c.log[p][later]) then Next(c, s, HandlerEnds(0, true)) else s;
            var after := Next(c, handled, CommitEnds(0, true));
            p in after.committed && after.committed[p] == later + 1 &&
            after.done == if HasHandler(c.handlers, c.log[p][later])
                          then [Handling(p, later, c.log[p][later].eventId)] else []
  {
    hide HasHandler, Remember;
    if HasHandler(c.handlers, c.log[p][later]) {
      var handled := Next(c, s, HandlerEnds(0, true));
      assert handled.done == [Handling(p, later, c.log[p][later].eventId)] && handled.committed == map[];
      assert 0 in handled.members && handled.members[0].phase == Committing(p, later, At(s.epoch, p));
      assert At(handled.epoch, p) == At(s.epoch, p);
    }
  }

  /** With the default start a message written before the first commit can be passed by. */
  lemma DefaultStartPassesMessages(c: Setting, p: nat, o: nat, later: nat)
    requires !c.fromBeginning && CanBePassed(c, p, o, later)
    ensures var s := Run(c, START, LosingRun(c, p, later));
            p in s.committed && o < s.committed[p] && !Settled(c, s.done, p, o)
  {
    ReopeningState(c, p, later);
    PassedIsNotSettled(c, p, o, later);
    Finishing(c, Run(c, START, Reopening(p, later)), p, later);
    hide Run, Reopening, Settled, HasHandler, Next;
    if HasHandler(c.handlers, c.log[p][later]) {
      RunSnoc(c, Reopening(p, later), HandlerEnds(0, true));
      RunSnoc(c, Reopening(p, later) + [HandlerEnds(0, true)], CommitEnds(0, true));
    } else {
      RunSnoc(c, Reopening(p, later), CommitEnds(0, true));
    }
  }

  /** Every message below the committed offset is settled in all runs exactly when the
      consumer starts from the beginning or the logs hold no message that can be passed. */
  lemma NothingIsLostExactlyWhen(c: Setting)
    ensures (forall steps :: LosesNothing(c, Run(c, START, steps)))
       <==> c.fromBeginning || forall p, o, later :: !CanBePassed(c, p, o, later)
  {
    if c.fromBeginning || forall p, o, later :: !CanBePassed(c, p, o, later) {
      forall steps ensures LosesNothing(c, Run(c, START, steps)) {
        NothingToPass(c, steps);
      }
    } else {
      var p, o, later :| CanBePassed(c, p, o, later);
      DefaultStartPassesMessages(c, p, o, later);
      assert !LosesNothing(c, Run(c, START, LosingRun(c, p, later)));
    }
  }

  /** A message that cannot be parsed is never passed once its partition was first
      committed at or before it, and with `fromBeginning` never at all. */
  lemma GarbledMessageBlocksItsPartition(c: Setting, steps: seq<Step>, p: nat, o: nat)
    requires p < |c.log| && o < |c.log[p]| && c.log[p][o].Garbled?
    requires c.fromBeginning || At(Run(c, START, steps).first, p) <= o
    ensures At(Run(c, START, steps).committed, p) <= o
  {
    if o < At(Run(c, START, steps).committed, p) {
      CommittedMeansSettled(c, steps, p, o);
    }
  }

  ghost predicate IdsAreUnique(c: Setting) {
    forall p, o, p', o' ::
      (0 <= p < |c.log| && 0 <= o < |c.log[p]| && 0 <= p' < |c.log| && 0 <= o' < |c.log[p']| &&
       c.log[p][o].Envelope? && c.log[p'][o'].Envelope? && c.log[p][o].eventId == c.log[p'][o'].eventId)
      ==> p == p' && o == o'
  }

  /** At least once: when producers give every message its own id, each committed message
      with a handler, from the first committed one on, was itself handled successfully. */
  lemma CommittedMessageWasHandled(c: Setting, steps: seq<Step>, p: nat, o: nat)
    requires IdsAreUnique(c)
    requires var s := Run(c, START, steps);
             p in s.committed && (c.fromBeginning || At(s.first, p) <= o) && o < s.committed[p]
    ensures p < |c.log| && o < |c.log[p]|
    ensures HasHandler(c.handlers, c.log[p][o]) ==>
      exists k :: 0 <= k < |Run(c, START, steps).done| &&
                  Run(c, START, steps).done[k] == Handling(p, o, c.log[p][o].eventId)
  {
    CommittedMeansSettled(c, steps, p, o);
    RunKeepsInv(c, steps);
    var done := Run(c, START, steps).done;
    if HasHandler(c.handlers, c.log[p][o]) {
      var k :| 0 <= k < |done| && done[k].id == c.log[p][o].eventId;
      assert done[k] == Handling(p, o, c.log[p][o].eventId);
    }
  }

  /** Between two handlings of the same id by one member without a restart lie
      `CAPACITY` handlings of different other ids. */
  lemma HandledTwiceOnlyFarApart(c: Setting, steps: seq<Step>, m: nat, i: nat, j: nat)
    requires m in Run(c, START, steps).members
    requires i < j < |Run(c, START, steps).members[m].session|
    requires Run(c, START, steps).members[m].session[i] == Run(c, START, steps).members[m].session[j]
    ensures var session := Run(c, START, steps).members[m].session;
            i + 10000 < j &&
            var between := Elements(session[i + 1..i + 1 + 10000]);
            |between| == 10000 && session[i] !in between
  {
    RunKeepsInv(c, steps);
    assert Bounded(Run(c, START, steps).members[m]);
    var session := Run(c, START, steps).members[m].session;
    DistinctSize(session[i + 1..i + 1 + CAPACITY]);
  }

  /** The set of processed ids stays within its bound and forgets only the oldest. */
  lemma ProcessedIdsAreTheLatest(c: Setting, steps: seq<Step>, m: nat)
    requires m in Run(c, START, steps).members
    ensures var member := Run(c, START, steps).members[m];
            |member.processed| <= 10000 && Distinct(member.processed) &&
            member.processed == LastIds(member.session)
  {
    RunKeepsInv(c, steps);
    assert Bounded(Run(c, START, steps).members[m]);
  }

  // ------------------------------------------------------------------
  // Every readable message can be got past
  // ------------------------------------------------------------------

  /** What a delivery does, in every reachable state, by the ids this member has handled since
      it started: the handler of a message is called exactly when it has one and the id is
      not among the last `CAPACITY` handled; any other readable message, a duplicate or one
      that nobody wants, goes straight to its commit; and an unreadable one moves nothing. */
  lemma DeliveryCallsExactlyTheNew(c: Setting, steps: seq<Step>, m: nat, p: nat)
    requires CanDeliver(c, Run(c, START, steps), m, p)
    ensures var s := Run(c, START, steps);
            var o := At(s.position, p);
            var message := c.log[p][o];
            var after := Next(c, s, Deliver(m, p));
            if message.Garbled? then after == s
            else
              m in after.members && after == s.(members := s.members[m := after.members[m]]) &&
              after.members[m] == s.members[m].(phase := after.members[m].phase) &&
              after.members[m].phase ==
                if HasHandler(c.handlers, message) && message.eventId !in LastIds(s.members[m].session)
                then Calling(p, o, At(s.epoch, p)) else Committing(p, o, At(s.epoch, p))
  {
    RunKeepsInv(c, steps);
    assert Bounded(Run(c, START, steps).members[m]);
    hide Run, LastIds, SpreadOut, Remember;
  }

  /** The steps that take a member past the message it is about to get, if all goes well. */
  function GettingPast(m: nat, p: nat, called: bool): seq<Step> {
    if called then [Deliver(m, p), HandlerEnds(m, true), CommitEnds(m, true)]
    else [Deliver(m, p), CommitEnds(m, true)]
  }

  lemma OneStep(c: Setting, s: State, step: Step)
    ensures Run(c, s, [step]) == Next(c, s, step)
  {
    assert [step][..0] == [];
  }

  lemma StepsInTurn(c: Setting, s: State, first: Step, second: Step, third: Step)
    ensures Run(c, s, [first, second]) == Next(c, Next(c, s, first), second)
    ensures Run(c, s, [first, second, third]) == Next(c, Next(c, Next(c, s, first), second), third)
  {
    OneStep(c, s, first);
    assert [first, second][..1] == [first] && [first, second, third][..2] == [first, second];
    hide Next;
  }

  /** A commit that the broker takes moves the committed offset just past its message. */
  lemma CommitMovesPast(c: Setting, s: State, m: nat)
    requires IsCommitting(s, m) && At(s.epoch, s.members[m].phase.partition) == s.members[m].phase.epoch
    ensures var phase := s.members[m].phase;
            var after := Next(c, s, CommitEnds(m, true));
            after.committed == s.committed[phase.partition := phase.offset + 1] &&
            after.position == s.position[phase.partition := phase.offset + 1] &&
            after.members == s.members[m := s.members[m].(phase := Idle)] && after.done == s.done
  {
  }

  /** A handler that succeeds is recorded once, and its message goes on to the commit; one
      that fails leaves the member as if the message had not come. */
  lemma HandlerIsRecorded(c: Setting, s: State, m: nat)
    requires IsCalling(c, s, m)
    ensures var phase := s.members[m].phase;
            var id := c.log[phase.partition][phase.offset].eventId;
            var after := Next(c, s, HandlerEnds(m, true));
            after == s.(members := after.members, done := s.done + [Handling(phase.partition, phase.offset, id)]) &&
            m in after.members && after.members == s.members[m := after.members[m]] &&
            after.members[m].phase == Committing(phase.partition, phase.offset, phase.epoch) &&
            after.members[m].session == s.members[m].session + [id]
    ensures Next(c, s, HandlerEnds(m, false)) == s.(members := s.members[m := s.members[m].(phase := Idle)])
  {
    hide Remember;
  }

  lemma CallingIsCommitted(c: Setting, s: State, m: nat)
    requires IsCalling(c, s, m) && At(s.epoch, s.members[m].phase.partition) == s.members[m].phase.epoch
    ensures var phase := s.members[m].phase;
            var id := c.log[phase.partition][phase.offset].eventId;
            var after := Next(c, Next(c, s, HandlerEnds(m, true)), CommitEnds(m, true));
            after.committed == s.committed[phase.partition := phase.offset + 1] &&
            after.position == s.position[phase.partition := phase.offset + 1] &&
            m in after.members && after.members[m].phase == Idle &&
            after.done == s.done + [Handling(phase.partition, phase.offset, id)]
  {
    hide Next;
    HandlerIsRecorded(c, s, m);
    CommitMovesPast(c, Next(c, s, HandlerEnds(m, true)), m);
  }

  /** The outcome of getting past the message at `o`. */
  predicate GotPast(s: State, after: State, m: nat, p: nat, o: nat, done: seq<Handling>) {
    after.committed == s.committed[p := o + 1] && after.position == s.position[p := o + 1] &&
    m in after.members && after.members[m].phase == Idle && after.done == s.done + done
  }

  lemma DeliveredIsGotPast(c: Setting, s: State, m: nat, p: nat)
    requires m in s.members
    requires var delivered := Next(c, s, Deliver(m, p));
             m in delivered.members && delivered == s.(members := delivered.members) &&
             delivered.members[m].phase in {Calling(p, At(s.position, p), At(s.epoch, p)),
                                            Committing(p, At(s.position, p), At(s.epoch, p))}
    requires IsCalling(c, Next(c, s, Deliver(m, p)), m) || IsCommitting(Next(c, s, Deliver(m, p)), m)
    ensures var o := At(s.position, p);
            var called := IsCalling(c, Next(c, s, Deliver(m, p)), m);
            GotPast(s, Run(c, s, GettingPast(m, p, called)), m, p, o,
                    if called then [Handling(p, o, c.log[p][o].eventId)] else [])
  {
    var delivered := Next(c, s, Deliver(m, p));
    hide Run, Next;
    if IsCalling(c, delivered, m) {
      CallingIsCommitted(c, delivered, m);
      StepsInTurn(c, s, Deliver(m, p), HandlerEnds(m, true), CommitEnds(m, true));
    } else {
      CommitMovesPast(c, delivered, m);
      StepsInTurn(c, s, Deliver(m, p), CommitEnds(m, true), CommitEnds(m, true));
    }
  }

  /** In every reachable state the owner of a partition gets past a readable message, a
      duplicate included, by one delivery that ends well: afterwards the committed offset is
      just behind it, and its handler has succeeded exactly once more if it had to be called. */
  lemma ReadableMessageIsCommitted(c: Setting, steps: seq<Step>, m: nat, p: nat)
    requires CanDeliver(c, Run(c, START, steps), m, p)
    requires c.log[p][At(Run(c, START, steps).position, p)].Envelope?
    ensures var s := Run(c, START, steps);
            var o := At(s.position, p);
            var message := c.log[p][o];
            var called := HasHandler(c.handlers, message) && message.eventId !in LastIds(s.members[m].session);
            GotPast(s, Run(c, s, GettingPast(m, p, called)), m, p, o,
                    if called then [Handling(p, o, message.eventId)] else [])
  {
    DeliveryCallsExactlyTheNew(c, steps, m, p);
    hide Run, Next, LastIds, HasHandler, GotPast, GettingPast;
    DeliveredIsGotPast(c, Run(c, START, steps), m, p);
  }

  // ------------------------------------------------------------------
  // The consumer object
  // ------------------------------------------------------------------

  datatype Outcome = Settles(committed: Option<nat>) | Rethrows

  class KafkaEventConsumer {
    const autoCommit: bool
    var handlers: set<string>
    var isRunning: bool
    var connected: bool  // `consumer !== null`
    var processedMessages: seq<EventId>

    constructor (autoCommit: bool)
      ensures this.autoCommit == autoCommit && !isRunning && !connected && processedMessages == [] && handlers == {}
    {
      this.autoCommit := autoCommit;
      handlers, isRunning, connected, processedMessages := {}, false, false, [];
    }

    method Subscribe(eventType: string) returns (ok: bool)
      modifies this`handlers
      ensures ok == !isRunning
      ensures handlers == old(handlers) + (if ok then {eventType} else {})
    {
      if isRunning {
        return false;
      }
      handlers := handlers + {eventType};
      return true;
    }

    /** `handlerOk` and `commitOk` say how the awaited calls end. */
    method HandleMessage(message: Message, offset: nat, handlerOk: bool, commitOk: bool) returns (outcome: Outcome)
      modifies this`processedMessages
      ensures var called := message.Envelope? && message.eventType.Some? && message.eventType.value in handlers &&
                            message.eventId !in old(processedMessages);
              var fails := message.Garbled? || (called && !handlerOk);
              (outcome == if fails || (!autoCommit && connected && !commitOk) then Rethrows
                          else Settles(if autoCommit || !connected then None else Some(offset + 1))) &&
              processedMessages == if called && handlerOk then Remember(old(processedMessages), message.eventId)
                                   else old(processedMessages)
      ensures Arrive(old(processedMessages), handlers, message) ==
              if message.Garbled? then Throws
              else if HasHandler(handlers, message) && message.eventId !in old(processedMessages) then Calls
              else Passes
    {
      if message.Garbled? {
        return Rethrows;
      }
      if message.eventId in processedMessages || !HasHandler(handlers, message) {
        outcome := Commit(offset, commitOk);
        return;
      }
      if !handlerOk {
        return Rethrows;
      }
      if message.eventId !in processedMessages {
        processedMessages := processedMessages + [message.eventId];
      }
      if |processedMessages| > CAPACITY {
        processedMessages := processedMessages[1..];
      }
      outcome := Commit(offset, commitOk);
    }

    method Commit(offset: nat, commitOk: bool) returns (outcome: Outcome)
      ensures outcome == if autoCommit || !connected then Settles(None)
                         else if commitOk then Settles(Some(offset + 1)) else Rethrows
    {
      if !autoCommit && connected {
        return if commitOk then Settles(Some(offset + 1)) else Rethrows;
      }
      return Settles(None);
    }

    /** `ok` is whether the broker client stops and disconnects without throwing. */
    method Stop(ok: bool) returns (rethrows: bool)
      modifies this
      ensures handlers == old(handlers)
      ensures rethrows <==> old(isRunning) && old(connected) && !ok
      ensures if old(isRunning) && old(connected) && ok
              then !isRunning && !connected && processedMessages == []
              else isRunning == old(isRunning) && connected == old(connected) &&
                   processedMessages == old(processedMessages)
    {
      if !isRunning || !connected {
        return false;
      }
      if !ok {
        return true;
      }
      connected := false;
      isRunning := false;
      processedMessages := [];
      return false;
    }
  }
}
