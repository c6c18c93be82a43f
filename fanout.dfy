/**
 * The second half of the `userAvailableTimeChange` trigger (functions/index.js):
 * one transaction that checks the idempotency record of the event, adds the
 * `changes` vector to the `availableTime/0` counter of every server, and then
 * records the event as processed.
 *
 * The store is abstract: `servers` maps every document of the `servers`
 * collection to the state of its `availableTime/0` document, and `processed`
 * maps the event ids found under `idempotencyKeys` to their `processedAt`.
 */
module Fanout {
  import opened Wrappers
  import opened Availability

  type ServerId = string
  type EventId = string
  /** The server-side commit time written as `processedAt`, supplied by the caller. */
  type Timestamp = int

  /** A JavaScript number as a counter slot holds it; adding `undefined` gives NaN. */
  datatype Number = Finite(n: int) | NaN

  /** `value + changes[index]`, with `changes[index]` undefined past the end. */
  function AddChange(value: Number, changes: seq<int>, index: nat): Number {
    if value.Finite? && index < |changes| then Finite(value.n + changes[index]) else NaN
  }

  /** `availableData.map((value, index) => value + changes[index])`. */
  function Applied(data: seq<Number>, changes: seq<int>): (r: seq<Number>)
    ensures |r| == |data|
  {
    seq(|data|, i requires 0 <= i < |data| => AddChange(data[i], changes, i))
  }

  /**
   * The `availableTime/0` document of one server: absent, present without an
   * `availableData` field, or holding the counter.
   */
  datatype CounterDoc = Missing | NoData | Counter(data: seq<Number>)

  /** The document after the fanout: only a present counter is rewritten. */
  function UpdatedDoc(doc: CounterDoc, changes: seq<int>): CounterDoc {
    match doc
    case Counter(data) => Counter(Applied(data, changes))
    case _ => doc
  }

  /** Every server's document after the fanout, when it commits. */
  function FanoutAll(servers: map<ServerId, CounterDoc>, changes: seq<int>): map<ServerId, CounterDoc> {
    map id | id in servers :: UpdatedDoc(servers[id], changes)
  }

  /**
   * Some server's document has no `availableData`: reading `.map` of
   * `undefined` throws inside the transaction, which then commits nothing.
   */
  predicate Blocked(servers: map<ServerId, CounterDoc>) {
    exists id :: id in servers && servers[id].NoData?
  }

  datatype State = State(servers: map<ServerId, CounterDoc>, processed: map<EventId, Timestamp>)

  /** Which way the trigger left; the source only logs it. */
  datatype Outcome =
    | NoChange             // the two lists are identical
    | NoSignificantChange  // no slot of the before-list differs
    | AlreadyProcessed     // the idempotency record exists
    | Failed               // the transaction threw and was rolled back
    | Processed            // every counter updated and the event recorded

  datatype Transition = Transition(state: State, outcome: Outcome)

  /** The whole trigger, from the store it starts on to the store it leaves. */
  function Handle(s: State, eventId: EventId, beforeField: Option<seq<bool>>,
                  afterField: Option<seq<bool>>, now: Timestamp): Transition
  {
    var before := ListOrEmpty(beforeField);
    var after := ListOrEmpty(afterField);
    if before == after then Transition(s, NoChange)
    else if !HasChange(before, after) then Transition(s, NoSignificantChange)
    else if eventId in s.processed then Transition(s, AlreadyProcessed)
    else if Blocked(s.servers) then Transition(s, Failed)
    else Transition(State(FanoutAll(s.servers, Changes(before, after)), s.processed[eventId := now]), Processed)
  }

  class Store {
    var servers: map<ServerId, CounterDoc>
    var processed: map<EventId, Timestamp>

    function Snapshot(): State
      reads this
    {
      State(servers, processed)
    }

    constructor (servers: map<ServerId, CounterDoc>, processed: map<EventId, Timestamp>)
      ensures Snapshot() == State(servers, processed)
    {
      this.servers := servers;
      this.processed := processed;
    }

    /**
     * The trigger body: the two early returns, then the transaction. Writes
     * are staged in `staged` and reach the store only when the body finishes.
     */
    method HandleChange(eventId: EventId, beforeField: Option<seq<bool>>,
                        afterField: Option<seq<bool>>, now: Timestamp) returns (outcome: Outcome)
      modifies this
      ensures Transition(Snapshot(), outcome) == Handle(old(Snapshot()), eventId, beforeField, afterField, now)
    {
      var before := ListOrEmpty(beforeField);
      var after := ListOrEmpty(afterField);
      if before == after {
        return NoChange;
      }
      var changes, hasChange := ComputeChanges(before, after);
      if !hasChange {
        return NoSignificantChange;
      }

      if eventId in processed {
        return AlreadyProcessed;
      }
      var staged := servers;
      var pending := servers.Keys;
      while pending != {}
        invariant pending <= servers.Keys
        invariant staged.Keys == servers.Keys
        invariant forall id :: id in pending ==> staged[id] == servers[id]
        invariant forall id :: id in servers && id !in pending ==>
                    !servers[id].NoData? && staged[id] == UpdatedDoc(servers[id], changes)
        decreases pending
      {
        var id :| id in pending;
        pending := pending - {id};
        var doc := servers[id];
        if doc.Missing? {
          continue;
        }
        if doc.NoData? {
          return Failed;
        }
        staged := staged[id := Counter(Applied(doc.data, changes))];
      }
      assert !Blocked(servers);
      assert staged == FanoutAll(servers, changes);
      servers := staged;
      processed := processed[eventId := now];
      outcome := Processed;
    }
  }

  /** Only a processed event changes the store. */
  lemma OnlyProcessedChangesStore(s: State, eventId: EventId, beforeField: Option<seq<bool>>,
                                  afterField: Option<seq<bool>>, now: Timestamp)
    ensures Handle(s, eventId, beforeField, afterField, now).outcome != Processed ==>
              Handle(s, eventId, beforeField, afterField, now).state == s
  {
  }

  /**
   * The event is processed exactly when the before-list is not a prefix of
   * the after-list, it has no idempotency record and no server's document
   * lacks its counter.
   */
  lemma ProcessedIff(s: State, eventId: EventId, beforeField: Option<seq<bool>>,
                     afterField: Option<seq<bool>>, now: Timestamp)
    ensures Handle(s, eventId, beforeField, afterField, now).outcome == Processed <==>
              !(ListOrEmpty(beforeField) <= ListOrEmpty(afterField)) &&
              eventId !in s.processed && !Blocked(s.servers)
  {
    UpdateNeededIffNotPrefix(beforeField, afterField);
  }

  /** Equal lists (an absent field being the empty list) leave the store alone. */
  lemma EqualListsLeaveStore(s: State, eventId: EventId, beforeField: Option<seq<bool>>,
                             afterField: Option<seq<bool>>, now: Timestamp)
    requires ListOrEmpty(beforeField) == ListOrEmpty(afterField)
    ensures Handle(s, eventId, beforeField, afterField, now) == Transition(s, NoChange)
  {
  }

  /** An update that only appends slots after the before-list leaves the store alone. */
  lemma AppendOnlyLeavesStore(s: State, eventId: EventId, beforeField: Option<seq<bool>>,
                              afterField: Option<seq<bool>>, now: Timestamp)
    requires ListOrEmpty(beforeField) <= ListOrEmpty(afterField)
    ensures Handle(s, eventId, beforeField, afterField, now).state == s
    ensures Handle(s, eventId, beforeField, afterField, now).outcome in {NoChange, NoSignificantChange}
  {
    HasChangeIffNotPrefix(ListOrEmpty(beforeField), ListOrEmpty(afterField));
  }

  /** An event with an idempotency record changes neither counters nor records. */
  lemma RecordedEventLeavesStore(s: State, eventId: EventId, beforeField: Option<seq<bool>>,
                                 afterField: Option<seq<bool>>, now: Timestamp)
    requires eventId in s.processed
    ensures Handle(s, eventId, beforeField, afterField, now).state == s
    ensures Handle(s, eventId, beforeField, afterField, now).outcome != Processed
  {
  }

  /**
   * A processed event keeps the set of servers, leaves a missing document
   * missing, replaces every counter by its slot-wise sum with `changes`
   * (same length), and adds exactly its own record.
   */
  lemma ProcessedEffect(s: State, eventId: EventId, beforeField: Option<seq<bool>>,
                        afterField: Option<seq<bool>>, now: Timestamp)
    requires Handle(s, eventId, beforeField, afterField, now).outcome == Processed
    ensures var t := Handle(s, eventId, beforeField, afterField, now).state;
            var changes := Changes(ListOrEmpty(beforeField), ListOrEmpty(afterField));
            && t.servers.Keys == s.servers.Keys
            && (forall id :: id in s.servers && s.servers[id].Missing? ==> t.servers[id].Missing?)
            && (forall id :: id in s.servers && s.servers[id].Counter? ==>
                  t.servers[id].Counter? && |t.servers[id].data| == |s.servers[id].data| &&
                  forall i :: 0 <= i < |s.servers[id].data| ==>
                    t.servers[id].data[i] == AddChange(s.servers[id].data[i], changes, i))
            && eventId !in s.processed
            && t.processed == s.processed[eventId := now]
  {
  }

  /**
   * For a counter of plain numbers as long as both lists, every slot moves by
   * the difference of its after- and before-flags.
   */
  lemma CounterMovesByFlagDifference(s: State, eventId: EventId, before: seq<bool>,
                                     after: seq<bool>, now: Timestamp, id: ServerId)
    requires Handle(s, eventId, Some(before), Some(after), now).outcome == Processed
    requires id in s.servers && s.servers[id].Counter?
    requires |s.servers[id].data| == |before| == |after|
    requires forall i :: 0 <= i < |before| ==> s.servers[id].data[i].Finite?
    ensures var t := Handle(s, eventId, Some(before), Some(after), now).state;
            id in t.servers && t.servers[id].Counter? && |t.servers[id].data| == |before| &&
            forall i :: 0 <= i < |before| ==>
              t.servers[id].data[i] == Finite(s.servers[id].data[i].n + Flag(after[i]) - Flag(before[i]))
  {
    var changes := Changes(before, after);
    forall i | 0 <= i < |before|
      ensures changes[i] == Flag(after[i]) - Flag(before[i])
    {
      DeltaSemantics(before, after, i);
    }
  }

  /** Once written, an idempotency record is never removed or overwritten. */
  lemma RecordsPersist(s: State, eventId: EventId, beforeField: Option<seq<bool>>,
                       afterField: Option<seq<bool>>, now: Timestamp)
    ensures var t := Handle(s, eventId, beforeField, afterField, now).state;
            forall e :: e in s.processed ==> e in t.processed && t.processed[e] == s.processed[e]
  {
  }

  /**
   * Redelivering an event with the same id and payload, at any later time,
   * leaves the store as the first delivery left it.
   */
  lemma RedeliveryIsIdempotent(s: State, eventId: EventId, beforeField: Option<seq<bool>>,
                               afterField: Option<seq<bool>>, now: Timestamp, later: Timestamp)
    ensures var first := Handle(s, eventId, beforeField, afterField, now).state;
            Handle(first, eventId, beforeField, afterField, later).state == first
  {
    var first := Handle(s, eventId, beforeField, afterField, now);
    if first.outcome == Failed {
      assert first.state == s;
    }
  }

  /** Adding two change vectors to a counter commutes. */
  lemma AppliedCommutes(data: seq<Number>, c1: seq<int>, c2: seq<int>)
    ensures Applied(Applied(data, c1), c2) == Applied(Applied(data, c2), c1)
  {
    var a := Applied(Applied(data, c1), c2);
    var b := Applied(Applied(data, c2), c1);
    forall i | 0 <= i < |data| ensures a[i] == b[i] {
      assert Applied(data, c1)[i] == AddChange(data[i], c1, i);
      assert Applied(data, c2)[i] == AddChange(data[i], c2, i);
    }
  }

  /** The fanout keeps every server and whether its document lacks the counter. */
  lemma FanoutKeepsShape(servers: map<ServerId, CounterDoc>, changes: seq<int>)
    ensures FanoutAll(servers, changes).Keys == servers.Keys
    ensures forall id :: id in servers ==> (FanoutAll(servers, changes)[id].NoData? <==> servers[id].NoData?)
    ensures Blocked(FanoutAll(servers, changes)) == Blocked(servers)
  {
    if Blocked(FanoutAll(servers, changes)) {
      var id :| id in FanoutAll(servers, changes) && FanoutAll(servers, changes)[id].NoData?;
      assert servers[id].NoData?;
    }
  }

  /** Two fanouts reach the same documents in either order. */
  lemma FanoutCommutes(servers: map<ServerId, CounterDoc>, c1: seq<int>, c2: seq<int>)
    ensures FanoutAll(FanoutAll(servers, c1), c2) == FanoutAll(FanoutAll(servers, c2), c1)
  {
    var f12 := FanoutAll(FanoutAll(servers, c1), c2);
    var f21 := FanoutAll(FanoutAll(servers, c2), c1);
    forall id | id in servers ensures f12[id] == f21[id] {
      if servers[id].Counter? {
        AppliedCommutes(servers[id].data, c1, c2);
      }
    }
  }

  /** The store the trigger leaves, stated through `UpdateNeeded`. */
  lemma HandleState(s: State, eventId: EventId, beforeField: Option<seq<bool>>,
                    afterField: Option<seq<bool>>, now: Timestamp)
    ensures Handle(s, eventId, beforeField, afterField, now).state ==
              if UpdateNeeded(beforeField, afterField) && eventId !in s.processed && !Blocked(s.servers)
              then State(FanoutAll(s.servers, Changes(ListOrEmpty(beforeField), ListOrEmpty(afterField))),
                         s.processed[eventId := now])
              else s
  {
  }

  /** Two events with different ids reach the same store in either order. */
  lemma DistinctEventsCommute(s: State, e1: EventId, b1: Option<seq<bool>>, a1: Option<seq<bool>>, n1: Timestamp,
                              e2: EventId, b2: Option<seq<bool>>, a2: Option<seq<bool>>, n2: Timestamp)
    requires e1 != e2
    ensures Handle(Handle(s, e1, b1, a1, n1).state, e2, b2, a2, n2).state ==
            Handle(Handle(s, e2, b2, a2, n2).state, e1, b1, a1, n1).state
  {
    var c1 := Changes(ListOrEmpty(b1), ListOrEmpty(a1));
    var c2 := Changes(ListOrEmpty(b2), ListOrEmpty(a2));
    var s1 := Handle(s, e1, b1, a1, n1).state;
    var s2 := Handle(s, e2, b2, a2, n2).state;
    HandleState(s, e1, b1, a1, n1);
    HandleState(s, e2, b2, a2, n2);
    HandleState(s1, e2, b2, a2, n2);
    HandleState(s2, e1, b1, a1, n1);
    FanoutKeepsShape(s.servers, c1);
    FanoutKeepsShape(s.servers, c2);
    FanoutCommutes(s.servers, c1, c2);
    assert s.processed[e1 := n1][e2 := n2] == s.processed[e2 := n2][e1 := n1];
  }
}
