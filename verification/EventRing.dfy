/** The event publisher's circular buffer, updated in place. */
module EventRing {
  import opened Collections
  import opened Json
  import opened Options
  import opened JsonRecogniser
  import opened JsonPayload
  import opened EventQueue

  const COMMAND_ID_MAX := 36

  datatype Outcome = EventAccepted | UnknownName | QueueFull | NoTransport | TransportFailed

  /** The payload that is stored: the given one if the recogniser accepts it, or one that says why not. */
  function Normalised(payload: Option<string>): string {
    var text := OrElse(payload, "{}");
    if |text| > MAX_PAYLOAD then PAYLOAD_TOO_LONG
    else if !Accepted(text) then PAYLOAD_INVALID
    else text
  }

  lemma EmptyObjectAccepted()
    ensures Accepted("{}")
  {
    RenderTight([]);
    assert Render(Object("", "", [], "")) == "{}";
    AcceptedObject(Object("", "", [], ""));
  }

  /** Whatever was given, what is stored is an accepted payload; an accepted one is stored as it is. */
  lemma StoredPayloadIsAccepted(payload: Option<string>)
    ensures Accepted(Normalised(payload))
    ensures payload.Some? && Accepted(payload.value) ==> Normalised(payload) == payload.value
    ensures payload.None? ==> Normalised(payload) == "{}"
    ensures payload.Some? && |payload.value| > 256 ==>
              Normalised(payload) == Truncated("payload_json_exceeds_256_bytes")
    ensures payload.Some? && |payload.value| <= 256 && !Accepted(payload.value) ==>
              Normalised(payload) == Truncated("payload_json_invalid")
  {
    EmptyObjectAccepted();
    if |OrElse(payload, "{}")| > MAX_PAYLOAD {
      TruncatedAccepted("payload_json_exceeds_256_bytes");
    } else if !Accepted(OrElse(payload, "{}")) {
      TruncatedAccepted("payload_json_invalid");
    }
  }

  function EventOf(name: string, stampMs: nat, commandId: string, payload: Option<string>): DeviceEvent {
    DeviceEvent(name, stampMs, Cut(commandId, COMMAND_ID_MAX), Normalised(payload))
  }

  /** What an event keeps of what was published: everything but the end of a command id of more than 36 characters. */
  lemma EventKeepsWhatWasPublished(name: string, stampMs: nat, commandId: string, payload: Option<string>)
    ensures var e := EventOf(name, stampMs, commandId, payload);
            && e.name == name && e.stampMs == stampMs && e.commandId <= commandId
            && |e.commandId| == (if |commandId| > 36 then 36 else |commandId|)
            && Accepted(e.payload)
            && (payload.Some? && Accepted(payload.value) ==> e.payload == payload.value)
  {
    StoredPayloadIsAccepted(payload);
  }

  /**
   Every event that was ever taken, queued or delivered or evicted by now, has a known name and an
   accepted payload.
   */
  ghost predicate Vetted(l: Ledger) {
    forall i :: 0 <= i < |l.accepted| ==> Known(l.accepted[i].name) && Accepted(l.accepted[i].payload)
  }

  lemma PublishKeepsVetted(l: Ledger, e: DeviceEvent)
    requires Tickets(l) && Vetted(l) && Known(e.name) && Accepted(e.payload)
    ensures Vetted(EventQueue.Publish(l, e))
  {
    assert EventQueue.Publish(l, e).accepted in {l.accepted, l.accepted + [e]};
  }

  /** So what is queued or delivered is. */
  lemma WhatLeavesIsVetted(l: Ledger)
    requires Tickets(l) && Vetted(l)
    ensures forall e :: e in Items(l) ==> Known(e.name) && Accepted(e.payload)
    ensures forall t :: t in l.delivered ==> Known(l.accepted[t].name) && Accepted(l.accepted[t].payload)
  {
    forall e | e in Items(l) ensures Known(e.name) && Accepted(e.payload) {
      var i :| 0 <= i < |l.queued| && Items(l)[i] == e;
      assert Known(l.accepted[l.queued[i]].name);
    }
  }

  function Slot(head: nat, offset: nat): (index: nat)
    ensures index < CAPACITY
  {
    (head + offset) % CAPACITY
  }

  ghost function Ring(slots: seq<DeviceEvent>, head: nat, count: nat): seq<DeviceEvent>
    requires |slots| == CAPACITY
  {
    seq(count, i requires 0 <= i < count => slots[Slot(head, i)])
  }

  lemma SlotsDiffer(head: nat, i: nat, j: nat)
    requires i < CAPACITY && j < CAPACITY && i != j
    ensures Slot(head, i) != Slot(head, j)
  {
  }

  class EventPublisher {
    const queue: array<DeviceEvent>
    var head: nat
    var count: nat
    var dropped: nat
    ghost var ledger: Ledger

    ghost predicate Shape()
      reads this
    {
      queue.Length == CAPACITY && head < CAPACITY && count <= CAPACITY
    }

    ghost function Contents(): seq<DeviceEvent>
      requires Shape()
      reads this, queue
    {
      Ring(queue[..], head, count)
    }

    ghost predicate Valid()
      reads this, queue
    {
      Shape() && Sound(ledger) && Vetted(ledger) && Items(ledger) == Contents() && dropped == |ledger.evicted|
    }

    constructor ()
      ensures Valid() && ledger == EMPTY && fresh(queue)
    {
      queue := new DeviceEvent[CAPACITY](_ => DeviceEvent("", 0, "", ""));
      head, count, dropped, ledger := 0, 0, 0, EMPTY;
    }

    /** Everything after `offset` moves one place forward. */
    method ShiftDown(offset: nat)
      requires Shape() && offset < count
      modifies queue
      ensures forall k :: offset <= k < count - 1 ==> queue[Slot(head, k)] == old(queue[Slot(head, k + 1)])
      ensures forall k :: 0 <= k < offset ==> queue[Slot(head, k)] == old(queue[Slot(head, k)])
    {
      var shift := offset;
      while shift + 1 < count
        invariant offset <= shift < count
        invariant forall k :: offset <= k < shift ==> queue[Slot(head, k)] == old(queue[Slot(head, k + 1)])
        invariant forall k :: 0 <= k < count && !(offset <= k < shift) ==>
                    queue[Slot(head, k)] == old(queue[Slot(head, k)])
      {
        forall k | 0 <= k < count && k != shift
          ensures Slot(head, k) != Slot(head, shift)
        {
          SlotsDiffer(head, k, shift);
        }
        queue[Slot(head, shift)] := queue[Slot(head, shift + 1)];
        shift := shift + 1;
      }
    }

    method CloseGap(offset: nat)
      requires Shape() && offset < count
      modifies queue, `count
      ensures Shape() && count == old(count) - 1
      ensures Contents() == RemoveAt(old(Contents()), offset)
    {
      ShiftDown(offset);
      count := count - 1;
    }

    method DropOldestOrdinary() returns (found: bool)
      requires Shape()
      modifies queue, `count, `dropped
      ensures Shape() && found == (FirstOrdinary(old(Contents())) < |old(Contents())|)
      ensures found ==>
                Contents() == RemoveAt(old(Contents()), FirstOrdinary(old(Contents()))) && dropped == old(dropped) + 1
      ensures !found ==> unchanged(queue) && count == old(count) && dropped == old(dropped)
    {
      for offset := 0 to count
        invariant forall k :: 0 <= k < offset ==> Priority(Contents()[k])
      {
        var index := Slot(head, offset);
        if queue[index].name !in PRIORITY_NAMES {
          assert !Priority(Contents()[offset]);
          FirstOrdinaryIs(Contents(), offset);
          CloseGap(offset);
          dropped := dropped + 1;
          return true;
        }
        assert Priority(Contents()[offset]);
      }
      found := false;
    }

    method Append(e: DeviceEvent)
      requires Shape() && count < CAPACITY
      modifies queue, `count
      ensures Shape() && Contents() == old(Contents()) + [e]
    {
      var tail := Slot(head, count);
      forall k | 0 <= k < count ensures Slot(head, k) != tail { SlotsDiffer(head, k, count); }
      queue[tail] := e;
      count := count + 1;
    }

    /** Queues the event, evicting an ordinary one for a priority one when full. */
    method PublishName(name: string, stampMs: nat, commandId: string, payload: Option<string>)
      returns (outcome: Outcome)
      requires Valid()
      modifies this, queue
      ensures Valid()
      ensures name !in PRIORITY_NAMES && name !in ORDINARY_NAMES ==> outcome == UnknownName && ledger == old(ledger)
      ensures name in PRIORITY_NAMES || name in ORDINARY_NAMES ==>
        ledger == EventQueue.Publish(old(ledger), EventOf(name, stampMs, commandId, payload))
        && outcome == if Refuses(old(Contents()), EventOf(name, stampMs, commandId, payload)) then QueueFull
           else EventAccepted
    {
      if name !in PRIORITY_NAMES && name !in ORDINARY_NAMES { return UnknownName; }
      var text := OrElse(payload, "{}");
      if |text| > MAX_PAYLOAD {
        text := PAYLOAD_TOO_LONG;
      } else {
        var accepted := IsObject(text);
        if !accepted { text := PAYLOAD_INVALID; }
      }
      var event := DeviceEvent(name, stampMs, Cut(commandId, COMMAND_ID_MAX), text);
      StoredPayloadIsAccepted(payload);
      outcome := Enqueue(event);
    }

    method Insert(event: DeviceEvent) returns (inserted: bool)
      requires Shape()
      modifies queue, `count, `dropped
      ensures Shape() && inserted == !Refuses(old(Contents()), event)
      ensures Contents() == if inserted then Enqueued(old(Contents()), event) else old(Contents())
      ensures dropped == old(dropped) + if inserted && old(count) >= CAPACITY then 1 else 0
    {
      if count >= CAPACITY {
        if event.name !in PRIORITY_NAMES { return false; }
        var found := DropOldestOrdinary();
        if !found { return false; }
      }
      Append(event);
      inserted := true;
    }

    method Enqueue(event: DeviceEvent) returns (outcome: Outcome)
      requires Valid() && Known(event.name) && Accepted(event.payload)
      modifies this, queue
      ensures Valid() && ledger == EventQueue.Publish(old(ledger), event)
      ensures outcome == if Refuses(old(Contents()), event) then QueueFull else EventAccepted
    {
      LedgerFollowsQueue(ledger, event);
      PublishKeepsSound(ledger, event);
      PublishKeepsVetted(ledger, event);
      var inserted := Insert(event);
      ledger := EventQueue.Publish(ledger, event);
      outcome := if inserted then EventAccepted else QueueFull;
    }

    /** Hands events to the transport, oldest first, until it refuses one or `limit` are gone. */
    method Drain(configured: bool, limit: nat, transportTakes: nat) returns (outcome: Outcome)
      requires Valid()
      modifies this
      ensures Valid()
      ensures ledger == if configured then EventQueue.Drain(old(ledger), limit, transportTakes) else old(ledger)
      ensures var due := if limit < |old(ledger).queued| then limit else |old(ledger).queued|;
              outcome == if !configured then NoTransport else if transportTakes < due then TransportFailed
                else EventAccepted
    {
      if !configured { return NoTransport; }
      DrainFollowsQueue(ledger, limit, transportTakes);
      var drained := 0;
      outcome := EventAccepted;
      while count > 0 && drained < limit && outcome == EventAccepted
        invariant Shape() && ledger == old(ledger) && dropped == old(dropped)
        invariant drained <= limit && drained <= transportTakes && count + drained == old(count)
        invariant outcome == EventAccepted
                  || (outcome == TransportFailed && count > 0 && drained < limit && drained == transportTakes)
        invariant Contents() == old(Contents())[drained..]
        decreases count, outcome == EventAccepted
      {
        if drained == transportTakes {
          outcome := TransportFailed;
        } else {
          TakeFront();
          drained := drained + 1;
        }
      }
      ledger := EventQueue.Drain(ledger, limit, transportTakes);
    }

    method TakeFront()
      requires Shape() && count > 0
      modifies `head, `count
      ensures Shape() && count == old(count) - 1 && Contents() == old(Contents())[1..]
    {
      head := (head + 1) % CAPACITY;
      count := count - 1;
    }
  }

  lemma DrainFollowsQueue(l: Ledger, limit: nat, transportTakes: nat)
    requires Sound(l)
    ensures Sound(EventQueue.Drain(l, limit, transportTakes))
    ensures Items(EventQueue.Drain(l, limit, transportTakes))
            == Items(l)[DrainCount(|l.queued|, limit, transportTakes)..]
  {
    DrainKeepsSound(l, limit, transportTakes);
  }

  lemma {:induction false} FirstOrdinaryIs(items: seq<DeviceEvent>, i: nat)
    requires i < |items| && !Priority(items[i]) && forall k :: 0 <= k < i ==> Priority(items[k])
    ensures FirstOrdinary(items) == i
    decreases i
  {
    if i > 0 {
      assert forall k :: 0 <= k < i - 1 ==> items[1..][k] == items[k + 1];
      FirstOrdinaryIs(items[1..], i - 1);
    }
  }
}
