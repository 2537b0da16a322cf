/**
 The firmware's event queue as a value: a bounded FIFO that evicts its oldest ordinary event to
 make room for a priority event, and the ledger of what became of every accepted event.
 */
module EventQueue {
  import opened Collections

  const CAPACITY := 8

  datatype DeviceEvent = DeviceEvent(name: string, stampMs: nat, commandId: string, payload: string)

  const PRIORITY_NAMES: seq<string> :=
    ["mic_overrun", "audio_playback_underrun", "audio_capture_failed", "camera_capture_failed", "nfc_read_failed",
     "ir_transmit_failed", "battery_low", "brownout_risk", "power_fault", "transport_unstable"]

  const ORDINARY_NAMES: seq<string> :=
    ["button_pressed", "button_released", "button_held", "picked_up", "placed_down", "shaken", "tilted", "face_up",
     "face_down", "nfc_detected", "nfc_removed", "audio_playback_load", "audio_playback_action", "audio_playback_chunk",
     "motion_diag_plan", "motion_diag_writes", "audio_capture_started", "audio_capture_finished", "battery_recovered",
     "charging_started", "charging_stopped", "power_source_changed", "touched", "touch_released", "touch_held",
     "proximity_near", "proximity_clear", "light_changed", "dark_detected", "bright_detected", "remote_button_pressed",
     "remote_button_released", "remote_button_held", "remote_command_received", "ir_transmit_started",
     "ir_transmit_finished", "firmware_ready"]

  predicate Known(name: string) { name in PRIORITY_NAMES || name in ORDINARY_NAMES }

  predicate Priority(e: DeviceEvent) { e.name in PRIORITY_NAMES }

  // ---- The queue ----

  /** Where the oldest ordinary event stands; the length if there is none. */
  function FirstOrdinary(items: seq<DeviceEvent>): (i: nat)
    ensures i <= |items|
    ensures forall k :: 0 <= k < i ==> Priority(items[k])
    ensures i < |items| ==> !Priority(items[i])
    decreases |items|
  {
    if items == [] || !Priority(items[0]) then 0 else 1 + FirstOrdinary(items[1..])
  }

  /** Full, and no room can be made: nothing is ordinary, or the newcomer is. */
  predicate Refuses(items: seq<DeviceEvent>, e: DeviceEvent) {
    |items| >= CAPACITY && (!Priority(e) || FirstOrdinary(items) == |items|)
  }

  function Enqueued(items: seq<DeviceEvent>, e: DeviceEvent): seq<DeviceEvent>
    requires !Refuses(items, e)
  {
    (if |items| >= CAPACITY then RemoveAt(items, FirstOrdinary(items)) else items) + [e]
  }

  // ---- The ledger ----

  /** Tickets number the accepted events in order. */
  datatype Ledger = Ledger(accepted: seq<DeviceEvent>, queued: seq<nat>, delivered: seq<nat>, evicted: seq<nat>)

  const EMPTY := Ledger([], [], [], [])

  ghost predicate Ascending(tickets: seq<nat>) { forall i, j :: 0 <= i < j < |tickets| ==> tickets[i] < tickets[j] }

  ghost predicate Tickets(l: Ledger) {
    && (forall i :: 0 <= i < |l.queued| ==> l.queued[i] < |l.accepted|)
    && (forall i :: 0 <= i < |l.delivered| ==> l.delivered[i] < |l.accepted|)
    && (forall i :: 0 <= i < |l.evicted| ==> l.evicted[i] < |l.accepted|)
  }

  /** The queue behind the tickets. */
  ghost function Items(l: Ledger): seq<DeviceEvent>
    requires Tickets(l)
  {
    seq(|l.queued|, i requires 0 <= i < |l.queued| => l.accepted[l.queued[i]])
  }

  ghost function Append(l: Ledger, e: DeviceEvent): Ledger {
    l.(accepted := l.accepted + [e], queued := l.queued + [|l.accepted|])
  }

  ghost function Evict(l: Ledger, i: nat): Ledger
    requires i < |l.queued|
  {
    l.(queued := RemoveAt(l.queued, i), evicted := l.evicted + [l.queued[i]])
  }

  ghost function Publish(l: Ledger, e: DeviceEvent): Ledger
    requires Tickets(l)
  {
    var items := Items(l);
    if Refuses(items, e) then l
    else if |items| >= CAPACITY then Append(Evict(l, FirstOrdinary(items)), e)
    else Append(l, e)
  }

  /** A drain delivers from the front until the transport refuses, the limit is reached or nothing is left. */
  function DrainCount(length: nat, limit: nat, transportTakes: nat): nat {
    if transportTakes <= length && transportTakes <= limit then transportTakes
    else if length <= limit then length else limit
  }

  ghost function Drain(l: Ledger, limit: nat, transportTakes: nat): Ledger {
    var n := DrainCount(|l.queued|, limit, transportTakes);
    l.(queued := l.queued[n..], delivered := l.delivered + l.queued[..n])
  }

  // ---- What every run keeps ----

  /** How often a ticket is on the books. */
  ghost function Books(l: Ledger): multiset<nat> { multiset(l.queued) + multiset(l.delivered) + multiset(l.evicted) }

  ghost predicate Sound(l: Ledger) {
    && Tickets(l) && |l.queued| <= 8
    && Ascending(l.delivered + l.queued)
    && (forall t :: 0 <= t < |l.accepted| ==> Books(l)[t] == 1)
    && |l.accepted| == |l.delivered| + |l.queued| + |l.evicted|
    && (forall i :: 0 <= i < |l.evicted| ==> !Priority(l.accepted[l.evicted[i]]))
  }

  lemma RemoveKeepsAscending(prefix: seq<nat>, s: seq<nat>, i: nat)
    requires i < |s| && Ascending(prefix + s)
    ensures Ascending(prefix + RemoveAt(s, i))
  {
    var all, n := prefix + s, |prefix|;
    var r := prefix + RemoveAt(s, i);
    assert forall k :: 0 <= k < |r| ==> r[k] == all[if k < n + i then k else k + 1];
  }

  lemma RemovedOnce<T>(s: seq<T>, i: nat)
    requires i < |s|
    ensures multiset(s) == multiset(RemoveAt(s, i)) + multiset{s[i]}
  {
    assert s == s[..i] + [s[i]] + s[i + 1..];
  }

  lemma AppendKeepsSound(l: Ledger, e: DeviceEvent)
    requires Sound(l) && |l.queued| < CAPACITY
    ensures Sound(Append(l, e))
  {
    var l' := Append(l, e);
    assert forall k :: 0 <= k < |l.delivered + l.queued| ==> (l.delivered + l.queued)[k] < |l.accepted|;
    assert l'.delivered + l'.queued == (l.delivered + l.queued) + [|l.accepted|];
    assert Books(l') == Books(l) + multiset{|l.accepted|};
    NeverOnTheBooks(l, |l.accepted|);
  }

  lemma EvictKeepsSound(l: Ledger, i: nat)
    requires Sound(l) && i < |l.queued| && !Priority(l.accepted[l.queued[i]])
    ensures Sound(Evict(l, i))
  {
    RemoveKeepsAscending(l.delivered, l.queued, i);
    RemovedOnce(l.queued, i);
    EvictKeepsTickets(l, i);
    assert Books(Evict(l, i)) == Books(l);
  }

  lemma EvictKeepsTickets(l: Ledger, i: nat)
    requires Tickets(l) && i < |l.queued|
    ensures Tickets(Evict(l, i))
  {
    var l' := Evict(l, i);
    assert forall k :: 0 <= k < |l'.queued| ==> l'.queued[k] == l.queued[if k < i then k else k + 1];
  }

  lemma PublishKeepsSound(l: Ledger, e: DeviceEvent)
    requires Sound(l)
    ensures Sound(Publish(l, e))
  {
    var items := Items(l);
    if !Refuses(items, e) {
      if |items| >= CAPACITY {
        var i := FirstOrdinary(items);
        assert items[i] == l.accepted[l.queued[i]];
        EvictKeepsSound(l, i);
        AppendKeepsSound(Evict(l, i), e);
      } else {
        AppendKeepsSound(l, e);
      }
    }
  }

  lemma NeverOnTheBooks(l: Ledger, t: nat)
    requires Tickets(l) && t >= |l.accepted|
    ensures Books(l)[t] == 0
  {
    assert t !in l.queued && t !in l.delivered && t !in l.evicted;
  }

  lemma DrainKeepsSound(l: Ledger, limit: nat, transportTakes: nat)
    requires Sound(l)
    ensures Sound(Drain(l, limit, transportTakes))
    ensures Drain(l, limit, transportTakes).delivered + Drain(l, limit, transportTakes).queued == l.delivered + l.queued
  {
    var n := DrainCount(|l.queued|, limit, transportTakes);
    var l' := Drain(l, limit, transportTakes);
    SplitOnTheBooks(l, n);
    assert l'.delivered + l'.queued == l.delivered + l.queued;
  }

  /** A drain delivers in order until nothing is left, the limit is reached or the transport takes no more. */
  lemma DrainsAsFarAsItCan(l: Ledger, limit: nat, transportTakes: nat)
    ensures var l' := Drain(l, limit, transportTakes);
            var n := |l.queued| - |l'.queued|;
            && 0 <= n <= limit && n <= transportTakes
            && (n == limit || n == transportTakes || l'.queued == [])
            && l'.delivered == l.delivered + l.queued[..n] && l'.queued == l.queued[n..]
            && l'.accepted == l.accepted && l'.evicted == l.evicted
  {
  }

  lemma SplitOnTheBooks(l: Ledger, n: nat)
    requires n <= |l.queued|
    ensures Books(l.(queued := l.queued[n..], delivered := l.delivered + l.queued[..n])) == Books(l)
    ensures Tickets(l) ==> Tickets(l.(queued := l.queued[n..], delivered := l.delivered + l.queued[..n]))
  {
    assert l.queued == l.queued[..n] + l.queued[n..];
    assert multiset(l.queued) == multiset(l.queued[..n]) + multiset(l.queued[n..]);
  }

  datatype Call = PublishCall(e: DeviceEvent) | DrainCall(limit: nat, transportTakes: nat)

  ghost function Step(l: Ledger, call: Call): (l': Ledger)
    requires Sound(l)
    ensures Sound(l')
  {
    match call
    case PublishCall(e) => PublishKeepsSound(l, e); Publish(l, e)
    case DrainCall(limit, takes) => DrainKeepsSound(l, limit, takes); Drain(l, limit, takes)
  }

  /** Any interleaving of publishing and draining, failed drains included. */
  ghost function Run(l: Ledger, calls: seq<Call>): (last: Ledger)
    requires Sound(l)
    ensures Sound(last)
    decreases |calls|
  {
    if calls == [] then l else Run(Step(l, calls[0]), calls[1..])
  }

  /** A run goes on where it stopped. */
  lemma {:induction false} RunsInARow(l: Ledger, calls: seq<Call>, call: Call)
    requires Sound(l)
    ensures Run(l, calls + [call]) == Step(Run(l, calls), call)
    decreases |calls|
  {
    if calls == [] {
      assert ([] + [call])[1..] == [];
    } else {
      assert (calls + [call])[1..] == calls[1..] + [call];
      RunsInARow(Step(l, calls[0]), calls[1..], call);
    }
  }

  // ---- Consequences ----

  /** A priority event is never lost: it waits in the queue or has been delivered. */
  lemma PriorityIsNeverLost(l: Ledger, t: nat)
    requires Sound(l) && t < |l.accepted| && Priority(l.accepted[t])
    ensures t in l.queued || t in l.delivered
  {
    assert t in Books(l);
    assert t !in l.evicted;
  }

  /** Delivery keeps the order of acceptance, and nothing is delivered twice. */
  lemma DeliveryIsASubsequence(l: Ledger)
    requires Sound(l)
    ensures Ascending(l.delivered)
    ensures forall i, j :: 0 <= i < |l.delivered| && 0 <= j < |l.queued| ==> l.delivered[i] < l.queued[j]
  {
    var all := l.delivered + l.queued;
    assert forall i :: 0 <= i < |l.delivered| ==> l.delivered[i] == all[i];
    assert forall j :: 0 <= j < |l.queued| ==> l.queued[j] == all[|l.delivered| + j];
  }

  /** Publishing evicts at most one event, the oldest ordinary one, and only when the queue is full of older ones. */
  lemma EvictsOldestOrdinary(l: Ledger, e: DeviceEvent)
    requires Sound(l)
    ensures var l' := Publish(l, e);
            l'.evicted == l.evicted ||
            (Priority(e) && |l.queued| == 8 && |l'.evicted| == |l.evicted| + 1
             && l'.evicted[..|l.evicted|] == l.evicted
             && l'.evicted[|l.evicted|] in l.queued
             && forall t :: t in l.queued && t < l'.evicted[|l.evicted|] ==> Priority(l.accepted[t]))
  {
    var l' := Publish(l, e);
    var items := Items(l);
    if l'.evicted != l.evicted {
      var i := FirstOrdinary(items);
      DeliveryIsASubsequence(l);
      assert Ascending(l.queued) by {
        var all := l.delivered + l.queued;
        assert forall j :: 0 <= j < |l.queued| ==> l.queued[j] == all[|l.delivered| + j];
      }
      forall t | t in l.queued && t < l.queued[i]
        ensures Priority(l.accepted[t])
      {
        var k :| 0 <= k < |l.queued| && l.queued[k] == t;
        assert k < i && items[k] == l.accepted[t];
      }
    }
  }

  /** An event is refused exactly when the queue is full and it cannot take an ordinary one's place. */
  lemma RefusedExactlyWhen(l: Ledger, e: DeviceEvent)
    requires Sound(l)
    ensures Publish(l, e).accepted == l.accepted <==>
      |l.queued| == 8 && (!Priority(e) || forall t :: t in l.queued ==> Priority(l.accepted[t]))
  {
    var items := Items(l);
    var i := FirstOrdinary(items);
    if i < |items| { assert l.queued[i] in l.queued && items[i] == l.accepted[l.queued[i]]; }
    assert forall k :: 0 <= k < |items| ==> items[k] == l.accepted[l.queued[k]];
    assert |l.accepted + [e]| > |l.accepted|;
  }

  /** The tickets follow the queue. */
  lemma LedgerFollowsQueue(l: Ledger, e: DeviceEvent)
    requires Sound(l)
    ensures Tickets(Publish(l, e))
    ensures Items(Publish(l, e)) == if Refuses(Items(l), e) then Items(l) else Enqueued(Items(l), e)
  {
    PublishKeepsSound(l, e);
    if !Refuses(Items(l), e) {
      if |l.queued| >= CAPACITY {
        var i := FirstOrdinary(Items(l));
        assert Items(Evict(l, i)) == RemoveAt(Items(l), i);
        assert Items(Append(Evict(l, i), e)) == Items(Evict(l, i)) + [e];
      } else {
        assert Items(Append(l, e)) == Items(l) + [e];
      }
    }
  }
}
