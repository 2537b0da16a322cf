/**
 The bridge's event buffer as a value: a bounded ring of events per device, and a cursor per
 consumer and device that reading advances.
 */
module EventBuffer {
  import opened Collections
  import opened EventIds
  import opened Options
  import opened OrderedTable

  datatype Config = Config(maxlen: nat, maxCursors: nat, ttl: nat)

  predicate ConfigOk(c: Config) { c.maxlen >= 1 && c.maxCursors >= 1 }

  datatype Record = Record(sequence: nat, eventId: string, name: string, stamp: nat)

  datatype Key = Key(consumer: string, device: string)

  type Touch = Entry<Key>

  /** `touched` is ordered by insertion, which decides between cursors touched at the same time. */
  datatype Buffer = Buffer(events: map<string, seq<Record>>, cursors: map<Key, nat>, touched: seq<Touch>, next: nat)

  const EMPTY := Buffer(map[], map[], [], 1)

  function Retained(events: map<string, seq<Record>>, device: string): seq<Record> {
    if device in events then events[device] else []
  }

  function Ids(ring: seq<Record>): set<string> { set r | r in ring :: r.eventId }

  // ---- Operations ----

  function Append(c: Config, b: Buffer, device: string, name: string, stamp: nat, id: string): Buffer
    requires ConfigOk(c)
  {
    var record := Record(b.next, id, name, stamp);
    b.(events := b.events[device := PushBounded(Retained(b.events, device), record, c.maxlen)], next := b.next + 1)
  }

  function ExpiredKeys(c: Config, touched: seq<Touch>, now: nat): set<Key> {
    set e | e in touched && now - e.at >= c.ttl :: e.key
  }

  function Forget(b: Buffer, gone: set<Key>): Buffer {
    b.(cursors := b.cursors - gone, touched := Without(b.touched, gone))
  }

  function Prune(c: Config, b: Buffer, now: nat): Buffer {
    if c.ttl == 0 then b.(cursors := map[], touched := []) else Forget(b, ExpiredKeys(c, b.touched, now))
  }

  function Newer(ring: seq<Record>, after: int): seq<Record> {
    if ring == [] then []
    else if ring[0].sequence > after then [ring[0]] + Newer(ring[1..], after)
    else Newer(ring[1..], after)
  }

  /** The first `limit` records; a negative limit is refused before this. */
  function Head(records: seq<Record>, limit: Option<int>): seq<Record>
    requires limit.Some? ==> limit.value >= 0
  {
    if limit.None? || limit.value >= |records| then records else records[..limit.value]
  }

  function CursorOf(b: Buffer, key: Key): nat { if key in b.cursors then b.cursors[key] else 0 }

  /** What a read returns, after expired cursors are gone. */
  function Selected(b: Buffer, key: Key, limit: Option<int>, after: Option<int>): seq<Record>
    requires limit.Some? ==> limit.value >= 0
  {
    Head(Newer(Retained(b.events, key.device), if after.None? then CursorOf(b, key) else after.value), limit)
  }

  /** Drop a touched cursor. */
  function DropCursor(b: Buffer, i: nat): Buffer
    requires i < |b.touched|
  {
    b.(cursors := b.cursors - {b.touched[i].key}, touched := RemoveAt(b.touched, i))
  }

  /** Room for a new cursor: the ones touched longest ago go, of equally old ones the first inserted. */
  function MakeRoom(c: Config, b: Buffer): Buffer
    decreases |b.touched|
  {
    if |b.cursors| >= c.maxCursors && b.touched != [] then MakeRoom(c, DropCursor(b, Oldest(b.touched))) else b
  }

  function SetCursor(b: Buffer, key: Key, sequence: nat, now: nat): Buffer {
    b.(cursors := b.cursors[key := sequence], touched := Put(b.touched, Entry(key, now)))
  }

  function Advance(c: Config, b: Buffer, key: Key, selected: seq<Record>, now: nat): Buffer {
    if selected == [] then b
    else SetCursor(if key in b.cursors then b else MakeRoom(c, b), key, selected[|selected| - 1].sequence, now)
  }

  /** A read once the expired cursors are gone. */
  function ReadOn(c: Config, b: Buffer, key: Key, limit: Option<int>, after: Option<int>, now: nat): Buffer {
    if limit.Some? && limit.value < 0 then b else Advance(c, b, key, Selected(b, key, limit, after), now)
  }

  function Read(c: Config, b: Buffer, key: Key, limit: Option<int>, after: Option<int>, now: nat): Buffer {
    if key.consumer == "" then b else ReadOn(c, Prune(c, b, now), key, limit, after, now)
  }

  /** The cursors of one consumer, on one device or on all. */
  predicate Cleared(key: Key, consumer: string, device: Option<string>) {
    key.consumer == consumer && (device.None? || key.device == device.value)
  }

  function Clear(b: Buffer, consumer: string, device: Option<string>): Buffer {
    if consumer == "" then b
    else Forget(b, set k | k in b.cursors && Cleared(k, consumer, device))
  }

  // ---- Steps ----

  datatype Step =
    | AppendStep(device: string, name: string, stamp: nat, candidate: string, id: string)
    | ReadStep(key: Key, limit: Option<int>, after: Option<int>, now: nat)
    | ClearStep(consumer: string, target: Option<string>)

  /** The identifier is the one the search for a free one finds. */
  ghost predicate Legal(b: Buffer, step: Step) {
    step.AppendStep? ==>
      var taken := Ids(Retained(b.events, step.device));
      step.id !in taken && FirstFree(taken, step.candidate, b.next, step.id)
  }

  function Next(c: Config, b: Buffer, step: Step): Buffer
    requires ConfigOk(c)
  {
    match step
    case AppendStep(device, name, stamp, _, id) => Append(c, b, device, name, stamp, id)
    case ReadStep(key, limit, after, now) => Read(c, b, key, limit, after, now)
    case ClearStep(consumer, target) => Clear(b, consumer, target)
  }

  // ---- What every step keeps ----

  ghost predicate Ascending(records: seq<Record>) {
    forall i, j :: 0 <= i < j < |records| ==> records[i].sequence < records[j].sequence
  }

  ghost predicate DistinctIds(ring: seq<Record>) {
    forall i, j :: 0 <= i < j < |ring| ==> ring[i].eventId != ring[j].eventId
  }

  ghost predicate RingSound(c: Config, ring: seq<Record>, next: nat) {
    && |ring| <= c.maxlen && Ascending(ring) && DistinctIds(ring)
    && forall i :: 0 <= i < |ring| ==> 0 < ring[i].sequence < next
  }

  ghost predicate RingOk(c: Config, b: Buffer, device: string) { RingSound(c, Retained(b.events, device), b.next) }

  /** Rings are short, ordered and without two equal ids; both cursor tables have the same keys, and not too many. */
  ghost predicate Kept(c: Config, b: Buffer) { RingsOk(c, b) && CursorsOk(c, b) }

  ghost predicate RingsOk(c: Config, b: Buffer) { b.next >= 1 && forall device: string :: RingOk(c, b, device) }

  ghost predicate CursorsOk(c: Config, b: Buffer) { SameKeys(b) && |b.cursors| <= c.maxCursors }

  ghost predicate SameKeys(b: Buffer) { DistinctKeys(b.touched) && Keys(b.touched) == b.cursors.Keys }

  lemma EmptyIsKept(c: Config)
    requires ConfigOk(c)
    ensures Kept(c, EMPTY)
  {
  }

  lemma AppendKeeps(c: Config, b: Buffer, device: string, name: string, stamp: nat, id: string)
    requires ConfigOk(c) && Kept(c, b) && id !in Ids(Retained(b.events, device))
    ensures Kept(c, Append(c, b, device, name, stamp, id))
  {
    var b' := Append(c, b, device, name, stamp, id);
    forall d: string
      ensures RingOk(c, b', d)
    {
      assert RingOk(c, b, d);
      if d == device { PushKeepsRing(c, Retained(b.events, d), Record(b.next, id, name, stamp)); }
    }
  }

  lemma PushKeepsRing(c: Config, ring: seq<Record>, record: Record)
    requires ConfigOk(c) && record.sequence >= 1 && RingSound(c, ring, record.sequence) && record.eventId !in Ids(ring)
    ensures RingSound(c, PushBounded(ring, record, c.maxlen), record.sequence + 1)
  {
    var dropped := if |ring| >= c.maxlen then |ring| + 1 - c.maxlen else 0;
    DropKeepsRing(c, ring, dropped, record.sequence);
    SnocKeepsRing(c, ring[dropped..], record);
    assert PushBounded(ring, record, c.maxlen) == ring[dropped..] + [record];
  }

  lemma DropKeepsRing(c: Config, ring: seq<Record>, dropped: nat, next: nat)
    requires dropped <= |ring| && RingSound(c, ring, next)
    ensures RingSound(c, ring[dropped..], next) && Ids(ring[dropped..]) <= Ids(ring)
  {
  }

  lemma SnocKeepsRing(c: Config, ring: seq<Record>, record: Record)
    requires |ring| < c.maxlen && record.sequence >= 1 && RingSound(c, ring, record.sequence)
             && record.eventId !in Ids(ring)
    ensures RingSound(c, ring + [record], record.sequence + 1)
  {
    forall i | 0 <= i < |ring|
      ensures ring[i].eventId != record.eventId
    {
      assert ring[i] in ring;
    }
  }

  lemma SameRings(c: Config, b: Buffer, b': Buffer)
    requires RingsOk(c, b) && b'.events == b.events && b'.next == b.next
    ensures RingsOk(c, b')
  {
    forall d: string ensures RingOk(c, b', d) { assert RingOk(c, b, d); }
  }

  lemma FewerKeys(m: map<Key, nat>, n: map<Key, nat>)
    requires m.Keys <= n.Keys
    ensures |m| <= |n|
  {
    SubsetSize(m.Keys, n.Keys);
    assert |m| == |m.Keys| && |n| == |n.Keys|;
  }

  lemma ForgetKeeps(c: Config, b: Buffer, gone: set<Key>)
    requires Kept(c, b)
    ensures Kept(c, Forget(b, gone))
  {
    SameRings(c, b, Forget(b, gone));
    WithoutKeys(b.touched, gone);
    FewerKeys(b.cursors - gone, b.cursors);
  }

  lemma PruneKeeps(c: Config, b: Buffer, now: nat)
    requires Kept(c, b)
    ensures Kept(c, Prune(c, b, now))
  {
    if c.ttl == 0 { SameRings(c, b, Prune(c, b, now)); } else { ForgetKeeps(c, b, ExpiredKeys(c, b.touched, now)); }
  }

  lemma DropCursorKeeps(b: Buffer, i: nat)
    requires SameKeys(b) && i < |b.touched|
    ensures SameKeys(DropCursor(b, i)) && |DropCursor(b, i).cursors| == |b.cursors| - 1
  {
    var k := b.touched[i].key;
    RemoveAtKeys(b.touched, i);
    assert k in Keys(b.touched);
    assert (b.cursors - {k}).Keys == b.cursors.Keys - {k};
    assert |b.cursors| == |b.cursors.Keys| && |b.cursors - {k}| == |(b.cursors - {k}).Keys|;
  }

  /** Making room drops no more cursors than it must, and leaves the others as they are. */
  lemma {:induction false} MakeRoomKeeps(c: Config, b: Buffer)
    requires ConfigOk(c) && SameKeys(b)
    ensures SameKeys(MakeRoom(c, b)) && MakeRoom(c, b).events == b.events && MakeRoom(c, b).next == b.next
    ensures |MakeRoom(c, b).cursors| == if |b.cursors| < c.maxCursors then |b.cursors| else c.maxCursors - 1
    ensures MakeRoom(c, b).cursors.Keys <= b.cursors.Keys
    ensures forall k :: k in MakeRoom(c, b).cursors ==> MakeRoom(c, b).cursors[k] == b.cursors[k]
    decreases |b.touched|
  {
    if b.touched == [] {
      assert b.cursors.Keys == {} && |b.cursors| == |b.cursors.Keys|;
    } else if |b.cursors| >= c.maxCursors {
      var i := Oldest(b.touched);
      DropCursorKeeps(b, i);
      MakeRoomKeeps(c, DropCursor(b, i));
    }
  }

  /** `x` goes before `y`: touched earlier, or at the same time but inserted first. */
  predicate Before(touched: seq<Touch>, x: nat, y: nat)
    requires x < |touched| && y < |touched|
  {
    touched[x].at < touched[y].at || (touched[x].at == touched[y].at && x < y)
  }

  function Shifted(i: nat, x: nat): nat { if x > i then x - 1 else x }

  lemma RemoveAtShifts(touched: seq<Touch>, i: nat, x: nat, y: nat)
    requires i < |touched| && x < |touched| && y < |touched| && x != i && y != i
    ensures var rest := RemoveAt(touched, i);
            Shifted(i, x) < |rest| && rest[Shifted(i, x)] == touched[x]
            && Shifted(i, y) < |rest| && rest[Shifted(i, y)] == touched[y]
            && (Before(rest, Shifted(i, x), Shifted(i, y)) <==> Before(touched, x, y))
  {
  }

  lemma TouchedHasCursor(b: Buffer, x: nat)
    requires SameKeys(b) && x < |b.touched|
    ensures b.touched[x].key in b.cursors
  {
    assert b.touched[x].key in Keys(b.touched);
  }

  /** Every cursor that goes was touched longer ago than every cursor that stays, or as long ago and inserted first. */
  lemma {:induction false} RoomTakesTheOldest(c: Config, b: Buffer, x: nat, y: nat)
    requires ConfigOk(c) && SameKeys(b) && x < |b.touched| && y < |b.touched|
    requires b.touched[x].key !in MakeRoom(c, b).cursors && b.touched[y].key in MakeRoom(c, b).cursors
    ensures Before(b.touched, x, y)
    decreases |b.touched|
  {
    TouchedHasCursor(b, x);
    var i := Oldest(b.touched);
    var rest := DropCursor(b, i);
    assert MakeRoom(c, b) == MakeRoom(c, rest);
    DropCursorKeeps(b, i);
    MakeRoomKeeps(c, rest);
    assert y != i;
    if x != i {
      RemoveAtShifts(b.touched, i, x, y);
      RoomTakesTheOldest(c, rest, Shifted(i, x), Shifted(i, y));
    }
  }

  lemma ClearKeeps(c: Config, b: Buffer, consumer: string, device: Option<string>)
    requires Kept(c, b)
    ensures Kept(c, Clear(b, consumer, device))
  {
    if consumer != "" { ForgetKeeps(c, b, set k | k in b.cursors && Cleared(k, consumer, device)); }
  }

  lemma SetCursorKeeps(c: Config, b: Buffer, key: Key, sequence: nat, now: nat)
    requires CursorsOk(c, b) && (key in b.cursors || |b.cursors| < c.maxCursors)
    ensures CursorsOk(c, SetCursor(b, key, sequence, now))
  {
    PutKeys(b.touched, Entry(key, now));
    var cursors := b.cursors[key := sequence];
    assert cursors.Keys == b.cursors.Keys + {key};
    assert |cursors| == |cursors.Keys| && |b.cursors| == |b.cursors.Keys|;
  }

  /** Only cursors change: the one of `key`, and those that go. */
  ghost predicate Leaves(b: Buffer, b': Buffer, key: Key) {
    && b'.events == b.events && b'.next == b.next
    && forall k :: k in b'.cursors && k != key ==> k in b.cursors && b'.cursors[k] == b.cursors[k]
  }

  lemma LeavesTwice(b0: Buffer, b1: Buffer, b2: Buffer, key: Key)
    requires Leaves(b0, b1, key) && Leaves(b1, b2, key)
    ensures Leaves(b0, b2, key)
  {
  }

  lemma AdvanceLeaves(c: Config, b: Buffer, key: Key, selected: seq<Record>, now: nat)
    requires ConfigOk(c) && SameKeys(b)
    ensures Leaves(b, Advance(c, b, key, selected, now), key)
  {
    if selected != [] && key !in b.cursors {
      var room := MakeRoom(c, b);
      MakeRoomKeeps(c, b);
      assert Advance(c, b, key, selected, now) == SetCursor(room, key, selected[|selected| - 1].sequence, now);
    }
  }

  lemma PruneLeaves(c: Config, b: Buffer, now: nat, key: Key)
    ensures Leaves(b, Prune(c, b, now), key)
  {
  }

  lemma ReadOnLeaves(c: Config, b: Buffer, key: Key, limit: Option<int>, after: Option<int>, now: nat)
    requires ConfigOk(c) && SameKeys(b)
    ensures Leaves(b, ReadOn(c, b, key, limit, after, now), key)
  {
    if limit.Some? ==> limit.value >= 0 { AdvanceLeaves(c, b, key, Selected(b, key, limit, after), now); }
  }

  lemma ReadLeaves(c: Config, b: Buffer, key: Key, limit: Option<int>, after: Option<int>, now: nat)
    requires ConfigOk(c) && Kept(c, b)
    ensures Leaves(b, Read(c, b, key, limit, after, now), key)
  {
    var pruned := Prune(c, b, now);
    PruneKeeps(c, b, now);
    PruneLeaves(c, b, now, key);
    ReadOnLeaves(c, pruned, key, limit, after, now);
    LeavesTwice(b, pruned, ReadOn(c, pruned, key, limit, after, now), key);
  }

  lemma AdvanceKeeps(c: Config, b: Buffer, key: Key, selected: seq<Record>, now: nat)
    requires ConfigOk(c) && Kept(c, b)
    ensures Kept(c, Advance(c, b, key, selected, now))
  {
    MakeRoomKeeps(c, b);
    SameRings(c, b, Advance(c, b, key, selected, now));
    if selected != [] {
      SetCursorKeeps(c, if key in b.cursors then b else MakeRoom(c, b), key, selected[|selected| - 1].sequence, now);
    }
  }

  lemma ReadOnKeeps(c: Config, b: Buffer, key: Key, limit: Option<int>, after: Option<int>, now: nat)
    requires ConfigOk(c) && Kept(c, b)
    ensures Kept(c, ReadOn(c, b, key, limit, after, now))
  {
    if limit.Some? ==> limit.value >= 0 { AdvanceKeeps(c, b, key, Selected(b, key, limit, after), now); }
  }

  lemma ReadKeeps(c: Config, b: Buffer, key: Key, limit: Option<int>, after: Option<int>, now: nat)
    requires ConfigOk(c) && Kept(c, b)
    ensures Kept(c, Read(c, b, key, limit, after, now))
  {
    PruneKeeps(c, b, now);
    ReadOnKeeps(c, Prune(c, b, now), key, limit, after, now);
  }

  lemma StepKeeps(c: Config, b: Buffer, step: Step)
    requires ConfigOk(c) && Kept(c, b) && Legal(b, step)
    ensures Kept(c, Next(c, b, step))
  {
    match step
    case AppendStep(device, name, stamp, _, id) => AppendKeeps(c, b, device, name, stamp, id);
    case ReadStep(key, limit, after, now) => ReadKeeps(c, b, key, limit, after, now);
    case ClearStep(consumer, target) => ClearKeeps(c, b, consumer, target);
  }
}
