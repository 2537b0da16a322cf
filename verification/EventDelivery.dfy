/**
 What one consumer receives from one device over a whole run: its reads add up to an ascending
 sequence that leaves out only events the ring had already evicted.
 */
module EventDelivery {
  import opened Collections
  import opened EventBuffer
  import opened Options
  import opened OrderedTable

  /** The buffer, everything the watched device appended and everything the watched consumer received. */
  datatype Watch = Watch(b: Buffer, appended: seq<Record>, received: seq<Record>)

  const START := Watch(EMPTY, [], [])

  predicate Reads(step: Step, key: Key) {
    step.ReadStep? && step.key == key && key.consumer != "" && (step.limit.None? || step.limit.value >= 0)
  }

  function NextWatch(c: Config, w: Watch, step: Step, key: Key): Watch
    requires ConfigOk(c)
  {
    Watch(Next(c, w.b, step),
          if step.AppendStep? && step.device == key.device
          then w.appended + [Record(w.b.next, step.id, step.name, step.stamp)] else w.appended,
          if Reads(step, key)
          then w.received + Selected(Prune(c, w.b, step.now), key, step.limit, step.after) else w.received)
  }

  /** No clear, no expiry and no eviction of this cursor, and the reads of its consumer start at the cursor. */
  ghost predicate Undisturbed(c: Config, b: Buffer, step: Step, key: Key)
    requires ConfigOk(c)
  {
    match step
    case AppendStep(_, _, _, _, _) => true
    case ReadStep(k, _, after, now) =>
      (key in b.cursors ==> key in Prune(c, b, now).cursors && key in Next(c, b, step).cursors)
        && (k == key ==> after.None?)
    case ClearStep(consumer, target) => consumer == "" || !Cleared(key, consumer, target)
  }

  // ---- Newer records are a suffix ----

  function FirstNewer(ring: seq<Record>, after: int): (i: nat)
    ensures i <= |ring|
    ensures forall k :: 0 <= k < i ==> ring[k].sequence <= after
    ensures i < |ring| ==> ring[i].sequence > after
  {
    if ring == [] || ring[0].sequence > after then 0 else 1 + FirstNewer(ring[1..], after)
  }

  lemma {:induction false} NewerIsSuffix(ring: seq<Record>, after: int)
    requires Ascending(ring)
    ensures Newer(ring, after) == ring[FirstNewer(ring, after)..]
    decreases |ring|
  {
    if ring != [] {
      NewerIsSuffix(ring[1..], after);
      if ring[0].sequence > after { NewerIsAll(ring[1..], after); }
    }
  }

  lemma {:induction false} NewerIsAll(ring: seq<Record>, after: int)
    requires forall i :: 0 <= i < |ring| ==> ring[i].sequence > after
    ensures Newer(ring, after) == ring
    decreases |ring|
  {
    if ring != [] { NewerIsAll(ring[1..], after); }
  }

  // ---- One read ----

  /** The cursor after a read that selected these records. */
  function NewCursor(cursor: int, selected: seq<Record>): int {
    if selected == [] then cursor else selected[|selected| - 1].sequence
  }

  /** In order, all after the cursor, and no retained record up to the new cursor (or at all) left out. */
  ghost predicate TheNext(ring: seq<Record>, cursor: int, selected: seq<Record>, all: bool) {
    && Ascending(selected) && cursor <= NewCursor(cursor, selected)
    && (forall i :: 0 <= i < |selected| ==> selected[i] in ring && selected[i].sequence > cursor)
    && (forall r :: r in ring && cursor < r.sequence && (all || r.sequence <= NewCursor(cursor, selected)) ==>
          r in selected)
  }

  lemma SliceIsTheNext(ring: seq<Record>, cursor: int, lo: nat, hi: nat)
    requires Ascending(ring) && lo <= hi <= |ring|
    requires forall k :: 0 <= k < lo ==> ring[k].sequence <= cursor
    requires lo < |ring| ==> ring[lo].sequence > cursor
    ensures TheNext(ring, cursor, ring[lo..hi], hi == |ring|)
  {
    var selected := ring[lo..hi];
    assert forall i :: 0 <= i < |selected| ==> selected[i] == ring[lo + i];
    forall r | r in ring && cursor < r.sequence && (hi == |ring| || r.sequence <= NewCursor(cursor, selected))
      ensures r in selected
    {
      var i :| 0 <= i < |ring| && ring[i] == r;
      assert lo <= i < hi;
      assert r == selected[i - lo];
    }
  }

  lemma NewerSlice(ring: seq<Record>, after: int) returns (lo: nat)
    requires Ascending(ring)
    ensures lo <= |ring| && Newer(ring, after) == ring[lo..]
    ensures forall k :: 0 <= k < lo ==> ring[k].sequence <= after
    ensures lo < |ring| ==> ring[lo].sequence > after
  {
    lo := FirstNewer(ring, after);
    NewerIsSuffix(ring, after);
  }

  lemma HeadSlice(ring: seq<Record>, lo: nat, limit: Option<int>) returns (hi: nat)
    requires lo <= |ring| && (limit.Some? ==> limit.value >= 0)
    ensures lo <= hi <= |ring| && Head(ring[lo..], limit) == ring[lo..hi] && (limit.None? ==> hi == |ring|)
  {
    hi := lo + |Head(ring[lo..], limit)|;
  }

  /** Where in the ring the records stand that come after the cursor. */
  ghost function Waiting(ring: seq<Record>, cursor: int): set<nat> {
    set i: nat | i < |ring| && ring[i].sequence > cursor
  }

  lemma {:induction false} RangeSize(s: set<nat>, lo: nat, hi: nat)
    requires lo <= hi && forall i: nat :: i in s <==> lo <= i < hi
    ensures |s| == hi - lo
    decreases hi - lo
  {
    if lo < hi {
      RangeSize(s - {lo}, lo + 1, hi);
    } else {
      assert s == {};
    }
  }

  function Smaller(limit: Option<int>, n: nat): int {
    if limit.None? then n else if limit.value < n then limit.value else n
  }

  lemma WaitingIsSuffix(ring: seq<Record>, cursor: int, lo: nat)
    requires lo <= |ring| && Ascending(ring)
    requires forall k :: 0 <= k < lo ==> ring[k].sequence <= cursor
    requires lo < |ring| ==> ring[lo].sequence > cursor
    ensures |Waiting(ring, cursor)| == |ring| - lo
  {
    forall i: nat
      ensures i in Waiting(ring, cursor) <==> lo <= i < |ring|
    {
      if lo < i < |ring| { assert ring[lo].sequence < ring[i].sequence; }
    }
    RangeSize(Waiting(ring, cursor), lo, |ring|);
  }

  lemma NewerCount(ring: seq<Record>, cursor: int)
    requires Ascending(ring)
    ensures |Newer(ring, cursor)| == |Waiting(ring, cursor)|
  {
    var lo := NewerSlice(ring, cursor);
    WaitingIsSuffix(ring, cursor, lo);
  }

  /**
   A read returns the next retained records after the cursor: without a limit all of them, with one as many as
   wait but no more than it says.
   */
  lemma ReadReturnsTheNext(ring: seq<Record>, cursor: int, limit: Option<int>)
    requires Ascending(ring) && (limit.Some? ==> limit.value >= 0)
    ensures TheNext(ring, cursor, Head(Newer(ring, cursor), limit), limit.None?)
    ensures |Head(Newer(ring, cursor), limit)| == Smaller(limit, |Waiting(ring, cursor)|)
  {
    var lo := NewerSlice(ring, cursor);
    var hi := HeadSlice(ring, lo, limit);
    SliceIsTheNext(ring, cursor, lo, hi);
    NewerCount(ring, cursor);
  }

  /** Where a read starts: at the cursor, if it has not expired, or where the caller says. */
  function From(c: Config, b: Buffer, key: Key, after: Option<int>, now: nat): int {
    if after.None? then CursorOf(Prune(c, b, now), key) else after.value
  }

  /**
   What every read that is not refused delivers, and where it leaves the cursor: with a limit that is not zero
   and something waiting it always gets on.
   */
  lemma EveryReadGetsOn(c: Config, b: Buffer, key: Key, limit: Option<int>, after: Option<int>, now: nat)
    requires ConfigOk(c) && Kept(c, b) && key.consumer != "" && (limit.Some? ==> limit.value >= 0)
    ensures var ring, cursor := Retained(b.events, key.device), From(c, b, key, after, now);
            var got, b' := Selected(Prune(c, b, now), key, limit, after), Read(c, b, key, limit, after, now);
            && TheNext(ring, cursor, got, limit.None?) && |got| == Smaller(limit, |Waiting(ring, cursor)|)
            && (limit != Some(0) && Waiting(ring, cursor) != {} ==> got != [])
            && (got == [] ==> b' == Prune(c, b, now))
            && (got != [] ==>
                  key in b'.cursors && b'.cursors[key] == got[|got| - 1].sequence && Entry(key, now) in b'.touched)
  {
    PruneKeeps(c, b, now);
    PruneLeaves(c, b, now, key);
    assert RingOk(c, b, key.device);
    ReadReturnsTheNext(Retained(b.events, key.device), From(c, b, key, after, now), limit);
    ReadSetsCursor(c, Prune(c, b, now), key, Selected(Prune(c, b, now), key, limit, after), now);
  }

  lemma PutHas(table: seq<Touch>, e: Touch)
    ensures e in Put(table, e)
  {
    var i, put := Find(table, e.key), Put(table, e);
    assert put[if i < |table| then i else |table|] == e;
  }

  lemma ReadSetsCursor(c: Config, b: Buffer, key: Key, selected: seq<Record>, now: nat)
    ensures var b' := Advance(c, b, key, selected, now);
            && (selected == [] ==> b' == b)
            && (selected != [] ==>
                  key in b'.cursors && b'.cursors[key] == selected[|selected| - 1].sequence
                  && Entry(key, now) in b'.touched)
  {
    if selected != [] { PutHas((if key in b.cursors then b else MakeRoom(c, b)).touched, Entry(key, now)); }
  }

  /** A cursor is still there at `now` exactly when it was last touched less than the time to live ago. */
  lemma ExpiresExactlyWhen(c: Config, b: Buffer, e: Touch, now: nat)
    requires SameKeys(b) && e in b.touched
    ensures e.key in Prune(c, b, now).cursors <==> c.ttl > 0 && now < e.at + c.ttl
    ensures e.key in Prune(c, b, now).cursors ==> Prune(c, b, now).cursors[e.key] == b.cursors[e.key]
  {
    assert e.key in Keys(b.touched);
    if c.ttl > 0 {
      WithoutHas(b.touched, ExpiredKeys(c, b.touched, now), e);
      if e.key in ExpiredKeys(c, b.touched, now) {
        var e' :| e' in b.touched && now - e'.at >= c.ttl && e'.key == e.key;
        assert e' == e;
      }
    }
  }

  /** Clearing takes exactly the cursors of the named consumer, of the named device if one is named. */
  lemma ClearsExactly(b: Buffer, consumer: string, device: Option<string>, key: Key)
    ensures var b' := Clear(b, consumer, device);
            && b'.events == b.events && b'.next == b.next
            && (key in b'.cursors <==>
                  key in b.cursors
                  && (consumer == "" || key.consumer != consumer || (device.Some? && device.value != key.device)))
            && (key in b'.cursors ==> b'.cursors[key] == b.cursors[key])
  {
  }

  // ---- Whole runs ----

  /** The ring holds the most recent records. */
  ghost predicate Recent(appended: seq<Record>, ring: seq<Record>, maxlen: nat) {
    && |ring| == (if |appended| <= maxlen then |appended| else maxlen)
    && ring == appended[|appended| - |ring|..]
  }

  ghost predicate RingIsRecent(c: Config, w: Watch, key: Key) {
    Recent(w.appended, Retained(w.b.events, key.device), c.maxlen)
  }

  ghost predicate AppendedOk(w: Watch) {
    Ascending(w.appended) && forall i :: 0 <= i < |w.appended| ==> 0 < w.appended[i].sequence < w.b.next
  }

  /** Received in order up to the cursor, and whatever was passed over is no longer retained. */
  ghost predicate Received(w: Watch, key: Key) {
    && Ascending(w.received)
    && CursorOf(w.b, key) == NewCursor(0, w.received)
    && (forall r :: r in w.received ==> r in w.appended)
    && PassedOver(w.appended, w.received, Retained(w.b.events, key.device), CursorOf(w.b, key))
  }

  ghost predicate Following(c: Config, w: Watch, key: Key) {
    Kept(c, w.b) && RingIsRecent(c, w, key) && AppendedOk(w) && Received(w, key)
  }

  lemma StartFollows(c: Config, key: Key)
    requires ConfigOk(c)
    ensures Following(c, START, key)
  {
  }

  lemma RecentStays(appended: seq<Record>, ring: seq<Record>, record: Record, maxlen: nat)
    requires maxlen >= 1 && Recent(appended, ring, maxlen)
    ensures Recent(appended + [record], PushBounded(ring, record, maxlen), maxlen)
  {
    var n := |appended|;
    if |ring| < maxlen {
      assert ring == appended;
    } else {
      assert ring == appended[n - maxlen..];
      SuffixSlides(appended, record, maxlen);
    }
  }

  lemma SuffixSlides(appended: seq<Record>, record: Record, k: nat)
    requires 1 <= k <= |appended|
    ensures appended[|appended| - k..][1..] + [record] == (appended + [record])[|appended| + 1 - k..]
  {
  }

  ghost predicate PassedOver(appended: seq<Record>, received: seq<Record>, ring: seq<Record>, cursor: nat) {
    forall r :: r in appended && r.sequence <= cursor ==> r in received || r !in ring
  }

  lemma PassedOverStays(appended: seq<Record>, received: seq<Record>, ring: seq<Record>, cursor: nat, record: Record,
                        ring': seq<Record>)
    requires PassedOver(appended, received, ring, cursor) && cursor < record.sequence
    requires forall r :: r in ring' ==> r in ring || r == record
    ensures PassedOver(appended + [record], received, ring', cursor)
  {
  }

  lemma AppendStaysRecent(c: Config, w: Watch, w': Watch, key: Key, record: Record)
    requires ConfigOk(c) && RingIsRecent(c, w, key) && w'.appended == w.appended + [record]
    requires Retained(w'.b.events, key.device) == PushBounded(Retained(w.b.events, key.device), record, c.maxlen)
    ensures RingIsRecent(c, w', key)
  {
    RecentStays(w.appended, Retained(w.b.events, key.device), record, c.maxlen);
  }

  lemma AppendStaysReceived(w: Watch, w': Watch, key: Key, record: Record, maxlen: nat)
    requires maxlen >= 1 && Received(w, key) && CursorOf(w.b, key) < record.sequence
    requires w'.appended == w.appended + [record] && w'.received == w.received && w'.b.cursors == w.b.cursors
    requires Retained(w'.b.events, key.device) == PushBounded(Retained(w.b.events, key.device), record, maxlen)
    ensures Received(w', key)
  {
    PassedOverStays(w.appended, w.received, Retained(w.b.events, key.device), CursorOf(w.b, key), record,
                    Retained(w'.b.events, key.device));
  }

  lemma AppendFollows(c: Config, w: Watch, step: Step, key: Key)
    requires ConfigOk(c) && Following(c, w, key) && step.AppendStep? && step.device == key.device && Legal(w.b, step)
    ensures RingIsRecent(c, NextWatch(c, w, step, key), key) && AppendedOk(NextWatch(c, w, step, key))
    ensures Received(NextWatch(c, w, step, key), key)
  {
    var w' := NextWatch(c, w, step, key);
    var record := Record(w.b.next, step.id, step.name, step.stamp);
    CursorBehind(w, key);
    AppendStaysRecent(c, w, w', key, record);
    AppendStaysReceived(w, w', key, record, c.maxlen);
  }

  lemma CursorBehind(w: Watch, key: Key)
    requires AppendedOk(w) && Received(w, key) && w.b.next >= 1
    ensures CursorOf(w.b, key) < w.b.next
  {
    if w.received != [] { assert w.received[|w.received| - 1] in w.received; }
  }

  lemma PrunedCursor(c: Config, b: Buffer, step: Step, key: Key)
    requires ConfigOk(c) && step.ReadStep? && Undisturbed(c, b, step, key)
    ensures CursorOf(Prune(c, b, step.now), key) == CursorOf(b, key)
  {
  }

  /** A read by another consumer, or a refused one, leaves the cursor where it was. */
  lemma OthersLeaveCursor(c: Config, b: Buffer, step: Step, key: Key)
    requires ConfigOk(c) && Kept(c, b) && Undisturbed(c, b, step, key) && !Reads(step, key)
    ensures CursorOf(Next(c, b, step), key) == CursorOf(b, key)
  {
    if step.ReadStep? && step.key != key {
      var b' := Read(c, b, step.key, step.limit, step.after, step.now);
      ReadLeaves(c, b, step.key, step.limit, step.after, step.now);
      assert key in b.cursors <==> key in b'.cursors;
    }
  }

  lemma ReadMovesCursor(c: Config, b: Buffer, step: Step, key: Key)
    requires ConfigOk(c) && Undisturbed(c, b, step, key) && Reads(step, key)
    ensures CursorOf(Next(c, b, step), key)
            == NewCursor(CursorOf(b, key), Selected(Prune(c, b, step.now), key, step.limit, step.after))
  {
    PrunedCursor(c, b, step, key);
  }

  lemma NextRetained(c: Config, b: Buffer, step: Step, device: string)
    requires ConfigOk(c) && Kept(c, b) && (step.AppendStep? ==> step.device != device)
    ensures Retained(Next(c, b, step).events, device) == Retained(b.events, device) && b.next <= Next(c, b, step).next
  {
    if step.ReadStep? { ReadLeaves(c, b, step.key, step.limit, step.after, step.now); }
  }

  /** Reading on from the cursor extends what was received. */
  lemma ReceivedGrows(w: Watch, w': Watch, key: Key, selected: seq<Record>, ring: seq<Record>, all: bool)
    requires Received(w, key) && ring == Retained(w.b.events, key.device) == Retained(w'.b.events, key.device)
    requires w'.appended == w.appended && w'.received == w.received + selected
    requires TheNext(ring, CursorOf(w.b, key), selected, all)
             && CursorOf(w'.b, key) == NewCursor(CursorOf(w.b, key), selected)
    requires forall r :: r in ring ==> r in w.appended
    ensures Received(w', key)
  {
    AppendAscending(w.received, selected, CursorOf(w.b, key));
  }

  lemma ReadFollows(c: Config, w: Watch, step: Step, key: Key)
    requires ConfigOk(c) && Following(c, w, key) && Reads(step, key) && Undisturbed(c, w.b, step, key)
    ensures Received(NextWatch(c, w, step, key), key)
  {
    var ring := Retained(w.b.events, key.device);
    PrunedCursor(c, w.b, step, key);
    assert RingOk(c, w.b, key.device);
    ReadReturnsTheNext(ring, CursorOf(w.b, key), step.limit);
    ReadMovesCursor(c, w.b, step, key);
    NextRetained(c, w.b, step, key.device);
    RetainedWasAppended(c, w, key);
    ReceivedGrows(w, NextWatch(c, w, step, key), key,
                  Selected(Prune(c, w.b, step.now), key, step.limit, step.after), ring, step.limit.None?);
  }

  lemma RetainedWasAppended(c: Config, w: Watch, key: Key)
    requires RingIsRecent(c, w, key)
    ensures forall r :: r in Retained(w.b.events, key.device) ==> r in w.appended
  {
  }

  lemma AppendAscending(received: seq<Record>, selected: seq<Record>, cursor: nat)
    requires Ascending(received) && Ascending(selected) && cursor == NewCursor(0, received)
    requires forall i :: 0 <= i < |selected| ==> selected[i].sequence > cursor
    ensures Ascending(received + selected) && NewCursor(0, received + selected) == NewCursor(cursor, selected)
  {
    var both, n := received + selected, |received|;
    forall i, j | 0 <= i < j < |both|
      ensures both[i].sequence < both[j].sequence
    {
      if i < n <= j { assert received[i].sequence <= cursor < selected[j - n].sequence; }
    }
  }

  lemma OthersFollow(c: Config, w: Watch, step: Step, key: Key)
    requires ConfigOk(c) && Following(c, w, key) && !Reads(step, key) && Undisturbed(c, w.b, step, key)
    requires step.AppendStep? ==> step.device != key.device
    ensures Received(NextWatch(c, w, step, key), key)
  {
    OthersLeaveCursor(c, w.b, step, key);
    NextRetained(c, w.b, step, key.device);
  }

  lemma SameAppended(c: Config, w: Watch, w': Watch, key: Key)
    requires RingIsRecent(c, w, key) && AppendedOk(w) && w'.appended == w.appended && w.b.next <= w'.b.next
    requires Retained(w'.b.events, key.device) == Retained(w.b.events, key.device)
    ensures RingIsRecent(c, w', key) && AppendedOk(w')
  {
  }

  lemma StepFollows(c: Config, w: Watch, step: Step, key: Key)
    requires ConfigOk(c) && Following(c, w, key) && Legal(w.b, step) && Undisturbed(c, w.b, step, key)
    ensures Following(c, NextWatch(c, w, step, key), key)
  {
    StepKeeps(c, w.b, step);
    if step.AppendStep? && step.device == key.device {
      AppendFollows(c, w, step, key);
    } else {
      NextRetained(c, w.b, step, key.device);
      SameAppended(c, w, NextWatch(c, w, step, key), key);
      if Reads(step, key) { ReadFollows(c, w, step, key); } else { OthersFollow(c, w, step, key); }
    }
  }

  ghost predicate LegalRun(c: Config, w: Watch, steps: seq<Step>, key: Key)
    requires ConfigOk(c)
    decreases |steps|
  {
    steps == [] ||
    (Legal(w.b, steps[0]) && Undisturbed(c, w.b, steps[0], key)
     && LegalRun(c, NextWatch(c, w, steps[0], key), steps[1..], key))
  }

  function RunWatch(c: Config, w: Watch, steps: seq<Step>, key: Key): Watch
    requires ConfigOk(c)
    decreases |steps|
  {
    if steps == [] then w else RunWatch(c, NextWatch(c, w, steps[0], key), steps[1..], key)
  }

  /**
   Over any run that leaves its cursor alone, a consumer receives an ascending sequence missing only
   evicted events.
   */
  lemma {:induction false} RunFollows(c: Config, w: Watch, steps: seq<Step>, key: Key)
    requires ConfigOk(c) && Following(c, w, key) && LegalRun(c, w, steps, key)
    ensures Following(c, RunWatch(c, w, steps, key), key)
    decreases |steps|
  {
    if steps != [] {
      StepFollows(c, w, steps[0], key);
      RunFollows(c, NextWatch(c, w, steps[0], key), steps[1..], key);
    }
  }

  function Appends(steps: seq<Step>): nat {
    if steps == [] then 0 else Appends(steps[1..]) + if steps[0].AppendStep? then 1 else 0
  }

  /** Whatever the device, the events of a run are numbered one after the other. */
  lemma {:induction false} NumbersAreConsecutive(c: Config, w: Watch, steps: seq<Step>, key: Key)
    requires ConfigOk(c) && Following(c, w, key) && LegalRun(c, w, steps, key)
    ensures RunWatch(c, w, steps, key).b.next == w.b.next + Appends(steps)
    decreases |steps|
  {
    if steps != [] {
      StepFollows(c, w, steps[0], key);
      if steps[0].ReadStep? {
        ReadLeaves(c, w.b, steps[0].key, steps[0].limit, steps[0].after, steps[0].now);
      }
      NumbersAreConsecutive(c, NextWatch(c, w, steps[0], key), steps[1..], key);
    }
  }

  /** From the empty buffer on. */
  lemma EveryRunFollows(c: Config, steps: seq<Step>, key: Key)
    requires ConfigOk(c) && LegalRun(c, START, steps, key)
    ensures var w := RunWatch(c, START, steps, key);
            Kept(c, w.b) && RingIsRecent(c, w, key) && Received(w, key) && w.b.next == 1 + Appends(steps)
  {
    StartFollows(c, key);
    RunFollows(c, START, steps, key);
    NumbersAreConsecutive(c, START, steps, key);
  }
}
