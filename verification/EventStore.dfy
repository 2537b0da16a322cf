/** The event buffer with its dictionaries updated in place. */
module EventStore {
  import opened Collections
  import opened EventIds
  import opened EventBuffer
  import opened Options
  import opened OrderedTable

  datatype Answer = Refused | Records(records: seq<Record>)

  lemma {:induction false} IdsAreFew(ring: seq<Record>)
    ensures |Ids(ring)| <= |ring|
    decreases |ring|
  {
    if ring != [] {
      var last := |ring| - 1;
      IdsAreFew(ring[..last]);
      assert Ids(ring) == Ids(ring[..last]) + {ring[last].eventId};
    }
  }

  class Events {
    const config: Config
    var events: map<string, seq<Record>>
    var cursors: map<Key, nat>
    var touched: seq<Touch>
    var next: nat

    ghost function View(): Buffer
      reads this
    {
      Buffer(events, cursors, touched, next)
    }

    ghost predicate Valid()
      reads this
    {
      ConfigOk(config) && Kept(config, View())
    }

    constructor (config: Config)
      requires ConfigOk(config)
      ensures Valid() && View() == EMPTY && this.config == config
    {
      this.config := config;
      events, cursors, touched, next := map[], map[], [], 1;
      EmptyIsKept(config);
    }

    /** Appends under the given id if it is free on the device, else under the first free number. */
    method AppendEvent(device: string, name: string, stamp: nat, givenId: string) returns (record: Record)
      requires Valid() && config.maxlen < Spellings(DIGITS)
      modifies this
      ensures Valid()
      ensures var before := old(View());
              var candidate := if givenId == "" then Fallback(before.next) else Cut(givenId, EVENT_ID_MAX);
              var step := AppendStep(device, name, stamp, candidate, record.eventId);
              record == Record(before.next, record.eventId, name, stamp)
              && Legal(before, step) && View() == Next(config, before, step)
    {
      var ring := Retained(events, device);
      var candidate := if givenId == "" then Fallback(next) else Cut(givenId, EVENT_ID_MAX);
      IdsAreFew(ring);
      assert RingOk(config, View(), device);
      var id := UniqueEventId(Ids(ring), candidate, next);
      record := Record(next, id, name, stamp);
      AppendKeeps(config, View(), device, name, stamp, id);
      next := next + 1;
      events := events[device := PushBounded(ring, record, config.maxlen)];
    }

    method ExpiredCursors(now: nat) returns (expired: set<Key>)
      ensures expired == ExpiredKeys(config, touched, now)
    {
      expired := {};
      for i := 0 to |touched|
        invariant expired == ExpiredKeys(config, touched[..i], now)
      {
        assert touched[..i + 1] == touched[..i] + [touched[i]];
        if now - touched[i].at >= config.ttl { expired := expired + {touched[i].key}; }
      }
      assert touched[..|touched|] == touched;
    }

    method PruneCursors(now: nat)
      modifies `cursors, `touched
      ensures View() == Prune(config, old(View()), now)
    {
      if config.ttl == 0 {
        cursors, touched := map[], [];
      } else {
        var expired := ExpiredCursors(now);
        cursors, touched := cursors - expired, Without(touched, expired);
      }
    }

    method ReserveCursorSlot()
      modifies `cursors, `touched
      ensures View() == MakeRoom(config, old(View()))
    {
      while |cursors| >= config.maxCursors && touched != []
        invariant events == old(events) && next == old(next)
        invariant MakeRoom(config, View()) == MakeRoom(config, old(View()))
        decreases |touched|
      {
        var oldest := FindOldest(touched);
        cursors, touched := cursors - {touched[oldest].key}, RemoveAt(touched, oldest);
      }
    }

    /** Reads what follows the cursor, or `after` if given, and moves the cursor to the last record returned. */
    method ReadEvents(key: Key, limit: Option<int>, after: Option<int>, now: nat) returns (answer: Answer)
      requires Valid()
      modifies this
      ensures Valid() && View() == Next(config, old(View()), ReadStep(key, limit, after, now))
      ensures answer == if key.consumer == "" || (limit.Some? && limit.value < 0) then Refused
                        else Records(Selected(Prune(config, old(View()), now), key, limit, after))
    {
      if key.consumer == "" { return Refused; }
      PruneKeeps(config, View(), now);
      PruneCursors(now);
      answer := ReadPruned(key, limit, after, now);
    }

    method ReadPruned(key: Key, limit: Option<int>, after: Option<int>, now: nat) returns (answer: Answer)
      requires Valid()
      modifies this
      ensures Valid() && View() == ReadOn(config, old(View()), key, limit, after, now)
      ensures answer == if limit.Some? && limit.value < 0 then Refused
              else Records(Selected(old(View()), key, limit, after))
    {
      if limit.Some? && limit.value < 0 { return Refused; }
      var from := if after.None? then (if key in cursors then cursors[key] else 0) else after.value;
      var selected := Head(Newer(Retained(events, key.device), from), limit);
      answer := Records(selected);
      AdvanceCursor(key, selected, now);
    }

    method AdvanceCursor(key: Key, selected: seq<Record>, now: nat)
      requires Valid()
      modifies this
      ensures Valid() && View() == Advance(config, old(View()), key, selected, now)
    {
      AdvanceKeeps(config, View(), key, selected, now);
      if selected != [] {
        if key !in cursors { ReserveCursorSlot(); }
        cursors := cursors[key := selected[|selected| - 1].sequence];
        touched := Put(touched, Entry(key, now));
      }
    }

    method CursorsOf(consumer: string) returns (found: set<Key>)
      ensures found == set k | k in cursors && k.consumer == consumer
    {
      var keys := cursors.Keys;
      found := {};
      while keys != {}
        invariant keys <= cursors.Keys
        invariant found == set k | k in cursors && k !in keys && k.consumer == consumer
        decreases |keys|
      {
        var k :| k in keys;
        if k.consumer == consumer { found := found + {k}; }
        keys := keys - {k};
      }
    }

    method KeysToClear(consumer: string, device: Option<string>) returns (gone: set<Key>)
      ensures forall k :: k in cursors ==> (k in gone <==> Cleared(k, consumer, device))
    {
      if device.Some? { gone := {Key(consumer, device.value)}; } else { gone := CursorsOf(consumer); }
    }

    /** Forgets a consumer's cursors, on one device or on all. */
    method ClearCursor(consumer: string, device: Option<string>) returns (ok: bool)
      requires Valid()
      modifies `cursors, `touched
      ensures Valid() && View() == Clear(old(View()), consumer, device) && ok == (consumer != "")
    {
      if consumer == "" { return false; }
      ClearKeeps(config, View(), consumer, device);
      var gone := KeysToClear(consumer, device);
      RemovalClears(View(), gone, consumer, device);
      cursors, touched := cursors - gone, Without(touched, gone);
      ok := true;
    }
  }

  /** Popping keys that are not there changes nothing. */
  lemma RemovalClears(b: Buffer, gone: set<Key>, consumer: string, device: Option<string>)
    requires SameKeys(b) && consumer != "" && forall k :: k in b.cursors ==>
               (k in gone <==> Cleared(k, consumer, device))
    ensures Forget(b, gone) == Clear(b, consumer, device)
  {
    var cleared := set k | k in b.cursors && Cleared(k, consumer, device);
    assert b.cursors - gone == b.cursors - cleared;
    forall e | e in b.touched ensures e.key in gone <==> e.key in cleared { assert e.key in Keys(b.touched); }
    WithoutSame(b.touched, gone, cleared);
  }

  lemma {:induction false} WithoutSame(table: seq<Touch>, gone: set<Key>, cleared: set<Key>)
    requires forall e :: e in table ==> (e.key in gone <==> e.key in cleared)
    ensures Without(table, gone) == Without(table, cleared)
    decreases |table|
  {
    if table != [] { WithoutSame(table[1..], gone, cleared); }
  }
}
