/**
 Suppressing repeated events: the table of recent emissions, bounded in size, against the full
 history of what was ever emitted.
 */
module Debounce {
  import opened Collections
  import opened OrderedTable

  datatype Config = Config(window: nat, capacity: nat)

  /** Device, event name, command and payload fingerprint. */
  datatype Key = Key(device: string, name: string, command: string, fingerprint: string)

  type Emission = Entry<Key>

  // ---- The table ----

  function Pruned(c: Config, table: seq<Emission>, now: nat): seq<Emission> {
    if c.window == 0 || table == [] then []
    else if now - table[0].at >= c.window then Pruned(c, table[1..], now)
    else [table[0]] + Pruned(c, table[1..], now)
  }

  predicate Suppresses(c: Config, table: seq<Emission>, key: Key, now: nat) {
    var pruned := Pruned(c, table, now);
    var i := Find(pruned, key);
    i < |pruned| && now - pruned[i].at < c.window
  }

  function Reserved(c: Config, table: seq<Emission>): (r: seq<Emission>)
    ensures |r| <= c.capacity
    decreases |table|
  {
    if |table| <= c.capacity then table else Reserved(c, RemoveAt(table, Oldest(table)))
  }

  function Added(c: Config, table: seq<Emission>, key: Key, now: nat): seq<Emission> {
    var pruned := Pruned(c, table, now);
    if Suppresses(c, table, key, now) then pruned else Reserved(c, Put(pruned, Entry(key, now)))
  }

  // ---- History ----

  /** Everything ever emitted, and the time of the last call. */
  datatype World = World(table: seq<Emission>, history: seq<Emission>, now: nat)

  const START := World([], [], 0)

  function Add(c: Config, w: World, key: Key, now: nat): World {
    World(Added(c, w.table, key, now),
          if Suppresses(c, w.table, key, now) then w.history else w.history + [Entry(key, now)],
          now)
  }

  ghost predicate Recent(c: Config, e: Emission, key: Key, now: nat) { e.key == key && now - e.at < c.window }

  /** Emitted less than a window ago, at position `from` of the history or later. */
  ghost predicate EmittedSince(c: Config, history: seq<Emission>, from: int, key: Key, now: nat) {
    exists i :: 0 <= i < |history| && from <= i && Recent(c, history[i], key, now)
  }

  /** ... as the whole history tells it. */
  ghost predicate EmittedRecently(c: Config, history: seq<Emission>, key: Key, now: nat) {
    EmittedSince(c, history, 0, key, now)
  }

  /** ... as its last `capacity` emissions tell it. */
  ghost predicate EmittedAmongLast(c: Config, history: seq<Emission>, key: Key, now: nat) {
    EmittedSince(c, history, |history| - c.capacity, key, now)
  }

  ghost predicate Ascending(s: seq<Emission>, now: nat) {
    && (forall i, j :: 0 <= i < j < |s| ==> s[i].at <= s[j].at)
    && (forall i :: 0 <= i < |s| ==> s[i].at <= now)
  }

  /** All of `history[lo..hi]` is out of the window. */
  ghost predicate Stale(c: Config, history: seq<Emission>, lo: int, hi: int, now: nat) {
    forall i :: 0 <= i < |history| && lo <= i < hi ==> now - history[i].at >= c.window
  }

  /** Within `capacity` emissions of each other, two of one key are at least a window apart. */
  ghost predicate Spaced(c: Config, history: seq<Emission>) {
    forall i, j :: 0 <= i < j < |history| && j <= i + c.capacity && history[i].key == history[j].key ==>
      history[j].at - history[i].at >= c.window
  }

  /** The table is the last part of the history. */
  ghost predicate Ends(history: seq<Emission>, table: seq<Emission>) {
    && |table| <= |history|
    && forall i :: 0 <= i < |table| ==> table[i] == history[|history| - |table| + i]
  }

  /** The table is the end of the history, and holds whatever of the last `capacity` emissions is still recent. */
  ghost predicate Holds(c: Config, history: seq<Emission>, table: seq<Emission>, now: nat) {
    && Ends(history, table) && |table| <= c.capacity && DistinctKeys(table)
    && Stale(c, history, |history| - c.capacity, |history| - |table|, now)
  }

  ghost predicate Sound(c: Config, w: World) {
    Holds(c, w.history, w.table, w.now) && Ascending(w.history, w.now) && Spaced(c, w.history)
  }

  // ---- One call ----

  /** Pruning a table in order of time takes off its front. */
  lemma {:induction false} PrunedIsSuffix(c: Config, table: seq<Emission>, now: nat) returns (d: nat)
    requires Ascending(table, now)
    ensures d <= |table| && Pruned(c, table, now) == table[d..]
    ensures Stale(c, table, 0, d, now)
    ensures forall i :: d <= i < |table| ==> now - table[i].at < c.window
    decreases |table|
  {
    if c.window == 0 || table == [] {
      d := |table|;
    } else if now - table[0].at >= c.window {
      var rest := PrunedIsSuffix(c, table[1..], now);
      d := rest + 1;
      assert table[1..][rest..] == table[d..];
      assert forall i :: 1 <= i < |table| ==> table[i] == table[1..][i - 1];
    } else {
      d := 0;
      AllRecent(c, table[1..], table[0].at, now);
      assert [table[0]] + table[1..] == table;
    }
  }

  lemma {:induction false} AllRecent(c: Config, table: seq<Emission>, since: nat, now: nat)
    requires c.window > 0 && now - since < c.window && forall i :: 0 <= i < |table| ==> since <= table[i].at
    ensures Pruned(c, table, now) == table
    ensures forall i :: 0 <= i < |table| ==> now - table[i].at < c.window
    decreases |table|
  {
    if table != [] { AllRecent(c, table[1..], since, now); }
  }

  lemma DropKeepsEnd(c: Config, history: seq<Emission>, table: seq<Emission>, d: nat, now: nat, later: nat)
    requires Holds(c, history, table, now) && now <= later && d <= |table| && Stale(c, table, 0, d, later)
    ensures Holds(c, history, table[d..], later)
  {
    var n, t := |history|, |table|;
    forall i | 0 <= i < n && n - c.capacity <= i < n - (t - d)
      ensures later - history[i].at >= c.window
    {
      if i >= n - t { assert table[i - (n - t)] == history[i]; }
    }
  }

  lemma EndAscends(history: seq<Emission>, table: seq<Emission>, now: nat)
    requires Ends(history, table) && Ascending(history, now)
    ensures Ascending(table, now)
  {
  }

  /** Pruning keeps the end of the history that is still recent. */
  lemma PrunedHolds(c: Config, w: World, now: nat)
    requires Sound(c, w) && w.now <= now
    ensures Holds(c, w.history, Pruned(c, w.table, now), now)
    ensures forall i :: 0 <= i < |Pruned(c, w.table, now)| ==> now - Pruned(c, w.table, now)[i].at < c.window
  {
    EndAscends(w.history, w.table, w.now);
    var d := PrunedIsSuffix(c, w.table, now);
    DropKeepsEnd(c, w.history, w.table, d, w.now, now);
  }

  lemma FoundExactly(c: Config, history: seq<Emission>, pruned: seq<Emission>, key: Key, now: nat)
    requires Holds(c, history, pruned, now)
    requires forall i :: 0 <= i < |pruned| ==> now - pruned[i].at < c.window
    ensures Find(pruned, key) < |pruned| <==> EmittedAmongLast(c, history, key, now)
  {
    var n, t, i := |history|, |pruned|, Find(pruned, key);
    if i < t { assert pruned[i] == history[n - t + i] && Recent(c, history[n - t + i], key, now); }
    if EmittedAmongLast(c, history, key, now) {
      var j :| 0 <= j < n && n - c.capacity <= j && Recent(c, history[j], key, now);
      assert pruned[j - (n - t)] == history[j];
    }
  }

  /** Suppressed exactly when one of the last `capacity` emissions is a recent one of the key. */
  lemma SuppressesExactly(c: Config, w: World, key: Key, now: nat)
    requires Sound(c, w) && w.now <= now
    ensures Suppresses(c, w.table, key, now) <==> EmittedAmongLast(c, w.history, key, now)
  {
    PrunedHolds(c, w, now);
    FoundExactly(c, w.history, Pruned(c, w.table, now), key, now);
  }

  lemma OldestIsFirst(table: seq<Emission>, now: nat)
    requires Ascending(table, now) && table != []
    ensures Oldest(table) == 0
  {
  }

  /** A new emission goes to the end, and only the oldest entry makes room for it. */
  lemma PutThenReserve(c: Config, pruned: seq<Emission>, e: Emission)
    requires c.capacity >= 1 && |pruned| <= c.capacity && Ascending(pruned, e.at)
    requires Find(pruned, e.key) == |pruned|
    ensures Reserved(c, Put(pruned, e)) == pruned[if |pruned| < c.capacity then 0 else 1..] + [e]
  {
    var all := pruned + [e];
    if |pruned| == c.capacity {
      OldestIsFirst(all, e.at);
      assert RemoveAt(all, 0) == pruned[1..] + [e];
    }
  }

  /** The end of the history without its oldest emission, if need be, and with the new one. */
  lemma EmissionHolds(c: Config, history: seq<Emission>, pruned: seq<Emission>, e: Emission)
    requires c.capacity >= 1 && Holds(c, history, pruned, e.at) && Find(pruned, e.key) == |pruned|
    ensures Holds(c, history + [e], pruned[if |pruned| < c.capacity then 0 else 1..] + [e], e.at)
  {
  }

  lemma EmissionSpaced(c: Config, history: seq<Emission>, e: Emission)
    requires Ascending(history, e.at) && Spaced(c, history) && !EmittedAmongLast(c, history, e.key, e.at)
    ensures Ascending(history + [e], e.at) && Spaced(c, history + [e])
  {
    forall i | 0 <= i < |history| && |history| - c.capacity <= i && history[i].key == e.key
      ensures e.at - history[i].at >= c.window
    {
      assert !Recent(c, history[i], e.key, e.at);
    }
  }

  lemma EmissionKeepsSound(c: Config, w: World, key: Key, now: nat)
    requires c.capacity >= 1 && Sound(c, w) && w.now <= now && !Suppresses(c, w.table, key, now)
    ensures Sound(c, Add(c, w, key, now))
    ensures Entry(key, now) in Added(c, w.table, key, now)
  {
    var e, pruned := Entry(key, now), Pruned(c, w.table, now);
    PrunedHolds(c, w, now);
    SuppressesExactly(c, w, key, now);
    FoundExactly(c, w.history, pruned, key, now);
    EndAscends(w.history, pruned, now);
    PutThenReserve(c, pruned, e);
    EmissionHolds(c, w.history, pruned, e);
    EmissionSpaced(c, w.history, e);
  }

  lemma AddKeepsSound(c: Config, w: World, key: Key, now: nat)
    requires c.capacity >= 1 && Sound(c, w) && w.now <= now
    ensures Sound(c, Add(c, w, key, now))
  {
    if Suppresses(c, w.table, key, now) {
      PrunedHolds(c, w, now);
    } else {
      EmissionKeepsSound(c, w, key, now);
    }
  }

  // ---- Runs ----

  datatype Call = Call(key: Key, now: nat)

  ghost predicate ClockForward(calls: seq<Call>, now: nat) {
    calls == [] || (now <= calls[0].now && ClockForward(calls[1..], calls[0].now))
  }

  function Run(c: Config, w: World, calls: seq<Call>): World
    decreases |calls|
  {
    if calls == [] then w else Run(c, Add(c, w, calls[0].key, calls[0].now), calls[1..])
  }

  lemma {:induction false} RunKeeps(c: Config, w: World, calls: seq<Call>)
    requires c.capacity >= 1 && Sound(c, w) && ClockForward(calls, w.now)
    ensures Sound(c, Run(c, w, calls))
    decreases |calls|
  {
    if calls != [] {
      AddKeepsSound(c, w, calls[0].key, calls[0].now);
      RunKeeps(c, Add(c, w, calls[0].key, calls[0].now), calls[1..]);
    }
  }

  /** After any run: suppressed exactly when one of the last `capacity` emissions is a recent one of the key. */
  lemma SuppressedExactlyWhen(c: Config, calls: seq<Call>, key: Key, now: nat)
    requires c.capacity >= 1 && ClockForward(calls, 0) && Run(c, START, calls).now <= now
    ensures var w := Run(c, START, calls);
            Suppresses(c, w.table, key, now) <==> EmittedAmongLast(c, w.history, key, now)
  {
    RunKeeps(c, START, calls);
    SuppressesExactly(c, Run(c, START, calls), key, now);
  }

  lemma {:induction false} RunsInARow(c: Config, w: World, calls: seq<Call>, call: Call)
    ensures Run(c, w, calls + [call]) == Add(c, Run(c, w, calls), call.key, call.now)
    decreases |calls|
  {
    if calls == [] {
      assert ([] + [call])[1..] == [];
    } else {
      assert (calls + [call])[1..] == calls[1..] + [call];
      RunsInARow(c, Add(c, w, calls[0].key, calls[0].now), calls[1..], call);
    }
  }

  /** So the history tells how it goes on: an event is emitted unless one of the last emissions suppresses it. */
  lemma HistoryGoesOn(c: Config, calls: seq<Call>, call: Call)
    requires c.capacity >= 1 && ClockForward(calls, 0) && Run(c, START, calls).now <= call.now
    ensures var history := Run(c, START, calls).history;
            Run(c, START, calls + [call]).history ==
              if EmittedAmongLast(c, history, call.key, call.now) then history
              else history + [Entry(call.key, call.now)]
  {
    RunsInARow(c, START, calls, call);
    SuppressedExactlyWhen(c, calls, call.key, call.now);
  }

  /** The just emitted key is never the one evicted. */
  lemma JustEmittedStays(c: Config, calls: seq<Call>, key: Key, now: nat)
    requires c.capacity >= 1 && ClockForward(calls, 0) && Run(c, START, calls).now <= now
    requires !Suppresses(c, Run(c, START, calls).table, key, now)
    ensures Entry(key, now) in Added(c, Run(c, START, calls).table, key, now)
  {
    RunKeeps(c, START, calls);
    EmissionKeepsSound(c, Run(c, START, calls), key, now);
  }

  /** No more than `capacity` emissions are within the window. */
  predicate WindowFits(c: Config, history: seq<Emission>, now: nat) {
    |history| > c.capacity ==> now - history[|history| - c.capacity - 1].at >= c.window
  }

  /** The whole history decides for every key exactly while the window fits the table. */
  lemma WholeHistoryExactlyWhen(c: Config, calls: seq<Call>, now: nat)
    requires c.capacity >= 1 && ClockForward(calls, 0) && Run(c, START, calls).now <= now
    ensures var w := Run(c, START, calls);
            WindowFits(c, w.history, now) <==>
            forall key :: Suppresses(c, w.table, key, now) <==> EmittedRecently(c, w.history, key, now)
  {
    RunKeeps(c, START, calls);
    var w := Run(c, START, calls);
    forall key
      ensures WindowFits(c, w.history, now) ==>
                (Suppresses(c, w.table, key, now) <==> EmittedRecently(c, w.history, key, now))
    {
      SuppressesExactly(c, w, key, now);
      if WindowFits(c, w.history, now) { FittingWindow(c, w.history, key, now); }
    }
    if !WindowFits(c, w.history, now) { EvictionForgets(c, w, now); }
  }

  lemma FittingWindow(c: Config, history: seq<Emission>, key: Key, now: nat)
    requires Ascending(history, now) && WindowFits(c, history, now)
    ensures EmittedAmongLast(c, history, key, now) <==> EmittedRecently(c, history, key, now)
  {
  }

  /** Once it does not, the key of the emission just past the table's reach is forgotten: it would be emitted again. */
  lemma EvictionForgets(c: Config, w: World, now: nat)
    requires Sound(c, w) && w.now <= now && !WindowFits(c, w.history, now)
    ensures var key := w.history[|w.history| - c.capacity - 1].key;
            EmittedRecently(c, w.history, key, now) && !Suppresses(c, w.table, key, now)
  {
    var i := |w.history| - c.capacity - 1;
    assert Recent(c, w.history[i], w.history[i].key, now);
    NotRepeated(c, w.history, i, now);
    SuppressesExactly(c, w, w.history[i].key, now);
  }

  lemma NotRepeated(c: Config, history: seq<Emission>, i: nat, now: nat)
    requires i < |history| == i + c.capacity + 1 && Spaced(c, history) && Ascending(history, now)
             && now - history[i].at < c.window
    ensures !EmittedAmongLast(c, history, history[i].key, now)
  {
    forall j | 0 <= j < |history| && |history| - c.capacity <= j && history[j].key == history[i].key
      ensures history[j].at - history[i].at >= c.window
    {
    }
  }
}
