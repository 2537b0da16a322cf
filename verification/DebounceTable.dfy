/** The debounce table updated in place; an ordered dictionary is the list of its entries in insertion order. */
module DebounceTable {
  import opened Collections
  import opened OrderedTable
  import opened Debounce

  class EventAggregator {
    const config: Config
    var lastEmit: seq<Emission>

    constructor (config: Config)
      requires config.capacity >= 1
      ensures lastEmit == [] && this.config == config
    {
      this.config, lastEmit := config, [];
    }

    method PruneDebounce(now: nat)
      modifies this
      ensures lastEmit == Pruned(config, old(lastEmit), now)
    {
      if config.window == 0 {
        lastEmit := [];
        return;
      }
      ghost var table := lastEmit;
      var kept: seq<Emission> := [];
      for i := 0 to |lastEmit|
        invariant lastEmit == table && Pruned(config, table, now) == kept + Pruned(config, table[i..], now)
      {
        if now - lastEmit[i].at < config.window { kept := kept + [lastEmit[i]]; }
        assert table[i..][1..] == table[i + 1..];
      }
      lastEmit := kept;
    }

    method ReserveDebounceSlot()
      modifies this
      ensures lastEmit == Reserved(config, old(lastEmit))
    {
      while |lastEmit| > config.capacity
        invariant Reserved(config, lastEmit) == Reserved(config, old(lastEmit))
        decreases |lastEmit|
      {
        var oldest := FindOldest(lastEmit);
        lastEmit := RemoveAt(lastEmit, oldest);
      }
    }

    /** Notes an emission unless the key was emitted within the window; says whether it was suppressed. */
    method Add(key: Key, now: nat) returns (suppressed: bool)
      modifies this
      ensures suppressed == Suppresses(config, old(lastEmit), key, now)
      ensures lastEmit == Added(config, old(lastEmit), key, now)
    {
      PruneDebounce(now);
      var i := Lookup(lastEmit, key);
      if i < |lastEmit| && now - lastEmit[i].at < config.window { return true; }
      lastEmit := if i < |lastEmit| then lastEmit[i := Entry(key, now)] else lastEmit + [Entry(key, now)];
      ReserveDebounceSlot();
      suppressed := false;
    }
  }
}
