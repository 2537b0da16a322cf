/** The tables of the speech processor and the worker's counter, updated in place. */
module SpeechTables {
  import opened Speech

  class Sessions {
    var clock: nat
    var invalid: map<Key, nat>
    var pending: map<Key, nat>

    constructor ()
      ensures clock == 0 && invalid == map[] && pending == map[]
    {
      clock, invalid, pending := 0, map[], map[];
    }

    method PurgeExpired()
      modifies `invalid
      ensures invalid == Purged(old(invalid), pending, clock)
    {
      var keys := invalid.Keys;
      var expired: seq<Key> := [];
      while keys != {}
        invariant keys <= invalid.Keys
        invariant forall k :: k in expired <==>
                    k in invalid && k !in keys && Expired(invalid[k], PendingOf(pending, k), clock)
        decreases |keys|
      {
        var k :| k in keys;
        if Expired(invalid[k], PendingOf(pending, k), clock) { expired := expired + [k]; }
        keys := keys - {k};
      }
      for i := 0 to |expired|
        invariant invalid == map k | k in old(invalid) && k !in expired[..i] :: old(invalid)[k]
      {
        invalid := invalid - {expired[i]};
      }
    }

    method IncrementPending(key: Key)
      modifies `pending
      ensures pending == Incremented(old(pending), key)
    {
      pending := pending[key := PendingOf(pending, key) + 1];
    }

    method DecrementPending(key: Key)
      modifies this
      ensures clock == old(clock) && pending == Decremented(old(pending), key)
      ensures invalid == Purged(old(invalid), pending, clock)
    {
      var left := PendingOf(pending, key) - 1;
      pending := if left > 0 then pending[key := left] else pending - {key};
      PurgeExpired();
    }

    method Invalidate(key: Key)
      modifies `invalid
      ensures invalid == Purged(old(invalid), pending, clock)[key := clock]
    {
      PurgeExpired();
      invalid := invalid[key := clock];
    }

    method CaptureSessionInvalidated(key: Key) returns (found: bool)
      modifies `invalid
      ensures invalid == Purged(old(invalid), pending, clock)
      ensures found == (key in invalid)
    {
      PurgeExpired();
      found := key in invalid;
    }
  }

  class Worker {
    var pending: nat
    const maxPending: nat

    ghost predicate Valid()
      reads this
    {
      pending <= maxPending
    }

    constructor (maxPending: nat)
      requires maxPending > 0
      ensures Valid() && pending == 0 && this.maxPending == maxPending
    {
      pending, this.maxPending := 0, maxPending;
    }

    /** Admits the utterance unless the queue is full. */
    method Submit(taken: bool) returns (admitted: bool)
      requires Valid()
      modifies this
      ensures Valid() && admitted == (old(pending) < maxPending && taken)
      ensures pending == old(pending) + if admitted then 1 else 0
    {
      if pending >= maxPending { return false; }
      pending := pending + 1;
      if !taken { pending := pending - 1; }
      admitted := taken;
    }

    method Finish()
      requires Valid() && pending > 0
      modifies this
      ensures Valid() && pending == old(pending) - 1
    {
      pending := pending - 1;
    }
  }
}
