/** A fixed array of reorder slots, searched linearly, standing for a map from sequence to item. */
module SlotTable {

  datatype Slot<T> = Slot(occupied: bool, sequence: nat, item: T)

  ghost predicate Distinct<T>(slots: seq<Slot<T>>) {
    forall i, j :: 0 <= i < j < |slots| && slots[i].occupied && slots[j].occupied ==>
      slots[i].sequence != slots[j].sequence
  }

  ghost predicate HasSlot<T>(slots: seq<Slot<T>>, k: nat) {
    exists i :: 0 <= i < |slots| && slots[i].occupied && slots[i].sequence == k
  }

  ghost predicate Represents<T>(slots: seq<Slot<T>>, held: map<nat, T>) {
    && Distinct(slots)
    && (forall i :: 0 <= i < |slots| && slots[i].occupied ==>
          slots[i].sequence in held && held[slots[i].sequence] == slots[i].item)
    && (forall k :: k in held ==> HasSlot(slots, k))
  }

  ghost function Sequences<T>(slots: seq<Slot<T>>): set<nat> {
    if slots == [] then {}
    else
      var n := |slots| - 1;
      Sequences(slots[..n]) + if slots[n].occupied then {slots[n].sequence} else {}
  }

  lemma {:induction false} SequencesMember<T>(slots: seq<Slot<T>>, k: nat)
    ensures k in Sequences(slots) <==> HasSlot(slots, k)
  {
    if slots != [] {
      var n := |slots| - 1;
      SequencesMember(slots[..n], k);
      if HasSlot(slots[..n], k) {
        var i :| 0 <= i < n && slots[..n][i].occupied && slots[..n][i].sequence == k;
        assert slots[i].occupied && slots[i].sequence == k;
      }
      if HasSlot(slots, k) {
        var i :| 0 <= i < |slots| && slots[i].occupied && slots[i].sequence == k;
        assert i < n ==> slots[..n][i].occupied;
      }
    }
  }

  /** Distinct occupied slots: as many sequences as slots exactly when every slot is occupied. */
  lemma {:induction false} SequencesCount<T>(slots: seq<Slot<T>>)
    requires Distinct(slots)
    ensures |Sequences(slots)| <= |slots|
    ensures |Sequences(slots)| == |slots| <==> forall i :: 0 <= i < |slots| ==> slots[i].occupied
  {
    if slots != [] {
      var n := |slots| - 1;
      SequencesCount(slots[..n]);
      SequencesMember(slots[..n], slots[n].sequence);
    }
  }

  /** Slots are full exactly when as many items are held as there are slots. */
  lemma FullWhenCountReached<T>(slots: seq<Slot<T>>, held: map<nat, T>)
    requires Represents(slots, held)
    ensures |held| <= |slots|
    ensures |held| == |slots| <==> forall i :: 0 <= i < |slots| ==> slots[i].occupied
  {
    SequencesCount(slots);
    forall k: nat ensures k in Sequences(slots) <==> k in held.Keys {
      SequencesMember(slots, k);
    }
    assert Sequences(slots) == held.Keys;
  }

  lemma HoldInSlot<T>(slots: seq<Slot<T>>, held: map<nat, T>, i: nat, k: nat, x: T)
    requires Represents(slots, held) && i < |slots| && !slots[i].occupied && k !in held
    ensures Represents(slots[i := Slot(true, k, x)], held[k := x])
  {
    var after := slots[i := Slot(true, k, x)];
    forall h | h in held[k := x] ensures HasSlot(after, h) {
      if h == k {
        assert after[i].occupied;
      } else {
        assert HasSlot(slots, h);
        var j :| 0 <= j < |slots| && slots[j].occupied && slots[j].sequence == h;
        assert after[j].occupied && after[j].sequence == h;
      }
    }
  }

  /** What is held once slot `i` is free, whether or not it was before. */
  ghost function Without<T>(slots: seq<Slot<T>>, held: map<nat, T>, i: nat): map<nat, T>
    requires i < |slots|
  {
    if slots[i].occupied then held - {slots[i].sequence} else held
  }

  lemma ReleaseSlot<T>(slots: seq<Slot<T>>, held: map<nat, T>, i: nat, empty: Slot<T>)
    requires Represents(slots, held) && i < |slots| && !empty.occupied
    ensures Represents(slots[i := empty], Without(slots, held, i))
  {
    var after := slots[i := empty];
    forall h | h in Without(slots, held, i) ensures HasSlot(after, h) {
      assert HasSlot(slots, h);
      var j :| 0 <= j < |slots| && slots[j].occupied && slots[j].sequence == h;
      assert after[j].occupied && after[j].sequence == h;
    }
  }

  class Table<T> {
    const slots: array<Slot<T>>
    const empty: Slot<T>
    ghost var held: map<nat, T>

    ghost predicate Valid()
      reads this, slots
    {
      !empty.occupied && Represents(slots[..], held)
    }

    constructor (capacity: nat, blank: T)
      ensures Valid() && held == map[] && slots.Length == capacity && fresh(slots)
    {
      slots := new Slot<T>[capacity](_ => Slot(false, 0, blank));
      empty := Slot(false, 0, blank);
      held := map[];
    }

    method Clear()
      requires Valid()
      modifies this, slots
      ensures Valid() && held == map[]
    {
      for i := 0 to slots.Length
        invariant forall j :: 0 <= j < i ==> !slots[j].occupied
      {
        slots[i] := empty;
      }
      held := map[];
    }

    method Find(sequence: nat) returns (index: int)
      requires Valid()
      ensures -1 <= index < slots.Length
      ensures index >= 0 <==> sequence in held
      ensures index >= 0 ==>
                slots[index].occupied && slots[index].sequence == sequence && slots[index].item == held[sequence]
    {
      index := 0;
      while index < slots.Length
        invariant 0 <= index <= slots.Length
        invariant forall i :: 0 <= i < index ==> !(slots[i].occupied && slots[i].sequence == sequence)
      {
        if slots[index].occupied && slots[index].sequence == sequence {
          assert slots[..][index].occupied;
          return;
        }
        index := index + 1;
      }
      assert !HasSlot(slots[..], sequence);
      index := -1;
    }

    /** Take the first free slot; false when there is none. */
    method Hold(sequence: nat, item: T) returns (ok: bool)
      requires Valid() && sequence !in held
      modifies this, slots
      ensures Valid()
      ensures ok <==> |old(held)| < slots.Length
      ensures held == if ok then old(held)[sequence := item] else old(held)
    {
      FullWhenCountReached(slots[..], held);
      for i := 0 to slots.Length
        invariant forall j :: 0 <= j < i ==> slots[j].occupied
        invariant held == old(held) && slots[..] == old(slots[..])
      {
        if !slots[i].occupied {
          assert !slots[..][i].occupied;
          HoldInSlot(slots[..], held, i, sequence, item);
          slots[i] := Slot(true, sequence, item);
          assert slots[..] == old(slots[..])[i := Slot(true, sequence, item)];
          held := held[sequence := item];
          return true;
        }
      }
      assert forall j :: 0 <= j < slots.Length ==> slots[..][j].occupied;
      ok := false;
    }

    /** Free a slot, which a reset may already have freed. */
    method Release(index: nat)
      requires Valid() && index < slots.Length
      modifies this, slots
      ensures Valid()
      ensures held == Without(old(slots[..]), old(held), index)
    {
      ghost var before := slots[..];
      ReleaseSlot(before, held, index, empty);
      held := Without(before, held, index);
      slots[index] := empty;
      assert slots[..] == before[index := empty];
    }
  }
}
