/**
 The meaning of in-order reassembly, shared by the two playback transports.

 A receiver waits for sequence `next`, holds later sequences that fall inside a window
 and releases everything contiguous. The loaded-audio buffer (32 future slots) and the
 streaming jitter buffer (8 slots) both refine this machine.
 */
module Reorder {
  import opened Collections

  datatype State<T> = State(next: nat, held: map<nat, T>, out: seq<T>)

  /** Release every held item that has become contiguous. */
  function Drain<T>(s: State<T>): State<T>
    decreases s.held.Keys
  {
    if s.next in s.held then
      Drain(State(s.next + 1, s.held - {s.next}, s.out + [s.held[s.next]]))
    else
      s
  }

  function Deliver<T>(s: State<T>, window: nat, k: nat, x: T): State<T> {
    if k < s.next || k in s.held then s
    else if k == s.next then Drain(State(s.next + 1, s.held, s.out + [x]))
    else if k <= s.next + window then s.(held := s.held[k := x])
    else s
  }

  function Run<T>(s: State<T>, window: nat, source: seq<T>, order: seq<nat>): State<T>
    requires forall i :: 0 <= i < |order| ==> order[i] < |source|
  {
    if order == [] then s
    else
      var last := order[|order| - 1];
      Deliver(Run(s, window, source, order[..|order| - 1]), window, last, source[last])
  }

  function Start<T>(): State<T> { State(0, map[], []) }

  // ---- The least sequence not delivered yet ----

  ghost function Above(d: set<nat>, i: nat): set<nat> { set x | x in d && x >= i }

  ghost function MexFrom(d: set<nat>, i: nat): (m: nat)
    ensures i <= m && m !in d
    ensures forall j :: i <= j < m ==> j in d
    decreases Above(d, i)
  {
    if i in d then
      assert i in Above(d, i) && i !in Above(d, i + 1);
      MexFrom(d, i + 1)
    else i
  }

  /** The first gap in a set of delivered sequences. */
  ghost function Mex(d: set<nat>): (m: nat)
    ensures m !in d
    ensures forall j :: 0 <= j < m ==> j in d
  {
    MexFrom(d, 0)
  }

  lemma MexIsUnique(d: set<nat>, m: nat)
    requires m !in d
    requires forall j :: 0 <= j < m ==> j in d
    ensures Mex(d) == m
  {
    var n := Mex(d);
    assert m <= n <= m;
  }

  ghost function Delivered(order: seq<nat>): set<nat> { set i | 0 <= i < |order| :: order[i] }

  /** Every delivery is at most `window` past the first gap left by the earlier ones. */
  ghost predicate WithinWindow(order: seq<nat>, window: nat) {
    forall i :: 0 <= i < |order| ==> order[i] <= Mex(Delivered(order[..i])) + window
  }

  /** The state is the one the delivered set alone determines. */
  ghost predicate Tracks<T>(s: State<T>, source: seq<T>, d: set<nat>) {
    && (forall k :: k in d ==> k < |source|)
    && s.next == Mex(d) <= |source|
    && s.out == source[..s.next]
    && s.held.Keys == Above(d, s.next)
    && (forall k :: k in s.held ==> k < |source| && s.held[k] == source[k])
  }

  /** Draining restores `Tracks` once everything below `next` has been released. */
  lemma {:induction false} DrainTracks<T>(s: State<T>, source: seq<T>, d: set<nat>)
    requires forall k :: k in d ==> k < |source|
    requires s.next <= |source| && s.out == source[..s.next]
    requires forall j :: 0 <= j < s.next ==> j in d
    requires s.held.Keys == Above(d, s.next)
    requires forall k :: k in s.held ==> k < |source| && s.held[k] == source[k]
    ensures Tracks(Drain(s), source, d)
    decreases s.held.Keys
  {
    if s.next in s.held {
      var s' := State(s.next + 1, s.held - {s.next}, s.out + [s.held[s.next]]);
      assert s'.held.Keys == Above(d, s'.next);
      DrainTracks(s', source, d);
    } else {
      assert s.next in d <==> s.next in Above(d, s.next);
      MexIsUnique(d, s.next);
    }
  }

  lemma DeliverTracks<T>(s: State<T>, window: nat, source: seq<T>, d: set<nat>, k: nat)
    requires Tracks(s, source, d)
    requires k < |source| && k <= Mex(d) + window
    ensures Tracks(Deliver(s, window, k, source[k]), source, d + {k})
  {
    var d' := d + {k};
    if k in d {
      assert d' == d;
      if k >= s.next { assert k in Above(d, s.next); }
    } else if k == s.next {
      var s' := State(s.next + 1, s.held, s.out + [source[k]]);
      assert s'.held.Keys == Above(d', s'.next);
      DrainTracks(s', source, d');
    } else {
      assert k !in s.held && k > s.next;
      MexIsUnique(d', s.next);
      assert Above(d', s.next) == Above(d, s.next) + {k};
    }
  }

  lemma MexOfEmpty()
    ensures Mex({}) == 0
  {
    MexIsUnique({}, 0);
  }

  /** After any windowed order the state depends only on which items were delivered. */
  lemma {:induction false} RunTracks<T>(window: nat, source: seq<T>, order: seq<nat>)
    requires forall i :: 0 <= i < |order| ==> order[i] < |source|
    requires WithinWindow(order, window)
    ensures Tracks(Run(Start(), window, source, order), source, Delivered(order))
  {
    if order == [] {
      MexOfEmpty();
      assert Delivered(order) == {};
    } else {
      var front, last := order[..|order| - 1], order[|order| - 1];
      assert WithinWindow(front, window) by {
        forall i | 0 <= i < |front| ensures front[i] <= Mex(Delivered(front[..i])) + window {
          assert front[..i] == order[..i];
        }
      }
      RunTracks(window, source, front);
      DeliverTracks(Run(Start(), window, source, front), window, source, Delivered(front), last);
      DeliveredSnoc(front, last);
      assert order == front + [last];
    }
  }

  lemma DeliveredSnoc(front: seq<nat>, last: nat)
    ensures Delivered(front + [last]) == Delivered(front) + {last}
  {
    var order := front + [last];
    forall k | k in Delivered(front) + {last} ensures k in Delivered(order) {
      if k == last {
        assert order[|front|] == k;
      } else {
        var i :| 0 <= i < |front| && front[i] == k;
        assert order[i] == k;
      }
    }
  }

  /**
   Confluence: two windowed orders, with any duplicates, that deliver the same items leave
   the receiver in the same state; and once nothing is missing it has released the whole source.
   */
  lemma Confluence<T>(window: nat, source: seq<T>, a: seq<nat>, b: seq<nat>)
    requires forall i :: 0 <= i < |a| ==> a[i] < |source|
    requires forall i :: 0 <= i < |b| ==> b[i] < |source|
    requires WithinWindow(a, window) && WithinWindow(b, window)
    requires Delivered(a) == Delivered(b)
    ensures Run(Start(), window, source, a) == Run(Start(), window, source, b)
    ensures (forall k: nat :: k < |source| ==> k in Delivered(a)) <==> Run(Start(), window, source, a).out == source
  {
    RunTracks(window, source, a);
    RunTracks(window, source, b);
    var s := Run(Start(), window, source, a);
    var s' := Run(Start(), window, source, b);
    assert s.held == s'.held;
    if forall k: nat :: k < |source| ==> k in Delivered(a) {
      assert s.next == |source|;
    }
    if s.out == source {
      assert |s.out| == s.next;
    }
  }

  // ---- The window bounds what has to be held ----

  ghost function Interval(lo: nat, width: nat): (r: set<nat>)
    ensures |r| == width
    ensures forall x :: x in r <==> lo < x <= lo + width
  {
    if width == 0 then {} else Interval(lo, width - 1) + {lo + width}
  }

  /** Pigeonhole: keys strictly inside the window, with one window place still free, fill fewer than `window` slots. */
  lemma WindowLeavesRoom(keys: set<nat>, next: nat, window: nat, k: nat)
    requires forall x :: x in keys ==> next < x <= next + window
    requires next < k <= next + window && k !in keys
    ensures |keys| < window
  {
    var all := Interval(next, window);
    SubsetSize(keys, all - {k});
  }
}
