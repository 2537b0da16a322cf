/** Operations on sequences, texts and sets that several components share. */
module Collections {

  /** `deque(maxlen=limit).append(x)`: the oldest elements go first. */
  function PushBounded<T>(q: seq<T>, x: T, limit: nat): seq<T>
    requires limit >= 1
  {
    if |q| >= limit then q[|q| + 1 - limit..] + [x] else q + [x]
  }

  function RemoveAt<T>(s: seq<T>, i: nat): seq<T>
    requires i < |s|
  {
    s[..i] + s[i + 1..]
  }

  /** At most the first `limit` characters. */
  function Cut(text: string, limit: nat): string { if |text| <= limit then text else text[..limit] }

  lemma {:induction false} SubsetSize<T>(a: set<T>, b: set<T>)
    requires a <= b
    ensures |a| <= |b|
    decreases |a|
  {
    if a != {} {
      var x :| x in a;
      SubsetSize(a - {x}, b - {x});
    }
  }
}
