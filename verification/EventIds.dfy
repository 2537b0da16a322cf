/** Event identifiers: zero-padded decimals that never collide, and the search for one that is free. */
module EventIds {
  import opened Collections

  const EVENT_ID_MAX := 36
  /** What is left of an identifier after its `evt-`. */
  const DIGITS := 32

  function Pow10(k: nat): (p: nat)
    ensures p >= 1
  {
    if k == 0 then 1 else 10 * Pow10(k - 1)
  }

  function Digit(d: nat): char
    requires d < 10
  {
    '0' + d as char
  }

  function Decimal(n: nat): string {
    if n < 10 then [Digit(n)] else Decimal(n / 10) + [Digit(n % 10)]
  }

  function Zeros(k: nat): string { seq(k, _ => '0') }

  function Padded(n: nat): string {
    if |Decimal(n)| >= 8 then Decimal(n) else Zeros(8 - |Decimal(n)|) + Decimal(n)
  }

  function Fallback(n: nat): string { Cut("evt-" + Padded(n), EVENT_ID_MAX) }

  // ---- No two numbers share an identifier ----

  function ValueOf(s: string): int {
    if s == "" then 0 else 10 * ValueOf(s[..|s| - 1]) + (s[|s| - 1] as int - '0' as int)
  }

  lemma {:induction false} DecimalValue(n: nat)
    ensures ValueOf(Decimal(n)) == n
    decreases n
  {
    if n >= 10 {
      DecimalValue(n / 10);
      assert Decimal(n)[..|Decimal(n)| - 1] == Decimal(n / 10);
    } else {
      assert Decimal(n)[..0] == "";
    }
  }

  lemma {:induction false} ZerosValue(k: nat, s: string)
    ensures ValueOf(Zeros(k) + s) == ValueOf(s)
    decreases |s|, k
  {
    var t := Zeros(k) + s;
    if s != "" {
      ZerosValue(k, s[..|s| - 1]);
      assert t[..|t| - 1] == Zeros(k) + s[..|s| - 1];
    } else if k > 0 {
      ZerosValue(k - 1, "");
      assert t[..|t| - 1] == Zeros(k - 1) + "";
    }
  }

  lemma PaddedValue(n: nat)
    ensures ValueOf(Padded(n)) == n
  {
    DecimalValue(n);
    if |Decimal(n)| < 8 { ZerosValue(8 - |Decimal(n)|, Decimal(n)); }
  }

  lemma {:induction false} DecimalLength(n: nat, k: nat)
    requires k >= 1 && n < Pow10(k)
    ensures |Decimal(n)| <= k && (n >= Pow10(k - 1) ==> |Decimal(n)| == k)
    decreases k
  {
    assert Pow10(1) == 10 * Pow10(0) == 10;
    if n >= 10 {
      assert Pow10(k - 1) == 10 * Pow10(k - 2);
      DecimalLength(n / 10, k - 1);
    }
  }

  /** The number with `k` zeros behind it. */
  function Shift(n: nat, k: nat): nat { if k == 0 then n else 10 * Shift(n, k - 1) }

  lemma {:induction false} ShiftGrows(n: nat, k: nat)
    requires n >= 1
    ensures Shift(n, k) >= n + k
    decreases k
  {
    if k > 0 { ShiftGrows(n, k - 1); }
  }

  lemma {:induction false} DecimalShifts(n: nat, k: nat)
    requires n >= 1
    ensures Decimal(Shift(n, k)) == Decimal(n) + Zeros(k)
    decreases k
  {
    if k > 0 {
      var m := Shift(n, k - 1);
      DecimalShifts(n, k - 1);
      ShiftGrows(n, k - 1);
      assert 10 * m / 10 == m && 10 * m % 10 == 0;
      assert Zeros(k) == Zeros(k - 1) + [Digit(0)];
    }
  }

  lemma FallbackIsWhole(n: nat)
    requires n < Pow10(DIGITS)
    ensures Fallback(n) == "evt-" + Padded(n)
  {
    DecimalLength(n, DIGITS);
  }

  /** Behind `evt-` stands the number, in eight digits as long as it has no more. */
  lemma FallbackReads(n: nat)
    requires n < Pow10(DIGITS)
    ensures "evt-" <= Fallback(n) && ValueOf(Fallback(n)[4..]) == n
    ensures n < Pow10(8) ==> |Fallback(n)| == 12
  {
    FallbackIsWhole(n);
    PaddedValue(n);
    assert ("evt-" + Padded(n))[4..] == Padded(n);
    if n < Pow10(8) { DecimalLength(n, 8); }
  }

  lemma FallbacksDiffer(n: nat, m: nat)
    requires n < Pow10(DIGITS) && m < Pow10(DIGITS) && Fallback(n) == Fallback(m)
    ensures n == m
  {
    FallbackIsWhole(n);
    FallbackIsWhole(m);
    assert Padded(n) == ("evt-" + Padded(n))[4..] == ("evt-" + Padded(m))[4..] == Padded(m);
    PaddedValue(n);
    PaddedValue(m);
  }

  /** Longer numbers are cut to their leading digits. */
  lemma FallbackIsPrefix(n: nat, k: nat)
    requires 1 <= n && |Decimal(n)| == DIGITS
    ensures Fallback(Shift(n, k)) == Fallback(n)
  {
    DecimalShifts(n, k);
    assert "evt-" + (Decimal(n) + Zeros(k)) == ("evt-" + Decimal(n)) + Zeros(k);
  }

  /** Finitely many identifiers cannot take up more than that many numbers. */
  lemma {:induction false} Pigeonhole(taken: set<string>, first: nat, k: nat)
    requires first + k <= Pow10(DIGITS) && forall i :: first <= i < first + k ==> Fallback(i) in taken
    ensures k <= |taken|
    decreases k
  {
    if k > 0 {
      var last := Fallback(first + k - 1);
      forall i | first <= i < first + k - 1
        ensures Fallback(i) in taken - {last}
      {
        if Fallback(i) == last { FallbacksDiffer(i, first + k - 1); }
      }
      Pigeonhole(taken - {last}, first, k - 1);
    }
  }

  /** How many numbers have `d` digits: no set of fewer identifiers can take all those of 32. */
  function Spellings(d: nat): nat
    requires d >= 1
  {
    9 * Pow10(d - 1)
  }

  lemma SomeFree(taken: set<string>, first: nat, k: nat) returns (i: nat)
    requires first + k <= Pow10(DIGITS) && |taken| < k
    ensures first <= i < first + k && Fallback(i) !in taken
  {
    if forall i :: first <= i < first + k ==> Fallback(i) in taken { Pigeonhole(taken, first, k); }
    i :| first <= i < first + k && Fallback(i) !in taken;
  }

  /** Wherever the search starts, a free number lies ahead. */
  lemma FreeAhead(taken: set<string>, sequence: nat, d: nat) returns (n: nat)
    requires d == DIGITS && |taken| < Spellings(d)
    ensures n >= sequence && Fallback(n) !in taken
  {
    assert Pow10(d) == Pow10(d - 1) + Spellings(d);
    var i := SomeFree(taken, Pow10(d - 1), Spellings(d));
    DecimalLength(i, d);
    FallbackIsPrefix(i, sequence);
    ShiftGrows(i, sequence);
    n := Shift(i, sequence);
  }

  /** The identifier an event gets: the candidate if it is free, else the first free number from its own on. */
  ghost predicate FirstFree(taken: set<string>, candidate: string, sequence: nat, id: string) {
    if candidate !in taken then id == candidate
    else exists n :: sequence <= n && id == Fallback(n) && id !in taken
                     && forall i :: sequence <= i < n ==> Fallback(i) in taken
  }

  /** Ordinarily the search is short: it passes over one number for each identifier taken. */
  lemma SearchIsShort(taken: set<string>, sequence: nat, n: nat)
    requires sequence <= n < Pow10(DIGITS) && forall i :: sequence <= i < n ==> Fallback(i) in taken
    ensures n <= sequence + |taken|
  {
    Pigeonhole(taken, sequence, n - sequence);
  }

  /** The search ends, because only finitely many identifiers are taken. */
  method UniqueEventId(taken: set<string>, candidate: string, sequence: nat) returns (id: string)
    requires |taken| < Spellings(DIGITS)
    ensures id !in taken && FirstFree(taken, candidate, sequence, id)
  {
    if candidate !in taken { return candidate; }
    ghost var free := FreeAhead(taken, sequence, DIGITS);
    var n := sequence;
    while true
      invariant sequence <= n <= free
      invariant forall i :: sequence <= i < n ==> Fallback(i) in taken
      decreases free - n
    {
      id := Fallback(n);
      if id !in taken { return; }
      n := n + 1;
    }
  }
}
