// Timer ticks out of a 64-bit clock, with 32-bit operations only
// (kernel/symplus/tick.c).
module Tick {
  import opened Words

  const TICK := 10_000_000

  // The time between two readings of the 64-bit clock.
  function Between(oldLow: Word, oldHigh: Word, low: Word, high: Word): nat {
    ((high * W + low) - (oldHigh * W + oldLow)) % (W * W)
  }

  // All but the low i bits of x, and bit i of x.
  function Top(x: Word, i: nat): nat {
    DivBound(x, Pow2(i));
    x / Pow2(i)
  }

  function BitAt(x: Word, i: nat): Word {
    BitOp(And, Lsr(x, i), 1)
  }

  // The clock's high word followed by all but the low i bits of its low word.
  function Head(hi: Word, lo: Word, i: nat): nat
    requires i <= 32
  {
    Top(lo, i) + hi * Pow2(32 - i)
  }

  lemma BorrowedWords(oldLow: Word, oldHigh: Word, low: Word, high: Word)
    ensures var borrow := if low < oldLow then 1 else 0;
      Between(oldLow, oldHigh, low, high) == Wrap(high - oldHigh - borrow) * W + Wrap(low - oldLow)
  {
    var borrow := if low < oldLow then 1 else 0;
    var h := high - oldHigh - borrow;
    var k := if h < 0 then -1 else 0;
    assert low - oldLow + borrow * W == Wrap(low - oldLow);
    assert h - k * W == Wrap(h);
    DivModUnique((high * W + low) - (oldHigh * W + oldLow), W * W, k, Wrap(h) * W + Wrap(low - oldLow));
  }

  // One digit of a binary long division.
  lemma Digit(n: nat, bit: nat)
    requires bit <= 1
    ensures var r := 2 * (n % TICK) + bit;
      && (2 * n + bit) % TICK == (if r >= TICK then r - TICK else r)
      && (2 * n + bit) / TICK == 2 * (n / TICK) + (if r >= TICK then 1 else 0)
  {
    var r := 2 * (n % TICK) + bit;
    var c := if r >= TICK then 1 else 0;
    DivModUnique(2 * n + bit, TICK, 2 * (n / TICK) + c, r - c * TICK);
  }

  lemma Halve(x: nat, p: nat, a: nat, b: nat, r: nat)
    requires p > 0 && b <= 1 && r < p && x == p * (2 * a + b) + r
    ensures x / (2 * p) == a
  {
    assert p * (2 * a + b) == (2 * p) * a + p * b;
    DivModUnique(x, 2 * p, a, (if b == 0 then 0 else p) + r);
  }

  lemma NextBit(x: Word, i: nat)
    requires i < 32
    ensures BitAt(x, i) <= 1 && Top(x, i) == 2 * Top(x, i + 1) + BitAt(x, i)
  {
    hide BitOp;
    var p := Pow2(i);
    var q := Top(x, i);
    assert Pow2(1) == 2;
    assert Lsr(x, i) == q;
    AndMask(q, 1);
    assert x == p * q + x % p;
    Halve(x, p, q / 2, q % 2, x % p);
  }

  lemma NextHead(hi: Word, lo: Word, i: nat)
    requires i < 32
    ensures Head(hi, lo, i) == 2 * Head(hi, lo, i + 1) + BitAt(lo, i)
  {
    hide Top, BitAt;
    NextBit(lo, i);
    var p := Pow2(31 - i);
    assert Pow2(32 - i) == 2 * p;
    assert hi * (2 * p) == 2 * (hi * p) by { MulAssoc(hi, 2, p); MulAssoc(2, hi, p); }
  }

  lemma Doubled(t: Word, q: nat)
    requires t == Wrap(q)
    ensures Wrap(2 * q) == Wrap(2 * t) && Wrap(2 * q + 1) == Wrap(2 * t) + 1 && Wrap(2 * t) % 2 == 0
  {
    var k, c := q / W, if 2 * t >= W then 1 else 0;
    DivModUnique(2 * q, W, 2 * k + c, 2 * t - c * W);
    DivModUnique(2 * q + 1, W, 2 * k + c, 2 * t - c * W + 1);
    DivModUnique(2 * t, W, c, 2 * t - c * W);
  }

  lemma ShiftIn(t: Word, q: nat)
    requires t == Wrap(q)
    ensures Lsl(t, 1) == Wrap(2 * q) && BitOp(Or, Lsl(t, 1), 1) == Wrap(2 * q + 1)
  {
    hide Wrap, Bits;
    assert Pow2(1) == 2;
    Doubled(t, q);
    var s := Lsl(t, 1);
    assert s == Wrap(2 * t) by { assert t * 2 == 2 * t; }
    Pow2Values();
    BitsOrDisjoint(s / 2, 1, 1, 32);
  }

  // Bringing down one bit stays far below a word.
  lemma BringDown(n: nat, r: Word, bit: Word)
    requires r == n % TICK && bit <= 1
    ensures var s := Wrap(Wrap(r * 2) + bit);
      && (2 * n + bit) % TICK == (if s >= TICK then s - TICK else s)
      && (2 * n + bit) / TICK == 2 * (n / TICK) + (if s >= TICK then 1 else 0)
  {
    Digit(n, bit);
  }

  // The quotient n is h, shifted up k digits, followed by q.
  predicate Split(n: int, h: int, q: int, k: nat) {
    n == h * Pow2(k) + q
  }

  lemma SplitNext(n: int, h: int, q: int, k: nat)
    requires Split(n, h, q, k)
    ensures Split(2 * n, h, 2 * q, k + 1) && Split(2 * n + 1, h, 2 * q + 1, k + 1)
  {
    assert h * (2 * Pow2(k)) == 2 * (h * Pow2(k)) by { MulAssoc(h, 2, Pow2(k)); MulAssoc(2, h, Pow2(k)); }
  }

  lemma SplitStart(h: int)
    ensures Split(h, h, 0, 0) && Wrap(0) == 0
  {
  }

  // A whole word of digits later, h is beyond the word.
  lemma SplitEnd(n: nat, h: nat, q: nat)
    requires Split(n, h, q, 32)
    ensures Wrap(n) == Wrap(q)
  {
    Pow2Values();
    DivModUnique(n, W, h + q / W, q % W);
  }

  // The first loop: the remainder of the high word.
  method DivideHigh(hi: Word) returns (rest: Word)
    ensures rest == hi % TICK
  {
    hide Wrap, BitAt, Top, BitOp, Head, Pow2;
    HeadEnds(hi, 0);
    rest := 0;
    var i := 31;
    while i >= 0
      invariant -1 <= i <= 31 && rest == Top(hi, i + 1) % TICK
    {
      NextBit(hi, i);
      BringDown(Top(hi, i + 1), rest, BitAt(hi, i));
      rest := Wrap(Wrap(rest * 2) + BitAt(hi, i));
      if rest >= TICK {
        rest := rest - TICK;
      }
      i := i - 1;
    }
  }

  // The second loop: the low word's bits, with the quotient shifted in.
  method DivideLow(hi: Word, lo: Word, high: Word) returns (ticks: Word, rest: Word)
    requires high == hi % TICK
    ensures ticks == Wrap((hi * W + lo) / TICK) && rest == (hi * W + lo) % TICK
  {
    hide Wrap, BitAt, Head, Lsl, BitOp, Split, Top;
    HeadEnds(hi, lo);
    assert Split(hi / TICK, hi / TICK, 0, 0) && Wrap(0) == 0 by { SplitStart(hi / TICK); }
    rest, ticks := high, 0;
    ghost var q := 0;
    var i := 31;
    while i >= 0
      invariant -1 <= i <= 31 && rest == Head(hi, lo, i + 1) % TICK
      invariant q >= 0 && ticks == Wrap(q) && Split(Head(hi, lo, i + 1) / TICK, hi / TICK, q, 31 - i)
    {
      NextHead(hi, lo, i);
      NextBit(lo, i);
      BringDown(Head(hi, lo, i + 1), rest, BitAt(lo, i));
      ShiftIn(ticks, q);
      SplitNext(Head(hi, lo, i + 1) / TICK, hi / TICK, q, 31 - i);
      rest := Wrap(Wrap(rest * 2) + BitAt(lo, i));
      ticks := Lsl(ticks, 1);
      q := 2 * q;
      if rest >= TICK {
        rest := rest - TICK;
        ticks := BitOp(Or, ticks, 1);
        q := q + 1;
      }
      i := i - 1;
    }
    SplitEnd((hi * W + lo) / TICK, hi / TICK, q);
  }

  // The long division is exact and never overflows a word; what is left over is
  // kept for the next call.
  method TickElapsed(oldLow: Word, oldHigh: Word, low: Word, high: Word, saved: Word) returns (ticks: Word, rest: Word)
    requires saved < TICK
    ensures ticks == Wrap((Between(oldLow, oldHigh, low, high) + saved) / TICK)
    ensures rest == (Between(oldLow, oldHigh, low, high) + saved) % TICK
  {
    hide Between, Wrap;
    BorrowedWords(oldLow, oldHigh, low, high);
    var lo, hi := Wrap(low - oldLow), Wrap(high - oldHigh - if low < oldLow then 1 else 0);
    ghost var delta := Between(oldLow, oldHigh, low, high);
    if hi == 0 {
      ticks, rest := lo / TICK, lo % TICK;
      Small(lo / TICK);
    } else {
      rest := DivideHigh(hi);
      ticks, rest := DivideLow(hi, lo, rest);
    }
    Carry(delta, saved);
    Small(rest + saved);
    WrapNext(delta / TICK);
    rest := Wrap(rest + saved);
    if rest >= TICK {
      rest := rest - TICK;
      ticks := Wrap(ticks + 1);
    }
  }

  lemma Small(x: Word)
    ensures Wrap(x) == x
  {
  }

  lemma WrapNext(n: nat)
    ensures Wrap(Wrap(n) + 1) == Wrap(n + 1)
  {
  }

  lemma HeadEnds(hi: Word, lo: Word)
    ensures Top(hi, 32) == 0 && Top(hi, 0) == hi
    ensures Head(hi, lo, 32) == hi
    ensures Head(hi, lo, 0) == hi * W + lo
  {
    Pow2Values();
    assert Pow2(0) == 1;
    DivModUnique(hi, W, 0, hi);
    DivModUnique(lo, W, 0, lo);
  }

  lemma Carry(delta: nat, saved: Word)
    requires saved < TICK
    ensures var r := delta % TICK + saved; var c := if r >= TICK then 1 else 0;
      (delta + saved) % TICK == r - c * TICK && (delta + saved) / TICK == delta / TICK + c
  {
    var r := delta % TICK + saved;
    var c := if r >= TICK then 1 else 0;
    DivModUnique(delta + saved, TICK, delta / TICK + c, r - c * TICK);
  }

  // ---- successive calls ----

  function Sum(deltas: seq<nat>): nat {
    if deltas == [] then 0 else Sum(deltas[..|deltas| - 1]) + deltas[|deltas| - 1]
  }

  // What the calls leave over after these deltas, and the ticks they report.
  function Left(deltas: seq<nat>, saved: nat): nat {
    if deltas == [] then saved else (deltas[|deltas| - 1] + Left(deltas[..|deltas| - 1], saved)) % TICK
  }

  function Reported(deltas: seq<nat>, saved: nat): nat {
    if deltas == [] then 0
    else
      var before := deltas[..|deltas| - 1];
      Reported(before, saved) + (deltas[|deltas| - 1] + Left(before, saved)) / TICK
  }

  // However the elapsed time is cut into calls, no tick is lost or invented.
  lemma {:induction false} NothingLost(deltas: seq<nat>, saved: nat)
    requires saved < TICK
    ensures Reported(deltas, saved) == (Sum(deltas) + saved) / TICK
    ensures Left(deltas, saved) == (Sum(deltas) + saved) % TICK
  {
    if deltas != [] {
      var before, d := deltas[..|deltas| - 1], deltas[|deltas| - 1];
      NothingLost(before, saved);
      var n := Sum(before) + saved;
      var l := n % TICK;
      DivModUnique(n + d, TICK, n / TICK + (d + l) / TICK, (d + l) % TICK);
    }
  }
}
