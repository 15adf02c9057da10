/** 32-bit unsigned words with wrap-around, and the firmware's way of comparing clock values. */
module Words32 {
  const HALF: int := 0x8000_0000

  type Word = x: int | 0 <= x < 0x1_0000_0000

  function Wrap(x: int): Word {
    x % 0x1_0000_0000
  }

  /** A word read as a signed number. */
  function AsSigned(w: Word): int {
    if w < 0x8000_0000 then w else w - 0x1_0000_0000
  }

  /** True when the signed 32-bit difference `time1 - time2` is negative. */
  predicate IsBefore(time1: Word, time2: Word) {
    (time1 - time2) % 0x1_0000_0000 >= 0x8000_0000
  }

  /** Comparing wrapped times decides the order of the true times, as long as those are less
      than half the counter's range apart. */
  lemma {:induction false} WrappedOrder(a: int, b: int)
    requires -HALF <= a - b < HALF
    ensures IsBefore(Wrap(a), Wrap(b)) <==> a < b
  {
    WrapOfDifference(a, b);
  }

  lemma {:induction false} WrapOfDifference(a: int, b: int)
    ensures (Wrap(a) - Wrap(b)) % 0x1_0000_0000 == (a - b) % 0x1_0000_0000
  {
    assert Wrap(a) - Wrap(b) == (a - b) - 0x1_0000_0000 * (a / 0x1_0000_0000 - b / 0x1_0000_0000);
  }

  lemma {:induction false} WrapSum(a: int, b: int)
    ensures Wrap(Wrap(a) + b) == Wrap(a + b)
  {
    assert Wrap(a) + b == (a + b) - 0x1_0000_0000 * (a / 0x1_0000_0000);
  }

  /** The true time with the given low 32 bits that is closest to `t`. */
  function Closest(t: int, w: Word): (x: int)
    ensures -HALF < x - t <= HALF && Wrap(x) == w
  {
    var ahead := (w - t) % 0x1_0000_0000;
    var x := t + if ahead <= HALF then ahead else ahead - 0x1_0000_0000;
    ClosestWraps(t, w, (w - t) / 0x1_0000_0000, x);
    x
  }

  lemma {:induction false} ClosestWraps(t: int, w: Word, k: int, x: int)
    requires x == w - 0x1_0000_0000 * k || x == w - 0x1_0000_0000 * (k + 1)
    ensures Wrap(x) == w
  {
  }

  /** True times with the same low bits that lie in the same range around `t` are the same. */
  lemma {:induction false} ClosestIs(t: int, x: int)
    requires -HALF < x - t <= HALF
    ensures Closest(t, Wrap(x)) == x
  {
    var y := Closest(t, Wrap(x));
    assert x - y == 0x1_0000_0000 * (x / 0x1_0000_0000 - y / 0x1_0000_0000);
  }

  /** A wrapped comparison with `t` is a comparison with the true time closest to it. */
  lemma {:induction false} ClosestOrder(t: int, w: Word)
    ensures IsBefore(Wrap(t), w) <==> t < Closest(t, w)
  {
    hide IsBefore, Wrap, Closest;
    WrappedOrder(t, Closest(t, w));
  }

  /** A time `d` ticks ahead, found again from its low bits: it is never put any later. */
  lemma {:induction false} ClosestAhead(t: int, d: Word)
    ensures Closest(t, Wrap(t + d)) == if d <= HALF then t + d else t + d - 0x1_0000_0000
  {
    hide Closest, Wrap;
    if d <= HALF {
      ClosestIs(t, t + d);
    } else {
      WrapAround(t + d);
      ClosestIs(t, t + d - 0x1_0000_0000);
    }
  }

  lemma {:induction false} WrapAround(x: int)
    ensures Wrap(x - 0x1_0000_0000) == Wrap(x)
  {
  }

  /** Every time is before exactly one of two times half the counter's range apart. */
  lemma {:induction false} BeforeExactlyOne(w: Word, p: Word)
    ensures IsBefore(w, p) != IsBefore(w, Wrap(p + HALF))
  {
  }
}
