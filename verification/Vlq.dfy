/** Variable length integers: seven bits a byte, highest first, a set top bit on every byte but the
    last, and the first byte's top digits giving the sign.  The host works on unbounded integers,
    the firmware on 32-bit words. */
module Vlq {
  import opened Words32

  type Byte = x: int | 0 <= x < 0x100

  datatype Option<T> = None | Some(value: T)

  /** A value read and the position after it. */
  datatype Parsed<T> = Parsed(value: T, pos: nat)

  type Digit = x: int | 0 <= x < 0x80

  /** Seven bits of a number, counted in groups from the lowest. */
  function DigitOf(v: int, i: nat): Digit
    requires i < 5
  {
    (match i case 0 => v case 1 => v / 0x80 case 2 => v / 0x4000 case 3 => v / 0x20_0000 case 4 => v / 0x1000_0000)
    % 0x80
  }

  // ------------------------------------------------------------ what the encoders write

  function HostBytes(v: int): (s: seq<Byte>)
    ensures 1 <= |s| <= 5
  {
    (if v >= 0xc00_0000 || v < -0x400_0000 then [DigitOf(v, 4) + 0x80] else [])
    + (if v >= 0x18_0000 || v < -0x8_0000 then [DigitOf(v, 3) + 0x80] else [])
    + (if v >= 0x3000 || v < -0x1000 then [DigitOf(v, 2) + 0x80] else [])
    + (if v >= 0x60 || v < -0x20 then [DigitOf(v, 1) + 0x80] else [])
    + [DigitOf(v, 0)]
  }

  function FirmwareBytes(w: Word): (s: seq<Byte>)
    ensures 1 <= |s| <= 5
  {
    var sv := AsSigned(w);
    (if sv >= 0xc00_0000 || sv < -0x400_0000 then [w / 0x1000_0000 + 0x80] else [])
    + (if sv >= 0x18_0000 || sv < -0x8_0000 then [DigitOf(w, 3) + 0x80] else [])
    + (if sv >= 0x3000 || sv < -0x1000 then [DigitOf(w, 2) + 0x80] else [])
    + (if sv >= 0x60 || sv < -0x20 then [DigitOf(w, 1) + 0x80] else [])
    + [DigitOf(w, 0)]
  }

  method EncodeHost(out: seq<Byte>, v: int) returns (r: seq<Byte>)
    ensures r == out + HostBytes(v) && 1 <= |r| - |out| <= 5
  {
    r := out;
    if v >= 0xc00_0000 || v < -0x400_0000 { r := r + [DigitOf(v, 4) + 0x80]; }
    if v >= 0x18_0000 || v < -0x8_0000 { r := r + [DigitOf(v, 3) + 0x80]; }
    if v >= 0x3000 || v < -0x1000 { r := r + [DigitOf(v, 2) + 0x80]; }
    if v >= 0x60 || v < -0x20 { r := r + [DigitOf(v, 1) + 0x80]; }
    r := r + [DigitOf(v, 0)];
  }

  /** The firmware skips ahead to the first byte it needs. */
  method EncodeFirmware(p: seq<Byte>, v: Word) returns (r: seq<Byte>)
    ensures r == p + FirmwareBytes(v) && 1 <= |r| - |p| <= 5
  {
    var sv := AsSigned(v);
    r := p;
    if !(-0x20 <= sv < 0x60) {
      if !(-0x1000 <= sv < 0x3000) {
        if !(-0x8_0000 <= sv < 0x18_0000) {
          if !(-0x400_0000 <= sv < 0xc00_0000) {
            r := r + [v / 0x1000_0000 + 0x80];
          }
          r := r + [DigitOf(v, 3) + 0x80];
        }
        r := r + [DigitOf(v, 2) + 0x80];
      }
      r := r + [DigitOf(v, 1) + 0x80];
    }
    r := r + [DigitOf(v, 0)];
  }

  // ------------------------------------------------------------ what the decoders read

  /** The value a first byte stands for. */
  function Leading(c: Byte): int {
    if c % 0x80 >= 0x60 then c % 0x80 - 0x80 else c % 0x80
  }

  /** Go on reading after byte `c`, with value `v` so far; nothing if the bytes run out. */
  function Following(s: seq<Byte>, pos: nat, v: int, c: Byte): (r: Option<Parsed<int>>)
    decreases |s| - pos
  {
    if c < 0x80 then Some(Parsed(v, pos))
    else if pos >= |s| then None
    else Following(s, pos + 1, v * 0x80 + s[pos] % 0x80, s[pos])
  }

  /** The integer at `pos`, unbounded. */
  function IntAt(s: seq<Byte>, pos: nat): (r: Option<Parsed<int>>) {
    if pos >= |s| then None else Following(s, pos + 1, Leading(s[pos]), s[pos])
  }

  /** The host's decoder: a value for an unsigned parameter is reduced to 32 bits. */
  method ParseHost(s: seq<Byte>, start: nat, signed: bool) returns (r: Option<Parsed<int>>)
    ensures r == match IntAt(s, start)
                 case None => None
                 case Some(p) => Some(Parsed(if signed then p.value else Wrap(p.value), p.pos))
  {
    var pos := start;
    if pos >= |s| {
      return None;
    }
    var c := s[pos];
    pos := pos + 1;
    var v: int := c % 0x80;
    if c % 0x80 >= 0x60 {
      v := v - 0x80;
    }
    while c >= 0x80
      invariant pos <= |s| && IntAt(s, start) == Following(s, pos, v, c)
      decreases |s| - pos, c
    {
      if pos >= |s| {
        return None;
      }
      c := s[pos];
      pos := pos + 1;
      v := v * 0x80 + c % 0x80;
    }
    return Some(Parsed(if signed then v else Wrap(v), pos));
  }

  /** Dropping the bits above the lowest 32 at every step leaves the same word in the end. */
  lemma {:induction false} WrapShifted(v: int, d: int)
    ensures Wrap(Wrap(v) * 0x80 + d) == Wrap(v * 0x80 + d)
  {
    assert Wrap(v) * 0x80 + d == v * 0x80 + d - 0x80 * (v / 0x1_0000_0000) * 0x1_0000_0000;
    WrapMultiple(v * 0x80 + d, -0x80 * (v / 0x1_0000_0000));
  }

  lemma {:induction false} WrapMultiple(a: int, k: int)
    ensures Wrap(a + k * 0x1_0000_0000) == Wrap(a)
  {
  }

  /** The firmware's decoder, on 32-bit words throughout. */
  method ParseFirmware(s: seq<Byte>, start: nat) returns (r: Option<Parsed<Word>>)
    ensures r == match IntAt(s, start)
                 case None => None
                 case Some(p) => Some(Parsed(Wrap(p.value), p.pos))
  {
    var p := start;
    if p >= |s| {
      return None;
    }
    var c := s[p];
    p := p + 1;
    var v: Word := c % 0x80;
    if c % 0x80 >= 0x60 {
      v := Wrap(v - 0x80);
    }
    ghost var exact: int := Leading(s[start]);
    while c >= 0x80
      invariant p <= |s| && IntAt(s, start) == Following(s, p, exact, c) && v == Wrap(exact)
      decreases |s| - p, c
    {
      if p >= |s| {
        return None;
      }
      c := s[p];
      p := p + 1;
      WrapShifted(exact, c % 0x80);
      v := Wrap(v * 0x80 + c % 0x80);
      exact := exact * 0x80 + c % 0x80;
    }
    return Some(Parsed(v, p));
  }

  // ------------------------------------------------------------ round trips

  /** The bytes `e` stand at `pos`. */
  predicate At(s: seq<Byte>, pos: nat, e: seq<Byte>) {
    pos + |e| <= |s| && s[pos..pos + |e|] == e
  }

  lemma {:induction false} AtByte(s: seq<Byte>, pos: nat, e: seq<Byte>, i: nat)
    requires At(s, pos, e) && i < |e|
    ensures pos + i < |s| && s[pos + i] == e[i]
  {
    assert s[pos..pos + |e|][i] == e[i];
  }

  /** The digits of up to five bytes, the first of which gives the sign. */
  function Value(e: seq<Byte>): int
    requires e != []
  {
    if |e| == 1 then Leading(e[0]) else Value(e[..|e| - 1]) * 0x80 + e[|e| - 1] % 0x80
  }

  /** A complete encoding: all bytes but the last have their top bit set. */
  predicate Complete(e: seq<Byte>) {
    e != [] && e[|e| - 1] < 0x80 && forall i :: 0 <= i < |e| - 1 ==> e[i] >= 0x80
  }

  lemma {:induction false} ReadsPart(s: seq<Byte>, pos: nat, e: seq<Byte>, n: nat)
    requires At(s, pos, e) && Complete(e) && 0 < n <= |e|
    ensures IntAt(s, pos) == Following(s, pos + n, Value(e[..n]), e[n - 1])
    decreases n
  {
    AtByte(s, pos, e, n - 1);
    if n == 1 {
    } else {
      ReadsPart(s, pos, e, n - 1);
      assert e[..n][..n - 1] == e[..n - 1];
    }
  }

  /** A complete encoding is read in full, and nothing after it. */
  lemma {:induction false} ReadsExactly(s: seq<Byte>, pos: nat, e: seq<Byte>)
    requires At(s, pos, e) && Complete(e)
    ensures IntAt(s, pos) == Some(Parsed(Value(e), pos + |e|))
  {
    ReadsPart(s, pos, e, |e|);
    assert e[..|e|] == e;
  }

  /** Whatever is read is a complete encoding, and its value. */
  lemma {:induction false} ReadIsComplete(s: seq<Byte>, pos: nat)
    requires IntAt(s, pos).Some?
    ensures var p := IntAt(s, pos).value;
      pos < p.pos <= |s| && Complete(s[pos..p.pos]) && p.value == Value(s[pos..p.pos])
  {
    FollowingIsComplete(s, pos, pos + 1);
  }

  lemma {:induction false} FollowingIsComplete(s: seq<Byte>, pos: nat, q: nat)
    requires pos < q <= |s| && forall i :: pos <= i < q - 1 ==> s[i] >= 0x80
    requires Following(s, q, Value(s[pos..q]), s[q - 1]).Some?
    ensures var p := Following(s, q, Value(s[pos..q]), s[q - 1]).value;
      pos < p.pos <= |s| && Complete(s[pos..p.pos]) && p.value == Value(s[pos..p.pos])
    decreases |s| - q
  {
    if s[q - 1] >= 0x80 {
      assert s[pos..q + 1] == s[pos..q] + [s[q]];
      ValueMore(s[pos..q], s[q]);
      FollowingIsComplete(s, pos, q + 1);
    }
  }

  /** Nothing is read exactly when the bytes run out before an encoding is complete. */
  lemma {:induction false} NothingReadIff(s: seq<Byte>, pos: nat)
    ensures IntAt(s, pos).None? <==> forall end :: pos < end <= |s| ==> !Complete(s[pos..end])
  {
    if IntAt(s, pos).Some? {
      ReadIsComplete(s, pos);
    } else {
      forall end | pos < end <= |s| ensures !Complete(s[pos..end]) {
        if Complete(s[pos..end]) {
          ReadsExactly(s, pos, s[pos..end]);
        }
      }
    }
  }

  /** No complete encoding is a proper prefix of another, so encodings written one after the other
      can be told apart. */
  lemma {:induction false} PrefixFree(a: seq<Byte>, b: seq<Byte>)
    requires Complete(a) && Complete(b) && |a| <= |b| && b[..|a|] == a
    ensures a == b
  {
    assert b[|a| - 1] == b[..|a|][|a| - 1];
  }

  lemma {:induction false} Value1(e: seq<Byte>)
    requires |e| == 1
    ensures Value(e) == Leading(e[0])
  {
  }

  lemma {:induction false} ValueMore(e: seq<Byte>, d: Byte)
    requires e != []
    ensures Value(e + [d]) == Value(e) * 0x80 + d % 0x80
  {
    assert (e + [d])[..|e|] == e;
  }

  /** The value of a 35-bit number written as five digits. */
  function Reduced(v: int): int {
    (v + 0x2_0000_0000) % 0x8_0000_0000 - 0x2_0000_0000
  }

  // Digits in base 128 of a number that fits them.

  lemma {:induction false} Digits2(v: int)
    ensures v == v / 0x80 * 0x80 + DigitOf(v, 0)
  {
  }

  lemma {:induction false} Digits3(v: int)
    ensures v == (v / 0x4000 * 0x80 + DigitOf(v, 1)) * 0x80 + DigitOf(v, 0)
  {
  }

  lemma {:induction false} Shift3(v: int)
    ensures v / 0x4000 / 0x80 == v / 0x20_0000
  {
  }

  lemma {:induction false} Shift4(v: int)
    ensures v / 0x20_0000 / 0x80 == v / 0x1000_0000
  {
  }

  lemma {:induction false} Digits4(v: int)
    ensures v == ((v / 0x20_0000 * 0x80 + DigitOf(v, 2)) * 0x80 + DigitOf(v, 1)) * 0x80 + DigitOf(v, 0)
  {
    Digits3(v);
    Shift3(v);
    Regroup(v / 0x4000, v / 0x20_0000);
  }

  lemma {:induction false} Digits5(v: int)
    ensures v == (((v / 0x1000_0000 * 0x80 + DigitOf(v, 3)) * 0x80 + DigitOf(v, 2)) * 0x80
                  + DigitOf(v, 1)) * 0x80 + DigitOf(v, 0)
  {
    Digits4(v);
    Shift4(v);
    Regroup(v / 0x20_0000, v / 0x1000_0000);
  }

  lemma {:induction false} Regroup(a: int, b: int)
    requires a / 0x80 == b
    ensures a == b * 0x80 + a % 0x80
  {
  }

  lemma {:induction false} ValueOf2(a: Digit, b: Digit)
    ensures Value([a + 0x80, b]) == Leading(a) * 0x80 + b
  {
    ValueMore([a + 0x80], b);
    assert [a + 0x80] + [b] == [a + 0x80, b];
  }

  lemma {:induction false} ValueFlagged(e: seq<Byte>, d: Digit, f: Digit)
    requires e != []
    ensures Value(e + [d + 0x80, f]) == Value(e + [d]) * 0x80 + f
  {
    ValueMore(e, d);
    ValueMore(e, d + 0x80);
    ValueMore(e + [d + 0x80], f);
    assert e + [d + 0x80] + [f] == e + [d + 0x80, f];
  }

  lemma {:induction false} ValueOf3(a: Digit, b: Digit, c: Digit)
    ensures Value([a + 0x80, b + 0x80, c]) == (Leading(a) * 0x80 + b) * 0x80 + c
  {
    hide Value, Leading;
    ValueOf2(a, b);
    ValueFlagged([a + 0x80], b, c);
    assert [a + 0x80] + [b + 0x80, c] == [a + 0x80, b + 0x80, c] && [a + 0x80] + [b] == [a + 0x80, b];
  }

  lemma {:induction false} ValueOf4(a: Digit, b: Digit, c: Digit, d: Digit)
    ensures Value([a + 0x80, b + 0x80, c + 0x80, d]) == ((Leading(a) * 0x80 + b) * 0x80 + c) * 0x80 + d
  {
    hide Value, Leading;
    ValueOf3(a, b, c);
    var e := [a + 0x80, b + 0x80];
    ValueFlagged(e, c, d);
    assert e + [c + 0x80, d] == [a + 0x80, b + 0x80, c + 0x80, d] && e + [c] == [a + 0x80, b + 0x80, c];
  }

  lemma {:induction false} ValueOf5(a: Digit, b: Digit, c: Digit, d: Digit, e: Digit)
    ensures Value([a + 0x80, b + 0x80, c + 0x80, d + 0x80, e]) ==
            (((Leading(a) * 0x80 + b) * 0x80 + c) * 0x80 + d) * 0x80 + e
  {
    hide Value, Leading;
    ValueOf4(a, b, c, d);
    var f := [a + 0x80, b + 0x80, c + 0x80];
    ValueFlagged(f, d, e);
    assert f + [d + 0x80, e] == [a + 0x80, b + 0x80, c + 0x80, d + 0x80, e];
    assert f + [d] == [a + 0x80, b + 0x80, c + 0x80, d];
  }

  /** The leading digit of a number that fits is the number of its remaining bits. */
  lemma {:induction false} LeadingFits(q: int)
    requires -0x20 <= q < 0x60
    ensures Leading(q % 0x80) == q
  {
  }

  lemma {:induction false} LeadingReduced(v: int)
    ensures Leading(DigitOf(v, 4)) == Reduced(v) / 0x1000_0000
  {
    var q, t := v / 0x1000_0000, v + 0x2_0000_0000;
    assert t / 0x1000_0000 == q + 0x20;
    ModDiv(t);
    assert Reduced(v) / 0x1000_0000 == (q + 0x20) % 0x80 - 0x20;
  }

  lemma {:induction false} ModDiv(t: int)
    ensures t % 0x8_0000_0000 / 0x1000_0000 == t / 0x1000_0000 % 0x80
  {
  }

  /** A multiple of the 32-bit range does not change the four lowest digits. */
  lemma {:induction false} SameDigits(v: int, k: int, i: nat)
    requires i < 4
    ensures DigitOf(v + k * 0x1_0000_0000, i) == DigitOf(v, i)
  {
    if i == 0 {
      PlusMultiple(v, k * 0x200_0000);
    } else if i == 1 {
      ShiftedBy1(v, k);
      PlusMultiple(v / 0x80, k * 0x4_0000);
    } else if i == 2 {
      ShiftedBy2(v, k);
      PlusMultiple(v / 0x4000, k * 0x800);
    } else {
      ShiftedBy3(v, k);
      PlusMultiple(v / 0x20_0000, k * 0x10);
    }
  }

  lemma {:induction false} ShiftedBy1(v: int, k: int)
    ensures (v + k * 0x1_0000_0000) / 0x80 == v / 0x80 + k * 0x200_0000
  {
  }

  lemma {:induction false} ShiftedBy2(v: int, k: int)
    ensures (v + k * 0x1_0000_0000) / 0x4000 == v / 0x4000 + k * 0x4_0000
  {
  }

  lemma {:induction false} ShiftedBy3(v: int, k: int)
    ensures (v + k * 0x1_0000_0000) / 0x20_0000 == v / 0x20_0000 + k * 0x800
  {
  }

  lemma {:induction false} PlusMultiple(q: int, m: int)
    ensures (q + m * 0x80) % 0x80 == q % 0x80
  {
    assert q + m * 0x80 == (q / 0x80 + m) * 0x80 + q % 0x80;
  }

  lemma {:induction false} ReducedIs(v: int) returns (k: int)
    ensures Reduced(v) == v + k * 0x1_0000_0000
  {
    k := -8 * ((v + 0x2_0000_0000) / 0x8_0000_0000);
  }

  /** The digits of `v` as an encoding of one to five bytes. */
  function Shape(v: int, n: nat): seq<Byte>
    requires 1 <= n <= 5
  {
    if n == 1 then [DigitOf(v, 0)]
    else if n == 2 then [DigitOf(v, 1) + 0x80, DigitOf(v, 0)]
    else if n == 3 then [DigitOf(v, 2) + 0x80, DigitOf(v, 1) + 0x80, DigitOf(v, 0)]
    else if n == 4 then [DigitOf(v, 3) + 0x80, DigitOf(v, 2) + 0x80, DigitOf(v, 1) + 0x80, DigitOf(v, 0)]
    else [DigitOf(v, 4) + 0x80, DigitOf(v, 3) + 0x80, DigitOf(v, 2) + 0x80, DigitOf(v, 1) + 0x80, DigitOf(v, 0)]
  }

  /** The number of bytes both encoders use. */
  function Size(v: int): (n: nat)
    ensures 1 <= n <= 5
  {
    if -0x20 <= v < 0x60 then 1 else if -0x1000 <= v < 0x3000 then 2
    else if -0x8_0000 <= v < 0x18_0000 then 3 else if -0x400_0000 <= v < 0xc00_0000 then 4 else 5
  }

  lemma {:induction false} HostShape(v: int)
    ensures HostBytes(v) == Shape(v, Size(v))
  {
    hide DigitOf;
  }

  lemma {:induction false} FirmwareShape(w: Word)
    ensures FirmwareBytes(w) == Shape(w, Size(AsSigned(w)))
  {
    assert DigitOf(w, 4) == w / 0x1000_0000;
    hide DigitOf;
  }

  lemma {:induction false} ShapeComplete(v: int, n: nat)
    requires 1 <= n <= 5
    ensures Complete(Shape(v, n))
  {
    hide DigitOf;
  }

  lemma {:induction false} Short1(v: int)
    requires -0x20 <= v < 0x60
    ensures Value(Shape(v, 1)) == v
  {
    LeadingFits(v);
    Value1(Shape(v, 1));
  }

  lemma {:induction false} Short2(v: int)
    requires -0x1000 <= v < 0x3000
    ensures Value(Shape(v, 2)) == v
  {
    LeadingFits(v / 0x80);
    Digits2(v);
    hide Value, Leading;
    ValueOf2(DigitOf(v, 1), DigitOf(v, 0));
  }

  lemma {:induction false} Short3(v: int)
    requires -0x8_0000 <= v < 0x18_0000
    ensures Value(Shape(v, 3)) == v
  {
    hide Value, Leading;
    LeadingFits(v / 0x4000);
    Digits3(v);
    ValueOf3(DigitOf(v, 2), DigitOf(v, 1), DigitOf(v, 0));
  }

  lemma {:induction false} Short4(v: int)
    requires -0x400_0000 <= v < 0xc00_0000
    ensures Value(Shape(v, 4)) == v
  {
    hide Value, Leading;
    LeadingFits(v / 0x20_0000);
    assert DigitOf(v, 3) == v / 0x20_0000 % 0x80;
    hide DigitOf;
    Digits4(v);
    ValueOf4(DigitOf(v, 3), DigitOf(v, 2), DigitOf(v, 1), DigitOf(v, 0));
  }

  lemma {:induction false} Long(v: int)
    ensures Value(Shape(v, 5)) == Reduced(v)
  {
    hide Value, Leading, Reduced, DigitOf;
    ValueOf5(DigitOf(v, 4), DigitOf(v, 3), DigitOf(v, 2), DigitOf(v, 1), DigitOf(v, 0));
    LeadingReduced(v);
    var k := ReducedIs(v);
    SameDigits(v, k, 0);
    SameDigits(v, k, 1);
    SameDigits(v, k, 2);
    SameDigits(v, k, 3);
    Digits5(Reduced(v));
  }

  /** Up to four digits are enough for the numbers that get them. */
  lemma {:induction false} ShortValue(v: int)
    requires -0x400_0000 <= v < 0xc00_0000
    ensures Size(v) <= 4 && Value(Shape(v, Size(v))) == v
  {
    hide Shape, Value;
    if Size(v) == 1 {
      Short1(v);
    } else if Size(v) == 2 {
      Short2(v);
    } else if Size(v) == 3 {
      Short3(v);
    } else {
      Short4(v);
    }
  }

  lemma {:induction false} ShortReduced(v: int)
    requires -0x400_0000 <= v < 0xc00_0000
    ensures Reduced(v) == v
  {
  }

  lemma {:induction false} SizeMore(v: int, d: Digit)
    ensures Size(v * 0x80 + d) <= Size(v) + 1
  {
  }

  /** No encoding of a number is shorter than the number of bytes both encoders use for it. */
  lemma {:induction false} SizeIsLeast(e: seq<Byte>)
    requires e != []
    ensures Size(Value(e)) <= |e|
    decreases |e|
  {
    if |e| == 1 {
      Value1(e);
    } else {
      SizeIsLeast(e[..|e| - 1]);
      SizeMore(Value(e[..|e| - 1]), e[|e| - 1] % 0x80);
    }
  }

  /** Both encoders write the shortest encoding there is. */
  lemma {:induction false} ShortestBytes(e: seq<Byte>, w: Word)
    requires e != []
    ensures |HostBytes(Value(e))| <= |e|
    ensures AsSigned(w) == Value(e) ==> |FirmwareBytes(w)| <= |e|
  {
    hide HostBytes, FirmwareBytes, Value, Size, DigitOf, AsSigned;
    SizeIsLeast(e);
    HostShape(Value(e));
    FirmwareShape(w);
  }

  /** What the host writes is a complete encoding of the number, reduced to 35 bits. */
  lemma {:induction false} HostValue(v: int)
    ensures Complete(HostBytes(v)) && Value(HostBytes(v)) == Reduced(v)
  {
    hide Complete, Value, HostBytes, Shape, Reduced;
    HostShape(v);
    ShapeComplete(v, Size(v));
    if -0x400_0000 <= v < 0xc00_0000 {
      ShortValue(v);
      ShortReduced(v);
    } else {
      Long(v);
    }
  }

  /** What the firmware's bytes for a word stand for: the signed number when they are few, and the
      unsigned number when there are five. */
  function Written(w: Word): int {
    if -0x400_0000 <= AsSigned(w) then AsSigned(w) else w
  }

  /** Up to four digits are those of the signed number too. */
  lemma {:induction false} SignedShape(w: Word, n: nat)
    requires 1 <= n <= 4
    ensures Shape(w, n) == Shape(AsSigned(w), n)
  {
    hide DigitOf;
    var sv := AsSigned(w);
    var k := if w < 0x8000_0000 then 0 else 1;
    assert w == sv + k * 0x1_0000_0000;
    SameDigits(sv, k, 0);
    SameDigits(sv, k, 1);
    SameDigits(sv, k, 2);
    SameDigits(sv, k, 3);
  }

  lemma {:induction false} WordReduced(w: Word)
    ensures Reduced(w) == w
  {
  }

  lemma {:induction false} FirmwareValue(w: Word)
    ensures Complete(FirmwareBytes(w)) && Value(FirmwareBytes(w)) == Written(w)
  {
    hide Complete, Value, FirmwareBytes, Shape, Reduced;
    var sv := AsSigned(w);
    FirmwareShape(w);
    ShapeComplete(w, Size(sv));
    if -0x400_0000 <= sv < 0xc00_0000 {
      ShortValue(sv);
      SignedShape(w, Size(sv));
    } else {
      Long(w);
      WordReduced(w);
    }
  }

  // ------------------------------------------------------------ host and firmware together

  /** Whatever the host writes, decoding consumes exactly that. */
  lemma {:induction false} ReadsHostBytes(s: seq<Byte>, pos: nat, v: int)
    requires At(s, pos, HostBytes(v))
    ensures IntAt(s, pos) == Some(Parsed(Reduced(v), pos + |HostBytes(v)|))
  {
    HostValue(v);
    ReadsExactly(s, pos, HostBytes(v));
  }

  lemma {:induction false} ReadsFirmwareBytes(s: seq<Byte>, pos: nat, w: Word)
    requires At(s, pos, FirmwareBytes(w))
    ensures IntAt(s, pos) == Some(Parsed(Written(w), pos + |FirmwareBytes(w)|))
  {
    FirmwareValue(w);
    ReadsExactly(s, pos, FirmwareBytes(w));
  }

  /** A host decoding its own bytes: an unsigned parameter is exact for just the 32-bit values, a
      signed one for just those from -2^33 up to 3 * 2^33. */
  lemma {:induction false} HostRoundTrip(v: int)
    ensures Wrap(Reduced(v)) == v <==> 0 <= v < 0x1_0000_0000
    ensures Reduced(v) == v <==> -0x2_0000_0000 <= v < 0x6_0000_0000
    ensures Wrap(Reduced(v)) == Wrap(v)
  {
    var k := ReducedIs(v);
    WrapMultiple(v, k);
  }

  /** Firmware words: every decoder gets the word back modulo 2^32; the host reads the signed number
      exactly if it is at least -2^26, and otherwise reads it 2^32 too high. */
  lemma {:induction false} FirmwareRoundTrip(w: Word)
    ensures Wrap(Written(w)) == w
    ensures Written(w) == AsSigned(w) <==> -0x400_0000 <= AsSigned(w)
    ensures AsSigned(w) < -0x400_0000 ==> Written(w) == AsSigned(w) + 0x1_0000_0000
  {
  }
}
