/** The bit-banged UART: a buffer sent as runs of equal bits, each event toggling the line once, and
    a reply sampled bit by bit. */
module TmcUart {
  import opened Words32

  // ------------------------------------------------------------ bits of a byte buffer

  function Mask(i: nat): bv8
    requires i < 8
  {
    if i == 0 then 0x01 else if i == 1 then 0x02 else if i == 2 then 0x04 else if i == 3 then 0x08
    else if i == 4 then 0x10 else if i == 5 then 0x20 else if i == 6 then 0x40 else 0x80
  }

  predicate HasBit(b: bv8, i: nat)
    requires i < 8
  {
    b & Mask(i) != 0
  }

  function WithBit(b: bv8, i: nat, v: bool): bv8
    requires i < 8
  {
    if v then b | Mask(i) else b & !Mask(i)
  }

  lemma {:induction false} WithBitChangesOne(b: bv8, i: nat, v: bool, j: nat)
    requires i < 8 && j < 8
    ensures HasBit(WithBit(b, i, v), j) == if j == i then v else HasBit(b, j)
  {
  }

  /** Bit `k` of a buffer, each byte sent lowest bit first. */
  predicate BitAt(bytes: seq<bv8>, k: nat)
    requires k / 8 < |bytes|
  {
    HasBit(bytes[k / 8], k % 8)
  }

  /** The first `n` bits of a buffer. */
  ghost function Bits(bytes: seq<bv8>, n: nat): (bits: seq<bool>)
    requires n <= 8 * |bytes|
    ensures |bits| == n && forall k :: 0 <= k < n ==> bits[k] == BitAt(bytes, k)
  {
    if n == 0 then [] else Bits(bytes, n - 1) + [BitAt(bytes, n - 1)]
  }

  /** A buffer that starts with a sync nibble. */
  predicate StartsWithSync(bytes: seq<bv8>) {
    |bytes| >= 1 && bytes[0] & 0x3f == 0x2a
  }

  /** The test for a sync nibble looks at the first six bits. */
  lemma {:induction false} SyncNibble(b: bv8)
    ensures b & 0x3f == 0x2a <==>
              !HasBit(b, 0) && HasBit(b, 1) && !HasBit(b, 2) && HasBit(b, 3) && !HasBit(b, 4) && HasBit(b, 5)
  {
  }

  // ------------------------------------------------------------ waveforms

  /** The level at time `t` of a line that idles high and is toggled at each of `edges`. */
  predicate LevelAt(edges: seq<int>, t: int) {
    if edges == [] then true
    else if t >= edges[|edges| - 1] then |edges| % 2 == 0
    else LevelAt(edges[..|edges| - 1], t)
  }

  /** The level the last toggle leaves the line at. */
  predicate Level(edges: seq<int>) {
    |edges| % 2 == 0
  }

  /** In every cell `k` but the last, from `starts[k]` to `starts[k + 1]`, the line holds `bits[k]`
      throughout; from the start of the last cell on it holds that cell's bit. */
  ghost predicate Draws(edges: seq<int>, bits: seq<bool>, starts: seq<int>) {
    && |starts| <= |bits|
    && forall k, t :: 0 <= k < |starts| && InCell(starts, k, t) ==> LevelAt(edges, t) == bits[k]
  }

  predicate InCell(starts: seq<int>, k: nat, t: int)
    requires k < |starts|
  {
    starts[k] <= t && (k + 1 < |starts| ==> t < starts[k + 1])
  }

  /** No edge and no cell starts after `t`. */
  ghost predicate Past(edges: seq<int>, starts: seq<int>, t: int) {
    && (edges != [] ==> edges[|edges| - 1] <= t)
    && (forall k :: 0 <= k < |starts| ==> starts[k] <= t)
  }

  /** Starting the next cell with a toggle draws a bit that differs from the one before. */
  lemma {:induction false} DrawToggled(edges: seq<int>, bits: seq<bool>, starts: seq<int>, at: int)
    requires Draws(edges, bits, starts) && Past(edges, starts, at)
    requires |starts| < |bits| && bits[|starts|] != Level(edges)
    requires starts == [] ==> edges == []
    ensures Draws(edges + [at], bits, starts + [at])
  {
    var e, s := edges + [at], starts + [at];
    assert e[..|e| - 1] == edges;
    forall k, t | 0 <= k < |s| && InCell(s, k, t) ensures LevelAt(e, t) == bits[k] {
      if k < |starts| {
        assert InCell(starts, k, t);
      }
    }
  }

  /** Starting the next cell without a toggle draws a bit that equals the one before. */
  lemma {:induction false} DrawHeld(edges: seq<int>, bits: seq<bool>, starts: seq<int>, at: int)
    requires Draws(edges, bits, starts) && Past(edges, starts, at)
    requires |starts| < |bits| && bits[|starts|] == Level(edges)
    ensures Draws(edges, bits, starts + [at])
  {
    var s := starts + [at];
    forall k, t | 0 <= k < |s| && InCell(s, k, t) ensures LevelAt(edges, t) == bits[k] {
      if k < |starts| {
        assert InCell(starts, k, t);
      }
    }
  }

  /** What the line shows for a buffer: the first bit cell is always low, even for no bits at all. */
  function Sent(bits: seq<bool>): (sent: seq<bool>)
    ensures |sent| > 0
  {
    if bits == [] then [false] else [false] + bits[1..]
  }

  /** The start of cell `k`: cells are `bitTime` long, but the first four of a sync nibble have the
      configured length, and the fifth is stretched by the measured drift. */
  function CellStart(origin: int, cfg: int, drift: int, bitTime: int, k: nat): int {
    if k <= 4 then origin + k * cfg else origin + 4 * cfg + drift + (k - 4) * bitTime
  }

  lemma {:induction false} NextCell(origin: int, cfg: int, drift: int, bitTime: int, k: nat)
    requires k > 4 || (drift == 0 && bitTime == cfg)
    ensures CellStart(origin, cfg, drift, bitTime, k + 1) == CellStart(origin, cfg, drift, bitTime, k) + bitTime
  {
  }

  lemma {:induction false} EvenCells(origin: int, bitTime: int, k: nat)
    ensures CellStart(origin, bitTime, 0, bitTime, k) == origin + k * bitTime
  {
  }

  ghost predicate Spaced(starts: seq<int>, origin: int, cfg: int, drift: int, bitTime: int) {
    forall k :: 0 <= k < |starts| ==> starts[k] == CellStart(origin, cfg, drift, bitTime, k)
  }

  // ------------------------------------------------------------ the drawing of a buffer so far

  /** Cells `0` to `n - 1` have been drawn; cell `n` starts at `due`. */
  ghost predicate Drawing(edges: seq<int>, bits: seq<bool>, starts: seq<int>, origin: int, cfg: int, drift: int,
      bitTime: int, due: int, n: nat)
  {
    && |starts| == n && Draws(edges, Sent(bits), starts) && Past(edges, starts, due)
    && Spaced(starts, origin, cfg, drift, bitTime) && due == CellStart(origin, cfg, drift, bitTime, n)
    && (n == 0 ==> edges == [])
  }

  lemma {:induction false} StartDrawing(bits: seq<bool>, origin: int, cfg: int, bitTime: int)
    ensures Drawing([], bits, [], origin, cfg, 0, bitTime, origin, 0)
  {
  }

  lemma {:induction false} PastLater(edges: seq<int>, starts: seq<int>, at: int, later: int)
    requires Past(edges, starts, at) && at <= later
    ensures Past(edges + [at], starts + [at], later) && Past(edges, starts + [at], later)
  {
  }

  lemma {:induction false} SpacedOneMore(starts: seq<int>, origin: int, cfg: int, drift: int, bitTime: int)
    requires Spaced(starts, origin, cfg, drift, bitTime)
    ensures Spaced(starts + [CellStart(origin, cfg, drift, bitTime, |starts|)], origin, cfg, drift, bitTime)
  {
    hide CellStart;
  }

  lemma {:induction false} DrawingToggled(edges: seq<int>, bits: seq<bool>, starts: seq<int>, origin: int, cfg: int,
      drift: int, bitTime: int, due: int, n: nat, later: int)
    requires Drawing(edges, bits, starts, origin, cfg, drift, bitTime, due, n)
    requires n < |Sent(bits)| && Sent(bits)[n] != Level(edges)
    requires due <= later == CellStart(origin, cfg, drift, bitTime, n + 1)
    ensures Drawing(edges + [due], bits, starts + [due], origin, cfg, drift, bitTime, later, n + 1)
  {
    hide Draws, Past, Spaced, CellStart, Sent, Level;
    DrawToggled(edges, Sent(bits), starts, due);
    PastLater(edges, starts, due, later);
    SpacedOneMore(starts, origin, cfg, drift, bitTime);
  }

  lemma {:induction false} DrawingHeld(edges: seq<int>, bits: seq<bool>, starts: seq<int>, origin: int, cfg: int,
      drift: int, bitTime: int, due: int, n: nat, later: int)
    requires Drawing(edges, bits, starts, origin, cfg, drift, bitTime, due, n)
    requires 0 < n < |Sent(bits)| && Sent(bits)[n] == Level(edges)
    requires due <= later == CellStart(origin, cfg, drift, bitTime, n + 1)
    ensures Drawing(edges, bits, starts + [due], origin, cfg, drift, bitTime, later, n + 1)
  {
    hide Draws, Past, Spaced, CellStart, Sent, Level;
    DrawHeld(edges, Sent(bits), starts, due);
    PastLater(edges, starts, due, later);
    SpacedOneMore(starts, origin, cfg, drift, bitTime);
  }

  /** The drift measured at the fifth toggle only moves later cells. */
  lemma {:induction false} DrawingDrifts(edges: seq<int>, bits: seq<bool>, starts: seq<int>, origin: int, cfg: int,
      before: int, drift: int, bitTime: int, due: int, later: int)
    requires Drawing(edges, bits, starts, origin, cfg, 0, before, due, 5)
    requires later == CellStart(origin, cfg, drift, bitTime, 5) && CellStart(origin, cfg, 0, before, 4) <= later
    requires edges != [] && edges[|edges| - 1] == starts[4] && 0 <= cfg
    ensures Drawing(edges, bits, starts, origin, cfg, drift, bitTime, later, 5)
  {
    assert starts[4] == origin + 4 * cfg;
    forall k | 0 <= k < 5 ensures starts[k] <= starts[4] {
      assert k == 0 || k == 1 || k == 2 || k == 3 || k == 4;
    }
  }

  /** The line holds bit `k` throughout bit cell `k`, for every bit. */
  ghost predicate HoldsBits(edges: seq<int>, bits: seq<bool>, origin: int, bitTime: int) {
    forall k, t :: 0 <= k < |bits| && origin + k * bitTime <= t < origin + (k + 1) * bitTime ==>
      LevelAt(edges, t) == bits[k]
  }

  lemma {:induction false} DrawnCell(edges: seq<int>, bits: seq<bool>, starts: seq<int>, origin: int, bitTime: int,
      due: int, k: nat, t: int)
    requires Drawing(edges, bits, starts, origin, bitTime, 0, bitTime, due, |Sent(bits)|) && k < |Sent(bits)|
    requires origin + k * bitTime <= t < origin + (k + 1) * bitTime
    ensures LevelAt(edges, t) == Sent(bits)[k]
  {
    EvenCells(origin, bitTime, k);
    EvenCells(origin, bitTime, k + 1);
    assert InCell(starts, k, t);
  }

  /** A whole buffer drawn without drift: every bit is held for exactly its cell, if and only if the
      first bit is low; and the last cell ends exactly after as many bit times as there are bits. */
  lemma {:induction false} HoldsBitsIff(edges: seq<int>, bits: seq<bool>, starts: seq<int>, origin: int,
      bitTime: int, due: int)
    requires Drawing(edges, bits, starts, origin, bitTime, 0, bitTime, due, |Sent(bits)|)
    requires bits != [] && bitTime > 0
    ensures HoldsBits(edges, bits, origin, bitTime) <==> !bits[0]
    ensures due == origin + |bits| * bitTime
  {
    hide Drawing, LevelAt;
    DrawnCell(edges, bits, starts, origin, bitTime, due, 0, origin);
    if !bits[0] {
      forall k, t | 0 <= k < |bits| && origin + k * bitTime <= t < origin + (k + 1) * bitTime
        ensures LevelAt(edges, t) == bits[k]
      {
        DrawnCell(edges, bits, starts, origin, bitTime, due, k, t);
      }
    } else {
      assert origin + 0 * bitTime <= origin < origin + (0 + 1) * bitTime;
    }
    DrawingEnds(edges, bits, starts, origin, bitTime, due);
  }

  lemma {:induction false} DrawingEnds(edges: seq<int>, bits: seq<bool>, starts: seq<int>, origin: int, bitTime: int,
      due: int)
    requires Drawing(edges, bits, starts, origin, bitTime, 0, bitTime, due, |Sent(bits)|)
    ensures due == origin + |Sent(bits)| * bitTime
  {
    EvenCells(origin, bitTime, |Sent(bits)|);
  }

  /** Sampling the line once per bit, starting anywhere inside the first cell, reads the bits back. */
  lemma {:induction false} SamplingRestores(edges: seq<int>, bits: seq<bool>, origin: int, bitTime: int, first: int,
      samples: seq<bool>)
    requires HoldsBits(edges, bits, origin, bitTime) && origin <= first < origin + bitTime
    requires |samples| == |bits|
    requires forall k :: 0 <= k < |samples| ==> samples[k] == LevelAt(edges, first + k * bitTime)
    ensures samples == bits
  {
    hide LevelAt, HoldsBits;
    forall k | 0 <= k < |samples| ensures samples[k] == bits[k] {
      HeldAt(edges, bits, origin, bitTime, first, k);
    }
  }

  /** A bit is there to be read anywhere in its cell. */
  lemma {:induction false} HeldAt(edges: seq<int>, bits: seq<bool>, origin: int, bitTime: int, first: int, k: nat)
    requires HoldsBits(edges, bits, origin, bitTime) && origin <= first < origin + bitTime && k < |bits|
    ensures LevelAt(edges, first + k * bitTime) == bits[k]
  {
    assert origin + k * bitTime <= first + k * bitTime < origin + (k + 1) * bitTime;
  }

  lemma {:induction false} SamplesGrow(bits: seq<bool>, k: nat)
    requires k < |bits|
    ensures bits[..k] + [bits[k]] == bits[..k + 1] && (k + 1 == |bits| ==> bits[..k + 1] == bits)
  {
  }

  // ------------------------------------------------------------ measuring the bit time

  /** Division as C does it, towards zero. */
  function Quotient(x: int, d: int): int
    requires d > 0
  {
    if x >= 0 then x / d else -(-x / d)
  }

  /** What the firmware takes as a quarter of the drift, rounded to the closest integer. */
  function QuarterOf(drift: int): int {
    Quotient(drift + 2, 4)
  }

  /** The quarter is the closest integer exactly when the drift is at least -2 or is 2 more than a
      multiple of 4; other negative drifts are rounded up by more than half. */
  lemma {:induction false} QuarterIsClosestIff(drift: int)
    ensures -2 <= 4 * QuarterOf(drift) - drift <= 2 <==> drift >= -2 || drift % 4 == 2
    ensures -2 < 4 * QuarterOf(drift) - drift <= 5
  {
    if drift + 2 < 0 {
      assert QuarterOf(drift) == -(-(drift + 2) / 4);
    }
  }

  lemma {:induction false} QuarterNotClosest()
    ensures QuarterOf(-4) == 0
  {
  }

  /** A measured drift the remaining cells can follow: the bit time fits, and the next toggle is not
      due before the last. */
  predicate Trackable(cfg: Word, drift: int) {
    0 <= cfg + QuarterOf(drift) < 0x1_0000_0000 && 0 <= drift + cfg + QuarterOf(drift)
  }

  /** It can follow just the drifts that leave a bit time and do not bring a toggle before the one
      before; every drift of at most half a bit is one of them. */
  lemma {:induction false} TrackableIff(origin: int, cfg: Word, drift: int)
    ensures Trackable(cfg, drift) <==>
      && 0 <= cfg + QuarterOf(drift) < 0x1_0000_0000
      && CellStart(origin, cfg, drift, cfg + QuarterOf(drift), 4) <= CellStart(origin, cfg, drift, cfg + QuarterOf(drift), 5)
    ensures cfg < 0x8000_0000 && 0 <= cfg + 2 * drift && 2 * drift <= cfg ==> Trackable(cfg, drift)
  {
    var q := QuarterOf(drift);
    QuarterIsClosestIff(drift);
    hide QuarterOf;
    assert -2 < 4 * q - drift <= 5;
  }

  /** Made as late as the first toggle was, the toggles after the fifth follow it by whole bit times from
      when it was really made. */
  lemma {:induction false} CellsFollowFifth(origin: int, cfg: int, first: int, fifth: int, bitTime: int, k: nat)
    requires k > 4
    ensures CellStart(origin, cfg, fifth - first, bitTime, k) + first ==
            (CellStart(origin, cfg, fifth - first, bitTime, 4) + fifth) + (k - 4) * bitTime
  {
  }

  /** The bit time from cell `n` on: as configured, or changed by the measured drift. */
  ghost predicate Steady(cfg: Word, drift: int, bitTime: Word, n: nat) {
    if drift == 0 then bitTime == cfg else n > 4 && bitTime == Wrap(cfg + QuarterOf(drift))
  }

  /** If the remaining cells can follow the measured drift, the line has shown cells `0` to `n - 1`. */
  ghost predicate DrawnTo(edges: seq<int>, bits: seq<bool>, starts: seq<int>, origin: int, cfg: Word, drift: int,
      bitTime: Word, due: int, n: nat)
  {
    Trackable(cfg, drift) ==> Drawing(edges, bits, starts, origin, cfg, drift, bitTime, due, n)
  }

  lemma {:induction false} SteadyCell(origin: int, cfg: Word, drift: int, bitTime: Word, n: nat)
    requires Steady(cfg, drift, bitTime, n) && Trackable(cfg, drift)
    ensures CellStart(origin, cfg, drift, bitTime, n + 1) == CellStart(origin, cfg, drift, bitTime, n) + bitTime
  {
    hide CellStart;
    NextCell(origin, cfg, drift, bitTime, n);
  }

  lemma {:induction false} ToggleRun(edges: seq<int>, bits: seq<bool>, starts: seq<int>, origin: int, cfg: Word,
      drift: int, bitTime: Word, due: int, n: nat)
    requires DrawnTo(edges, bits, starts, origin, cfg, drift, bitTime, due, n)
    requires Steady(cfg, drift, bitTime, n) && n < |Sent(bits)| && Sent(bits)[n] != Level(edges)
    ensures DrawnTo(edges + [due], bits, starts + [due], origin, cfg, drift, bitTime, due + bitTime, n + 1)
  {
    if Trackable(cfg, drift) {
      SteadyCell(origin, cfg, drift, bitTime, n);
      assert due == CellStart(origin, cfg, drift, bitTime, n);
      hide Drawing, Draws, Past, Spaced, CellStart, Sent, Level;
      DrawingToggled(edges, bits, starts, origin, cfg, drift, bitTime, due, n, due + bitTime);
    }
  }

  lemma {:induction false} HoldRun(edges: seq<int>, bits: seq<bool>, starts: seq<int>, origin: int, cfg: Word,
      drift: int, bitTime: Word, due: int, n: nat)
    requires DrawnTo(edges, bits, starts, origin, cfg, drift, bitTime, due, n)
    requires Steady(cfg, drift, bitTime, n) && 0 < n < |Sent(bits)| && Sent(bits)[n] == Level(edges)
    ensures DrawnTo(edges, bits, starts + [due], origin, cfg, drift, bitTime, due + bitTime, n + 1)
  {
    if Trackable(cfg, drift) {
      SteadyCell(origin, cfg, drift, bitTime, n);
      assert due == CellStart(origin, cfg, drift, bitTime, n);
      hide Drawing, Draws, Past, Spaced, CellStart, Sent, Level;
      DrawingHeld(edges, bits, starts, origin, cfg, drift, bitTime, due, n, due + bitTime);
    }
  }

  /** A toggle within the sync nibble; the bit time is not in use yet. */
  lemma {:induction false} SyncToggle(edges: seq<int>, bits: seq<bool>, starts: seq<int>, origin: int, cfg: Word,
      before: Word, after: Word, due: int, n: nat)
    requires DrawnTo(edges, bits, starts, origin, cfg, 0, before, due, n)
    requires n < 4 && n < |Sent(bits)| && Sent(bits)[n] != Level(edges)
    ensures DrawnTo(edges + [due], bits, starts + [due], origin, cfg, 0, after, due + cfg, n + 1)
  {
    assert Drawing(edges, bits, starts, origin, cfg, 0, cfg, due, n);
    hide Drawing, Draws, Past, Spaced, Sent, Level;
    DrawingToggled(edges, bits, starts, origin, cfg, 0, cfg, due, n, due + cfg);
    OtherBitTime(edges + [due], bits, starts + [due], origin, cfg, cfg, after, due + cfg, n + 1);
  }

  lemma {:induction false} OtherBitTime(edges: seq<int>, bits: seq<bool>, starts: seq<int>, origin: int, cfg: int,
      before: int, after: int, due: int, n: nat)
    requires Drawing(edges, bits, starts, origin, cfg, 0, before, due, n) && n <= 4
    ensures Drawing(edges, bits, starts, origin, cfg, 0, after, due, n)
  {
    hide Draws, Past, Sent;
  }

  /** The last toggle of the sync nibble; the remaining cells follow the measured drift. */
  lemma {:induction false} SyncDone(edges: seq<int>, bits: seq<bool>, starts: seq<int>, origin: int, cfg: Word,
      before: Word, drift: int, bitTime: Word, due: int)
    requires DrawnTo(edges, bits, starts, origin, cfg, 0, before, due, 4)
    requires 4 < |Sent(bits)| && Sent(bits)[4] != Level(edges)
    requires bitTime == Wrap(cfg + QuarterOf(drift))
    ensures DrawnTo(edges + [due], bits, starts + [due], origin, cfg, drift, bitTime, due + drift + bitTime, 5)
  {
    if Trackable(cfg, drift) {
      hide Draws, Past, Spaced, Sent, Level, QuarterOf;
      DrawingToggled(edges, bits, starts, origin, cfg, 0, before, due, 4, due + before);
      hide Drawing;
      DrawingDrifts(edges + [due], bits, starts + [due], origin, cfg, before, drift, bitTime, due + before,
                    due + drift + bitTime);
    }
  }

  // ------------------------------------------------------------ the uart

  type Byte = x: int | 0 <= x < 0x100

  datatype Handler = Idle | SendSync | SendBits | SendFinish | AwaitStart | ReadBits

  datatype SendResult = Accepted | Dropped | TooLarge

  class Uart {
    const data: array<bv8>
    const cfgBitTime: Word
    var bitTime: Word
    var lineHigh: bool
    var active: bool
    var readSync: bool
    var report: bool
    var pos: Byte
    var readCount: Byte
    var writeCount: Byte
    var handler: Handler
    var waketime: Word
    /** The true time the timer is due. */
    ghost var due: int
    /** The bits of the buffer, when its first cell starts, and the drift measured in the sync nibble. */
    ghost var bits: seq<bool>
    ghost var origin: int
    ghost var drift: int
    /** The line's toggles, and the starts of the bit cells drawn so far. */
    ghost var edges: seq<int>
    ghost var starts: seq<int>
    /** The samples of the reply, and when the first was taken. */
    ghost var samples: seq<bool>
    ghost var sampleStart: int

    /** The line shows the buffer's bits in the cells drawn so far. */
    ghost predicate Drawn(n: nat)
      reads this`bits, this`origin, this`drift, this`edges, this`starts, this`bitTime, this`due
    {
      DrawnTo(edges, bits, starts, origin, cfgBitTime, drift, bitTime, due, n)
    }

    ghost predicate Sending()
      reads this`bits, this`origin, this`drift, this`edges, this`starts, this`bitTime, this`due, this`pos,
        this`writeCount, this`lineHigh, data
    {
      && writeCount == |bits| && writeCount <= 8 * data.Length && Bits(data[..], writeCount) == bits
      && pos < |Sent(bits)| && lineHigh == Level(edges) && Sent(bits)[pos] != lineHigh
      && Drawn(pos)
    }

    /** The bit time the remaining cells have. */
    ghost predicate Calibrated()
      reads this`drift, this`bitTime, this`pos
    {
      Steady(cfgBitTime, drift, bitTime, pos)
    }

    ghost predicate SyncAhead()
      reads this`bits, this`drift, this`pos, this`edges, this`starts
    {
      && drift == 0 && pos <= 4 && |bits| >= 8 && |edges| == |starts| == pos
      && !bits[0] && bits[1] && !bits[2] && bits[3] && !bits[4] && bits[5]
    }

    ghost predicate Reading()
      reads this`samples, this`sampleStart, this`due, this`pos, this`readCount, this`bitTime, data
    {
      && pos < readCount <= 8 * data.Length && Bits(data[..], pos) == samples
      && due == sampleStart + pos * bitTime
    }

    ghost predicate Valid()
      reads this, data
    {
      && data.Length == 10 && writeCount <= 80 && readCount <= 80 && readCount % 8 == 0
      && (active <==> handler != Idle) && (!active ==> lineHigh)
      && waketime == Wrap(due)
      && match handler
         case Idle => true
         case SendSync => Sending() && SyncAhead()
         case SendBits => Sending() && Calibrated()
         case SendFinish => Drawn(|Sent(bits)|)
         case AwaitStart => readCount > 0 && pos <= 64
         case ReadBits => Reading()
    }

    constructor (bitTime: Word)
      ensures Valid() && !active && lineHigh && cfgBitTime == bitTime && fresh(data)
    {
      data := new bv8[10];
      cfgBitTime, this.bitTime := bitTime, bitTime;
      lineHigh, active, readSync, report, handler := true, false, false, false, Idle;
      pos, readCount, writeCount, waketime := 0, 0, 0, 0;
      due, bits, origin, drift, edges, starts, samples, sampleStart := 0, [], 0, 0, [], [], [], 0;
    }

    /** Return the line to idle. */
    method ResetLine()
      modifies this`lineHigh, this`active, this`readSync, this`report, this`handler
      ensures lineHigh && !active && !readSync && !report && handler == Idle
    {
      lineHigh, active, readSync, report, handler := true, false, false, false, Idle;
    }

    /** End a transmission and have the reply reported. */
    method Finalize()
      requires Valid()
      modifies this`lineHigh, this`active, this`readSync, this`report, this`handler
      ensures Valid() && handler == Idle && report
    {
      ResetLine();
      report := true;
    }

    method LoadBuffer(write: seq<bv8>)
      requires |write| <= data.Length
      modifies data
      ensures data[..|write|] == write
    {
      for i := 0 to |write|
        invariant data[..i] == write[..i]
      {
        data[i] := write[i];
      }
    }

    method Prepare(write: seq<bv8>, readLen: Byte, wake: int)
      requires |write| <= 10 && readLen <= 10 && data.Length == 10
      modifies this`pos, this`active, this`readSync, this`report, this`writeCount, this`readCount, this`due,
        this`waketime, this`bits, this`origin, this`drift, this`edges, this`starts, data
      ensures pos == 0 && active && !readSync && !report
      ensures writeCount == 8 * |write| && readCount == 8 * readLen && bits == Bits(write, 8 * |write|)
      ensures data[..|write|] == write
      ensures due == origin == wake && waketime == Wrap(wake) && drift == 0 && edges == [] && starts == []
    {
      LoadBuffer(write);
      pos, active, readSync, report := 0, true, false, false;
      writeCount, readCount := 8 * |write|, 8 * readLen;
      waketime := Wrap(wake);
      due, origin, drift, edges, starts := wake, wake, 0, [], [];
      bits := Bits(write, 8 * |write|);
    }

    /** Choose how to send the buffer that has been loaded. */
    method StartTransmission(writeLen: nat)
      requires data.Length == 10 && writeCount == 8 * writeLen <= 80 && readCount <= 80 && readCount % 8 == 0
      requires active && lineHigh && pos == 0 && drift == 0 && edges == [] && starts == []
      requires due == origin && waketime == Wrap(due) && bits == Bits(data[..], writeCount)
      modifies this`bitTime, this`handler
      ensures Valid()
      ensures handler == if StartsWithSync(data[..writeLen]) then SendSync else SendBits
    {
      hide Drawing, HasBit, Mask;
      if writeLen >= 1 && data[0] & 0x3f == 0x2a {
        handler := SendSync;
        SyncNibble(data[0]);
      } else {
        bitTime := cfgBitTime;
        handler := SendBits;
      }
      StartDrawing(bits, origin, cfgBitTime, bitTime);
    }

    /** Begin sending `write` at time `wake`, then reading `readLen` bytes.  A request that arrives
        while the uart is busy changes nothing. */
    method Send(write: seq<bv8>, readLen: Byte, wake: int) returns (r: SendResult)
      requires Valid() && |write| < 0x100
      modifies this, data
      ensures Valid()
      ensures r == if old(active) then Dropped else if |write| > 10 || readLen > 10 then TooLarge else Accepted
      ensures r != Accepted ==> active == old(active) && lineHigh == old(lineHigh) && data[..] == old(data[..])
      ensures r == Accepted ==>
        && bits == Bits(write, 8 * |write|) && due == origin == wake && edges == [] && starts == [] && pos == 0
        && readCount == 8 * readLen && drift == 0 && !readSync && !report
        && handler == if StartsWithSync(write) then SendSync else SendBits
    {
      if active {
        return Dropped;
      }
      if |write| > 10 || readLen > 10 {
        return TooLarge;
      }
      hide *;
      Prepare(write, readLen, wake);
      PrefixBits(data[..], write);
      StartTransmission(|write|);
      r := Accepted;
    }

    method Toggle()
      modifies this`lineHigh, this`edges
      ensures lineHigh == !old(lineHigh) && edges == old(edges) + [due]
      ensures old(lineHigh == Level(edges)) ==> lineHigh == Level(edges)
    {
      lineHigh := !lineHigh;
      edges := edges + [due];
    }

    /** Toggle the line, and find the next time it has to be toggled. */
    method SendEvent()
      requires Valid() && handler == SendBits
      modifies this`lineHigh, this`edges, this`starts, this`pos, this`handler, this`due, this`waketime
      ensures Valid() && (handler == SendBits || handler == SendFinish)
      ensures handler == SendBits ==> pos > old(pos)
      ensures handler == SendFinish ==> Drawn(|Sent(bits)|)
    {
      hide DrawnTo, BitAt, Sent, Steady;
      FirstBits(bits);
      ToggleRun(edges, bits, starts, origin, cfgBitTime, drift, bitTime, due, pos);
      Toggle();
      FindRun();
    }

    /** Skip the bits that equal the line's level. */
    method FindRun()
      requires data.Length == 10 && active && handler == SendBits && waketime == Wrap(due)
      requires readCount <= 80 && readCount % 8 == 0
      requires writeCount == |bits| <= 80 && Bits(data[..], writeCount) == bits && pos < |Sent(bits)|
      requires lineHigh == Level(edges) && Calibrated()
      requires DrawnTo(edges, bits, starts + [due], origin, cfgBitTime, drift, bitTime, due + bitTime, pos + 1)
      modifies this`starts, this`pos, this`handler, this`due, this`waketime
      ensures Valid() && (handler == SendBits || handler == SendFinish)
      ensures handler == SendBits ==> pos > old(pos)
    {
      hide DrawnTo, BitAt, Bits, Sent, Steady, Wrap, Level, Trackable;
      var next: Word, p: nat := bitTime, pos;
      ghost var cells, at := starts + [due], due + bitTime;
      RunStarts(due, bitTime);
      while true
        invariant handler == SendBits && pos == old(pos) && waketime == old(waketime)
        invariant pos <= p < |Sent(bits)| && Steady(cfgBitTime, drift, bitTime, p)
        invariant DrawnTo(edges, bits, cells, origin, cfgBitTime, drift, bitTime, at, p + 1)
        invariant Wrap(waketime + next) == Wrap(at)
        decreases |Sent(bits)| - p
      {
        SteadyLater(cfgBitTime, drift, bitTime, p);
        SentLength(bits);
        p := p + 1;
        if p >= writeCount {
          handler := SendFinish;
          break;
        }
        SentBit(data[..], bits, p);
        if BitAt(data[..], p) != lineHigh {
          pos := p;
          break;
        }
        HoldRun(edges, bits, cells, origin, cfgBitTime, drift, bitTime, at, p);
        RunGrows(waketime, next, at, bitTime);
        cells, at := cells + [at], at + bitTime;
        next := Wrap(next + bitTime);
      }
      starts, due := cells, at;
      waketime := Wrap(waketime + next);
    }

    /** Toggle the line for the next bit of the sync nibble.  The first toggle notes how late it is,
        the fifth sets the bit time from how much later it is. */
    method SendSyncEvent(cur: Word)
      requires Valid() && handler == SendSync
      modifies this`lineHigh, this`edges, this`starts, this`pos, this`handler, this`due, this`waketime,
        this`bitTime, this`drift
      ensures Valid() && pos == old(pos) + 1
      ensures handler == if pos == 5 then SendBits else SendSync
      ensures bitTime == if pos == 1 then Wrap(cur - old(waketime)) else if pos < 5 then old(bitTime)
                         else Wrap(cfgBitTime + QuarterOf(drift))
      ensures pos == 5 ==> drift == AsSigned(Wrap(Wrap(cur - old(waketime)) - old(bitTime)))
    {
      hide *;
      BeginSyncCell();
      var offset := LateBy(cur);
      if pos >= 5 {
        FinishSync(offset);
      } else {
        ContinueSync(offset);
      }
    }

    /** How late an event runs. */
    method LateBy(cur: Word) returns (offset: Word)
      ensures offset == Wrap(cur - waketime)
    {
      offset := Wrap(cur - waketime);
    }

    /** The line has just been toggled for a bit of the sync nibble. */
    ghost predicate SyncCellBegun()
      reads this`bits, this`origin, this`drift, this`edges, this`starts, this`bitTime, this`due, this`pos,
        this`writeCount, this`readCount, this`lineHigh, this`active, this`waketime, data
    {
      && data.Length == 10 && active && waketime == Wrap(due) && readCount <= 80 && readCount % 8 == 0
      && 1 <= pos <= 5 && drift == 0 && |edges| == |starts| == pos
      && writeCount == |bits| <= 80 && Bits(data[..], writeCount) == bits
      && |bits| >= 8 && !bits[0] && bits[1] && !bits[2] && bits[3] && !bits[4] && bits[5]
      && lineHigh == Level(edges) && Sent(bits)[pos - 1] != Level(edges[..pos - 1])
      && edges[pos - 1] == due == starts[pos - 1]
      && DrawnTo(edges[..pos - 1], bits, starts[..pos - 1], origin, cfgBitTime, 0, bitTime, due, pos - 1)
    }

    method BeginSyncCell()
      requires Valid() && handler == SendSync
      modifies this`lineHigh, this`edges, this`starts, this`pos
      ensures SyncCellBegun() && pos == old(pos) + 1 <= 5
    {
      hide DrawnTo, BitAt, Wrap, Sent, Level, Bits;
      NextSyncBit(bits, pos);
      Toggle();
      pos := pos + 1;
      starts := starts + [due];
      assert edges[..pos - 1] == old(edges) && starts[..pos - 1] == old(starts);
    }

    method ContinueSync(offset: Word)
      requires SyncCellBegun() && handler == SendSync && pos <= 4
      modifies this`due, this`waketime, this`bitTime
      ensures Valid()
      ensures bitTime == if pos == 1 then offset else old(bitTime)
    {
      hide DrawnTo, BitAt, Wrap, Sent;
      ghost var before := bitTime;
      if pos == 1 {
        bitTime := offset;
      }
      NextSyncBit(bits, pos);
      SyncToggle(edges[..pos - 1], bits, starts[..pos - 1], origin, cfgBitTime, before, bitTime, due, pos - 1);
      assert edges[..pos - 1] + [due] == edges && starts[..pos - 1] + [due] == starts;
      RunStarts(due, cfgBitTime);
      due := due + cfgBitTime;
      waketime := Wrap(waketime + cfgBitTime);
    }

    method FinishSync(offset: Word)
      requires SyncCellBegun() && pos == 5
      modifies this`handler, this`due, this`waketime, this`bitTime, this`drift
      ensures Valid() && handler == SendBits && drift == AsSigned(Wrap(offset - old(bitTime)))
      ensures bitTime == Wrap(cfgBitTime + QuarterOf(drift))
    {
      hide DrawnTo, BitAt, Wrap, AsSigned, QuarterOf, Sent;
      NextSyncBit(bits, 4);
      ghost var before := bitTime;
      var diff := AsSigned(Wrap(offset - bitTime));
      drift := diff;
      bitTime := Wrap(cfgBitTime + QuarterOf(diff));
      handler := SendBits;
      SyncDone(edges[..|edges| - 1], bits, starts[..|starts| - 1], origin, cfgBitTime, before, drift, bitTime, due);
      assert edges[..|edges| - 1] + [due] == edges && starts[..|starts| - 1] + [due] == starts;
      SteadyAfterSync(cfgBitTime, drift, bitTime);
      WrapSum(due, diff + bitTime);
      due := due + diff + bitTime;
      waketime := Wrap(waketime + (diff + bitTime));
    }

    /** The last bit cell is over: finish, or wait for a reply. */
    method SendFinishEvent()
      requires Valid() && handler == SendFinish
      modifies this`lineHigh, this`active, this`readSync, this`report, this`handler, this`pos, this`due, this`waketime
      ensures Valid()
      ensures readCount == 0 ==> handler == Idle && lineHigh && report
      ensures readCount > 0 ==> handler == AwaitStart && pos == 0 && due == old(due) + Wrap(bitTime * 4)
    {
      hide DrawnTo, Wrap;
      if readCount == 0 {
        Finalize();
        return;
      }
      pos := 0;
      handler := AwaitStart;
      WrapSum(due, Wrap(bitTime * 4));
      due := due + Wrap(bitTime * 4);
      waketime := Wrap(waketime + Wrap(bitTime * 4));
    }

    method StoreBit(v: bool)
      requires data.Length == 10 && pos < 80 && Bits(data[..], pos) == samples
      modifies this`samples, data
      ensures samples == old(samples) + [v] && Bits(data[..], pos + 1) == samples
    {
      StoredBits(data[..], pos, v);
      data[pos / 8] := WithBit(data[pos / 8], pos % 8, v);
      samples := samples + [v];
    }

    /** Store the sample of the next bit of the reply. */
    method ReadEvent(v: bool)
      requires Valid() && handler == ReadBits
      modifies this`lineHigh, this`active, this`readSync, this`report, this`handler, this`pos, this`due, this`waketime,
        this`samples, data
      ensures Valid() && samples == old(samples) + [v]
      ensures old(pos) + 1 < readCount ==> handler == ReadBits && pos == old(pos) + 1
      ensures old(pos) + 1 >= readCount ==> handler == Idle && report && Bits(data[..], readCount) == samples
    {
      hide Drawn, Wrap, Bits, BitAt;
      StoreBit(v);
      pos := pos + 1;
      if pos >= readCount {
        ResetLine();
        report := true;
        return;
      }
      WrapSum(due, bitTime);
      NextSample(sampleStart, pos, bitTime);
      due := due + bitTime;
      waketime := Wrap(waketime + bitTime);
    }

    /** Look for the start of a reply: a low level after a high one.  Then the first bit is sampled
        at once.  After 65 samples without a start the wait is over and nothing has been read. */
    method ReadSyncEvent(v: bool, again: bool)
      requires Valid() && handler == AwaitStart
      modifies this, data
      ensures Valid()
      ensures !v && old(readSync) ==>
        && samples == [again] && sampleStart == old(due) && readCount == old(readCount) && handler == ReadBits
        && bitTime == old(bitTime)
      ensures v || !old(readSync) ==>
        && data[..] == old(data[..]) && samples == old(samples) && bitTime == old(bitTime)
        && if old(pos) >= 64 then handler == Idle && report && readCount == 0
           else
             && handler == AwaitStart && pos == old(pos) + 1 && readSync == (v || old(readSync))
             && due == old(due) + bitTime && readCount == old(readCount)
    {
      hide Wrap, Bits, BitAt;
      if !v && readSync {
        pos, samples, sampleStart := 0, [], due;
        handler := ReadBits;
        NoBits(data[..]);
        ReadEvent(again);
        return;
      }
      AwaitLonger(v);
    }

    method AwaitLonger(v: bool)
      requires Valid() && handler == AwaitStart
      modifies this`lineHigh, this`active, this`readSync, this`report, this`handler, this`pos, this`due, this`waketime,
        this`readCount
      ensures Valid()
      ensures if old(pos) >= 64 then handler == Idle && report && readCount == 0
              else
                && handler == AwaitStart && pos == old(pos) + 1 && readSync == (v || old(readSync))
                && due == old(due) + bitTime && readCount == old(readCount)
    {
      hide Wrap;
      if v {
        readSync := true;
      }
      if pos >= 64 {
        pos, readCount := pos + 1, 0;
        ResetLine();
        report := true;
        return;
      }
      pos := pos + 1;
      WrapSum(due, bitTime);
      due := due + bitTime;
      waketime := Wrap(waketime + bitTime);
    }

    /** A shutdown returns the line to idle; the timer no longer runs. */
    method Shutdown()
      requires Valid()
      modifies this`lineHigh, this`active, this`readSync, this`report, this`handler
      ensures Valid() && handler == Idle && !report
    {
      ResetLine();
    }

    /** Sample the rest of a reply: the buffer then holds all its samples. */
    method Receive(levels: seq<bool>)
      requires Valid() && handler == ReadBits && pos + |levels| == readCount
      modifies this, data
      ensures Valid() && handler == Idle && report && readCount == old(readCount)
      ensures Bits(data[..], readCount) == old(samples) + levels
    {
      assert |samples| == pos && |levels| > 0;
      hide *;
      var i := 0;
      while i < |levels|
        invariant 0 <= i <= |levels| && Valid() && readCount == old(readCount)
        invariant samples == old(samples) + levels[..i]
        invariant i < |levels| ==> handler == ReadBits && pos == old(pos) + i
        invariant i == |levels| ==> handler == Idle && report && Bits(data[..], readCount) == samples
      {
        ReadEvent(levels[i]);
        i := i + 1;
      }
    }

    /** Receive what is on the line: a waiting uart that looks at the line at `first`, somewhere in the
        first, low, bit cell of a buffer sent with the same bit time, samples every bit in its cell and
        ends up with the sender's bits. */
    method Listen(edges: seq<int>, first: int, ghost bits: seq<bool>, ghost origin: int)
      requires Valid() && handler == AwaitStart && readSync && due == first && |bits| == readCount
      requires HoldsBits(edges, bits, origin, bitTime) && !bits[0] && origin <= first < origin + bitTime
      modifies this, data
      ensures Valid() && handler == Idle && report && readCount == |bits| && Bits(data[..], readCount) == bits
    {
      hide Bits, BitAt, LevelAt, Drawn, HoldsBits;
      HeldAt(edges, bits, origin, bitTime, first, 0);
      var level := LevelAt(edges, first);
      ReadSyncEvent(level, level);
      var at := first;
      ReadingFacts();
      while handler == ReadBits
        invariant Valid() && readCount == |bits| && bitTime == old(bitTime) && sampleStart == first
        invariant handler == ReadBits ==>
          0 < pos < |bits| && at == first + (pos - 1) * bitTime && samples == bits[..pos]
        invariant handler != ReadBits ==> handler == Idle && report && Bits(data[..], readCount) == bits
        decreases if handler == ReadBits then |bits| - pos else 0
      {
        ghost var k := pos;
        ReadingFacts();
        NextSample(first, k, bitTime);
        at := at + bitTime;
        // the event samples the line when it is due
        assert at == due;
        HeldAt(edges, bits, origin, bitTime, first, k);
        SamplesGrow(bits, k);
        ReadEvent(LevelAt(edges, at));
      }
    }

    /** Wait for a reply on an idle line, looking once every bit time from `first` on.  A reply that
        starts no later than the 65th look is met in its first cell, and the uart ends up with the sender's
        bits; a later one is given up, and nothing has been read. */
    method AwaitReply(edges: seq<int>, first: int, ghost bits: seq<bool>, ghost origin: int)
      requires Valid() && handler == AwaitStart && pos == 0 && due == first < origin && bitTime > 0
      requires |bits| == readCount && HoldsBits(edges, bits, origin, bitTime) && !bits[0]
      requires forall t :: first <= t < origin ==> LevelAt(edges, t)
      modifies this, data
      ensures Valid() && handler == Idle && report
      ensures if origin <= first + 64 * old(bitTime) then readCount == |bits| && Bits(data[..], readCount) == bits
              else readCount == 0
    {
      hide Bits, BitAt, LevelAt, Drawn, HoldsBits, Wrap;
      var at := first;
      AwaitingFacts();
      while handler == AwaitStart && LevelAt(edges, at)
        invariant Valid() && bitTime == old(bitTime)
        invariant handler == AwaitStart ==>
          && readCount == |bits| && pos <= 64 && at == due == first + pos * bitTime
          && first <= at < origin + bitTime && (pos > 0 ==> readSync)
        invariant handler != AwaitStart ==> handler == Idle && report && readCount == 0 && first + 64 * bitTime < origin
        decreases if handler == AwaitStart then 65 - pos else 0
      {
        if at >= origin {
          HeldAt(edges, bits, origin, bitTime, at, 0);
        }
        ghost var k := pos;
        NextSample(first, k + 1, bitTime);
        ReadSyncEvent(true, true);
        at := at + bitTime;
        AwaitingFacts();
      }
      if handler == AwaitStart {
        NoLater(first, pos, bitTime);
        Listen(edges, at, bits, origin);
      }
    }

    lemma {:induction false} AwaitingFacts()
      requires Valid()
      ensures handler == AwaitStart ==> readCount > 0 && pos <= 64
    {
    }

    lemma {:induction false} ReadingFacts()
      requires Valid() && handler == ReadBits
      ensures pos == |samples| && pos < readCount && due == sampleStart + pos * bitTime
    {
    }

    /** Send a whole buffer from an idle line: the run of all its events.  `first` and `fifth` are how
        late the first and the fifth toggle of a sync nibble turn out to be. */
    method Transmit(write: seq<bv8>, readLen: Byte, wake: int, first: Word, fifth: Word)
      requires Valid() && !active && |write| <= 10 && readLen <= 10
      modifies this, data
      ensures Valid() && handler == SendFinish && readCount == 8 * readLen && bits == Bits(write, 8 * |write|)
      ensures (StartsWithSync(write) ==> first == fifth) ==>
        Drawing(edges, bits, starts, wake, cfgBitTime, 0, cfgBitTime, due, |Sent(bits)|)
      // with a drift the cells after the sync nibble follow it
      ensures if StartsWithSync(write)
        then drift == AsSigned(Wrap(fifth - first)) && bitTime == Wrap(cfgBitTime + QuarterOf(drift))
        else drift == 0 && bitTime == cfgBitTime
      ensures Trackable(cfgBitTime, drift) ==>
        Drawing(edges, bits, starts, wake, cfgBitTime, drift, bitTime, due, |Sent(bits)|)
    {
      hide Drawing, Bits, BitAt, StartsWithSync, Sent, Sending, Reading, SyncAhead;
      var r := Send(write, readLen, wake);
      if handler == SendSync {
        TransmitSync(first, fifth);
        NoDrift(first);
      }
      assert drift == 0 ==> bitTime == cfgBitTime;
      TransmitRuns();
    }

    method TransmitRuns()
      requires Valid() && handler == SendBits
      modifies this`lineHigh, this`edges, this`starts, this`pos, this`handler, this`due, this`waketime
      ensures Valid() && handler == SendFinish && Drawn(|Sent(bits)|)
    {
      hide *;
      while handler == SendBits
        invariant Valid() && (handler == SendBits || (handler == SendFinish && Drawn(|Sent(bits)|)))
        decreases if handler == SendBits then 0x100 - pos else 0
      {
        SendEvent();
      }
    }

    method TransmitSync(first: Word, fifth: Word)
      requires Valid() && handler == SendSync && pos == 0
      modifies this`lineHigh, this`edges, this`starts, this`pos, this`handler, this`due, this`waketime,
        this`bitTime, this`drift
      ensures Valid() && handler == SendBits && drift == AsSigned(Wrap(fifth - first))
      ensures bitTime == Wrap(cfgBitTime + QuarterOf(drift))
    {
      hide *;
      while handler == SendSync
        invariant Valid() && pos <= 5
        invariant if pos == 5 then handler == SendBits && drift == AsSigned(Wrap(fifth - first)) else handler == SendSync
        invariant pos == 5 ==> bitTime == Wrap(cfgBitTime + QuarterOf(drift))
        invariant 1 <= pos < 5 ==> bitTime == first
        decreases 5 - pos
      {
        var late := if pos == 0 then first else fifth;
        OffsetBack(late, waketime);
        SendSyncEvent(Wrap(waketime + late));
      }
    }
  }

  lemma {:induction false} OffsetBack(late: Word, wake: Word)
    ensures Wrap(Wrap(wake + late) - wake) == late
  {
    WrapSum(wake + late, 0 - wake);
  }

  lemma {:induction false} NoDrift(late: Word)
    ensures AsSigned(Wrap(late - late)) == 0
  {
  }

  lemma {:induction false} NoBits(bytes: seq<bv8>)
    ensures Bits(bytes, 0) == []
  {
  }

  lemma {:induction false} StoredBits(bytes: seq<bv8>, n: nat, v: bool)
    requires n < 8 * |bytes|
    ensures Bits(bytes[n / 8 := WithBit(bytes[n / 8], n % 8, v)], n + 1) == Bits(bytes, n) + [v]
  {
    hide WithBit, HasBit;
    var after := bytes[n / 8 := WithBit(bytes[n / 8], n % 8, v)];
    forall k | 0 <= k <= n ensures BitAt(after, k) == if k == n then v else BitAt(bytes, k) {
      WithBitChangesOne(bytes[n / 8], n % 8, v, k % 8);
    }
  }

  lemma {:induction false} NoLater(first: int, n: nat, bitTime: nat)
    requires n <= 64
    ensures first + n * bitTime <= first + 64 * bitTime
  {
    assert 0 <= (64 - n) * bitTime;
  }

  lemma {:induction false} NextSample(first: int, n: nat, bitTime: int)
    requires n > 0
    ensures first + (n - 1) * bitTime + bitTime == first + n * bitTime
  {
  }

  lemma {:induction false} SteadyAfterSync(cfg: Word, drift: int, bitTime: Word)
    requires bitTime == Wrap(cfg + QuarterOf(drift))
    ensures Steady(cfg, drift, bitTime, 5)
  {
  }

  /** The toggles of the sync nibble alternate. */
  lemma {:induction false} NextSyncBit(bits: seq<bool>, n: nat)
    requires n <= 4 && |bits| >= 8
    requires !bits[0] && bits[1] && !bits[2] && bits[3] && !bits[4] && bits[5]
    ensures |Sent(bits)| == |bits| && (Sent(bits)[n] <==> n % 2 == 1) && (Sent(bits)[n + 1] <==> n % 2 == 0)
  {
  }

  lemma {:induction false} FirstBits(bits: seq<bool>)
    ensures !Sent(bits)[0]
  {
  }

  lemma {:induction false} SentLength(bits: seq<bool>)
    ensures |Sent(bits)| == if bits == [] then 1 else |bits|
  {
  }

  lemma {:induction false} SentBit(bytes: seq<bv8>, bits: seq<bool>, p: nat)
    requires |bits| <= 8 * |bytes| && Bits(bytes, |bits|) == bits && 1 <= p < |bits|
    ensures p < |Sent(bits)| && Sent(bits)[p] == BitAt(bytes, p)
  {
    hide BitAt;
    assert Bits(bytes, |bits|)[p] == BitAt(bytes, p);
  }

  lemma {:induction false} SteadyLater(cfg: Word, drift: int, bitTime: Word, n: nat)
    requires Steady(cfg, drift, bitTime, n)
    ensures Steady(cfg, drift, bitTime, n + 1)
  {
  }

  lemma {:induction false} RunStarts(due: int, bitTime: Word)
    ensures Wrap(Wrap(due) + bitTime) == Wrap(due + bitTime)
  {
    WrapSum(due, bitTime);
  }

  lemma {:induction false} RunGrows(waketime: Word, next: Word, at: int, bitTime: Word)
    requires Wrap(waketime + next) == Wrap(at)
    ensures Wrap(waketime + Wrap(next + bitTime)) == Wrap(at + bitTime)
  {
    WrapSum(next + bitTime, waketime);
    WrapSum(waketime + next, bitTime);
    WrapSum(at, bitTime);
  }

  /** The first bits of a buffer are those of its first bytes. */
  lemma {:induction false} PrefixBits(bytes: seq<bv8>, write: seq<bv8>)
    requires |write| <= |bytes| && bytes[..|write|] == write
    ensures Bits(bytes, 8 * |write|) == Bits(write, 8 * |write|)
  {
    forall k | 0 <= k < 8 * |write| ensures BitAt(bytes, k) == BitAt(write, k) {
      assert bytes[k / 8] == bytes[..|write|][k / 8];
    }
  }
}
