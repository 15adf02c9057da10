/** The move queue: junction limits, and the backward pass that commits speeds to moves. */
module MoveQueue {
  import opened LookAhead

  const LOOKAHEAD_FLUSH_TIME := 0.250
  const EXTRUDE_ONLY_ACCEL := 99999999.9

  datatype Option<T> = None | Some(value: T)

  /** The limits configured for the machine. */
  datatype Settings = Settings(maxVelocity: real, maxAccel: real, maxAccelToDecel: real) {
    predicate Valid() {
      0.0 < maxVelocity && 0.0 < maxAccelToDecel <= maxAccel
    }
  }

  /** What the geometry of two consecutive moves and the extruder say about their junction.
      `Reversal` is a corner so sharp that the head must stop. */
  datatype Corner = Reversal | Bend(radius: real, tanHalfTheta: real, extruderV2: real) {
    predicate Valid() {
      Bend? ==> 0.0 <= radius && 0.0 <= tanHalfTheta && 0.0 <= extruderV2
    }
  }

  /** The distances a move spends accelerating, cruising and decelerating. */
  datatype Phases = Phases(accelD: real, cruiseD: real, decelD: real)

  function PhasesOf(moveD: real, accel: real, p: Plan): Phases
    requires accel != 0.0
  {
    var halfInvAccel := 0.5 / accel;
    var accelD := (p.cruise - p.start) * halfInvAccel;
    var decelD := (p.cruise - p.end) * halfInvAccel;
    Phases(accelD, moveD - accelD - decelD, decelD)
  }

  /** A feasible plan spends a non-negative distance in each phase, and exactly the length of
      the move in all; while accelerating and decelerating the squared speed changes by twice the
      acceleration for every unit of distance. */
  lemma {:induction false} DistancesAreSound(moveD: real, accel: real, m: Limits, p: Plan)
    requires 0.0 < accel && m.delta == Reach(moveD, accel) && Feasible(m, p)
    ensures var j := PhasesOf(moveD, accel, p);
      && 0.0 <= j.accelD && 0.0 <= j.cruiseD && 0.0 <= j.decelD
      && j.accelD + j.cruiseD + j.decelD == moveD
      && p.start + 2.0 * accel * j.accelD == p.cruise == p.end + 2.0 * accel * j.decelD
  {
    var h := 0.5 / accel;
    assert 0.0 < h && accel * h == 0.5;
    var up, down := p.cruise - p.start, p.cruise - p.end;
    assert 0.0 <= up * h && 0.0 <= down * h;
    ScaleLe(up + down, m.delta, h);
    assert (2.0 * moveD * accel) * h == moveD by {
      assert (2.0 * moveD * accel) * h == 2.0 * moveD * (accel * h);
    }
    assert (up + down) * h == up * h + down * h;
    assert 2.0 * accel * (up * h) == up by {
      assert 2.0 * accel * (up * h) == 2.0 * (accel * h) * up;
    }
    assert 2.0 * accel * (down * h) == down by {
      assert 2.0 * accel * (down * h) == 2.0 * (accel * h) * down;
    }
  }

  /** A move that accelerates by all it can spends exactly its length on it. */
  lemma {:induction false} FullReach(moveD: real, accel: real, start: real)
    requires 0.0 < accel
    ensures PhasesOf(moveD, accel, Plan(start, start + Reach(moveD, accel), start + Reach(moveD, accel))).accelD == moveD
  {
    var h := 0.5 / accel;
    assert accel * h == 0.5;
    assert (2.0 * moveD * accel) * h == 2.0 * moveD * (accel * h);
  }

  lemma {:induction false} ScaleLe(a: real, b: real, h: real)
    requires a <= b && 0.0 <= h
    ensures a * h <= b * h
  {
    assert 0.0 <= (b - a) * h;
  }

  /** In the shortest time of a move it covers its length at its cruising speed. */
  lemma {:induction false} ShortestTime(d: real, v: real)
    requires 0.0 < v
    ensures TravelTime(d, v) * v == d
    ensures TravelTime(d, v) * TravelTime(d, v) * Square(v) == d * d
  {
    var t := TravelTime(d, v);
    assert t * t * (v * v) == (t * v) * (t * v);
  }

  /** How much the squared velocity can change over a distance. */
  function Reach(d: real, accel: real): real {
    2.0 * d * accel
  }

  function Product(a: real, b: real): real {
    a * b
  }

  function Square(v: real): real {
    Product(v, v)
  }

  function TravelTime(d: real, v: real): real
    requires v != 0.0
  {
    d / v
  }

  class Move {
    const moveD: real
    const isKinematic: bool
    var accel: real
    var minMoveT: real
    var maxStartV2: real
    var maxCruiseV2: real
    var deltaV2: real
    var maxSmoothedV2: real
    var smoothDeltaV2: real
    /** The squared speeds set by `SetJunction`; absent until then. */
    var junction: Option<Plan>
    /** The distances that follow from them. */
    var phases: Option<Phases>
    /** How often `SetJunction` has been called. */
    ghost var timesSet: nat

    ghost function Lim(): Limits
      reads this`maxStartV2, this`maxCruiseV2, this`deltaV2, this`maxSmoothedV2, this`smoothDeltaV2
    {
      Limits(maxStartV2, maxCruiseV2, deltaV2, maxSmoothedV2, smoothDeltaV2)
    }

    ghost predicate Valid()
      reads this`accel, this`maxStartV2, this`maxCruiseV2, this`deltaV2, this`maxSmoothedV2, this`smoothDeltaV2
    {
      && 0.0 < moveD && 0.0 < accel
      && deltaV2 == Reach(moveD, accel)
      && Sound(Lim())
    }

    /** No junction computed and no speeds committed yet. */
    ghost predicate Pending()
      reads this`maxStartV2, this`maxSmoothedV2, this`junction, this`timesSet
    {
      maxStartV2 == 0.0 && maxSmoothedV2 == 0.0 && junction == None && timesSet == 0
    }

    /** A move of positive length at a positive speed.  An extrude-only move is not limited by
        the velocity and acceleration of the machine; its caller limits it with `LimitSpeed`. */
    constructor (settings: Settings, moveD: real, isKinematic: bool, speed: real)
      requires settings.Valid() && 0.0 < moveD && 0.0 < speed
      ensures Pending() && this.moveD == moveD && this.isKinematic == isKinematic
      ensures 0.0 < accel && deltaV2 == Reach(moveD, accel)
      ensures 0.0 < maxCruiseV2 && 0.0 < smoothDeltaV2 && 0.0 < minMoveT
      ensures minMoveT == TravelTime(moveD, if isKinematic then Min(speed, settings.maxVelocity) else speed)
      ensures isKinematic ==> Valid() && accel == settings.maxAccel
      ensures isKinematic ==> maxCruiseV2 == Square(Min(speed, settings.maxVelocity))
      ensures !isKinematic ==> maxCruiseV2 == Square(speed) && accel == EXTRUDE_ONLY_ACCEL
      ensures smoothDeltaV2 == Reach(moveD, settings.maxAccelToDecel)
    {
      hide Reach, Square, TravelTime;
      this.moveD := moveD;
      this.isKinematic := isKinematic;
      var a := if isKinematic then settings.maxAccel else EXTRUDE_ONLY_ACCEL;
      var velocity := if isKinematic then Min(speed, settings.maxVelocity) else speed;
      accel := a;
      minMoveT := TravelTime(moveD, velocity);
      maxStartV2 := 0.0;
      maxCruiseV2 := Square(velocity);
      deltaV2 := Reach(moveD, a);
      maxSmoothedV2 := 0.0;
      smoothDeltaV2 := Reach(moveD, settings.maxAccelToDecel);
      junction, phases := None, None;
      timesSet := 0;
      SquarePositive(velocity);
      QuotientPositive(moveD, velocity);
      ReachGrows(moveD, settings.maxAccelToDecel, settings.maxAccelToDecel);
      ReachGrows(moveD, a, a);
      ReachGrows(moveD, settings.maxAccelToDecel, settings.maxAccel);
    }

    /** Lower the speed and acceleration of a move, before it is queued.  Afterwards every limit
        is consistent, whatever the machine's own limits were. */
    method LimitSpeed(speed: real, accelLimit: real)
      requires 0.0 < speed && 0.0 < accelLimit
      requires 0.0 < moveD && 0.0 < accel && 0.0 < maxCruiseV2 && 0.0 < smoothDeltaV2 && 0.0 < minMoveT && Pending()
      modifies this
      ensures Valid() && Pending()
      ensures accel == Min(old(accel), accelLimit)
      ensures maxCruiseV2 == Min(old(maxCruiseV2), Square(speed))
      ensures smoothDeltaV2 == Min(old(smoothDeltaV2), deltaV2)
      ensures 0.0 < minMoveT
      ensures minMoveT == if Square(speed) < old(maxCruiseV2) then TravelTime(moveD, speed) else old(minMoveT)
    {
      hide Reach, Square, TravelTime;
      SquarePositive(speed);
      QuotientPositive(moveD, speed);
      var speed2 := Square(speed);
      if speed2 < maxCruiseV2 {
        maxCruiseV2 := speed2;
        minMoveT := TravelTime(moveD, speed);
      }
      accel := Min(accel, accelLimit);
      ReachGrows(moveD, accel, accel);
      deltaV2 := Reach(moveD, accel);
      smoothDeltaV2 := Min(smoothDeltaV2, deltaV2);
    }

    /** Limit the speed at which this move may be entered from `prev`. */
    method CalcJunction(prev: Move, corner: Corner)
      requires prev != this && Valid() && prev.Valid() && Pending() && corner.Valid()
      modifies this`maxStartV2, this`maxSmoothedV2
      ensures Valid() && Follows(Lim(), prev.Lim())
      ensures !isKinematic || !prev.isKinematic || corner.Reversal? ==> maxStartV2 == 0.0
      ensures isKinematic && prev.isKinematic && corner.Bend? ==>
        maxStartV2 == Min(CornerLimit(corner, moveD, accel, prev.moveD, prev.accel),
                          Min(maxCruiseV2, Min(prev.maxCruiseV2, prev.maxStartV2 + prev.deltaV2)))
    {
      if !isKinematic || !prev.isKinematic || corner.Reversal? {
        return;
      }
      maxStartV2 := Min(CornerLimit(corner, moveD, accel, prev.moveD, prev.accel),
                        Min(maxCruiseV2, Min(prev.maxCruiseV2, prev.maxStartV2 + prev.deltaV2)));
      maxSmoothedV2 := Min(maxStartV2, prev.maxSmoothedV2 + prev.smoothDeltaV2);
    }

    /** Set the speeds of the move, and the distances it accelerates, cruises and decelerates. */
    method SetJunction(startV2: real, cruiseV2: real, endV2: real)
      requires 0.0 < accel
      modifies this`junction, this`phases, this`timesSet
      ensures junction == Some(Plan(startV2, cruiseV2, endV2))
      ensures phases == Some(PhasesOf(moveD, accel, Plan(startV2, cruiseV2, endV2)))
      ensures timesSet == old(timesSet) + 1
    {
      junction := Some(Plan(startV2, cruiseV2, endV2));
      phases := Some(PhasesOf(moveD, accel, Plan(startV2, cruiseV2, endV2)));
      timesSet := timesSet + 1;
    }
  }

  /** The speed at which the head can pass a corner: limited by the radius of the corner and by
      the middle of each move, under the acceleration of either move, and by the extruder. */
  function CornerLimit(corner: Corner, d: real, a: real, prevD: real, prevA: real): (v: real)
    requires corner.Bend? && corner.Valid() && 0.0 < d && 0.0 < a && 0.0 < prevD && 0.0 < prevA
    ensures 0.0 <= v <= corner.extruderV2
    ensures v <= corner.radius * a && v <= corner.radius * prevA
    ensures v <= 0.5 * d * corner.tanHalfTheta * a && v <= 0.5 * prevD * corner.tanHalfTheta * prevA
    ensures v in [corner.extruderV2, corner.radius * a, corner.radius * prevA, 0.5 * d * corner.tanHalfTheta * a,
                  0.5 * prevD * corner.tanHalfTheta * prevA]
  {
    CentripetalBounds(corner.radius, corner.tanHalfTheta, d, a);
    CentripetalBounds(corner.radius, corner.tanHalfTheta, prevD, prevA);
    Min(corner.radius * a, Min(corner.radius * prevA,
        Min(0.5 * d * corner.tanHalfTheta * a, Min(0.5 * prevD * corner.tanHalfTheta * prevA,
            corner.extruderV2))))
  }

  lemma {:induction false} ProductPositive(a: real, b: real)
    requires 0.0 < a && 0.0 < b
    ensures 0.0 < Product(a, b)
  {
  }

  lemma {:induction false} SquarePositive(v: real)
    requires 0.0 < v
    ensures 0.0 < Square(v)
  {
    hide Product;
    ProductPositive(v, v);
  }

  lemma {:induction false} QuotientPositive(d: real, v: real)
    requires 0.0 < d && 0.0 < v
    ensures 0.0 < TravelTime(d, v)
  {
  }

  lemma {:induction false} ReachGrows(d: real, lo: real, hi: real)
    requires 0.0 < d && 0.0 < lo <= hi
    ensures 0.0 < Reach(d, lo) <= Reach(d, hi)
  {
    ScaleLe(lo, hi, 2.0 * d);
  }

  lemma {:induction false} CentripetalBounds(radius: real, tanHalf: real, d: real, a: real)
    requires 0.0 <= radius && 0.0 <= tanHalf && 0.0 < d && 0.0 < a
    ensures 0.0 <= radius * a && 0.0 <= 0.5 * d * tanHalf * a
  {
    assert 0.0 <= 0.5 * d * tanHalf;
  }

  /** Move `m` is limited at its junction with `prev`: at a standstill if one of them does not move the
      head or the head turns back, otherwise by the corner, by what either move allows and by what
      `prev` can reach; and under the smoothed profile by what `prev` can reach there. */
  ghost predicate JoinedAt(m: Move, prev: Move, corner: Corner)
    reads m`maxStartV2, m`maxSmoothedV2, m`maxCruiseV2, m`accel, prev`maxStartV2, prev`maxCruiseV2, prev`deltaV2,
      prev`maxSmoothedV2, prev`smoothDeltaV2, prev`accel
  {
    && 0.0 < m.moveD && 0.0 < m.accel && 0.0 < prev.moveD && 0.0 < prev.accel && corner.Valid()
    && m.maxStartV2 ==
       (if !m.isKinematic || !prev.isKinematic || corner.Reversal? then 0.0
        else Min(CornerLimit(corner, m.moveD, m.accel, prev.moveD, prev.accel),
                 Min(m.maxCruiseV2, Min(prev.maxCruiseV2, prev.maxStartV2 + prev.deltaV2))))
    && m.maxSmoothedV2 == Min(m.maxStartV2, prev.maxSmoothedV2 + prev.smoothDeltaV2)
  }

  lemma {:induction false} Junction(m: Move, prev: Move, corner: Corner)
    requires m.Valid() && prev.Valid() && corner.Valid() && Follows(m.Lim(), prev.Lim())
    requires !m.isKinematic || !prev.isKinematic || corner.Reversal? ==> m.maxStartV2 == 0.0
    requires m.isKinematic && prev.isKinematic && corner.Bend? ==>
      m.maxStartV2 == Min(CornerLimit(corner, m.moveD, m.accel, prev.moveD, prev.accel),
                          Min(m.maxCruiseV2, Min(prev.maxCruiseV2, prev.maxStartV2 + prev.deltaV2)))
    ensures JoinedAt(m, prev, corner)
  {
    hide CornerLimit;
  }

  /** A decelerating move whose cruising speed is not known yet. */
  datatype Delayed = Delayed(move: Move, startV2: real, endV2: real)

  ghost predicate Committed(m: Move, p: Plan)
    reads m`junction, m`phases, m`timesSet, m`accel
  {
    m.timesSet == 1 && m.junction == Some(p) && 0.0 < m.accel && m.phases == Some(PhasesOf(m.moveD, m.accel, p))
  }

  ghost predicate Uncommitted(m: Move)
    reads m`junction, m`timesSet, m`accel
  {
    m.timesSet == 0 && m.junction == None && 0.0 < m.accel
  }

  /** What the whole queue is planned to do, from move `i` on. */
  ghost function PlansFrom(q: seq<Limits>, i: nat): (p: seq<Plan>)
    requires i <= |q|
    ensures |p| == |q| - i
    decreases |q| - i
  {
    if i == |q| then [] else [PlanAt(q, i)] + PlansFrom(q, i + 1)
  }

  ghost function Plans(q: seq<Limits>): (p: seq<Plan>)
    ensures |p| == |q|
  {
    PlansFrom(q, 0)
  }

  lemma {:induction false} PlansFromIndex(q: seq<Limits>, i: nat, j: nat)
    requires i <= j < |q|
    ensures PlansFrom(q, i)[j - i] == PlanAt(q, j)
    decreases j - i
  {
    if i < j {
      PlansFromIndex(q, i + 1, j);
    }
  }

  lemma {:induction false} PlansIndex(q: seq<Limits>, j: nat)
    requires j < |q|
    ensures Plans(q)[j] == PlanAt(q, j)
  {
    PlansFromIndex(q, 0, j);
  }

  /** What the variables of the backward pass hold once it has come down to move `i`, with the
      `d` moves from `i` on still delayed. */
  ghost predicate PassedTo(q: seq<Limits>, lazy: bool, i: nat, d: nat, nextEndV2: real, nextSmoothedV2: real,
                           peakCruiseV2: real, updateFlushCount: bool, flushCount: nat)
  {
    && i + d <= |q|
    && nextEndV2 == Start(q, i) && nextSmoothedV2 == Smoothed(q, i) && peakCruiseV2 == Peak(q, i)
    && (forall j :: i <= j < i + d ==> !Accelerates(q, j))
    && (i + d < |q| ==> Accelerates(q, i + d))
    && updateFlushCount == (lazy && Split(q, i) < 0)
    && flushCount == if lazy && Split(q, i) >= 0 then Split(q, i) else |q|
  }

  /** Which moves have their speeds at that point: the ones to be flushed that are not delayed. */
  ghost predicate SpeedsSet(moves: seq<Move>, plans: seq<Plan>, from: nat, flushCount: nat)
    requires |moves| == |plans|
    reads moves
  {
    forall j :: 0 <= j < |moves| ==>
      if from <= j < flushCount then Committed(moves[j], plans[j]) else Uncommitted(moves[j])
  }

  ghost predicate DelayedFrom(delayed: seq<Delayed>, moves: seq<Move>, q: seq<Limits>, i: nat)
    requires |moves| == |q| && i + |delayed| <= |q|
  {
    forall t :: 0 <= t < |delayed| ==>
      var j := i + |delayed| - 1 - t;
      delayed[t] == Delayed(moves[j], Start(q, j), Start(q, j + 1))
  }

  ghost predicate Distinct(moves: seq<Move>) {
    forall i, j :: 0 <= i < j < |moves| ==> moves[i] != moves[j]
  }

  lemma {:induction false} DelayedPlan(q: seq<Limits>, j: nat, mcV2: real)
    requires 0 < j < |q| && !Accelerates(q, j) && mcV2 == Min(Cap(q, j - 1), Start(q, j))
    ensures mcV2 == Cap(q, j)
    ensures Plans(q)[j] == Plan(Min(Start(q, j), mcV2), mcV2, Min(Start(q, j + 1), mcV2))
  {
    PlansIndex(q, j);
  }

  /** Give the delayed moves after accelerating move `i` their speeds, front to back. */
  method PropagatePeak(delayed: seq<Delayed>, peakCruiseV2: real,
                       ghost moves: seq<Move>, ghost q: seq<Limits>, ghost i: nat, ghost flushCount: nat)
    requires |moves| == |q| && i + 1 + |delayed| <= |q| && Distinct(moves)
    requires Accelerates(q, i) && peakCruiseV2 == Peak(q, i)
    requires forall j :: i < j <= i + |delayed| ==> !Accelerates(q, j)
    requires DelayedFrom(delayed, moves, q, i + 1)
    requires i + |delayed| < flushCount <= |q|
    requires SpeedsSet(moves, Plans(q), i + 1 + |delayed|, flushCount)
    modifies moves`junction, moves`phases, moves`timesSet
    ensures SpeedsSet(moves, Plans(q), i + 1, flushCount)
  {
    ghost var plans := Plans(q);
    var mcV2 := peakCruiseV2;
    var t := |delayed|;
    while t > 0
      invariant 0 <= t <= |delayed|
      invariant mcV2 == Cap(q, i + |delayed| - t)
      invariant forall j :: 0 <= j < |moves| ==>
        if i < j <= i + |delayed| - t || i + |delayed| < j < flushCount
        then Committed(moves[j], plans[j]) else Uncommitted(moves[j])
    {
      t := t - 1;
      ghost var j := i + |delayed| - t;
      var e := delayed[t];
      assert e == Delayed(moves[j], Start(q, j), Start(q, j + 1));
      mcV2 := Min(mcV2, e.startV2);
      DelayedPlan(q, j, mcV2);
      e.move.SetJunction(Min(e.startV2, mcV2), mcV2, Min(e.endV2, mcV2));
    }
  }

  /** The value of the peak and of the flush point once the pass has dealt with move `i`. */
  ghost predicate PassedOne(q: seq<Limits>, lazy: bool, i: nat, d: nat, peakCruiseV2: real,
                            updateFlushCount: bool, flushCount: nat)
  {
    PassedTo(q, lazy, i, d, Start(q, i), Smoothed(q, i), peakCruiseV2, updateFlushCount, flushCount)
  }

  lemma {:induction false} PassStarts(q: seq<Limits>, lazy: bool)
    ensures PassedOne(q, lazy, |q|, 0, 0.0, lazy, |q|)
  {
  }

  lemma {:induction false} PassEnds(q: seq<Limits>, lazy: bool, d: nat, peakCruiseV2: real,
                                    updateFlushCount: bool, flushCount: nat)
    requires q != [] ==> Accelerates(q, 0)
    requires PassedOne(q, lazy, 0, d, peakCruiseV2, updateFlushCount, flushCount)
    ensures d == 0
    ensures updateFlushCount <==> lazy && Split(q, 0) < 0
    ensures flushCount == if lazy && Split(q, 0) >= 0 then Split(q, 0) else |q|
  {
  }

  /** A move that tops out sets the peak, and ends a lazy pass if there already was one. */
  lemma {:induction false} PassTurn(q: seq<Limits>, lazy: bool, i: nat, d: nat, peakCruiseV2: real,
                                    updateFlushCount: bool, flushCount: nat)
    requires Chain(q) && i < |q| && PassedOne(q, lazy, i + 1, d, peakCruiseV2, updateFlushCount, flushCount)
    requires Accelerates(q, i)
    requires Smoothed(q, i) + q[i].smoothDelta > Smoothed(q, i + 1) || d > 0
    ensures var stop := updateFlushCount && peakCruiseV2 != 0.0;
      PassedOne(q, lazy, i, 0,
                Min(q[i].maxCruise, (Smoothed(q, i) + (Smoothed(q, i + 1) + q[i].smoothDelta)) * 0.5),
                updateFlushCount && !stop, if stop then i else flushCount)
  {
    PeakIsPositive(q, i + 1);
    assert d > 0 ==> !Accelerates(q, i + 1);
    assert Turns(q, i);
  }

  /** An accelerating move that does not top out leaves the peak and the flush point alone. */
  lemma {:induction false} PassFullAcceleration(q: seq<Limits>, lazy: bool, i: nat, peakCruiseV2: real,
                                                updateFlushCount: bool, flushCount: nat)
    requires Chain(q) && i < |q| && PassedOne(q, lazy, i + 1, 0, peakCruiseV2, updateFlushCount, flushCount)
    requires Accelerates(q, i) && Smoothed(q, i) + q[i].smoothDelta <= Smoothed(q, i + 1)
    ensures PassedOne(q, lazy, i, 0, peakCruiseV2, updateFlushCount, flushCount)
  {
    assert i + 1 < |q| ==> Accelerates(q, i + 1);
    assert !Turns(q, i);
  }

  lemma {:induction false} PassDelayed(q: seq<Limits>, lazy: bool, i: nat, d: nat, peakCruiseV2: real,
                                       updateFlushCount: bool, flushCount: nat)
    requires Chain(q) && i < |q| && PassedOne(q, lazy, i + 1, d, peakCruiseV2, updateFlushCount, flushCount)
    requires !Accelerates(q, i)
    ensures i + 1 + d <= |q|
    ensures PassedOne(q, lazy, i, d + 1, peakCruiseV2, updateFlushCount, flushCount)
  {
  }

  /** Delayed moves never straddle the flush point. */
  lemma {:induction false} DelayedBeforeFlush(q: seq<Limits>, lazy: bool, i: nat, d: nat, peakCruiseV2: real,
                                              updateFlushCount: bool, flushCount: nat)
    requires i < |q| && PassedOne(q, lazy, i + 1, d, peakCruiseV2, updateFlushCount, flushCount)
    requires !updateFlushCount
    ensures i + d < flushCount
  {
  }

  lemma {:induction false} AcceleratingPlan(q: seq<Limits>, i: nat)
    requires i < |q| && Accelerates(q, i)
    ensures var start, reachable := Start(q, i), Start(q, i + 1) + q[i].delta;
      var cruise := Min(Min((start + reachable) * 0.5, q[i].maxCruise), Peak(q, i));
      Plans(q)[i] == Plan(Min(start, cruise), cruise, Min(Start(q, i + 1), cruise))
  {
    PlansIndex(q, i);
  }

  /** How many moves of a queue a flush commits. */
  ghost function FlushCount(q: seq<Limits>, lazy: bool): (n: nat)
    ensures n <= |q|
    ensures lazy && q != [] ==> n < |q|
    ensures lazy && n > 0 ==> Settled(q, n)
  {
    if !lazy then |q| else if Split(q, 0) < 0 then 0 else Split(q, 0)
  }

  /** A lazy flush commits the longest settled prefix, a full one everything. */
  lemma {:induction false} FlushesMost(q: seq<Limits>, c: nat)
    ensures Settled(q, c) ==> c <= FlushCount(q, true)
    ensures q != [] ==> Settled(q, FlushCount(q, true))
    ensures FlushCount(q, false) == |q|
  {
    if c > 0 && Settled(q, c) {
      SplitIsLast(q, 0, c);
    }
  }

  /** What committing the moves before the split of the queue does to the path as a whole. */
  lemma {:induction false} AdvancePath(path: seq<Limits>, done: nat, n: nat)
    requires Path(path) && Settled(path, done) && done <= |path|
    requires n == FlushCount(path[done..], true)
    ensures Settled(path, done + n)
  {
    if n > 0 {
      assert Settled(path[done..], n);
      TailSettled(path, done, n);
    }
  }

  /** The queue's own plan is the path's plan for those moves. */
  lemma {:induction false} QueuePlansArePathPlans(path: seq<Limits>, done: nat)
    requires Path(path) && Settled(path, done) && done < |path|
    ensures Plans(path)[done..] == Plans(path[done..])
    ensures Chain(path[done..]) && Accelerates(path[done..], 0)
  {
    FrontAccelerates(path, done);
    TailProfiles(path, done, 0);
    forall i | 0 <= i < |path| - done
      ensures Plans(path[done..])[i] == Plans(path)[done..][i]
    {
      TailPlans(path, done, i);
      PlansIndex(path, done + i);
      PlansIndex(path[done..], i);
    }
    forall i, j | 0 <= i && j == i + 1 < |path[done..]|
      ensures Follows(path[done..][j], path[done..][i])
    {
      LinkUp(path, done + i);
    }
  }

  lemma {:induction false} NoSpeedsSet(moves: seq<Move>, plans: seq<Plan>, flushCount: nat)
    requires |moves| == |plans| && SpeedsSet(moves, plans, 0, 0)
    ensures SpeedsSet(moves, plans, |moves|, flushCount)
    ensures SpeedsSet(moves, plans, |moves|, 0)
  {
  }

  /** The backward pass: decide how many moves to flush, and give exactly those their speeds. */
  method BackwardPass(queue: seq<Move>, lazy: bool, ghost q: seq<Limits>)
    returns (updateFlushCount: bool, flushCount: nat)
    requires Chain(q) && (q != [] ==> Accelerates(q, 0)) && Distinct(queue) && |q| == |queue|
    requires forall i :: 0 <= i < |queue| ==> queue[i].Lim() == q[i]
    requires SpeedsSet(queue, Plans(q), 0, 0)
    modifies queue`junction, queue`phases, queue`timesSet
    ensures updateFlushCount <==> lazy && Split(q, 0) < 0
    ensures flushCount == if lazy && Split(q, 0) >= 0 then Split(q, 0) else |q|
    ensures SpeedsSet(queue, Plans(q), 0, if updateFlushCount then 0 else flushCount)
  {
    updateFlushCount, flushCount := lazy, |queue|;
    var delayed: seq<Delayed> := [];
    var nextEndV2, nextSmoothedV2, peakCruiseV2 := 0.0, 0.0, 0.0;
    PassStarts(q, lazy);
    NoSpeedsSet(queue, Plans(q), flushCount);
    hide PassedTo, Chain, Plans, Split, SpeedsSet, Start, Smoothed, DelayedFrom, Distinct;
    var i := |queue|;
    while i > 0
      invariant 0 <= i && i + |delayed| <= |queue|
      invariant nextEndV2 == Start(q, i) && nextSmoothedV2 == Smoothed(q, i)
      invariant PassedOne(q, lazy, i, |delayed|, peakCruiseV2, updateFlushCount, flushCount)
      invariant DelayedFrom(delayed, queue, q, i)
      invariant SpeedsSet(queue, Plans(q), i + |delayed|, if updateFlushCount then 0 else flushCount)
    {
      i := i - 1;
      delayed, nextEndV2, nextSmoothedV2, updateFlushCount, flushCount, peakCruiseV2 :=
        PassMove(queue, i, delayed, nextEndV2, nextSmoothedV2, updateFlushCount, flushCount, peakCruiseV2, q, lazy);
    }
    PassEnds(q, lazy, |delayed|, peakCruiseV2, updateFlushCount, flushCount);
  }

  /** One step of the pass, for move `i`. */
  method PassMove(queue: seq<Move>, i: nat, delayed0: seq<Delayed>, nextEndV20: real, nextSmoothedV20: real,
                  updateFlushCount0: bool, flushCount0: nat, peakCruiseV20: real, ghost q: seq<Limits>, ghost lazy: bool)
    returns (delayed: seq<Delayed>, nextEndV2: real, nextSmoothedV2: real,
             updateFlushCount: bool, flushCount: nat, peakCruiseV2: real)
    requires Chain(q) && Distinct(queue) && |q| == |queue| && i < |q| && queue[i].Lim() == q[i]
    requires nextEndV20 == Start(q, i + 1) && nextSmoothedV20 == Smoothed(q, i + 1)
    requires PassedOne(q, lazy, i + 1, |delayed0|, peakCruiseV20, updateFlushCount0, flushCount0)
    requires i + 1 + |delayed0| <= |q| && DelayedFrom(delayed0, queue, q, i + 1)
    requires SpeedsSet(queue, Plans(q), i + 1 + |delayed0|, if updateFlushCount0 then 0 else flushCount0)
    modifies queue`junction, queue`phases, queue`timesSet
    ensures i + |delayed| <= |q|
    ensures nextEndV2 == Start(q, i) && nextSmoothedV2 == Smoothed(q, i)
    ensures PassedOne(q, lazy, i, |delayed|, peakCruiseV2, updateFlushCount, flushCount)
    ensures DelayedFrom(delayed, queue, q, i)
    ensures SpeedsSet(queue, Plans(q), i + |delayed|, if updateFlushCount then 0 else flushCount)
  {
    hide PassedTo, Chain, Plans, Split, SpeedsSet, Distinct;
    updateFlushCount, flushCount, peakCruiseV2 := updateFlushCount0, flushCount0, peakCruiseV20;
    var move := queue[i];
    var reachableStartV2 := nextEndV20 + move.deltaV2;
    var startV2 := Min(move.maxStartV2, reachableStartV2);
    var reachableSmoothedV2 := nextSmoothedV20 + move.smoothDeltaV2;
    var smoothedV2 := Min(move.maxSmoothedV2, reachableSmoothedV2);
    if smoothedV2 < reachableSmoothedV2 {
      updateFlushCount, flushCount, peakCruiseV2 := PassAccelerating(queue, move, i, delayed0,
        startV2, reachableStartV2, nextEndV20, smoothedV2, reachableSmoothedV2, nextSmoothedV20,
        updateFlushCount, flushCount, peakCruiseV2, q, lazy);
      delayed := [];
    } else {
      // its cap depends on moves the pass has not come to
      PassDelayed(q, lazy, i, |delayed0|, peakCruiseV2, updateFlushCount, flushCount);
      delayed := delayed0 + [Delayed(move, startV2, nextEndV20)];
    }
    nextEndV2 := startV2;
    nextSmoothedV2 := smoothedV2;
  }

  /** The branch of the pass for a move that can accelerate. */
  method PassAccelerating(ghost queue: seq<Move>, move: Move, i: nat, delayed: seq<Delayed>,
                          startV2: real, reachableStartV2: real, nextEndV2: real,
                          smoothedV2: real, reachableSmoothedV2: real, nextSmoothedV2: real,
                          updateFlushCount0: bool, flushCount0: nat, peakCruiseV20: real,
                          ghost q: seq<Limits>, ghost lazy: bool)
    returns (updateFlushCount: bool, flushCount: nat, peakCruiseV2: real)
    requires Chain(q) && Distinct(queue) && |q| == |queue| && i < |q| && move == queue[i] && move.Lim() == q[i]
    requires Accelerates(q, i)
    requires startV2 == Start(q, i) && nextEndV2 == Start(q, i + 1) && reachableStartV2 == nextEndV2 + q[i].delta
    requires smoothedV2 == Smoothed(q, i) && nextSmoothedV2 == Smoothed(q, i + 1)
    requires reachableSmoothedV2 == nextSmoothedV2 + q[i].smoothDelta
    requires PassedOne(q, lazy, i + 1, |delayed|, peakCruiseV20, updateFlushCount0, flushCount0)
    requires DelayedFrom(delayed, queue, q, i + 1)
    requires SpeedsSet(queue, Plans(q), i + 1 + |delayed|, if updateFlushCount0 then 0 else flushCount0)
    modifies queue`junction, queue`phases, queue`timesSet
    ensures PassedOne(q, lazy, i, 0, peakCruiseV2, updateFlushCount, flushCount)
    ensures SpeedsSet(queue, Plans(q), i, if updateFlushCount then 0 else flushCount)
  {
    hide Chain, Plans, Split;
    updateFlushCount, flushCount, peakCruiseV2 := updateFlushCount0, flushCount0, peakCruiseV20;
    if smoothedV2 + move.smoothDeltaV2 > nextSmoothedV2 || delayed != [] {
      // the move is a turn
      PassTurn(q, lazy, i, |delayed|, peakCruiseV2, updateFlushCount, flushCount);
      if !updateFlushCount { DelayedBeforeFlush(q, lazy, i, |delayed|, peakCruiseV2, updateFlushCount, flushCount); }
      if updateFlushCount && peakCruiseV2 != 0.0 {
        flushCount := i;
        updateFlushCount := false;
      }
      peakCruiseV2 := Min(move.maxCruiseV2, (smoothedV2 + reachableSmoothedV2) * 0.5);
      if delayed != [] {
        // the caps of the run behind are now decided
        if !updateFlushCount && i < flushCount {
          PropagatePeak(delayed, peakCruiseV2, queue, q, i, flushCount);
        }
      }
    } else {
      PassFullAcceleration(q, lazy, i, peakCruiseV2, updateFlushCount, flushCount);
    }
    assert SpeedsSet(queue, Plans(q), i + 1, if updateFlushCount then 0 else flushCount);
    if !updateFlushCount && i < flushCount {
      var cruiseV2 := Min(Min((startV2 + reachableStartV2) * 0.5, move.maxCruiseV2), peakCruiseV2);
      AcceleratingPlan(q, i);
      move.SetJunction(Min(startV2, cruiseV2), cruiseV2, Min(nextEndV2, cruiseV2));
    }
  }

  /** Moves waiting in the queue: untouched, with the given limits. */
  ghost predicate Waiting(moves: seq<Move>, q: seq<Limits>)
    reads moves
  {
    && |moves| == |q| && Distinct(moves)
    && forall i :: 0 <= i < |moves| ==> moves[i].Valid() && moves[i].Lim() == q[i] && Uncommitted(moves[i])
  }

  /** Moves handed over: each within its limits, and committed exactly once with the given speeds. */
  ghost predicate HandedOver(moves: seq<Move>, q: seq<Limits>, plans: seq<Plan>)
    reads moves
  {
    && |moves| == |q| == |plans|
    && forall i :: 0 <= i < |moves| ==> moves[i].Valid() && moves[i].Lim() == q[i] && Committed(moves[i], plans[i])
  }

  /** A move that can be carried out: its speeds are within its limits, it spends a non-negative
      distance in each phase, and exactly its length in all. */
  ghost predicate Feasibly(m: Move)
    reads m
  {
    && m.Valid() && m.timesSet == 1 && m.junction.Some? && m.phases.Some?
    && Feasible(m.Lim(), m.junction.value)
    && var j := m.phases.value;
      && 0.0 <= j.accelD && 0.0 <= j.cruiseD && 0.0 <= j.decelD && j.accelD + j.cruiseD + j.decelD == m.moveD
      && m.junction.value.start + 2.0 * m.accel * j.accelD == m.junction.value.cruise
      && m.junction.value.end + 2.0 * m.accel * j.decelD == m.junction.value.cruise
  }

  ghost predicate AllFeasibly(moves: seq<Move>)
    reads moves
  {
    forall m :: m in moves ==> Feasibly(m)
  }

  lemma {:induction false} CommittedFeasibly(m: Move, p: Plan)
    requires m.Valid() && Committed(m, p) && Feasible(m.Lim(), p)
    ensures Feasibly(m)
  {
    hide Feasible, PhasesOf;
    DistancesAreSound(m.moveD, m.accel, m.Lim(), p);
  }

  /** Moves given the speeds of their path's plan can be carried out. */
  lemma {:induction false} HandedOverFeasibly(moves: seq<Move>, path: seq<Limits>, done: nat, n: nat)
    requires Path(path) && done < |path| && n <= |path| - done
    requires HandedOver(moves, path[done..][..n], Plans(path)[done..][..n])
    ensures AllFeasibly(moves)
  {
    hide Path, Feasible, Feasibly, PlanAt, Plans, PhasesOf, Committed, Sound, Reach;
    PathPlan(path);
    forall i | 0 <= i < |moves| ensures Feasibly(moves[i]) {
      PlansIndex(path, done + i);
      assert path[done..][..n][i] == path[done + i] && Plans(path)[done..][..n][i] == Plans(path)[done + i];
      assert Feasible(path[done + i], PlanAt(path, done + i));
      CommittedFeasibly(moves[i], PlanAt(path, done + i));
    }
  }

  lemma {:induction false} DivideAt(moves: seq<Move>, q: seq<Limits>, plans: seq<Plan>, n: nat)
    requires n <= |moves| == |q| == |plans| && Distinct(moves)
    requires forall i :: 0 <= i < |moves| ==> moves[i].Valid() && moves[i].Lim() == q[i]
    requires SpeedsSet(moves, plans, 0, n)
    ensures HandedOver(moves[..n], q[..n], plans[..n])
    ensures Waiting(moves[n..], q[n..])
  {
  }

  lemma {:induction false} HandedOverMore(before: seq<Move>, more: seq<Move>, q: seq<Limits>, l: seq<Limits>,
                                          p: seq<Plan>, r: seq<Plan>)
    requires HandedOver(before, q, p) && HandedOver(more, l, r)
    ensures HandedOver(before + more, q + l, p + r)
  {
  }

  /** Adding `more` to a list whose last `d` entries matter. */
  lemma {:induction false} LastEntries<T>(s: seq<T>, d: nat, more: seq<T>)
    requires d <= |s|
    ensures (s + more)[|s + more| - (d + |more|)..] == s[|s| - d..] + more
  {
  }

  lemma {:induction false} FirstEntries<T>(s: seq<T>, t: seq<T>, d: nat, n: nat)
    requires d <= |s| && t == s[d..] && n <= |t|
    ensures s[..d] + t[..n] == s[..d + n] && t[n..] == s[d + n..]
  {
  }

  /** Commit what can be committed of the moves waiting at the end of a path: their number, their
      speeds, and the moves left over.  Moves handed over earlier are not touched. */
  method CommitMoves(moves: seq<Move>, lazy: bool, ghost path: seq<Limits>, ghost done: nat,
                     ghost earlier: seq<Move>, ghost limits: seq<Limits>, ghost plans: seq<Plan>) returns (n: nat)
    requires Path(path) && Settled(path, done) && done < |path| && Waiting(moves, path[done..])
    requires HandedOver(earlier, limits, plans) && forall i, j :: 0 <= i < |earlier| && 0 <= j < |moves| ==> earlier[i] != moves[j]
    modifies moves`junction, moves`phases, moves`timesSet
    ensures n == FlushCount(path[done..], lazy) <= |moves|
    ensures Distinct(moves)
    ensures HandedOver(earlier, limits, plans)
    ensures HandedOver(moves[..n], path[done..][..n], Plans(path)[done..][..n])
    ensures Waiting(moves[n..], path[done..][n..])
    ensures if lazy then n < |moves| && Settled(path, done + n) else n == |moves|
  {
    hide Chain, Settled, Split;
    ghost var q := path[done..];
    QueuePlansArePathPlans(path, done);
    var updateFlushCount, flushCount := BackwardPass(moves, lazy, q);
    n := if updateFlushCount then 0 else flushCount;
    DivideAt(moves, q, Plans(q), n);
    if lazy {
      AdvancePath(path, done, n);
    }
  }

  /** Queueing another move keeps the path a path and leaves the committed prefix as planned. */
  lemma {:induction false} ExtendPath(path: seq<Limits>, done: nat, l: Limits)
    requires Path(path) && Settled(path, done) && done <= |path| && Sound(l)
    requires if path == [] then l.maxStart == 0.0 else Follows(l, path[|path| - 1])
    ensures Path(path + [l]) && Settled(path + [l], done)
    ensures Plans(path + [l])[..done] == Plans(path)[..done]
    ensures (path + [l])[done..] == path[done..] + [l]
  {
    var longer := path + [l];
    forall i, j | 0 <= i && j == i + 1 < |longer|
      ensures Follows(longer[j], longer[i])
    {
      if j < |path| { LinkUp(path, i); }
    }
    assert Chain(longer);
    SettledPrefixIsFinal(path, longer, done);
    forall i | 0 <= i < done
      ensures Plans(longer)[i] == Plans(path)[i]
    {
      PlansIndex(path, i);
      PlansIndex(longer, i);
    }
  }

  lemma {:induction false} WaitingMore(moves: seq<Move>, q: seq<Limits>, m: Move)
    requires Waiting(moves, q) && m !in moves && m.Valid() && Uncommitted(m)
    ensures Waiting(moves + [m], q + [m.Lim()])
  {
    assert forall i :: 0 <= i < |moves| ==> moves[i] in moves;
  }

  lemma {:induction false} DisjointEntries(s: seq<Move>, t: seq<Move>, k: nat)
    requires k <= |s| && forall m :: m in t ==> m !in s
    ensures forall i, j :: 0 <= i < |s| - k && 0 <= j < |t| ==> s[k..][i] != t[j]
  {
    forall i, j | 0 <= i < |s| - k && 0 <= j < |t|
      ensures s[k..][i] != t[j]
    {
      assert t[j] in t && s[k..][i] == s[k + i];
    }
  }

  lemma {:induction false} NothingQueued()
    ensures Path([]) && Settled([], 0) && Waiting([], []) && HandedOver([], [], []) && AllFeasibly([])
    ensures Plans([]) == []
  {
  }

  class MoveQueue {
    var queue: seq<Move>
    var junctionFlush: real
    /** Every move handed over for step generation, in order. */
    var processed: seq<Move>
    /** The limits of every move queued since the head last came to rest. */
    ghost var path: seq<Limits>

    /** How many moves of the current path have been handed over. */
    ghost function Done(): int
      reads this`path, this`queue
    {
      |path| - |queue|
    }

    /** The queue holds the tail of the path, and the rest of the path has been handed over with
        the speeds of the path's plan; every move ever handed over can be carried out. */
    ghost predicate Tracks()
      reads this`path, this`queue, this`processed, queue, processed
    {
      && 0 <= Done() <= |processed|
      && (forall m :: m in queue ==> m !in processed)
      && Waiting(queue, path[Done()..])
      && HandedOver(processed[|processed| - Done()..], path[..Done()], Plans(path)[..Done()])
      && AllFeasibly(processed)
    }

    ghost predicate Valid()
      reads this`path, this`queue, this`processed, queue, processed
    {
      && Tracks()
      && Path(path) && Settled(path, Done()) && (queue == [] ==> path == [])
    }

    constructor ()
      ensures Valid() && queue == [] && processed == []
      ensures junctionFlush == LOOKAHEAD_FLUSH_TIME
    {
      queue, processed, path := [], [], [];
      junctionFlush := LOOKAHEAD_FLUSH_TIME;
      new;
      NothingQueued();
      hide Waiting, HandedOver, Path, Settled, Plans;
    }

    /** Pass the first `n` moves on and drop them from the queue. */
    method HandOver(n: nat)
      requires n <= |queue| && 0 <= Done() <= |processed| && Distinct(queue)
      requires forall m :: m in queue ==> m !in processed
      requires HandedOver(processed[|processed| - Done()..], path[..Done()], Plans(path)[..Done()])
      requires HandedOver(queue[..n], path[Done()..][..n], Plans(path)[Done()..][..n])
      requires AllFeasibly(processed) && AllFeasibly(queue[..n])
      requires Waiting(queue[n..], path[Done()..][n..])
      modifies this`queue, this`processed
      ensures processed == old(processed) + old(queue)[..n] && queue == old(queue)[n..]
      ensures Tracks() && Done() == old(Done()) + n
    {
      hide HandedOver, Waiting, Plans, Feasibly;
      HandedOverMore(processed[|processed| - Done()..], queue[..n], path[..Done()], path[Done()..][..n],
                     Plans(path)[..Done()], Plans(path)[Done()..][..n]);
      LastEntries(processed, Done(), queue[..n]);
      FirstEntries(Plans(path), Plans(path)[Done()..], Done(), n);
      FirstEntries(path, path[Done()..], Done(), n);
      processed := processed + queue[..n];
      queue := queue[n..];
    }

    /** When everything has been handed over the head is at rest, and a new path begins. */
    ghost method EndPath()
      requires Tracks() && queue == []
      modifies this`path
      ensures Valid() && path == []
      ensures |old(path)| <= |processed| && HandedOver(processed[|processed| - |old(path)|..], old(path), Plans(old(path)))
    {
      hide Plans, PlansFrom;
      assert Plans(path)[..|path|] == Plans(path) && path[..|path|] == path;
      path := [];
    }

    /** Run the backward pass over the queue and hand over the moves whose speeds are final:
        all of them, or, for a lazy flush, those no later move can affect. */
    method Flush(lazy: bool)
      requires Valid()
      modifies this, queue`junction, queue`phases, queue`timesSet
      ensures Valid()
      ensures junctionFlush == LOOKAHEAD_FLUSH_TIME
      // a lazy flush hands over the moves before the split; the path goes on
      ensures lazy ==>
        && path == old(path)
        && Done() == old(Done()) + FlushCount(old(path)[old(Done())..], true)
        && processed == old(processed) + old(queue)[..Done() - old(Done())]
        && queue == old(queue)[Done() - old(Done())..]
      // a full flush hands over every move, and the head comes to rest: the path, however it was
      // flushed so far, has been given exactly the speeds of one batch over all its moves
      ensures !lazy ==>
        && processed == old(processed) + old(queue)
        && queue == [] && path == []
        && |old(path)| <= |processed|
        && HandedOver(processed[|processed| - |old(path)|..], old(path), Plans(old(path)))
    {
      hide *;
      junctionFlush := LOOKAHEAD_FLUSH_TIME;
      if queue == [] {
        NothingToFlush();
        return;
      }
      if lazy {
        HandOverCommitted(true);
      } else {
        HandOverAll();
      }
    }

    /** Commit every move and hand it over, and come to rest. */
    method HandOverAll()
      requires Valid() && queue != []
      modifies this`queue, this`processed, this`path, queue`junction, queue`phases, queue`timesSet
      ensures Valid() && processed == old(processed) + old(queue) && queue == [] && path == []
      ensures |old(path)| <= |processed| && HandedOver(processed[|processed| - |old(path)|..], old(path), Plans(old(path)))
    {
      hide *;
      HandOverCommitted(false);
      EndPath();
    }

    /** Whatever has been flushed, and however, can be carried out. */
    lemma {:induction false} ProcessedFeasibly(m: Move)
      requires Valid() && m in processed
      ensures Feasibly(m)
    {
    }

    lemma {:induction false} NothingToFlush()
      requires Valid() && queue == []
      ensures path == [] && Done() == 0 && FlushCount(path[Done()..], true) == 0
      ensures HandedOver(processed[|processed|..], path, Plans(path))
    {
    }

    /** Commit what can be committed, and hand it over. */
    method HandOverCommitted(lazy: bool)
      requires Valid() && queue != []
      modifies this`queue, this`processed, queue`junction, queue`phases, queue`timesSet
      ensures Tracks() && Done() == old(Done()) + FlushCount(path[old(Done())..], lazy)
      ensures processed == old(processed) + old(queue)[..Done() - old(Done())]
      ensures queue == old(queue)[Done() - old(Done())..]
      ensures if lazy then Valid() else queue == [] && processed == old(processed) + old(queue)
    {
      hide Waiting, HandedOver, Chain, Path, Settled, FlushCount, Plans;
      ghost var earlier := processed[|processed| - Done()..];
      DisjointEntries(processed, queue, |processed| - Done());
      var n := CommitMoves(queue, lazy, path, Done(), earlier, path[..Done()], Plans(path)[..Done()]);
      HandedOverFeasibly(queue[..n], path, Done(), n);
      HandOver(n);
    }

    /** Append a move to the queue, and its limits to the path. */
    method Append(m: Move)
      requires Valid() && m !in queue && m !in processed && m.Valid() && Uncommitted(m)
      requires if queue == [] then m.maxStartV2 == 0.0 else Follows(m.Lim(), queue[|queue| - 1].Lim())
      modifies this`queue, this`path
      ensures Valid() && Done() == old(Done())
      ensures queue == old(queue) + [m] && path == old(path) + [m.Lim()]
    {
      hide HandedOver, Path, Settled, Plans, Follows, Waiting, AllFeasibly;
      PathExtends(m);
      assert (path + [m.Lim()])[..Done()] == path[..Done()];
      path := path + [m.Lim()];
      queue := queue + [m];
    }

    lemma {:induction false} PathExtends(m: Move)
      requires Valid() && m !in queue && m.Valid() && Uncommitted(m)
      requires if queue == [] then m.maxStartV2 == 0.0 else Follows(m.Lim(), queue[|queue| - 1].Lim())
      ensures var longer := path + [m.Lim()];
        && Path(longer) && Settled(longer, Done()) && Waiting(queue + [m], longer[Done()..])
        && Plans(longer)[..Done()] == Plans(path)[..Done()]
    {
      LastOfPath();
      hide HandedOver, Path, Settled, Plans, Sound, Follows, Waiting, Chain;
      ExtendPath(path, Done(), m.Lim());
      WaitingMore(queue, path[Done()..], m);
    }

    /** The last move waiting is the last of the path. */
    lemma {:induction false} LastOfPath()
      requires Valid()
      ensures queue != [] ==> path != [] && path[|path| - 1] == queue[|queue| - 1].Lim()
    {
      hide Path, Settled, HandedOver, Plans;
      if queue != [] {
        assert path[Done()..][|queue| - 1] == path[|path| - 1];
      }
    }

    /** Append a move, limited at the junction with the move before it. */
    method LinkMove(move: Move, corner: Corner)
      requires Valid() && move.Valid() && move.Pending() && corner.Valid()
      requires move !in queue && move !in processed
      modifies this`queue, this`path, move`maxStartV2, move`maxSmoothedV2
      ensures Valid() && Done() == old(Done())
      ensures queue == old(queue) + [move] && path == old(path) + [move.Lim()]
      ensures if old(queue) == [] then move.maxStartV2 == 0.0 else JoinedAt(move, old(queue)[|old(queue)| - 1], corner)
    {
      hide Path, Settled, HandedOver, Plans, CornerLimit, JoinedAt;
      if queue != [] {
        move.CalcJunction(queue[|queue| - 1], corner);
        Junction(move, queue[|queue| - 1], corner);
      }
      Append(move);
    }

    /** Queue a move, and flush lazily once enough time has been queued. */
    method AddMove(move: Move, corner: Corner)
      requires Valid() && move.Valid() && move.Pending() && corner.Valid()
      requires move !in queue && move !in processed
      modifies this, move`maxStartV2, move`maxSmoothedV2, move`junction, move`phases, move`timesSet, queue`junction, queue`phases, queue`timesSet
      ensures Valid()
      ensures path == old(path) + [move.Lim()]
      ensures if old(queue) == [] then move.maxStartV2 == 0.0 else JoinedAt(move, old(queue)[|old(queue)| - 1], corner)
      ensures if old(queue) == [] || old(junctionFlush) - move.minMoveT > 0.0
        then processed == old(processed) && queue == old(queue) + [move]
        else
          && Done() == old(Done()) + FlushCount(path[old(Done())..], true)
          && processed == old(processed) + (old(queue) + [move])[..Done() - old(Done())]
          && queue == (old(queue) + [move])[Done() - old(Done())..]
      ensures junctionFlush ==
        if old(queue) == [] then old(junctionFlush)
        else if old(junctionFlush) - move.minMoveT > 0.0 then old(junctionFlush) - move.minMoveT
        else LOOKAHEAD_FLUSH_TIME
    {
      hide *;
      var first := queue == [];
      LinkMove(move, corner);
      if first {
        return;
      }
      junctionFlush := junctionFlush - move.minMoveT;
      if junctionFlush <= 0.0 {
        Flush(true);
      }
    }

    /** Drop everything that is queued. */
    method Reset()
      requires Valid()
      modifies this`queue, this`junctionFlush, this`path
      ensures Valid() && queue == [] && path == [] && junctionFlush == LOOKAHEAD_FLUSH_TIME
    {
      queue, path := [], [];
      junctionFlush := LOOKAHEAD_FLUSH_TIME;
    }

    method SetFlushTime(flushTime: real)
      requires Valid()
      modifies this`junctionFlush
      ensures Valid() && junctionFlush == flushTime
    {
      junctionFlush := flushTime;
    }

    /** The last move of the path, if it is still waiting: its speeds are not set, so whatever is
        attached to it takes effect when it is handed over.  There is none exactly at rest. */
    method GetLast() returns (m: Option<Move>)
      requires Valid()
      ensures m == None <==> path == []
      ensures m.Some? ==>
        && queue == queue[..|queue| - 1] + [m.value] && m.value !in processed && Uncommitted(m.value)
        && path[|path| - 1] == m.value.Lim()
    {
      hide Path, Settled, HandedOver, Plans;
      if queue == [] {
        return None;
      }
      LastOfPath();
      m := Some(queue[|queue| - 1]);
    }
  }
}
