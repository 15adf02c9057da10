/** The stepper engine: a queue of moves turned into step pulses by a timer, with the position and
    the direction of motion packed into one 32-bit word. */
module Stepper {
  import opened Words32

  const POSITION_BIAS := 0x4000_0000

  type Int16 = x: int | -0x8000 <= x < 0x8000
  type Count16 = x: int | 0 <= x < 0x1_0000

  /** A queued move: `count` steps, the first `interval` ticks after the last step, every following
      interval longer by `add`; `flip` asks for the direction pin to be toggled first. */
  datatype StepperMove = StepperMove(interval: Word, add: Int16, count: Count16, flip: bool)

  /** What a timer event or command asks of the scheduler. */
  datatype Outcome = Finished | Rescheduled | Shutdown

  // ------------------------------------------------------------ nominal step times

  /** The interval before step `n + 1` of a move. */
  ghost function IntervalAt(m: StepperMove, n: nat): Word {
    if n == 0 then m.interval else Wrap(IntervalAt(m, n - 1) + m.add)
  }

  /** The time of step `n` of a move whose previous step was at `base`. */
  ghost function StepTime(base: Word, m: StepperMove, n: nat): Word {
    if n == 0 then base else Wrap(StepTime(base, m, n - 1) + IntervalAt(m, n - 1))
  }

  /** The times of the first `n` steps of a move. */
  ghost function MoveTimes(base: Word, m: StepperMove, n: nat): (ts: seq<Word>)
    ensures |ts| == n
  {
    if n == 0 then [] else MoveTimes(base, m, n - 1) + [StepTime(base, m, n)]
  }

  /** The time of the last step of a run of moves: each move counts from the end of the one before. */
  ghost function EndTime(base: Word, moves: seq<StepperMove>): Word {
    if moves == [] then base
    else var last := moves[|moves| - 1]; StepTime(EndTime(base, moves[..|moves| - 1]), last, last.count)
  }

  /** The times of all steps of a run of moves. */
  ghost function Times(base: Word, moves: seq<StepperMove>): seq<Word> {
    if moves == [] then []
    else
      var before, last := moves[..|moves| - 1], moves[|moves| - 1];
      Times(base, before) + MoveTimes(EndTime(base, before), last, last.count)
  }

  lemma {:induction false} OneMore(n: int, x: int)
    ensures (n - 1) * x + x == n * x
  {
  }

  lemma {:induction false} WrapOfWord(w: Word)
    ensures Wrap(w) == w
  {
  }

  lemma {:induction false} IntervalGrows(m: StepperMove, n: nat, before: int)
    requires n > 0 && IntervalAt(m, n - 1) == Wrap(before)
    ensures IntervalAt(m, n) == Wrap(before + m.add)
  {
    WrapSum(before, m.add);
  }

  lemma {:induction false} IntervalClosedForm(m: StepperMove, n: nat)
    ensures IntervalAt(m, n) == Wrap(m.interval + n * m.add)
  {
    hide Wrap;
    if n == 0 {
      WrapOfWord(m.interval);
    } else {
      IntervalClosedForm(m, n - 1);
      IntervalGrows(m, n, m.interval + (n - 1) * m.add);
      hide IntervalAt;
      OneMore(n, m.add);
    }
  }

  /** The nominal time of step `n` of a move, before it wraps. */
  function NominalTime(base: int, m: StepperMove, n: nat): int {
    base + n * m.interval + m.add * (n * (n - 1) / 2)
  }

  /** Step `n` of a move is nominally at `base + n * interval + add * n * (n - 1) / 2`. */
  lemma {:induction false} StepTimeClosedForm(base: Word, m: StepperMove, n: nat)
    ensures StepTime(base, m, n) == Wrap(NominalTime(base, m, n))
  {
    hide NominalTime, Wrap;
    if n == 0 {
      NoSteps(base, m);
      WrapOfWord(base);
    } else {
      StepTimeClosedForm(base, m, n - 1);
      IntervalClosedForm(m, n - 1);
      WrapOfSums(NominalTime(base, m, n - 1), m.interval + (n - 1) * m.add);
      OneStepFurther(base, m, n);
      hide IntervalAt;
    }
  }

  lemma {:induction false} NoSteps(base: int, m: StepperMove)
    ensures NominalTime(base, m, 0) == base
  {
  }

  lemma {:induction false} WrapOfSums(a: int, b: int)
    ensures Wrap(Wrap(a) + Wrap(b)) == Wrap(a + b)
  {
    WrapSum(a, Wrap(b));
    WrapSum(b, a);
  }

  lemma {:induction false} OneStepFurther(base: int, m: StepperMove, n: nat)
    requires n > 0
    ensures NominalTime(base, m, n - 1) + (m.interval + (n - 1) * m.add) == NominalTime(base, m, n)
  {
    Triangle(n);
    var t := (n - 1) * (n - 2) / 2;
    assert m.add * (t + (n - 1)) == m.add * t + m.add * (n - 1);
    assert (n - 1) * m.interval + m.interval == n * m.interval;
  }

  lemma {:induction false} Triangle(n: nat)
    requires n > 0
    ensures (n - 1) * (n - 2) / 2 + (n - 1) == n * (n - 1) / 2
  {
    assert n * (n - 1) == (n - 1) * (n - 2) + 2 * (n - 1);
  }

  lemma {:induction false} FirstStep(base: Word, m: StepperMove)
    ensures MoveTimes(base, m, 0) == [] && StepTime(base, m, 1) == Wrap(base + m.interval)
    ensures IntervalAt(m, 1) == Wrap(m.interval + m.add)
  {
    assert StepTime(base, m, 0) == base && IntervalAt(m, 0) == m.interval;
  }

  lemma {:induction false} StepFurther(m: StepperMove, base: Word, n: nat)
    ensures StepTime(base, m, n + 1) == Wrap(StepTime(base, m, n) + IntervalAt(m, n))
    ensures IntervalAt(m, n + 1) == Wrap(IntervalAt(m, n) + m.add)
  {
  }

  /** Once its last step is done a run of moves has ended. */
  lemma {:induction false} RunEnds(base: Word, moves: seq<StepperMove>)
    requires moves != []
    ensures var m, before := moves[|moves| - 1], moves[..|moves| - 1];
      && Times(base, moves) == Times(base, before) + MoveTimes(EndTime(base, before), m, m.count)
      && EndTime(base, moves) == StepTime(EndTime(base, before), m, m.count)
  {
  }

  lemma {:induction false} MoveTimesPrefix(base: Word, m: StepperMove, n: nat, k: nat)
    requires n <= k
    ensures MoveTimes(base, m, n) == MoveTimes(base, m, k)[..n]
  {
    if n < k {
      MoveTimesPrefix(base, m, n, k - 1);
    }
  }

  lemma {:induction false} MoveTimesAt(base: Word, m: StepperMove, n: nat, k: nat)
    requires 1 <= k <= n
    ensures MoveTimes(base, m, n)[k - 1] == StepTime(base, m, k)
  {
    if k < n {
      MoveTimesAt(base, m, n - 1, k);
    }
  }

  lemma {:induction false} NotBeforeItself(t: Word)
    ensures !IsBefore(t, t)
  {
  }

  // ------------------------------------------------------------ directions

  function Signed(positive: bool, x: int): int {
    if positive then x else -x
  }

  /** The direction pin after loading all of `mq`, one by one. */
  ghost function DirectionAfter(pin: bool, mq: seq<StepperMove>): bool
    decreases |mq|
  {
    if mq == [] then pin else DirectionAfter(pin != mq[0].flip, mq[1..])
  }

  /** The net distance of the moves in `mq`. */
  ghost function NetOf(pin: bool, mq: seq<StepperMove>): int
    decreases |mq|
  {
    if mq == [] then 0
    else Signed(pin != mq[0].flip, mq[0].count) + NetOf(pin != mq[0].flip, mq[1..])
  }

  lemma {:induction false} NoMoves(pin: bool)
    ensures DirectionAfter(pin, []) == pin && NetOf(pin, []) == 0
  {
  }

  lemma {:induction false} QueuePops(pin: bool, mq: seq<StepperMove>)
    ensures DirectionAfter(pin, mq) == if mq == [] then pin else DirectionAfter(pin != mq[0].flip, mq[1..])
    ensures NetOf(pin, mq) ==
      if mq == [] then 0 else Signed(pin != mq[0].flip, mq[0].count) + NetOf(pin != mq[0].flip, mq[1..])
  {
  }

  lemma {:induction false} QueueOneMore(pin: bool, mq: seq<StepperMove>, m: StepperMove)
    ensures DirectionAfter(pin, mq + [m]) == (DirectionAfter(pin, mq) != m.flip)
    ensures NetOf(pin, mq + [m]) == NetOf(pin, mq) + Signed(DirectionAfter(pin, mq) != m.flip, m.count)
    decreases |mq|
  {
    if mq != [] {
      assert (mq + [m])[1..] == mq[1..] + [m];
      QueueOneMore(pin != mq[0].flip, mq[1..], m);
    }
  }

  /** A queue is loaded one part after the other. */
  lemma {:induction false} QueueJoined(pin: bool, a: seq<StepperMove>, b: seq<StepperMove>)
    ensures DirectionAfter(pin, a + b) == DirectionAfter(DirectionAfter(pin, a), b)
    ensures NetOf(pin, a + b) == NetOf(pin, a) + NetOf(DirectionAfter(pin, a), b)
    decreases |a|
  {
    if a == [] {
      assert a + b == b;
    } else {
      assert (a + b)[1..] == a[1..] + b;
      QueueJoined(pin != a[0].flip, a[1..], b);
    }
  }

  /** The steps of a run of moves. */
  ghost function StepsOf(moves: seq<StepperMove>): nat
    decreases |moves|
  {
    if moves == [] then 0 else moves[0].count + StepsOf(moves[1..])
  }

  /** How far the first `n` steps of a run lead. */
  ghost function Travelled(pin: bool, moves: seq<StepperMove>, n: nat): int
    decreases |moves|
  {
    if moves == [] then 0
    else
      var dir := pin != moves[0].flip;
      if n <= moves[0].count then Signed(dir, n)
      else Signed(dir, moves[0].count) + Travelled(dir, moves[1..], n - moves[0].count)
  }

  /** The way of a run is the net distance of the moves loaded, less the `r` steps of the last one that
      are still to come; later moves do not matter. */
  lemma {:induction false} TravelledSoFar(pin: bool, loaded: seq<StepperMove>, mq: seq<StepperMove>, r: nat)
    requires if loaded == [] then r == 0 else r <= loaded[|loaded| - 1].count
    ensures r <= StepsOf(loaded)
    ensures Travelled(pin, loaded + mq, StepsOf(loaded) - r) ==
            NetOf(pin, loaded) - Signed(DirectionAfter(pin, loaded), r)
    decreases |loaded|
  {
    var all := loaded + mq;
    if loaded == [] {
      NothingTravelled(pin, all);
    } else {
      var dir, rest := pin != loaded[0].flip, loaded[1..];
      assert all[0] == loaded[0] && all[1..] == rest + mq;
      if rest != [] {
        TravelledSoFar(dir, rest, mq, r);
        if StepsOf(rest) == r {
          NothingTravelled(dir, rest + mq);
        }
      }
    }
  }

  lemma {:induction false} NothingTravelled(pin: bool, moves: seq<StepperMove>)
    ensures Travelled(pin, moves, 0) == 0
  {
  }

  lemma {:induction false} StepsOneMore(moves: seq<StepperMove>, m: StepperMove)
    ensures StepsOf(moves + [m]) == StepsOf(moves) + m.count
    decreases |moves|
  {
    if moves != [] {
      assert (moves + [m])[1..] == moves[1..] + [m];
      StepsOneMore(moves[1..], m);
    }
  }

  lemma {:induction false} TimesCount(base: Word, moves: seq<StepperMove>)
    ensures |Times(base, moves)| == StepsOf(moves)
    decreases |moves|
  {
    if moves != [] {
      var before, last := moves[..|moves| - 1], moves[|moves| - 1];
      TimesCount(base, before);
      StepsOneMore(before, last);
      assert before + [last] == moves;
    }
  }

  /** The steps of a run do not depend on the moves that follow. */
  lemma {:induction false} TimesOfPart(base: Word, loaded: seq<StepperMove>, mq: seq<StepperMove>)
    ensures |Times(base, loaded)| <= |Times(base, loaded + mq)|
    ensures Times(base, loaded) == Times(base, loaded + mq)[..|Times(base, loaded)|]
    decreases |mq|
  {
    if mq == [] {
      assert loaded + mq == loaded;
    } else {
      var front, last := mq[..|mq| - 1], mq[|mq| - 1];
      TimesOfPart(base, loaded, front);
      assert (loaded + mq)[..|loaded + mq| - 1] == loaded + front;
      RunEnds(base, loaded + mq);
    }
  }

  /** Step `k` of move `i` of a run, at its nominal time: it counts from the end of the moves before. */
  lemma {:induction false} StepOfRun(base: Word, moves: seq<StepperMove>, i: nat, k: nat)
    requires i < |moves| && 1 <= k <= moves[i].count
    ensures StepsOf(moves[..i]) + k - 1 < |Times(base, moves)|
    ensures Times(base, moves)[StepsOf(moves[..i]) + k - 1] ==
            Wrap(NominalTime(EndTime(base, moves[..i]), moves[i], k))
  {
    hide NominalTime, Wrap, StepTime, StepsOf, Times, EndTime, MoveTimes;
    var before, part := moves[..i], moves[..i + 1];
    assert part[..|part| - 1] == before && part[|part| - 1] == moves[i] && part + moves[i + 1..] == moves;
    RunEnds(base, part);
    TimesCount(base, before);
    MoveTimesAt(EndTime(base, before), moves[i], moves[i].count, k);
    TimesOfPart(base, part, moves[i + 1..]);
    StepTimeClosedForm(EndTime(base, before), moves[i], k);
  }

  // ------------------------------------------------------------ the packed position

  /** The word that holds net position `p` while moving in the given direction. */
  ghost function Packed(positive: bool, p: int): Word {
    Wrap(Signed(positive, POSITION_BIAS + p))
  }

  /** Words with the top bit set are those of positions packed for the negative direction. */
  function Unpack(position: Word): Word {
    if position >= 0x8000_0000 then Wrap(0 - position) else position
  }

  lemma {:induction false} PackedMoves(positive: bool, p: int, c: int)
    ensures Wrap(Packed(positive, p) + c) == Packed(positive, p + Signed(positive, c))
  {
    WrapSum(Signed(positive, POSITION_BIAS + p), c);
  }

  lemma {:induction false} PackedReverses(positive: bool, p: int)
    ensures Wrap(0 - Packed(positive, p)) == Packed(!positive, p)
  {
    var x := Signed(positive, POSITION_BIAS + p);
    assert 0 - Wrap(x) == -x + 0x1_0000_0000 * (x / 0x1_0000_0000);
  }

  /** Unpacking gives back the position, modulo the word size, if and only if the biased position
      has not left the lower half of the range. */
  lemma {:induction false} UnpackPacked(positive: bool, p: int)
    ensures Unpack(Packed(positive, p)) == Wrap(POSITION_BIAS + p)
            <==> Wrap(POSITION_BIAS + p) <= 0x8000_0000
  {
    PackedReverses(positive, p);
    PackedReverses(true, p);
  }

  /** The frozen form of a reported position. */
  lemma {:induction false} PackedNegative(here: int)
    ensures Packed(false, here - POSITION_BIAS) == Wrap(0 - here)
  {
  }

  lemma {:induction false} UnpackedRange(position: Word)
    ensures Unpack(position) <= 0x8000_0000
  {
  }

  /** Unpacking a frozen position gives it back. */
  lemma {:induction false} UnpackNegative(here: Word)
    requires here <= 0x8000_0000
    ensures Unpack(Packed(false, here - POSITION_BIAS)) == here
    ensures Wrap(POSITION_BIAS + (here - POSITION_BIAS)) == here
  {
  }

  /** Positions that are equal modulo the word size are packed alike. */
  lemma {:induction false} SamePacked(p: int, here: Word)
    requires Wrap(POSITION_BIAS + p) == here
    ensures Packed(false, p) == Packed(false, here - POSITION_BIAS)
  {
    PackedReverses(true, p);
    PackedReverses(true, here - POSITION_BIAS);
  }

  /** Where a run begins: the clock its first move counts from, the steps pulsed and the direction of
      the pin before it, and by how much the position had slipped from the steps pulsed. */
  datatype Origin = Origin(base: Word, pulsed: int, dir: bool, slip: int)

  // ------------------------------------------------------------ the engine

  class Stepper {
    /** Whether a timer event is a step (step on both edges of the pin) or half of one. */
    const singleSched: bool
    const invertStep: bool
    const stepPulseTicks: Word
    /** Clock ticks in a millisecond. */
    const ticksPerMs: nat
    var waketime: Word
    var interval: Word
    var nextStepTime: Word
    var add: Int16
    var count: nat
    var position: Word
    var mq: seq<StepperMove>
    var lastDir: bool
    var nextDir: bool
    var needReset: bool
    var dirPin: bool
    var stepPin: bool
    /** Whether the timer is on the timer list. */
    ghost var scheduled: bool
    /** The signed sum of the steps pulsed, and of the steps of every accepted move. */
    ghost var pulsed: int
    ghost var accepted: int
    /** Where the current run began, the moves loaded since, and the nominal times of the steps
        pulsed since. */
    ghost var origin: Origin
    ghost var loaded: seq<StepperMove>
    ghost var times: seq<Word>

    /** Steps of the current move not yet pulsed. */
    function Remaining(): nat
      reads this`count
    {
      if singleSched then count else count / 2
    }

    /** The nominal time of the next step, or of the last one when there is none. */
    function Clock(): Word
      reads this`waketime, this`nextStepTime
    {
      if singleSched then waketime else nextStepTime
    }

    ghost predicate Engine()
      reads this
    {
      && (count == 0 ==> mq == []) && (scheduled <==> count > 0) && (needReset ==> count == 0)
      && lastDir == DirectionAfter(dirPin, mq)
      && (!singleSched ==> stepPin == (invertStep != (count % 2 == 1)))
      && (forall i :: 0 <= i < |mq| ==> mq[i].count > 0)
    }

    ghost predicate Counted()
      reads this`count, this`position, this`dirPin, this`pulsed, this`accepted, this`mq, this`origin
    {
      && position == Packed(dirPin, pulsed + origin.slip + Signed(dirPin, Remaining()))
      && accepted == pulsed + Signed(dirPin, Remaining()) + NetOf(dirPin, mq)
    }

    ghost predicate Timed()
      reads this`count, this`waketime, this`nextStepTime, this`add, this`interval, this`origin, this`loaded, this`times
    {
      if loaded == [] then count == 0 && times == [] && Clock() == origin.base
      else
        var m, before := loaded[|loaded| - 1], loaded[..|loaded| - 1];
        var start, done := EndTime(origin.base, before), m.count - Remaining();
        && 0 <= done && (count > 0 ==> add == m.add)
        && times == Times(origin.base, before) + MoveTimes(start, m, done)
        && if Remaining() > 0 && (singleSched || count % 2 == 0)
           then Clock() == StepTime(start, m, done + 1) && interval == IntervalAt(m, done + 1)
           else Clock() == StepTime(start, m, done) && (count > 1 ==> interval == IntervalAt(m, done))
    }

    /** The direction pin and the steps pulsed are those of the moves loaded in this run. */
    ghost predicate Placed()
      reads this`count, this`dirPin, this`pulsed, this`loaded, this`origin
    {
      && dirPin == DirectionAfter(origin.dir, loaded)
      && pulsed + Signed(dirPin, Remaining()) == origin.pulsed + NetOf(origin.dir, loaded)
    }

    ghost predicate Valid()
      reads this
    {
      Engine() && Counted() && Timed() && Placed()
    }

    /** The position is one the packed word can tell apart from its negation. */
    ghost predicate InRange()
      reads this`pulsed, this`origin
    {
      Wrap(POSITION_BIAS + (pulsed + origin.slip)) <= 0x8000_0000
    }

    constructor (singleSched: bool, invertStep: bool, stepPulseTicks: Word, ticksPerMs: nat)
      ensures Valid() && pulsed == 0 && accepted == 0 && count == 0 && !needReset
      ensures this.singleSched == singleSched && origin == Origin(0, 0, false, 0) && loaded == [] && mq == []
    {
      this.singleSched, this.invertStep, this.stepPulseTicks := singleSched, invertStep, stepPulseTicks;
      this.ticksPerMs := ticksPerMs;
      waketime, interval, nextStepTime, add, count := 0, 0, 0, 0, 0;
      position := Wrap(-POSITION_BIAS);
      mq := [];
      lastDir, nextDir, needReset, dirPin, stepPin := false, false, false, false, invertStep;
      scheduled, pulsed, accepted, origin, loaded, times := false, 0, 0, Origin(0, 0, false, 0), [], [];
    }

    /** The state between two moves: every loaded move has been carried out. */
    ghost predicate BetweenMoves()
      reads this
    {
      && lastDir == DirectionAfter(dirPin, mq) && (!singleSched ==> stepPin == invertStep)
      && (forall i :: 0 <= i < |mq| ==> mq[i].count > 0)
      && position == Packed(dirPin, pulsed + origin.slip) && accepted == pulsed + NetOf(dirPin, mq)
      && dirPin == DirectionAfter(origin.dir, loaded) && pulsed == origin.pulsed + NetOf(origin.dir, loaded)
      && times == Times(origin.base, loaded) && Clock() == EndTime(origin.base, loaded) && !needReset
    }

    /** From the end of one move to the start of the next, if there is one. */
    method LoadNext() returns (outcome: Outcome)
      requires BetweenMoves()
      modifies this
      ensures Valid() && pulsed == old(pulsed) && accepted == old(accepted)
      ensures origin == old(origin) && times == old(times) && !needReset && nextDir == old(nextDir) && stepPin == old(stepPin)
      ensures old(mq) == [] ==> outcome == Finished && count == 0 && loaded == old(loaded) && mq == []
      ensures old(mq) != [] ==>
        && outcome == Rescheduled && Remaining() == old(mq)[0].count && mq == old(mq)[1..]
        && loaded == old(loaded) + [old(mq)[0]] && (singleSched || (waketime == nextStepTime && count % 2 == 0))
        && Clock() == Wrap(old(Clock()) + old(mq)[0].interval)
    {
      hide *;
      if mq == [] {
        LoadNone();
        return Finished;
      }
      LoadFirst();
      return Rescheduled;
    }

    method LoadNone()
      requires BetweenMoves() && mq == []
      modifies this`count, this`scheduled
      ensures Valid() && count == 0 && !needReset
    {
      hide Times, EndTime, MoveTimes, StepTime, IntervalAt, Packed, DirectionAfter, NetOf, Timed, Wrap;
      QueuePops(dirPin, mq);
      count, scheduled := 0, false;
      LoadedNothing();
    }

    method LoadFirst()
      requires BetweenMoves() && mq != []
      modifies this`mq, this`scheduled, this`add, this`interval, this`waketime, this`nextStepTime, this`count, this`loaded,
        this`position, this`dirPin
      ensures Valid() && !needReset && mq == old(mq)[1..] && loaded == old(loaded) + [old(mq)[0]]
      ensures Remaining() == old(mq)[0].count && (singleSched || (waketime == nextStepTime && count % 2 == 0))
      ensures Clock() == Wrap(old(Clock()) + old(mq)[0].interval)
    {
      hide Times, EndTime, MoveTimes, StepTime, IntervalAt, Packed, DirectionAfter, NetOf, Timed, Wrap;
      QueuePops(dirPin, mq);
      var m := mq[0];
      QueueOneMore(origin.dir, loaded, m);
      LoadTimes(m);
      // from here on the position is that of the end of the move
      LoadPosition(m);
      mq := mq[1..];
      scheduled := true;
    }

    method LoadTimes(m: StepperMove)
      requires m.count > 0 && times == Times(origin.base, loaded) && Clock() == EndTime(origin.base, loaded)
      requires !singleSched ==> stepPin == invertStep
      modifies this`add, this`interval, this`waketime, this`nextStepTime, this`count, this`loaded
      ensures Timed() && loaded == old(loaded) + [m] && Remaining() == m.count
      ensures Clock() == Wrap(old(Clock()) + m.interval)
      ensures !singleSched ==> waketime == nextStepTime && count % 2 == 0
    {
      hide Wrap, Times, EndTime, MoveTimes, StepTime, IntervalAt;
      add := m.add;
      interval := Wrap(m.interval + m.add);
      if singleSched {
        waketime := Wrap(waketime + m.interval);
        count := m.count;
      } else {
        // every step takes two events
        nextStepTime := Wrap(nextStepTime + m.interval);
        waketime := nextStepTime;
        count := m.count * 2;
      }
      loaded := loaded + [m];
      FirstStep(EndTime(origin.base, old(loaded)), m);
      assert loaded[..|loaded| - 1] == old(loaded);
      assert times == Times(origin.base, old(loaded)) + [];
    }

    method LoadPosition(m: StepperMove)
      requires position == Packed(dirPin, pulsed + origin.slip)
      modifies this`position, this`dirPin
      ensures dirPin == (old(dirPin) != m.flip)
      ensures position == Packed(dirPin, pulsed + origin.slip + Signed(dirPin, m.count))
    {
      PackedReverses(dirPin, pulsed + origin.slip);
      PackedMoves(dirPin != m.flip, pulsed + origin.slip, m.count);
      hide Packed;
      if m.flip {
        position := Wrap(Wrap(0 - position) + m.count);
        dirPin := !dirPin;
      } else {
        position := Wrap(position + m.count);
      }
    }

    lemma {:induction false} LoadedNothing()
      requires times == Times(origin.base, loaded) && Clock() == EndTime(origin.base, loaded) && count == 0
      ensures Timed()
    {
    }

    /** A step has been pulsed: step `done + 1` of the current move, at its nominal time. */
    ghost method NoteStep()
      requires Timed() && Remaining() > 0 && (singleSched || count % 2 == 0)
      modifies this`times, this`pulsed
      ensures times == old(times) + [Clock()] && pulsed == old(pulsed) + Signed(dirPin, 1)
      ensures loaded != []
      ensures var m, before := loaded[|loaded| - 1], loaded[..|loaded| - 1];
        var start, done := EndTime(origin.base, before), m.count - Remaining() + 1;
        && 0 < done && times == Times(origin.base, before) + MoveTimes(start, m, done)
        && Clock() == StepTime(start, m, done) && interval == IntervalAt(m, done) && add == m.add
    {
      times := times + [Clock()];
      pulsed := pulsed + Signed(dirPin, 1);
    }

    /** Step on each edge of the step pin. */
    method EventEdge() returns (outcome: Outcome)
      requires Valid() && scheduled && singleSched
      modifies this
      ensures Valid() && !needReset && nextDir == old(nextDir)
      ensures pulsed == old(pulsed) + Signed(old(dirPin), 1) && accepted == old(accepted)
      ensures times == old(times) + [old(waketime)] && origin == old(origin)
      ensures loaded + mq == old(loaded) + old(mq)
      ensures stepPin == !old(stepPin)
      ensures outcome == if count == 0 then Finished else Rescheduled
    {
      hide Timed;
      if count > 1 {
        StepWithinMove();
        return Rescheduled;
      }
      outcome := LastStepOfMove();
    }

    method StepWithinMove()
      requires Valid() && singleSched && count > 1
      modifies this`stepPin, this`times, this`pulsed, this`count, this`waketime, this`interval
      ensures Valid() && stepPin == !old(stepPin) && count > 0
      ensures pulsed == old(pulsed) + Signed(dirPin, 1) && times == old(times) + [old(waketime)]
    {
      hide Packed, NetOf, DirectionAfter, Times, EndTime, MoveTimes, StepTime, IntervalAt, Wrap;
      stepPin := !stepPin;
      NoteStep();
      count := count - 1;
      NextStep();
      waketime := Wrap(waketime + interval);
      interval := Wrap(interval + add);
    }

    method LastStepOfMove() returns (outcome: Outcome)
      requires Valid() && singleSched && count == 1
      modifies this
      ensures Valid() && !needReset && nextDir == old(nextDir) && stepPin == !old(stepPin)
      ensures pulsed == old(pulsed) + Signed(old(dirPin), 1) && accepted == old(accepted)
      ensures times == old(times) + [old(waketime)] && origin == old(origin) && loaded + mq == old(loaded) + old(mq)
      ensures outcome == if count == 0 then Finished else Rescheduled
    {
      hide Packed, NetOf, DirectionAfter, Times, EndTime, MoveTimes, StepTime, IntervalAt, Wrap;
      stepPin := !stepPin;
      NoteStep();
      RunEnds(origin.base, loaded);
      outcome := LoadNext();
    }

    /** Where the clock goes from a step that is not the last one of its move. */
    lemma {:induction false} NextStep()
      requires loaded != []
      ensures var m, before := loaded[|loaded| - 1], loaded[..|loaded| - 1];
        var start, done := EndTime(origin.base, before), m.count - Remaining();
        done >= 0 ==>
          && StepTime(start, m, done + 1) == Wrap(StepTime(start, m, done) + IntervalAt(m, done))
          && IntervalAt(m, done + 1) == Wrap(IntervalAt(m, done) + m.add)
    {
      var m := loaded[|loaded| - 1];
      if m.count >= Remaining() {
        StepFurther(m, EndTime(origin.base, loaded[..|loaded| - 1]), m.count - Remaining());
      }
    }

    /** Step on one edge of the step pin, at least a pulse width after `now`; undo it on the next. */
    method EventFull(now: Word) returns (outcome: Outcome)
      requires Valid() && scheduled && !singleSched
      modifies this
      ensures Valid() && !needReset && nextDir == old(nextDir) && accepted == old(accepted)
      ensures stepPin == !old(stepPin) && origin == old(origin) && loaded + mq == old(loaded) + old(mq)
      // every other event is a step, at its nominal time whatever the delay of the event itself
      ensures if old(count) % 2 == 0
        then pulsed == old(pulsed) + Signed(old(dirPin), 1) && times == old(times) + [old(nextStepTime)]
        else pulsed == old(pulsed) && times == old(times)
      ensures outcome == Finished <==> count == 0
      ensures (old(count) % 2 == 0) != (count % 2 == 0)
      // the next event is at the time of the next step, but no sooner than a pulse width
      ensures outcome == Rescheduled ==>
        var soonest := Wrap(now + stepPulseTicks);
        && !IsBefore(waketime, soonest)
        && waketime == if old(count) % 2 == 0 || IsBefore(nextStepTime, soonest) then soonest else nextStepTime
      // the machine shuts down exactly when the first step of the next move is overdue by more than a
      // millisecond
      ensures outcome == Shutdown <==>
        && old(count) == 1 && old(mq) != []
        && var first, soonest := Wrap(old(nextStepTime) + old(mq)[0].interval), Wrap(now + stepPulseTicks);
          IsBefore(first, soonest) && (soonest - first) % 0x1_0000_0000 > ticksPerMs
    {
      hide Packed, NetOf, DirectionAfter, Times, EndTime, MoveTimes, StepTime, IntervalAt, Timed, IsBefore, Wrap;
      var minNextTime := Wrap(now + stepPulseTicks);
      NotBeforeItself(minNextTime);
      if count % 2 == 0 {
        StepEdge();
        WakeAt(minNextTime);
        return Rescheduled;
      }
      if count > 1 {
        UnstepEdge();
        if IsBefore(nextStepTime, minNextTime) {
          // no edge within a pulse width of this one
          WakeAt(minNextTime);
          return Rescheduled;
        }
        WakeAt(nextStepTime);
        return Rescheduled;
      }
      outcome := LastUnstepEdge();
      if outcome == Finished || !IsBefore(waketime, minNextTime) {
        return;
      }
      // the first step of the next move is due within a pulse width, or overdue
      if (minNextTime - waketime) % 0x1_0000_0000 > ticksPerMs {
        return Shutdown;
      }
      WakeAt(minNextTime);
      return Rescheduled;
    }

    /** The edge after the last step of a move: go on to the next move. */
    method LastUnstepEdge() returns (outcome: Outcome)
      requires Valid() && scheduled && !singleSched && count == 1
      modifies this
      ensures Valid() && !needReset && stepPin == !old(stepPin) && nextDir == old(nextDir)
      ensures pulsed == old(pulsed) && accepted == old(accepted) && times == old(times) && origin == old(origin)
      ensures loaded + mq == old(loaded) + old(mq)
      ensures outcome == if count == 0 then Finished else Rescheduled
      ensures outcome == Finished <==> old(mq) == []
      ensures outcome == Rescheduled ==> waketime == nextStepTime == Wrap(old(nextStepTime) + old(mq)[0].interval)
      ensures count % 2 == 0
    {
      hide Packed, NetOf, DirectionAfter, Times, EndTime, MoveTimes, StepTime, IntervalAt;
      stepPin := !stepPin;
      RunEnds(origin.base, loaded);
      outcome := LoadNext();
    }

    /** Without an edge per step the wake time is not the nominal time of the step. */
    method WakeAt(t: Word)
      requires Valid() && !singleSched
      modifies this`waketime
      ensures Valid() && waketime == t
    {
      hide Packed, NetOf, DirectionAfter, Times, EndTime, MoveTimes, StepTime, IntervalAt;
      waketime := t;
    }

    /** The edge that makes a step. */
    method StepEdge()
      requires Valid() && scheduled && !singleSched && count % 2 == 0
      modifies this`stepPin, this`count, this`times, this`pulsed
      ensures Valid() && stepPin == !old(stepPin)
      ensures pulsed == old(pulsed) + Signed(dirPin, 1) && times == old(times) + [nextStepTime]
    {
      hide Packed, NetOf, DirectionAfter, Times, EndTime, MoveTimes, StepTime, IntervalAt;
      stepPin := !stepPin;
      NoteStep();
      count := count - 1;
    }

    /** The edge after a step, when more steps of the move follow. */
    method UnstepEdge()
      requires Valid() && !singleSched && count > 1 && count % 2 == 1
      modifies this`stepPin, this`count, this`nextStepTime, this`interval
      ensures Valid() && stepPin == !old(stepPin)
    {
      hide Packed, NetOf, DirectionAfter, Times, EndTime, MoveTimes, StepTime, IntervalAt;
      NextStep();
      stepPin := !stepPin;
      count := count - 1;
      nextStepTime := Wrap(nextStepTime + interval);
      interval := Wrap(interval + add);
    }

    /** The position with the steps still to come taken off, biased. */
    function GetPosition(): Word
      reads this
    {
      // `position` includes the steps of the current move that are still to come
      Unpack(Wrap(position - Remaining()))
    }

    lemma {:induction false} PackedPosition()
      requires Valid()
      ensures GetPosition() == Unpack(Packed(dirPin, pulsed + origin.slip))
    {
      PackedMoves(dirPin, pulsed + origin.slip + Signed(dirPin, Remaining()), 0 - Remaining());
    }

    /** The reported position is the net number of steps pulsed, modulo the word size, exactly as
        long as that number has not left the range the packing can represent; unless it was lost
        before, by a stop out of that range. */
    lemma {:induction false} PositionIsExact()
      requires Valid()
      ensures GetPosition() == Wrap(POSITION_BIAS + (pulsed + origin.slip)) <==> InRange()
      ensures origin.slip == 0 ==> (GetPosition() == Wrap(POSITION_BIAS + pulsed) <==> InRange())
    {
      PackedPosition();
      hide Packed;
      UnpackPacked(dirPin, pulsed + origin.slip);
    }

    /** As a signed number it is that number itself. */
    lemma {:induction false} ReportedPosition()
      requires Valid() && origin.slip == 0 && -0x4000_0000 <= pulsed <= 0x4000_0000
      ensures InRange() && GetPosition() - POSITION_BIAS == pulsed
    {
      PositionIsExact();
    }

    /** Once the queue has drained, the steps pulsed are exactly the steps of the accepted moves,
        each in the direction that was asked for, and their times are those of the run. */
    lemma {:induction false} DrainedQueue()
      requires Valid() && count == 0
      ensures pulsed == accepted && times == Times(origin.base, loaded)
    {
    }

    /** At any moment the steps pulsed since the clock was set are the first ones of the run. */
    lemma {:induction false} TimesArePrefix()
      requires Valid()
      ensures |times| + Remaining() == |Times(origin.base, loaded)|
      ensures times == Times(origin.base, loaded)[..|times|]
    {
      if loaded != [] {
        var m, before := loaded[|loaded| - 1], loaded[..|loaded| - 1];
        var start, done := EndTime(origin.base, before), m.count - Remaining();
        MoveTimesPrefix(start, m, done, m.count);
        assert Times(origin.base, loaded) == Times(origin.base, before) + MoveTimes(start, m, m.count);
      }
    }

    /** The steps pulsed are the first steps of the whole run, loaded and queued: their times, and the
        way they lead. */
    lemma {:induction false} StepsAreFirst()
      requires Valid()
      ensures |times| <= |Times(origin.base, loaded + mq)| && times == Times(origin.base, loaded + mq)[..|times|]
      ensures pulsed - origin.pulsed == Travelled(origin.dir, loaded + mq, |times|)
      ensures count > 0 && (singleSched || count % 2 == 0) ==> |times| < |Times(origin.base, loaded + mq)|
    {
      hide *;
      TimesArePrefix();
      TimesOfPart(origin.base, loaded, mq);
      SoFar();
      assert Times(origin.base, loaded + mq)[..|Times(origin.base, loaded)|][..|times|] ==
             Times(origin.base, loaded + mq)[..|times|];
    }

    /** Every step made is on time: step `k` of move `i` of the run was at the closed-form time of that
        step, counted from the end of the moves before. */
    lemma {:induction false} StepOnTime(i: nat, k: nat)
      requires Valid() && i < |loaded + mq| && 1 <= k <= (loaded + mq)[i].count
      ensures var all := loaded + mq;
              var n := StepsOf(all[..i]) + k;
              n <= |times| ==> times[n - 1] == Wrap(NominalTime(EndTime(origin.base, all[..i]), all[i], k))
    {
      hide *;
      StepsAreFirst();
      StepOfRun(origin.base, loaded + mq, i, k);
    }

    lemma {:induction false} SoFar()
      requires Valid()
      ensures pulsed - origin.pulsed == Travelled(origin.dir, loaded + mq, |times|)
      ensures count > 0 && (singleSched || count % 2 == 0) ==> Remaining() > 0
    {
      TimesArePrefix();
      TimesCount(origin.base, loaded);
      RemainingSteps();
      hide Times, Travelled, NetOf, DirectionAfter, Packed, StepsOf, Engine, Counted, Timed;
      TravelledSoFar(origin.dir, loaded, mq, Remaining());
    }

    lemma {:induction false} RemainingSteps()
      requires Valid()
      ensures if loaded == [] then Remaining() == 0 else Remaining() <= loaded[|loaded| - 1].count
    {
    }

    /** Once the queue has drained, all steps of the run have been made, and nothing else. */
    lemma {:induction false} WholeRunMade()
      requires Valid() && count == 0
      ensures mq == [] && times == Times(origin.base, loaded) && pulsed == accepted
      ensures dirPin == DirectionAfter(origin.dir, loaded)
    {
    }

    /** A position in range is reported alike whatever the direction of the pin. */
    lemma {:induction false} SameWay(other: Stepper)
      requires Valid() && other.Valid() && origin == other.origin && pulsed == other.pulsed
      ensures InRange() ==> GetPosition() == other.GetPosition()
    {
      hide Engine, Counted, Timed, Placed, GetPosition, Wrap;
      PositionIsExact();
      other.PositionIsExact();
    }

    /** Two steppers at the end of the same run. */
    lemma {:induction false} SameEnd(other: Stepper)
      requires Valid() && other.Valid() && origin == other.origin && loaded + mq == other.loaded + other.mq
      requires count == 0 && other.count == 0
      ensures times == other.times && pulsed == other.pulsed && GetPosition() == other.GetPosition()
    {
      hide *;
      WholeRunMade();
      other.WholeRunMade();
      assert loaded + [] == loaded && other.loaded + [] == other.loaded;
      WholeRun();
      other.WholeRun();
      PackedPosition();
      other.PackedPosition();
    }

    /** Run the events of an edge-mode stepper until its queue has drained. */
    method DrainEdge()
      requires Valid() && singleSched
      modifies this
      ensures Valid() && count == 0 && mq == [] && loaded == old(loaded) + old(mq) && origin == old(origin)
      ensures times == Times(origin.base, old(loaded) + old(mq)) && pulsed == accepted == old(accepted)
    {
      hide *;
      while count > 0
        invariant Valid() && loaded + mq == old(loaded) + old(mq) && origin == old(origin) && accepted == old(accepted)
        decreases |Times(origin.base, loaded + mq)| - |times|
      {
        ActiveOrNot();
        StepsAreFirst();
        var _ := EventEdge();
        StepsAreFirst();
      }
      WholeRunMade();
      assert loaded + [] == loaded;
    }

    /** Run the events of a double-scheduled stepper, event `i` at time `now(i)`, until its queue has
        drained or the machine shuts down. */
    method DrainFull(now: nat -> Word) returns (ok: bool)
      requires Valid() && !singleSched
      modifies this
      ensures Valid() && origin == old(origin)
      ensures ok ==>
        && count == 0 && mq == [] && loaded == old(loaded) + old(mq)
        && times == Times(origin.base, old(loaded) + old(mq)) && pulsed == accepted == old(accepted)
    {
      hide *;
      var i := 0;
      while count > 0
        invariant Valid() && loaded + mq == old(loaded) + old(mq) && origin == old(origin) && accepted == old(accepted)
        decreases 2 * (|Times(origin.base, loaded + mq)| - |times|) + count % 2
      {
        ActiveOrNot();
        StepsAreFirst();
        var outcome := EventFull(now(i));
        StepsAreFirst();
        if outcome == Shutdown {
          return false;
        }
        i := i + 1;
      }
      WholeRunMade();
      assert loaded + [] == loaded;
      ok := true;
    }

    /** A move comes in. */
    method QueueStep(interval: Word, count: Count16, add: Int16) returns (outcome: Outcome)
      requires Valid()
      modifies this
      ensures Valid() && pulsed == old(pulsed) && times == old(times) && origin == old(origin)
      ensures nextDir == old(nextDir) && stepPin == old(stepPin) && needReset == old(needReset)
      ensures outcome == Shutdown <==> count == 0
      ensures accepted == old(accepted) + if count == 0 || needReset then 0 else Signed(nextDir, count)
      // a stopped stepper drops the move and stays stopped
      ensures needReset ==> this.count == 0 && !scheduled && position == old(position) && dirPin == old(dirPin)
      // otherwise the move joins the end of the queue, or starts at once when the stepper is idle
      ensures count > 0 && !needReset ==>
        var run := old(loaded) + old(mq);
        && loaded + mq == run + [StepperMove(interval, add, count, DirectionAfter(origin.dir, run) != nextDir)]
        && if old(this.count) > 0 then loaded == old(loaded) else mq == []
      ensures count == 0 || needReset ==> loaded == old(loaded) && mq == old(mq)
    {
      hide Counted, Timed, Engine, Placed, DirectionAfter, NetOf;
      ActiveOrNot();
      WholeRun();
      if count == 0 {
        return Shutdown;
      }
      var m := StepperMove(interval, add, count, lastDir != nextDir);
      if this.count > 0 {
        Enqueue(m);
        assert loaded + mq == old(loaded) + old(mq) + [m];
        outcome := Finished;
      } else if needReset {
        outcome := Finished;
      } else {
        outcome := StartIdle(m);
        assert loaded + mq == old(loaded) + old(mq) + [m];
      }
    }

    lemma {:induction false} ActiveOrNot()
      requires Valid()
      ensures (scheduled <==> count > 0) && (needReset ==> count == 0) && (count == 0 ==> mq == [])
    {
    }

    /** The moves loaded and queued are the whole run: they lead to the direction last queued, and
        their net distance is what has been accepted. */
    lemma {:induction false} WholeRun()
      requires Valid()
      ensures lastDir == DirectionAfter(origin.dir, loaded + mq)
      ensures accepted == origin.pulsed + NetOf(origin.dir, loaded + mq)
    {
      hide Timed, Packed, DirectionAfter, NetOf;
      QueueJoined(origin.dir, loaded, mq);
    }

    /** Add a move to the end of the queue of an active stepper. */
    method Enqueue(m: StepperMove)
      requires Valid() && count > 0 && m.count > 0 && m.flip == (lastDir != nextDir)
      modifies this`lastDir, this`mq, this`accepted
      ensures Valid() && !needReset && mq == old(mq) + [m]
      ensures accepted == old(accepted) + Signed(nextDir, m.count)
    {
      QueueOneMore(dirPin, mq, m);
      hide Packed, DirectionAfter, NetOf, Timed;
      lastDir := nextDir;
      mq := mq + [m];
      accepted := accepted + Signed(nextDir, m.count);
    }

    /** Start an idle stepper on a move. */
    method StartIdle(m: StepperMove) returns (outcome: Outcome)
      requires Valid() && count == 0 && !needReset && m.count > 0 && m.flip == (lastDir != nextDir)
      modifies this
      ensures Valid() && !needReset && nextDir == old(nextDir) && stepPin == old(stepPin)
      ensures pulsed == old(pulsed) && times == old(times) && origin == old(origin) && mq == []
      ensures loaded == old(loaded) + [m] && outcome == Rescheduled
      ensures accepted == old(accepted) + Signed(nextDir, m.count)
    {
      IdleIsBetween();
      QueueOneMore(dirPin, mq, m);
      hide Packed, DirectionAfter, NetOf, Timed, Times, EndTime;
      lastDir := nextDir;
      mq := mq + [m];
      accepted := accepted + Signed(nextDir, m.count);
      outcome := LoadNext();
    }

    lemma {:induction false} IdleIsBetween()
      requires Valid() && count == 0
      ensures needReset || BetweenMoves()
    {
      assert NetOf(dirPin, mq) == 0;
    }

    /** Moves that come in from now on go this way. */
    method SetNextStepDir(dir: bool)
      requires Valid()
      modifies this`nextDir
      ensures Valid() && nextDir == dir
    {
      hide Packed, Times, EndTime, MoveTimes, StepTime, IntervalAt, DirectionAfter, NetOf;
      nextDir := dir;
    }

    /** A new run counts from the given clock. */
    method ResetStepClock(clock: Word) returns (outcome: Outcome)
      requires Valid()
      modifies this
      ensures Valid() && pulsed == old(pulsed) && accepted == old(accepted) && nextDir == old(nextDir)
      ensures outcome == if old(count) > 0 then Shutdown else Finished
      ensures outcome == Finished ==>
        !needReset && origin == Origin(clock, pulsed, dirPin, old(origin).slip) && times == [] && loaded == [] && mq == []
    {
      hide Engine, Counted, Timed, Placed;
      if count > 0 {
        return Shutdown;
      }
      NothingToDo();
      BeginRun(clock);
      outcome := Finished;
    }

    lemma {:induction false} NothingToDo()
      requires Valid() && count == 0
      ensures mq == [] && !scheduled && lastDir == dirPin && (!singleSched ==> stepPin == invertStep)
      ensures position == Packed(dirPin, pulsed + origin.slip) && accepted == pulsed
    {
      hide Packed, Timed, Placed;
      NoMoves(dirPin);
    }

    method BeginRun(clock: Word)
      requires count == 0 && mq == [] && !scheduled && lastDir == dirPin && (!singleSched ==> stepPin == invertStep)
      requires position == Packed(dirPin, pulsed + origin.slip) && accepted == pulsed
      modifies this`nextStepTime, this`waketime, this`needReset, this`origin, this`times, this`loaded
      ensures Valid() && !needReset && times == [] && loaded == []
      ensures origin == Origin(clock, pulsed, dirPin, old(origin).slip)
    {
      hide Packed;
      NoMoves(dirPin);
      nextStepTime, waketime, needReset := clock, clock, false;
      origin, times, loaded := Origin(clock, pulsed, dirPin, origin.slip), [], [];
    }

    /** Pack the position reported now as if moving in the negative direction, with no steps left. */
    method FreezePosition()
      requires Valid()
      modifies this`position, this`count
      ensures position == Packed(false, old(GetPosition()) - POSITION_BIAS) && count == 0
    {
      hide Packed;
      var here: int := GetPosition();
      PackedNegative(here);
      position := Wrap(0 - here);
      count := 0;
    }

    /** Stop all moves.  The position reported stays; it is what further steps will be added to, and
        as long as it was in range that is the steps pulsed. */
    method Stop()
      requires Valid()
      modifies this
      ensures Valid() && InRange() && pulsed == old(pulsed) && accepted == pulsed
      ensures needReset && !scheduled && count == 0 && mq == [] && loaded == [] && !dirPin && !nextDir
      ensures stepPin == if singleSched then old(stepPin) else invertStep
      ensures GetPosition() == old(GetPosition())
      ensures old(InRange()) ==> origin.slip == old(origin).slip
    {
      hide Engine, Counted, Timed, Placed, Packed, Unpack, Wrap, GetPosition;
      ghost var slip := SlipAfterStop();
      FreezePosition();
      ClearMotion(slip);
      PackedPosition();
    }

    /** By how much the position will have slipped after a stop: no more than before if it is in range,
        and otherwise by what it takes to keep the position reported. */
    lemma {:induction false} SlipAfterStop() returns (slip: int)
      requires Valid()
      ensures Packed(false, GetPosition() - POSITION_BIAS) == Packed(false, pulsed + slip)
      ensures Unpack(Packed(false, pulsed + slip)) == GetPosition()
      ensures Wrap(POSITION_BIAS + (pulsed + slip)) <= 0x8000_0000
      ensures InRange() ==> slip == origin.slip
    {
      PositionIsExact();
      PackedPosition();
      var here := GetPosition();
      slip := if InRange() then origin.slip else here - POSITION_BIAS - pulsed;
      UnpackedRange(Packed(dirPin, pulsed + origin.slip));
      hide Packed, Unpack, GetPosition;
      UnpackNegative(here);
      SamePacked(pulsed + slip, here);
    }

    /** Forget everything queued, and wait for a new clock. */
    method ClearMotion(ghost slip: int)
      requires position == Packed(false, pulsed + slip) && count == 0
      modifies this`scheduled, this`nextStepTime, this`waketime, this`lastDir, this`nextDir, this`needReset, this`dirPin,
        this`stepPin, this`mq, this`accepted, this`origin, this`times, this`loaded
      ensures Valid() && accepted == pulsed && needReset && !scheduled && mq == [] && loaded == [] && !dirPin && !nextDir
      ensures stepPin == if singleSched then old(stepPin) else invertStep
      ensures origin.slip == slip
    {
      nextStepTime, waketime := 0, 0;
      lastDir, nextDir, needReset := false, false, true;
      dirPin := false;
      if !singleSched {
        stepPin := invertStep;
      }
      mq := [];
      EndRun(slip);
    }

    /** No move is left, nothing is scheduled, and the clock has been forgotten. */
    ghost method EndRun(slip: int)
      requires count == 0 && mq == [] && !lastDir && !dirPin && (!singleSched ==> stepPin == invertStep)
      requires position == Packed(false, pulsed + slip) && waketime == nextStepTime == 0
      modifies this`scheduled, this`accepted, this`origin, this`times, this`loaded
      ensures Valid() && accepted == pulsed && !scheduled && origin.slip == slip && loaded == []
    {
      scheduled := false;
      accepted, origin, times, loaded := pulsed, Origin(0, pulsed, false, slip), [], [];
      StoppedIsValid();
    }

    lemma {:induction false} StoppedIsValid()
      requires count == 0 && mq == [] && !scheduled && !lastDir && !dirPin && (!singleSched ==> stepPin == invertStep)
      requires position == Packed(false, pulsed + origin.slip) && accepted == pulsed && loaded == [] && times == []
      requires Clock() == origin.base && origin.pulsed == pulsed && !origin.dir
      ensures Valid()
    {
      NoMoves(dirPin);
    }
  }

  /** Edge mode and double-scheduled mode agree: two steppers with the same queue of moves, begun from
      the same base, make the same steps at the same nominal times.  After equally many steps, at
      whatever point of their pulses they are, both have gone the same way; and when both queues have
      drained they have made all the same steps and report the same position. */
  lemma {:induction false} SameNominalSteps(a: Stepper, b: Stepper)
    requires a.Valid() && b.Valid() && a.origin == b.origin && a.loaded + a.mq == b.loaded + b.mq
    ensures |a.times| <= |b.times| ==> a.times == b.times[..|a.times|]
    ensures |a.times| == |b.times| ==> a.times == b.times && a.pulsed == b.pulsed
    ensures |a.times| == |b.times| && a.InRange() ==> a.GetPosition() == b.GetPosition()
    ensures a.accepted == b.accepted
    ensures a.count == 0 && b.count == 0 ==>
      a.times == b.times && a.pulsed == b.pulsed && a.GetPosition() == b.GetPosition()
  {
    hide *;
    a.StepsAreFirst();
    b.StepsAreFirst();
    a.WholeRun();
    b.WholeRun();
    if |a.times| == |b.times| {
      a.SameWay(b);
    }
    if a.count == 0 && b.count == 0 {
      a.SameEnd(b);
    }
  }
}
