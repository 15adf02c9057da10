/** The tool head's bookkeeping of print time: up to where steps are generated, moves are freed and
    the micro-controllers are flushed. */
module FlushHorizon {
  const MIN_KIN_TIME := 0.100
  const MOVE_BATCH_TIME := 0.500
  const SDS_CHECK_TIME := 0.001
  const DRIP_SEGMENT_TIME := 0.050
  const DRIP_TIME := 0.100

  function Max(a: real, b: real): (m: real)
    ensures m >= a && m >= b && (m == a || m == b)
  {
    if a < b then b else a
  }

  function Min(a: real, b: real): (m: real)
    ensures m <= a && m <= b && (m == a || m == b)
  {
    if b < a then b else a
  }

  /** `Main` is the source's empty queuing state. */
  datatype Queuing = Flushed | Priming | Main | Drip

  /** How long a move accelerates, cruises and decelerates. */
  datatype Timing = Timing(accelT: real, cruiseT: real, decelT: real) {
    predicate Valid() {
      accelT >= 0.0 && cruiseT >= 0.0 && decelT >= 0.0
    }

    function Duration(): real {
      accelT + cruiseT + decelT
    }
  }

  function Total(moves: seq<Timing>): real {
    if moves == [] then 0.0 else moves[0].Duration() + Total(moves[1..])
  }

  /** What the drip loop learns when it looks: whether homing is over, and the estimated time. */
  datatype Poll = Poll(done: bool, est: real)

  /** What is seen while moves are handed over: the estimated time at the start, and in the drip loop. */
  datatype Seen = Seen(est: real, polls: seq<Poll>)

  /** How far an operation comes: to its end, to the end of homing, which cuts it short, or to the point
      where it waits for another look. */
  datatype Progress = Complete | Ended | Waiting

  /** The latest of the estimated times seen. */
  function Latest(polls: seq<Poll>): (t: real)
    requires polls != []
    ensures forall i :: 0 <= i < |polls| ==> polls[i].est <= t
  {
    if |polls| == 1 then polls[0].est else Max(polls[0].est, Latest(polls[1..]))
  }

  lemma {:induction false} LatestGrows(polls: seq<Poll>, n: nat)
    requires 0 < n <= |polls|
    ensures polls[n - 1].est <= Latest(polls[..n])
    ensures n > 1 ==> Latest(polls[..n - 1]) <= Latest(polls[..n])
    decreases n
  {
    assert polls[..n][n - 1] == polls[n - 1];
    if n > 1 {
      LatestPart(polls[..n], n - 1);
      assert polls[..n][..n - 1] == polls[..n - 1];
    }
  }

  lemma {:induction false} LatestPart(polls: seq<Poll>, n: nat)
    requires 0 < n <= |polls|
    ensures Latest(polls[..n]) <= Latest(polls)
  {
    if n > 1 {
      LatestPart(polls[1..], n - 1);
      assert polls[..n][1..] == polls[1..][..n - 1];
    }
  }

  /** The four times one flush passes on. */
  datatype Horizon = Horizon(printed: real, generated: real, freed: real, flushed: real)

  /** None of the times of `b` is before that of `a`. */
  predicate NotBefore(a: Horizon, b: Horizon) {
    a.printed <= b.printed && a.generated <= b.generated && a.freed <= b.freed && a.flushed <= b.flushed
  }

  /** Moves are freed, and micro-controllers flushed, only where steps have been generated. */
  predicate Ordered(h: Horizon) {
    h.freed <= h.generated && h.flushed <= h.generated
  }

  function LastOf(log: seq<Horizon>): Horizon {
    if log == [] then Horizon(0.0, 0.0, 0.0, 0.0) else log[|log| - 1]
  }

  /** Every flush of a run is ordered, and none goes back. */
  ghost predicate Forward(log: seq<Horizon>) {
    log != [] ==>
      Ordered(LastOf(log)) && NotBefore(LastOf(log[..|log| - 1]), LastOf(log)) && Forward(log[..|log| - 1])
  }

  lemma {:induction false} ForwardMore(log: seq<Horizon>, h: Horizon)
    requires Forward(log) && Ordered(h) && NotBefore(LastOf(log), h)
    ensures Forward(log + [h]) && LastOf(log + [h]) == h
  {
    assert (log + [h])[..|log|] == log;
  }

  /** In a forward log any earlier flush is nowhere ahead of any later one. */
  lemma {:induction false} ForwardOrder(log: seq<Horizon>, i: nat, j: nat)
    requires Forward(log) && i <= j < |log|
    ensures NotBefore(log[i], log[j]) && Ordered(log[j])
    decreases |log|
  {
    var front := log[..|log| - 1];
    if j < |log| - 1 {
      ForwardOrder(front, i, j);
    } else if i < j {
      ForwardOrder(front, i, j - 1);
    }
  }

  /** The times a flush at print time `t` passes on. */
  function HorizonAt(lkft: real, delay: real, mft: real, t: real): Horizon {
    var generated := Max(lkft, t - delay);
    Horizon(t, generated, Max(lkft, generated - delay), Max(lkft, generated - mft))
  }

  lemma {:induction false} HorizonGrows(lkft: real, delay: real, mft: real, t: real, u: real)
    requires t <= u && 0.0 <= delay && 0.0 <= mft
    ensures NotBefore(HorizonAt(lkft, delay, mft, t), HorizonAt(lkft, delay, mft, u))
    ensures Ordered(HorizonAt(lkft, delay, mft, u))
  {
  }

  /** What a flush passes on are the latest times allowed: no steps later than a scan delay before the
      print time, no move freed later than a scan delay before the last step generated, and nothing
      flushed later than the flush delay before it; except that nothing is held back before the last
      flush time. */
  lemma {:induction false} HorizonIsLatest(lkft: real, delay: real, mft: real, t: real, x: real)
    ensures var h := HorizonAt(lkft, delay, mft, t);
      && h.printed == t
      && (x <= h.generated <==> x <= lkft || x + delay <= t)
      && (x <= h.freed <==> x <= lkft || x + delay <= h.generated)
      && (x <= h.flushed <==> x <= lkft || x + mft <= h.generated)
  {
  }

  lemma {:induction false} NotBeforeChain(a: Horizon, b: Horizon, c: Horizon)
    requires NotBefore(a, b) && NotBefore(b, c)
    ensures NotBefore(a, c)
  {
  }

  /** Raising the flush time to cover what has been generated moves no time back. */
  lemma {:induction false} HorizonRaised(lkft: real, delay: real, mft: real, t: real, lkft2: real, t2: real)
    requires t <= t2 && lkft <= lkft2 && t - delay <= lkft2 && 0.0 <= delay && 0.0 <= mft
    ensures NotBefore(HorizonAt(lkft, delay, mft, t), HorizonAt(lkft2, delay, mft, t2))
  {
  }

  /** When everything has been generated up to the flush time, another scan delay moves nothing back. */
  lemma {:induction false} HorizonSettled(lkft: real, delay: real, mft: real, t: real, delay2: real)
    requires t - delay <= lkft && 0.0 <= delay && 0.0 <= delay2 && 0.0 <= mft
    ensures NotBefore(HorizonAt(lkft, delay, mft, t), HorizonAt(lkft, delay2, mft, t))
  {
  }

  /** The flushes of one update: each passes on the times for its print time, and the print time
      advances by at most a batch from one to the next. */
  ghost predicate Batches(before: seq<Horizon>, log: seq<Horizon>, start: real, lkft: real, delay: real, mft: real) {
    before <= log && forall i :: |before| <= i < |log| ==>
      && log[i] == HorizonAt(lkft, delay, mft, log[i].printed)
      && log[i].printed <= PrintedBefore(log, |before|, start, i) + MOVE_BATCH_TIME
  }

  /** The print time before flush `i`, the first of an update being flush `n`. */
  function PrintedBefore(log: seq<Horizon>, n: nat, start: real, i: nat): real
    requires n <= i < |log|
  {
    if i == n then start else log[i - 1].printed
  }

  lemma {:induction false} BatchesMore(before: seq<Horizon>, log: seq<Horizon>, start: real, lkft: real, delay: real,
      mft: real, h: Horizon)
    requires Batches(before, log, start, lkft, delay, mft) && h == HorizonAt(lkft, delay, mft, h.printed)
    requires h.printed <= (if log == before then start else LastOf(log).printed) + MOVE_BATCH_TIME
    ensures Batches(before, log + [h], start, lkft, delay, mft) && LastOf(log + [h]) == h
  {
    hide HorizonAt;
    var r := log + [h];
    forall i | |before| <= i < |r|
      ensures r[i] == HorizonAt(lkft, delay, mft, r[i].printed)
      ensures r[i].printed <= PrintedBefore(r, |before|, start, i) + MOVE_BATCH_TIME
    {
      if i < |log| {
        assert r[i] == log[i] && PrintedBefore(r, |before|, start, i) == PrintedBefore(log, |before|, start, i);
      } else if |log| == |before| {
        assert log == before;
      }
    }
  }

  /** A move appended to the trapezoid queue: where it starts, up to where steps had been generated
      then, and how far around that the step generators look. */
  datatype Appended = Appended(start: real, generated: real, delay: real)

  /** No step generator has yet looked at the time of a move being appended. */
  ghost predicate Unseen(moves: seq<Appended>) {
    forall i :: 0 <= i < |moves| ==> moves[i].generated + moves[i].delay <= moves[i].start
  }

  class ToolHead {
    const moveFlushTime: real
    const bufferTimeStart: real
    const canPause: bool
    var printTime: real
    var queuing: Queuing
    var lastKinFlushTime: real
    var lastKinMoveTime: real
    var kinFlushDelay: real
    var kinFlushTimes: seq<real>
    /** The flushes so far, and the moves appended so far. */
    ghost var log: seq<Horizon>
    ghost var appended: seq<Appended>

    ghost function Here(): Horizon
      reads this`printTime, this`lastKinFlushTime, this`kinFlushDelay
    {
      HorizonAt(lastKinFlushTime, kinFlushDelay, moveFlushTime, printTime)
    }

    /** What holds between any two steps. */
    ghost predicate Base()
      reads this`printTime, this`lastKinFlushTime, this`kinFlushDelay, this`log, this`appended
    {
      && 0.0 < moveFlushTime && 0.0 < bufferTimeStart && SDS_CHECK_TIME <= kinFlushDelay && 0.0 <= lastKinFlushTime
      && Forward(log) && NotBefore(LastOf(log), Here()) && Unseen(appended)
    }

    ghost predicate Valid()
      reads this`printTime, this`queuing, this`lastKinFlushTime, this`kinFlushDelay, this`log, this`appended
    {
      && Base() && lastKinFlushTime <= printTime
      && (queuing == Main ==> lastKinFlushTime + kinFlushDelay <= printTime)
    }

    /** Nothing has gone back since the state before. */
    twostate predicate Onward()
      reads this
    {
      && old(printTime) <= printTime && old(lastKinFlushTime) <= lastKinFlushTime && old(log) <= log
      && old(appended) <= appended
    }

    constructor (moveFlushTime: real, bufferTimeStart: real, canPause: bool)
      requires 0.0 < moveFlushTime && 0.0 < bufferTimeStart
      ensures Valid() && queuing == Flushed && log == [] && appended == [] && this.bufferTimeStart == bufferTimeStart
      ensures printTime == lastKinFlushTime == lastKinMoveTime == 0.0 && kinFlushDelay == SDS_CHECK_TIME
      ensures kinFlushTimes == []
    {
      this.moveFlushTime, this.bufferTimeStart, this.canPause := moveFlushTime, bufferTimeStart, canPause;
      printTime, queuing, lastKinFlushTime, lastKinMoveTime := 0.0, Flushed, 0.0, 0.0;
      kinFlushDelay, kinFlushTimes, log, appended := SDS_CHECK_TIME, [], [], [];
    }

    /** Pass on the times of one flush. */
    ghost method Pass(h: Horizon)
      modifies this`log
      ensures log == old(log) + [h]
    {
      log := log + [h];
    }

    /** Advance the print time to `nextPrintTime` in batches, flushing after each. */
    method UpdateMoveTime(nextPrintTime: real)
      requires Base() && printTime <= nextPrintTime
      modifies this`printTime, this`log
      ensures Base() && Onward()
      ensures printTime == nextPrintTime && LastOf(log) == Here()
      ensures Batches(old(log), log, old(printTime), lastKinFlushTime, kinFlushDelay, moveFlushTime)
    {
      hide Forward, HorizonAt, NotBefore, Ordered, LastOf, Unseen;
      var lkft := lastKinFlushTime;
      while true
        invariant Base() && Onward() && printTime <= nextPrintTime
        invariant Batches(old(log), log, old(printTime), lastKinFlushTime, kinFlushDelay, moveFlushTime)
        invariant printTime == if log == old(log) then old(printTime) else LastOf(log).printed
        decreases 2.0 * (nextPrintTime - printTime)
      {
        ghost var before := printTime;
        printTime := Min(printTime + MOVE_BATCH_TIME, nextPrintTime);
        var sgFlushTime := Max(lkft, printTime - kinFlushDelay);
        var freeTime := Max(lkft, sgFlushTime - kinFlushDelay);
        var mcuFlushTime := Max(lkft, sgFlushTime - moveFlushTime);
        ghost var h := Horizon(printTime, sgFlushTime, freeTime, mcuFlushTime);
        HorizonGrows(lkft, kinFlushDelay, moveFlushTime, before, printTime);
        SameHorizon(lkft, kinFlushDelay, moveFlushTime, h);
        NotBeforeChain(LastOf(log), HorizonAt(lkft, kinFlushDelay, moveFlushTime, before), h);
        ForwardMore(log, h);
        BatchesMore(old(log), log, old(printTime), lastKinFlushTime, kinFlushDelay, moveFlushTime, h);
        Pass(h);
        NotBeforeSelf(h);
        if printTime >= nextPrintTime {
          break;
        }
      }
    }

    /** Move the print time ahead of the clock and of all steps generated so far. */
    method CalcPrintTime(estPrintTime: real)
      requires Base()
      modifies this`printTime
      ensures Base() && Onward() && lastKinFlushTime + kinFlushDelay <= printTime
      ensures printTime == Max(old(printTime),
        Max(estPrintTime + bufferTimeStart, Max(estPrintTime + MIN_KIN_TIME, lastKinFlushTime) + kinFlushDelay))
    {
      hide Forward, HorizonAt, NotBefore, Ordered, LastOf, Unseen;
      var kinTime := Max(estPrintTime + MIN_KIN_TIME, lastKinFlushTime);
      kinTime := kinTime + kinFlushDelay;
      var minPrintTime := Max(estPrintTime + bufferTimeStart, kinTime);
      if minPrintTime > printTime {
        HorizonGrows(lastKinFlushTime, kinFlushDelay, moveFlushTime, printTime, minPrintTime);
        NotBeforeChain(LastOf(log), Here(), HorizonAt(lastKinFlushTime, kinFlushDelay, moveFlushTime, minPrintTime));
        printTime := minPrintTime;
      }
    }

    /** Queue the moves one after the other from the print time on. */
    method AppendMoves(moves: seq<Timing>) returns (nextMoveTime: real)
      requires Base() && lastKinFlushTime + kinFlushDelay <= printTime
      requires forall i :: 0 <= i < |moves| ==> moves[i].Valid()
      modifies this`appended
      ensures Base() && printTime <= nextMoveTime == printTime + Total(moves)
      ensures |appended| == |old(appended)| + |moves| && old(appended) <= appended
      ensures moves != [] ==> appended[|old(appended)|].start == printTime
      ensures forall i :: 0 <= i < |moves| ==>
        var next := if i == |moves| - 1 then nextMoveTime else appended[|old(appended)| + i + 1].start;
        next == appended[|old(appended)| + i].start + (moves[i].accelT + moves[i].cruiseT + moves[i].decelT)
    {
      hide Forward, Ordered;
      ghost var seen := LastOf(log).generated;
      assert seen + kinFlushDelay <= printTime;
      nextMoveTime := printTime;
      for i := 0 to |moves|
        invariant Base() && printTime <= nextMoveTime
        invariant |appended| == |old(appended)| + i && old(appended) <= appended
        invariant appended != old(appended) ==> appended[|old(appended)|].start == printTime
        invariant forall k :: 0 <= k < i ==>
          var next := if k == i - 1 then nextMoveTime else appended[|old(appended)| + k + 1].start;
          next == appended[|old(appended)| + k].start + moves[k].Duration()
        invariant i == 0 ==> nextMoveTime == printTime
        invariant printTime + Total(moves) == nextMoveTime + Total(moves[i..])
      {
        assert moves[i..][1..] == moves[i + 1..];
        appended := appended + [Appended(nextMoveTime, seen, kinFlushDelay)];
        nextMoveTime := nextMoveTime + moves[i].Duration();
      }
    }

    /** How one look moves the print time: a segment on, unless homing is over or the print time is
        already far enough ahead of the clock to pause. */
    ghost predicate Drips(before: real, after: real, poll: Poll, nextPrintTime: real)
      reads this`kinFlushDelay
    {
      after ==
        if poll.done || (canPause && poll.est + DRIP_TIME + moveFlushTime + kinFlushDelay < before) then before
        else if before + DRIP_SEGMENT_TIME < nextPrintTime then before + DRIP_SEGMENT_TIME
        else nextPrintTime
    }

    /** The print times `reached` look by look, as long as the end of the move has not been. */
    ghost predicate Dripped(reached: seq<real>, polls: seq<Poll>, nextPrintTime: real)
      reads this`kinFlushDelay
    {
      && 0 < |reached| <= |polls| + 1
      && forall i :: 0 <= i < |reached| - 1 ==>
           reached[i] < nextPrintTime && Drips(reached[i], reached[i + 1], polls[i], nextPrintTime)
    }

    /** Looks late enough, or on a machine that cannot pause, none of which ends homing. */
    ghost predicate AllOnTime(polls: seq<Poll>, nextPrintTime: real)
      reads this`kinFlushDelay
    {
      forall i :: 0 <= i < |polls| ==>
        !polls[i].done && (canPause ==> nextPrintTime <= polls[i].est + DRIP_TIME + moveFlushTime + kinFlushDelay)
    }

    lemma {:induction false} DrippedMore(reached: seq<real>, after: real, polls: seq<Poll>, nextPrintTime: real)
      requires Dripped(reached, polls, nextPrintTime) && |reached| <= |polls| && reached[|reached| - 1] < nextPrintTime
      requires Drips(reached[|reached| - 1], after, polls[|reached| - 1], nextPrintTime)
      ensures Dripped(reached + [after], polls, nextPrintTime)
    {
      hide Drips;
      var r := reached + [after];
      forall i | 0 <= i < |r| - 1
        ensures r[i] < nextPrintTime && Drips(r[i], r[i + 1], polls[i], nextPrintTime)
      {
        if i < |reached| - 1 {
          assert r[i] == reached[i] && r[i + 1] == reached[i + 1];
        }
      }
    }

    /** Looks on time advance the print time by a whole segment each, until the end of the move. */
    lemma {:induction false} OnTimeAdvances(reached: seq<real>, polls: seq<Poll>, nextPrintTime: real, i: nat)
      requires Dripped(reached, polls, nextPrintTime) && AllOnTime(polls, nextPrintTime) && i < |reached|
      ensures reached[i] >= reached[0] + DRIP_SEGMENT_TIME * i as real || reached[i] == nextPrintTime
    {
      if i > 0 {
        OnTimeAdvances(reached, polls, nextPrintTime, i - 1);
        assert Drips(reached[i - 1], reached[i], polls[i - 1], nextPrintTime) && !polls[i - 1].done;
      }
    }

    /** Advance the print time in small segments until the end of the move or of homing.  `used` looks
        were taken at the clock and at whether homing is over. */
    method UpdateDripMoveTime(nextPrintTime: real, polls: seq<Poll>)
      returns (progress: Progress, used: nat, ghost reached: seq<real>)
      requires Base()
      modifies this`printTime, this`log
      ensures Base() && Onward()
      ensures progress == Complete <==> printTime >= nextPrintTime
      ensures printTime <= Max(old(printTime), nextPrintTime)
      ensures used <= |polls| && (progress == Waiting ==> used == |polls|)
      // homing has ended just when the last look said so
      ensures progress == Ended <==> used > 0 && polls[used - 1].done
      ensures forall i :: 0 <= i < used - 1 ==> !polls[i].done
      // every look does what it should
      ensures Dripped(reached, polls, nextPrintTime) && |reached| == used + 1
      ensures reached[0] == old(printTime) && reached[used] == printTime
      // so that enough looks, none too early, complete the move
      ensures AllOnTime(polls, nextPrintTime) && nextPrintTime - old(printTime) <= DRIP_SEGMENT_TIME * |polls| as real ==>
        progress == Complete
      // steps are generated only a short time ahead
      ensures canPause ==>
        || printTime == old(printTime)
        || (used > 0 && printTime <= Latest(polls[..used]) + DRIP_TIME + moveFlushTime + kinFlushDelay + DRIP_SEGMENT_TIME)
    {
      hide Forward, HorizonAt, NotBefore, Ordered, LastOf, Unseen, Dripped, AllOnTime;
      var flushDelay := DRIP_TIME + moveFlushTime + kinFlushDelay;
      used, reached := 0, [printTime];
      StartsDripping(printTime, polls, nextPrintTime);
      while printTime < nextPrintTime
        invariant |reached| == used + 1 && reached[0] == old(printTime) && reached[used] == printTime
        invariant Dripped(reached, polls, nextPrintTime)
        invariant used <= |polls| && Base() && Onward() && printTime <= Max(old(printTime), nextPrintTime)
        invariant forall i :: 0 <= i < used ==> !polls[i].done
        invariant canPause ==>
          || printTime == old(printTime)
          || (used > 0 && printTime <= Latest(polls[..used]) + flushDelay + DRIP_SEGMENT_TIME)
        decreases |polls| - used
      {
        if used == |polls| {
          EnoughLooks(reached, polls, nextPrintTime);
          return Waiting, used, reached;
        }
        var poll := polls[used];
        used := used + 1;
        LatestGrows(polls, used);
        if poll.done {
          DrippedMore(reached, printTime, polls, nextPrintTime);
          NotOnTime(polls, used - 1, nextPrintTime);
          return Ended, used, reached + [printTime];
        }
        var waitTime := printTime - poll.est - flushDelay;
        if waitTime > 0.0 && canPause {
          DrippedMore(reached, printTime, polls, nextPrintTime);
          reached := reached + [printTime];
          continue;
        }
        ghost var next := Min(printTime + DRIP_SEGMENT_TIME, nextPrintTime);
        DrippedMore(reached, next, polls, nextPrintTime);
        UpdateMoveTime(Min(printTime + DRIP_SEGMENT_TIME, nextPrintTime));
        reached := reached + [next];
      }
      progress := Complete;
    }

    lemma {:induction false} StartsDripping(t: real, polls: seq<Poll>, nextPrintTime: real)
      ensures Dripped([t], polls, nextPrintTime)
    {
    }

    lemma {:induction false} NotOnTime(polls: seq<Poll>, i: nat, nextPrintTime: real)
      requires i < |polls| && polls[i].done
      ensures !AllOnTime(polls, nextPrintTime)
    {
    }

    /** When all looks are used up without completing the move, some were not on time or there were too
        few. */
    lemma {:induction false} EnoughLooks(reached: seq<real>, polls: seq<Poll>, nextPrintTime: real)
      requires Dripped(reached, polls, nextPrintTime) && |reached| == |polls| + 1 && reached[|polls|] < nextPrintTime
      ensures AllOnTime(polls, nextPrintTime) ==> nextPrintTime - reached[0] > DRIP_SEGMENT_TIME * |polls| as real
    {
      if AllOnTime(polls, nextPrintTime) {
        OnTimeAdvances(reached, polls, nextPrintTime, |polls|);
      }
    }

    /** When moves handed over now begin. */
    function StartTime(estPrintTime: real): (t: real)
      reads this`printTime, this`queuing, this`lastKinFlushTime, this`kinFlushDelay
      ensures printTime <= t
    {
      if queuing == Main then printTime
      else
        Max(printTime,
            Max(estPrintTime + bufferTimeStart, Max(estPrintTime + MIN_KIN_TIME, lastKinFlushTime) + kinFlushDelay))
    }

    /** Take over moves from the look-ahead queue. */
    method ProcessMoves(moves: seq<Timing>, seen: Seen) returns (progress: Progress)
      requires Valid()
      requires forall i :: 0 <= i < |moves| ==> moves[i].Valid()
      modifies this`printTime, this`queuing, this`lastKinMoveTime, this`log, this`appended
      ensures Valid() && Onward()
      ensures queuing == if old(queuing) == Drip then Drip else Main
      ensures |appended| == |old(appended)| + |moves| && old(appended) <= appended
      ensures moves != [] ==> appended[|old(appended)|].start == old(StartTime(seen.est))
      ensures progress == Complete ==>
        lastKinMoveTime == printTime == old(StartTime(seen.est)) + Total(moves) && LastOf(log) == Here()
      ensures progress != Complete ==>
        && queuing == Drip && lastKinMoveTime == old(lastKinMoveTime)
        && printTime < old(StartTime(seen.est)) + Total(moves)
      // the time of the last movement goes back exactly when other movement had been noted beyond the moves
      ensures old(lastKinMoveTime) <= lastKinMoveTime <==>
        progress != Complete || old(lastKinMoveTime) <= old(StartTime(seen.est)) + Total(moves)
    {
      hide Forward, HorizonAt, NotBefore, Ordered, LastOf, Unseen;
      if queuing != Main {
        if queuing != Drip {
          queuing := Main;
        }
        CalcPrintTime(seen.est);
      }
      var nextMoveTime := AppendMoves(moves);
      if queuing != Main {
        var used;
        ghost var reached;
        progress, used, reached := UpdateDripMoveTime(nextMoveTime, seen.polls);
        if progress != Complete {
          return;
        }
      }
      UpdateMoveTime(nextMoveTime);
      lastKinMoveTime := nextMoveTime;
      progress := Complete;
    }

    /** Hand over what the look-ahead queue holds; an empty queue hands over nothing. */
    method FlushQueue(pending: seq<Timing>, seen: Seen) returns (progress: Progress)
      requires Valid()
      requires forall i :: 0 <= i < |pending| ==> pending[i].Valid()
      modifies this`printTime, this`queuing, this`lastKinMoveTime, this`log, this`appended
      ensures Valid() && Onward()
      ensures progress != Complete ==> queuing == Drip && old(queuing) == Drip && pending != []
      ensures queuing == if pending == [] then old(queuing) else if old(queuing) == Drip then Drip else Main
      ensures pending == [] ==>
        printTime == old(printTime) && lastKinMoveTime == old(lastKinMoveTime) && appended == old(appended)
      ensures pending != [] && progress == Complete ==>
        lastKinMoveTime == printTime == old(StartTime(seen.est)) + Total(pending)
    {
      hide Forward, HorizonAt, NotBefore, Ordered, LastOf, Unseen;
      if pending == [] {
        return Complete;
      }
      progress := ProcessMoves(pending, seen);
    }

    /** Everything has been generated, freed and flushed up to the flush time. */
    ghost predicate Settled()
      reads this`lastKinFlushTime, this`log
    {
      var h := LastOf(log);
      h.generated == h.freed == h.flushed == lastKinFlushTime
    }

    /** Generate all the steps of the queued moves, and let every time catch up with the flush time. */
    method FlushStepGeneration(pending: seq<Timing>, seen: Seen) returns (progress: Progress)
      requires Valid()
      requires forall i :: 0 <= i < |pending| ==> pending[i].Valid()
      modifies this`printTime, this`queuing, this`lastKinFlushTime, this`lastKinMoveTime, this`log, this`appended
      ensures Valid() && Onward()
      // only moves still pending while homing can keep it from completing
      ensures progress != Complete ==> queuing == Drip && old(queuing) == Drip && pending != []
      ensures progress == Complete ==>
        && queuing == Flushed && Settled() && LastOf(log) == Here()
        && lastKinMoveTime + kinFlushDelay <= lastKinFlushTime && printTime - kinFlushDelay <= lastKinFlushTime
      ensures pending == [] ==>
        && lastKinMoveTime == old(lastKinMoveTime) && appended == old(appended)
        && lastKinFlushTime == Max(old(lastKinFlushTime),
                                   Max(old(lastKinMoveTime) + kinFlushDelay, old(printTime) - kinFlushDelay))
        && printTime == Max(old(printTime), lastKinFlushTime)
      ensures pending != [] && progress == Complete ==>
        && lastKinMoveTime == old(StartTime(seen.est)) + Total(pending)
        && lastKinFlushTime == Max(old(lastKinFlushTime), lastKinMoveTime + kinFlushDelay)
        && printTime == Max(lastKinMoveTime, lastKinFlushTime)
    {
      hide Forward, HorizonAt, NotBefore, Ordered, LastOf, Unseen;
      progress := FlushQueue(pending, seen);
      if progress == Complete {
        CatchUp();
      }
    }

    method CatchUp()
      requires Valid()
      modifies this`printTime, this`queuing, this`lastKinFlushTime, this`log
      ensures Valid() && Onward() && queuing == Flushed && Settled() && LastOf(log) == Here()
      ensures lastKinFlushTime == Max(old(lastKinFlushTime),
                                      Max(lastKinMoveTime + kinFlushDelay, old(printTime) - kinFlushDelay))
      ensures printTime == Max(old(printTime), lastKinFlushTime) && printTime - kinFlushDelay <= lastKinFlushTime
    {
      hide Forward, HorizonAt, NotBefore, Ordered, LastOf, Unseen;
      queuing := Flushed;
      var flushTime := lastKinMoveTime + kinFlushDelay;
      flushTime := Max(flushTime, printTime - kinFlushDelay);
      ghost var before := Here();
      ghost var lkft := lastKinFlushTime;
      lastKinFlushTime := Max(lastKinFlushTime, flushTime);
      HorizonRaised(lkft, kinFlushDelay, moveFlushTime, printTime, lastKinFlushTime, printTime);
      NotBeforeChain(LastOf(log), before, Here());
      UpdateMoveTime(Max(printTime, lastKinFlushTime));
      AllSettled(lastKinFlushTime, kinFlushDelay, moveFlushTime, printTime);
    }

    /** The times once the moves pending have been flushed, the print time being `t`: the moves end where
        they should, and in a special state the flush time has caught up. */
    twostate predicate Flushes(pending: seq<Timing>, seen: Seen, t: real)
      reads this`lastKinMoveTime, this`lastKinFlushTime, this`kinFlushDelay
    {
      var end := if pending == [] then old(printTime) else old(StartTime(seen.est)) + Total(pending);
      && lastKinMoveTime == (if pending == [] then old(lastKinMoveTime) else end)
      && if old(queuing) == Main then t == end && lastKinFlushTime == old(lastKinFlushTime)
         else
           && t == Max(end, lastKinFlushTime)
           && lastKinFlushTime == Max(old(lastKinFlushTime), Max(lastKinMoveTime + kinFlushDelay, end - kinFlushDelay))
    }

    /** Flush the look-ahead queue, and in a special state the step generation too. */
    method FlushLookahead(pending: seq<Timing>, seen: Seen) returns (progress: Progress)
      requires Valid()
      requires forall i :: 0 <= i < |pending| ==> pending[i].Valid()
      modifies this`printTime, this`queuing, this`lastKinFlushTime, this`lastKinMoveTime, this`log, this`appended
      ensures Valid() && Onward()
      ensures progress != Complete ==> queuing == Drip && old(queuing) == Drip && pending != []
      ensures progress == Complete ==> queuing == if old(queuing) == Main then Main else Flushed
      ensures progress == Complete && queuing == Flushed ==> Settled()
      ensures progress == Complete ==> Flushes(pending, seen, printTime)
    {
      hide Forward, HorizonAt, NotBefore, Ordered, LastOf, Unseen, Base, StartTime, Settled;
      if queuing != Main {
        progress := FlushStepGeneration(pending, seen);
      } else {
        progress := FlushQueue(pending, seen);
      }
    }

    /** New moves would start at `t`: where those pending end, and in a special state ahead of the clock
        as well. */
    twostate predicate LastMoveTime(pending: seq<Timing>, seen: Seen, estLater: real, t: real)
      reads this`lastKinMoveTime, this`lastKinFlushTime, this`kinFlushDelay
    {
      exists f: real :: Flushes(pending, seen, f) &&
        t == if old(queuing) == Main then f
             else Max(f, Max(estLater + bufferTimeStart, Max(estLater + MIN_KIN_TIME, lastKinFlushTime) + kinFlushDelay))
    }

    /** The time the last queued move ends, or new moves would start. */
    method GetLastMoveTime(pending: seq<Timing>, seen: Seen, estLater: real) returns (progress: Progress, t: real)
      requires Valid()
      requires forall i :: 0 <= i < |pending| ==> pending[i].Valid()
      modifies this`printTime, this`queuing, this`lastKinFlushTime, this`lastKinMoveTime, this`log, this`appended
      ensures Valid() && Onward() && t == printTime
      ensures progress != Complete ==> queuing == Drip && old(queuing) == Drip && pending != []
      ensures progress == Complete ==>
        && queuing == (if old(queuing) == Main then Main else Flushed)
        && lastKinFlushTime + kinFlushDelay <= t
        && LastMoveTime(pending, seen, estLater, t)
    {
      hide Forward, HorizonAt, NotBefore, Ordered, LastOf, Unseen;
      progress := FlushLookahead(pending, seen);
      t := printTime;
      if progress != Complete {
        return;
      }
      if queuing != Main {
        CalcPrintTime(estLater);
      }
      t := printTime;
    }

    /** Leave a pause in the motion. */
    method Dwell(delay: real, pending: seq<Timing>, seen: Seen, estLater: real)
      returns (progress: Progress, ghost t: real)
      requires Valid()
      requires forall i :: 0 <= i < |pending| ==> pending[i].Valid()
      modifies this`printTime, this`queuing, this`lastKinFlushTime, this`lastKinMoveTime, this`log, this`appended
      ensures Valid() && Onward()
      ensures progress != Complete ==> queuing == Drip && old(queuing) == Drip && pending != []
      ensures progress == Complete ==>
        && queuing == (if old(queuing) == Main then Main else Priming)
        && LastMoveTime(pending, seen, estLater, t)
        && old(printTime) + Max(0.0, delay) <= printTime == t + Max(0.0, delay)
    {
      hide Forward, HorizonAt, NotBefore, Ordered, LastOf, Unseen, Flushes;
      var last;
      progress, last := GetLastMoveTime(pending, seen, estLater);
      t := last;
      if progress != Complete {
        return;
      }
      UpdateMoveTime(last + Max(0.0, delay));
      CheckStall();
    }

    /** A special queuing state becomes "Priming". */
    method CheckStall()
      modifies this`queuing
      ensures queuing == if old(queuing) == Main then Main else Priming
    {
      if queuing != Main {
        queuing := Priming;
      }
    }

    /** Move while homing: the move is dripped until homing ends it or it is complete.  When homing
        ends it the rest of the move is dropped.  `before` and `estDwell` are what the dwell sees first,
        `seen` is what the move itself sees. */
    method DripMove(move: Timing, pending: seq<Timing>, before: Seen, estDwell: real, seen: Seen)
      returns (progress: Progress)
      requires Valid() && move.Valid()
      requires forall i :: 0 <= i < |pending| ==> pending[i].Valid()
      modifies this`printTime, this`queuing, this`lastKinFlushTime, this`lastKinMoveTime, this`log, this`appended
      ensures Valid() && Onward()
      // over, early or not
      ensures progress != Waiting && (old(queuing) != Drip || pending == []) ==>
        queuing == Flushed && Settled() && lastKinMoveTime + kinFlushDelay <= lastKinFlushTime
      // or still on its way
      ensures progress == Waiting ==> queuing == Drip
      // a move that is complete has been carried out from where it was queued to its end
      ensures progress == Complete ==>
        && |appended| > |old(appended)|
        && lastKinMoveTime == appended[|appended| - 1].start + (move.accelT + move.cruiseT + move.decelT)
    {
      hide Forward, HorizonAt, NotBefore, Ordered, LastOf, Unseen, Settled;
      ghost var t;
      progress, t := Dwell(kinFlushDelay, pending, before, estDwell);
      if progress != Complete {
        return;
      }
      queuing := Drip;
      OneMove(move);
      progress := ProcessMoves([move], seen);
      if progress != Waiting {
        var _ := FlushStepGeneration([], seen);
      }
    }

    /** Change how far around a time the step generators look.  Everything is generated first; an old
        delay that was never registered is an error. */
    method NoteStepGenerationScanTime(delay: real, oldDelay: real, pending: seq<Timing>, seen: Seen)
      returns (progress: Progress, ok: bool)
      requires Valid()
      requires forall i :: 0 <= i < |pending| ==> pending[i].Valid()
      modifies this
      ensures Valid() && Onward()
      ensures progress != Complete ==> queuing == Drip && old(queuing) == Drip && pending != [] && !ok
      ensures progress == Complete ==> queuing == Flushed && Settled()
      ensures ok <==> progress == Complete && (oldDelay == 0.0 || oldDelay in old(kinFlushTimes))
      ensures !ok ==> kinFlushDelay == old(kinFlushDelay) && kinFlushTimes == old(kinFlushTimes)
      ensures ok ==> multiset(kinFlushTimes) == multiset(old(kinFlushTimes)) - OneOf(oldDelay) + OneOf(delay)
      ensures ok ==> kinFlushDelay == Longest(kinFlushTimes)
    {
      hide Forward, HorizonAt, NotBefore, Ordered, LastOf, Unseen, Settled, Max, Longest, Base, Valid, OneOf, StartTime,
        Total, Here;
      progress := FlushStepGeneration(pending, seen);
      if progress != Complete {
        return progress, false;
      }
      var times;
      ok, times := ReplaceDelay(kinFlushTimes, delay, oldDelay);
      if ok {
        kinFlushTimes := times;
        ChangeDelay();
      }
    }

    /** Use the longest of the delays registered. */
    method ChangeDelay()
      requires Valid() && queuing == Flushed && printTime - kinFlushDelay <= lastKinFlushTime
      modifies this`kinFlushDelay
      ensures Valid() && kinFlushDelay == Longest(kinFlushTimes)
    {
      hide Forward, HorizonAt, NotBefore, Ordered, LastOf, Unseen;
      ghost var before := kinFlushDelay;
      kinFlushDelay := Longest(kinFlushTimes);
      HorizonSettled(lastKinFlushTime, before, moveFlushTime, printTime, kinFlushDelay);
      NotBeforeChain(LastOf(log), HorizonAt(lastKinFlushTime, before, moveFlushTime, printTime), Here());
    }

    /** Something other than the tool head moves until `kinTime`. */
    method NoteKinematicActivity(kinTime: real)
      requires Valid()
      modifies this`lastKinMoveTime
      ensures Valid() && lastKinMoveTime == Max(old(lastKinMoveTime), kinTime)
    {
      lastKinMoveTime := Max(lastKinMoveTime, kinTime);
    }
  }

  lemma {:induction false} OneMove(move: Timing)
    ensures Total([move]) == move.accelT + move.cruiseT + move.decelT
  {
    assert Total([move]) == move.Duration() + Total([]);
  }

  /** The time of the last movement is not one of the times that only go forward: activity noted until
      time 10, and then a move of one second, bring it from 10 to 1.25. */
  method LastMoveTimeGoesBack() returns (before: real, after: real)
    ensures before == 10.0 && after == 1.25
  {
    hide Forward, HorizonAt, NotBefore, Ordered, LastOf, Unseen;
    var head := new ToolHead(0.05, 0.25, true);
    head.NoteKinematicActivity(10.0);
    before := head.lastKinMoveTime;
    var move := Timing(0.25, 0.5, 0.25);
    assert Total([move]) == move.Duration() + Total([]);
    var _ := head.ProcessMoves([move], Seen(0.0, []));
    after := head.lastKinMoveTime;
  }

  /** A delay to register or remove; zero stands for none. */
  function OneOf(delay: real): multiset<real> {
    if delay == 0.0 then multiset{} else multiset{delay}
  }

  function IndexOf(s: seq<real>, x: real): (i: nat)
    ensures i <= |s| && (i < |s| ==> s[i] == x) && (i == |s| ==> x !in s)
  {
    if s == [] || s[0] == x then 0 else 1 + IndexOf(s[1..], x)
  }

  /** The longest delay registered, and at least that of the step filter. */
  function Longest(s: seq<real>): (m: real)
    ensures m >= SDS_CHECK_TIME && (m == SDS_CHECK_TIME || m in s) && forall i :: 0 <= i < |s| ==> s[i] <= m
  {
    if s == [] then SDS_CHECK_TIME else Max(s[0], Longest(s[1..]))
  }

  /** Unregister the old delay, if there is one, and register the new one, if there is one. */
  method ReplaceDelay(times: seq<real>, delay: real, oldDelay: real) returns (ok: bool, r: seq<real>)
    ensures ok <==> oldDelay == 0.0 || oldDelay in times
    ensures ok ==> multiset(r) == multiset(times) - OneOf(oldDelay) + OneOf(delay)
  {
    r := times;
    if oldDelay != 0.0 {
      var i := IndexOf(times, oldDelay);
      if i == |times| {
        return false, times;
      }
      WithoutOne(times, i);
      r := times[..i] + times[i + 1..];
    }
    if delay != 0.0 {
      r := r + [delay];
    }
    ok := true;
  }

  lemma {:induction false} WithoutOne(s: seq<real>, i: nat)
    requires i < |s|
    ensures multiset(s[..i] + s[i + 1..]) == multiset(s) - multiset{s[i]}
  {
    assert s == s[..i] + [s[i]] + s[i + 1..];
  }

  lemma {:induction false} AllSettled(lkft: real, delay: real, mft: real, t: real)
    requires t - delay <= lkft && 0.0 <= delay && 0.0 <= mft
    ensures var h := HorizonAt(lkft, delay, mft, t); h.generated == h.freed == h.flushed == lkft
  {
  }

  lemma {:induction false} SameHorizon(lkft: real, delay: real, mft: real, h: Horizon)
    requires h.generated == Max(lkft, h.printed - delay)
    requires h.freed == Max(lkft, h.generated - delay) && h.flushed == Max(lkft, h.generated - mft)
    ensures h == HorizonAt(lkft, delay, mft, h.printed)
  {
  }

  lemma {:induction false} NotBeforeSelf(h: Horizon)
    ensures NotBefore(h, h)
  {
  }
}
