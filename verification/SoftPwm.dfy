/** Digital output pins with software pulse width modulation, and the limit on how long a pin may
    stay away from its default. */
module SoftPwm {
  import opened Words32

  /** A queued update: at `waketime`, drive the pin high for `onDuration` ticks of every cycle. */
  datatype DigitalMove = DigitalMove(waketime: Word, onDuration: Word)

  datatype Handler = Load | Toggle

  datatype Outcome = Finished | Rescheduled | Shutdown

  /** An update loaded at true time `t` with pulses of `on` ticks gets out of its limit: the pulses are
      longer than the limit, and the clock `next` of the update that follows lies half the counter's
      range away, where it is not taken to be beyond the limit but is taken to be beyond the first pulse. */
  predicate Escapes(t: int, on: Word, limit: Word, next: Word) {
    0 < limit < on && !IsBefore(Wrap(t + limit), next) && IsBefore(Wrap(t + on), next)
  }

  /** For pulses and limits of less than half the range that is a window of as many clocks as the
      pulses are longer than the limit. */
  lemma {:induction false} EscapeWindow(t: int, on: Word, limit: Word, next: Word)
    requires 0 < limit < HALF && on < HALF
    ensures Escapes(t, on, limit, next) <==> limit - HALF < AsSigned(Wrap(next - t)) <= on - HALF
  {
    var d := AsSigned(Wrap(next - t));
    SignedDistance(t, limit, next);
    SignedDistance(t, on, next);
  }

  /** Comparing `t + a` with a clock depends on the signed distance of that clock from `t` alone. */
  lemma {:induction false} SignedDistance(t: int, a: Word, next: Word)
    ensures IsBefore(Wrap(t + a), next) <==> (a - AsSigned(Wrap(next - t))) % 0x1_0000_0000 >= 0x8000_0000
  {
    var d := AsSigned(Wrap(next - t));
    var k, j := (t + a) / 0x1_0000_0000, (next - t) / 0x1_0000_0000;
    assert Wrap(t + a) == t + a - 0x1_0000_0000 * k && Wrap(next - t) == next - t - 0x1_0000_0000 * j;
    SameResidue(a - d, Wrap(t + a) - next, if d == Wrap(next - t) then -k - j else -k - j - 1);
  }

  lemma {:induction false} SameResidue(x: int, y: int, k: int)
    requires y == x + 0x1_0000_0000 * k
    ensures y % 0x1_0000_0000 == x % 0x1_0000_0000
  {
  }

  /** A clock that is not beyond the limit is due within it, as the timer takes it. */
  lemma {:induction false} WithinLimit(t: int, limit: Word, next: Word)
    requires !IsBefore(Wrap(t + limit), next)
    ensures Closest(t, next) <= t + limit
  {
    hide Closest, Wrap, IsBefore;
    ClosestOrder(t + limit, next);
    if limit < HALF {
      ClosestIs(t, Closest(t + limit, next));
    }
  }

  /** Clocks beyond the first pulse but not beyond the limit: either the limit holds, or they are a
      whole range of the counter later. */
  lemma {:induction false} BeyondPulse(t: int, on: Word, limit: Word, next: Word)
    requires 0 < limit && !IsBefore(Wrap(t + limit), next) && IsBefore(Wrap(t + on), next)
    ensures if limit < on then Closest(t + on, next) > t + limit + HALF else Closest(t + on, next) <= t + limit
  {
    hide Closest, Wrap, IsBefore;
    ClosestOrder(t + limit, next);
    ClosestOrder(t + on, next);
    WholeRanges(Closest(t + limit, next), Closest(t + on, next));
  }

  lemma {:induction false} WholeRanges(x: int, y: int)
    requires Wrap(x) == Wrap(y)
    ensures x == y || x - y >= 0x1_0000_0000 || y - x >= 0x1_0000_0000
  {
  }

  class DigitalOut {
    const defaultOn: bool
    const maxDuration: Word
    var cycleTime: Word
    var pin: bool
    var on: bool
    var toggling: bool
    var checkEnd: bool
    var waketime: Word
    var onDuration: Word
    var offDuration: Word
    var endTime: Word
    var func: Handler
    var mq: seq<DigitalMove>
    /** Whether the timer is on the timer list. */
    ghost var scheduled: bool
    /** The true times that `waketime` and `endTime` stand for: those that the comparisons made with
        them tell apart. */
    ghost var wake: int
    ghost var end: int
    /** The true time of the last update that was loaded. */
    ghost var loaded: int

    ghost predicate Clocked()
      reads this`waketime, this`wake, this`checkEnd, this`endTime, this`end, this`mq
    {
      && waketime == Wrap(wake) && (checkEnd ==> endTime == Wrap(end))
      && (mq != [] ==> checkEnd && endTime == mq[0].waketime)
    }

    /** How the flags, the handler and the timer go together. */
    ghost predicate Consistent()
      reads this`pin, this`on, this`checkEnd, this`scheduled, this`func, this`wake, this`end, this`toggling,
        this`onDuration, this`offDuration, this`loaded
    {
      && pin == on && (checkEnd ==> scheduled) && (toggling ==> scheduled)
      && (scheduled && func == Load ==> checkEnd && wake == end)
      && (scheduled && func == Toggle ==> toggling && 0 < onDuration && 0 < offDuration && loaded <= wake)
      && (checkEnd && func == Toggle ==> wake < end <= wake + HALF)
    }

    /** The safety limit: a pin that is toggling or away from its default is due for another update
        no later than `maxDuration` after the last one. */
    ghost predicate Protected()
      reads this`pin, this`toggling, this`checkEnd, this`scheduled, this`wake, this`end, this`loaded
    {
      maxDuration > 0 && (toggling || pin != defaultOn) ==>
        checkEnd && scheduled && wake <= end <= loaded + maxDuration
    }

    ghost predicate Valid()
      reads this
    {
      Clocked() && Consistent()
    }

    /** The pin is only protected from the start if it is configured at its default, or without
        a limit. */
    constructor (value: bool, defaultOn: bool, maxDuration: Word)
      ensures Valid() && mq == [] && !scheduled && !toggling && pin == value
      ensures this.defaultOn == defaultOn && this.maxDuration == maxDuration
      ensures Protected() <==> value == defaultOn || maxDuration == 0
    {
      this.defaultOn, this.maxDuration, cycleTime := defaultOn, maxDuration, 0;
      pin, on, toggling, checkEnd := value, value, false, false;
      waketime, onDuration, offDuration, endTime, func, mq := 0, 0, 0, 0, Load, [];
      scheduled, wake, end, loaded := false, 0, 0, 0;
    }

    /** Toggle the pin, and find out when to toggle it next. */
    method ToggleEvent() returns (outcome: Outcome)
      requires Valid() && scheduled && func == Toggle
      modifies this`pin, this`on, this`func, this`waketime, this`wake, this`end
      ensures Valid() && outcome == Rescheduled && pin == !old(pin)
      // a pulse lasts `onDuration` and a pause `offDuration`
      ensures !checkEnd ==> func == Toggle && wake == old(wake) + if pin then onDuration else offDuration
      // until the end, which is reached after finitely many events and not passed
      ensures checkEnd ==>
        var next := old(wake) + if pin then onDuration else offDuration;
        if next - old(end) < HALF
        then end == old(end) && if next < end then func == Toggle && wake == next else func == Load && wake == end
        // unless a pulse or pause is so long that the end seems to be ahead again
        else func == Toggle && wake == next && end == old(end) + 0x1_0000_0000
      ensures old(Protected()) && maxDuration > 0 ==>
        (Protected() <==> old(wake) + (if pin then onDuration else offDuration) - old(end) < HALF)
    {
      hide Wrap, IsBefore, Closest;
      pin := !pin;
      on := !on;
      var duration := if on then onDuration else offDuration;
      WrapSum(wake, duration);
      var next := Wrap(waketime + duration);
      ghost var nextTrue := wake + duration;
      if checkEnd {
        ClosestOrder(nextTrue, endTime);
        EndFrom(nextTrue, end);
        if !IsBefore(next, endTime) {
          // the end is reached before the next toggle would be
          func := Load;
          next, nextTrue := endTime, end;
        } else {
          end := Closest(nextTrue, endTime);
        }
      }
      waketime, wake := next, nextTrue;
      outcome := Rescheduled;
    }

    /** Put the pin in its default state, with nothing queued. */
    method DigitalOutShutdown()
      requires waketime == Wrap(wake)
      modifies this`pin, this`on, this`toggling, this`checkEnd, this`mq, this`scheduled
      ensures Valid() && Protected() && pin == defaultOn && !toggling && !scheduled && mq == []
    {
      pin, on, toggling, checkEnd := defaultOn, defaultOn, false, false;
      mq, scheduled := [], false;
    }

    /** The clock an update loaded now has to give way to: that of the update behind it, or else that
        of its limit. */
    function NextClock(): Word
      reads this`mq, this`waketime
    {
      if |mq| > 1 then mq[1].waketime else Wrap(waketime + maxDuration)
    }

    /** The oldest update takes effect.  With nothing queued the machine shuts down, and with it the
        pin.  Otherwise the pin is protected, unless the pulses get out of the limit: then it goes on
        toggling for more than half the counter's range. */
    method LoadEvent() returns (outcome: Outcome)
      requires Valid() && scheduled && func == Load
      modifies this
      ensures Valid() && cycleTime == old(cycleTime)
      ensures outcome == Shutdown <==>
        || old(mq) == []
        || (|old(mq)| > 1 && Limited(old(mq)[0].onDuration) &&
            old(wake) + maxDuration < Closest(old(wake) + maxDuration, old(mq)[1].waketime))
      ensures outcome == Shutdown ==> Protected() && pin == defaultOn && !toggling && !scheduled && mq == []
      ensures outcome != Shutdown ==>
        var m, t, next := old(mq)[0], old(wake), old(NextClock());
        && mq == old(mq)[1..] && loaded == t
        && pin == (m.onDuration > 0) && toggling == (0 < m.onDuration < cycleTime)
        && (checkEnd <==> mq != [] || Limited(m.onDuration))
        && (Limited(m.onDuration) <==> maxDuration > 0 && (toggling || pin != defaultOn))
        && (outcome == Finished <==> !toggling && !checkEnd) && (scheduled <==> outcome == Rescheduled)
        && (toggling && (!checkEnd || t + m.onDuration < Closest(t + m.onDuration, next)) ==>
              func == Toggle && wake == t + m.onDuration && onDuration == m.onDuration && onDuration + offDuration == cycleTime)
        && (toggling && checkEnd && Closest(t + m.onDuration, next) <= t + m.onDuration ==> func == Load)
        && (checkEnd ==> end == Closest(if func == Toggle then wake else t, next))
        && (!toggling ==> func == Load)
      ensures outcome != Shutdown ==>
        var m, t, next := old(mq)[0], old(wake), old(NextClock());
        && (Protected() <==> !(toggling && Escapes(t, m.onDuration, maxDuration, next)))
        && (!Protected() ==> func == Toggle && end > loaded + maxDuration + HALF)
    {
      hide Wrap, IsBefore, Closest, Escapes, Consistent, Protected, Limited;
      if mq == [] {
        DigitalOutShutdown();
        return Shutdown;
      }
      var m := mq[0];
      ghost var next := NextClock();
      var newToggling, newCheckEnd, newEnd := FindLimit(m.onDuration);
      ClosestOrder(wake + maxDuration, next);
      mq := mq[1..];
      if mq != [] {
        if newCheckEnd && IsBefore(newEnd, mq[0].waketime) {
          DigitalOutShutdown();
          return Shutdown;
        }
        newEnd, newCheckEnd := mq[0].waketime, true;
      } else {
        LimitItself(wake, maxDuration);
      }
      outcome := Apply(m.onDuration, newToggling, newCheckEnd, newEnd);
      LimitedIff(m.onDuration);
      if !Limited(m.onDuration) {
        NoLimit(m.onDuration, next);
      }
    }

    /** Let an update take effect that does not exceed its limit. */
    method Apply(duration: Word, newToggling: bool, newCheckEnd: bool, newEnd: Word) returns (outcome: Outcome)
      requires waketime == Wrap(wake) && scheduled && func == Load && newToggling == (0 < duration < cycleTime)
      requires newCheckEnd <==> mq != [] || Limited(duration)
      requires mq != [] ==> newEnd == mq[0].waketime
      requires Limited(duration) ==> !IsBefore(Wrap(wake + maxDuration), newEnd)
      modifies this`pin, this`on, this`toggling, this`checkEnd, this`endTime, this`loaded, this`scheduled, this`waketime,
        this`wake, this`end, this`func, this`onDuration, this`offDuration
      ensures Valid() && outcome != Shutdown && loaded == old(wake)
      ensures pin == (duration > 0) && toggling == newToggling && checkEnd == newCheckEnd
      ensures (outcome == Finished <==> !toggling && !checkEnd) && (scheduled <==> outcome == Rescheduled)
      ensures func == Toggle <==> toggling && (checkEnd ==> loaded + duration < Closest(loaded + duration, newEnd))
      ensures func == Toggle ==> wake == loaded + duration && onDuration == duration && onDuration + offDuration == cycleTime
      ensures checkEnd ==> end == Closest(if func == Toggle then wake else loaded, newEnd)
      ensures Protected() <==> !(toggling && Escapes(loaded, duration, maxDuration, newEnd))
      ensures !Protected() ==> func == Toggle && end > loaded + maxDuration + HALF
    {
      hide Wrap, IsBefore, Closest, Escapes, Consistent, Protected, Limited;
      BeginUpdate(duration > 0, newToggling, newCheckEnd, newEnd);
      if toggling {
        outcome := SchedulePulses(duration);
      } else {
        outcome := ScheduleSteady();
      }
      ClosestOrder(loaded + duration, newEnd);
      if Limited(duration) {
        AheadOfEnd();
        LoadedIsProtected(duration, newEnd);
      } else {
        NoLimit(duration, newEnd);
      }
    }

    lemma {:induction false} AheadOfEnd()
      requires Valid() && checkEnd
      ensures scheduled && wake <= end
    {
    }

    /** Drive the pin and set the flags of an update. */
    method BeginUpdate(newOn: bool, newToggling: bool, newCheckEnd: bool, newEnd: Word)
      modifies this`pin, this`on, this`toggling, this`checkEnd, this`endTime, this`loaded
      ensures pin == on == newOn && toggling == newToggling && checkEnd == newCheckEnd
      ensures (checkEnd ==> endTime == newEnd) && loaded == wake
    {
      pin, on, toggling, checkEnd := newOn, newOn, newToggling, newCheckEnd;
      endTime, loaded := newEnd, wake;
    }

    /** Calculate the end time and flags of an update, from its duration alone. */
    method FindLimit(duration: Word) returns (newToggling: bool, newCheckEnd: bool, newEnd: Word)
      requires waketime == Wrap(wake)
      ensures newToggling == (0 < duration < cycleTime)
      ensures newCheckEnd <==> Limited(duration)
      ensures newCheckEnd ==> newEnd == Wrap(wake + maxDuration) == Wrap(waketime + maxDuration)
    {
      newToggling, newCheckEnd, newEnd := false, false, 0;
      WrapSum(wake, maxDuration);
      if duration == 0 || duration >= cycleTime {
        // a steady pin is limited only away from its default
        if (duration > 0) != defaultOn && maxDuration > 0 {
          newEnd, newCheckEnd := Wrap(waketime + maxDuration), true;
        }
      } else {
        newToggling := true;
        if maxDuration > 0 {
          newEnd, newCheckEnd := Wrap(waketime + maxDuration), true;
        }
      }
    }

    /** An update has just been applied, and its next event is not scheduled yet. */
    ghost predicate Loading()
      reads this
    {
      && waketime == Wrap(wake) && loaded == wake && pin == on && scheduled && func == Load
      && (mq != [] ==> checkEnd && endTime == mq[0].waketime)
    }

    method ScheduleSteady() returns (outcome: Outcome)
      requires Loading() && !toggling
      modifies this`scheduled, this`waketime, this`wake, this`end
      ensures Valid() && outcome == if checkEnd then Rescheduled else Finished
      ensures (scheduled <==> checkEnd) && (checkEnd ==> wake == end == Closest(loaded, endTime))
    {
      hide Wrap, Closest;
      if !checkEnd {
        // the pin may stay as it is for good
        scheduled := false;
        return Finished;
      }
      end := Closest(wake, endTime);
      waketime, wake := endTime, end;
      outcome := Rescheduled;
    }

    method SchedulePulses(duration: Word) returns (outcome: Outcome)
      requires Loading() && toggling && 0 < duration < cycleTime
      modifies this`waketime, this`wake, this`end, this`func, this`onDuration, this`offDuration
      ensures Valid() && outcome == Rescheduled
      ensures func == Toggle <==> checkEnd ==> loaded + duration < Closest(loaded + duration, endTime)
      ensures func == Toggle ==> wake == loaded + duration && onDuration == duration && onDuration + offDuration == cycleTime
      ensures checkEnd ==> end == (if func == Toggle then Closest(wake, endTime) else Closest(loaded, endTime)) && wake <= end
    {
      hide Wrap, IsBefore, Closest;
      WrapSum(wake, duration);
      var next := Wrap(waketime + duration);
      outcome := Rescheduled;
      if checkEnd {
        ClosestOrder(wake + duration, endTime);
        if !IsBefore(next, endTime) {
          end := Closest(wake, endTime);
          waketime, wake := endTime, end;
          return;
        }
        end := Closest(wake + duration, endTime);
      }
      func := Toggle;
      waketime, wake := next, wake + duration;
      onDuration := duration;
      offDuration := cycleTime - duration;
    }

    /** An update with this duration puts the pin under the safety limit. */
    ghost predicate Limited(onDuration: Word)
      reads this`cycleTime
    {
      maxDuration > 0 && if 0 < onDuration < cycleTime then true else (onDuration > 0) != defaultOn
    }

    /** Under the limit a loaded update is protected, exactly when its pulses do not get out of it. */
    lemma {:induction false} LoadedIsProtected(duration: Word, next: Word)
      requires Limited(duration) && pin == (duration > 0) && toggling == (0 < duration < cycleTime)
      requires checkEnd && scheduled && wake <= end && !IsBefore(Wrap(loaded + maxDuration), next)
      requires if toggling && IsBefore(Wrap(loaded + duration), next) then func == Toggle && end == Closest(loaded + duration, next)
               else end == Closest(loaded, next)
      ensures Protected() <==> !(toggling && Escapes(loaded, duration, maxDuration, next))
      ensures !Protected() ==> func == Toggle && end > loaded + maxDuration + HALF
    {
      hide Closest, Wrap, IsBefore;
      if toggling && IsBefore(Wrap(loaded + duration), next) {
        BeyondPulse(loaded, duration, maxDuration, next);
      } else {
        WithinLimit(loaded, maxDuration, next);
      }
    }

    lemma {:induction false} NoLimit(duration: Word, next: Word)
      requires !Limited(duration) && pin == (duration > 0) && toggling == (0 < duration < cycleTime)
      ensures Protected() && !(toggling && Escapes(loaded, duration, maxDuration, next))
    {
    }

    /** An update is limited exactly if there is a limit and it leaves the pin toggling or away from its
        default. */
    lemma {:induction false} LimitedIff(duration: Word)
      requires pin == (duration > 0) && toggling == (0 < duration < cycleTime)
      ensures Limited(duration) <==> maxDuration > 0 && (toggling || pin != defaultOn)
    {
    }

    /** Change the length of the cycle, unless updates are pending. */
    method SetPwmCycle(cycleTicks: Word) returns (outcome: Outcome)
      requires Valid()
      modifies this
      ensures Valid() && (old(Protected()) ==> Protected())
      ensures outcome == if old(mq) != [] then Shutdown else Finished
      ensures outcome == Shutdown ==> Protected() && pin == defaultOn && !toggling && !scheduled && mq == []
      ensures outcome == Finished ==>
        cycleTime == cycleTicks && unchanged(this`pin, this`toggling, this`checkEnd, this`scheduled, this`wake, this`end, this`mq)
    {
      if mq != [] {
        DigitalOutShutdown();
        return Shutdown;
      }
      cycleTime := cycleTicks;
      outcome := Finished;
    }

    /** The true time a clock received at true time `now` stands for: that closest to the time it is
        compared with. */
    ghost function DueTime(time: Word, now: int): int
      reads this`checkEnd, this`end, this`toggling, this`wake
    {
      Closest(if checkEnd then end else if toggling then wake else now, time)
    }

    /** Queue an update for a later time. */
    method QueueDigitalOut(time: Word, onTicks: Word, ghost now: int) returns (outcome: Outcome)
      requires Valid()
      modifies this
      ensures Valid() && (old(Protected()) ==> Protected()) && cycleTime == old(cycleTime)
      // an update beyond the limit shuts the pin down
      ensures outcome == Shutdown <==> old(mq) == [] && old(checkEnd) && old(end) < old(DueTime(time, now))
      ensures outcome == Shutdown ==> Protected() && pin == defaultOn && !toggling && !scheduled && mq == []
      ensures outcome != Shutdown ==>
        && mq == old(mq) + [DigitalMove(time, onTicks)] && checkEnd && scheduled
        && unchanged(this`pin, this`toggling, this`loaded, this`onDuration, this`offDuration)
        && end == (if old(mq) != [] then old(end) else old(DueTime(time, now)))
        // toggling goes on until then; otherwise the update is loaded just then
        && if old(mq) != [] || (toggling && old(wake) < end) then wake == old(wake) && func == old(func)
           else wake == end && func == Load
    {
      hide Wrap, IsBefore, Closest;
      var firstOnQueue := mq == [];
      mq := mq + [DigitalMove(time, onTicks)];
      if !firstOnQueue {
        return Finished;
      }
      outcome := ScheduleLoad(time, DueTime(time, now));
    }

    /** The first update on the queue decides when to load next. */
    method ScheduleLoad(time: Word, ghost due: int) returns (outcome: Outcome)
      requires waketime == Wrap(wake) && (checkEnd ==> endTime == Wrap(end)) && Consistent()
      requires |mq| == 1 && mq[0].waketime == time == Wrap(due)
      requires checkEnd ==> due == Closest(end, time)
      requires toggling && !checkEnd ==> due == Closest(wake, time)
      modifies this`pin, this`on, this`toggling, this`checkEnd, this`mq, this`scheduled, this`waketime,
        this`wake, this`endTime, this`end, this`func
      ensures Valid() && (old(Protected()) ==> Protected())
      ensures outcome == Shutdown <==> old(checkEnd) && old(end) < due
      ensures outcome == Shutdown ==> Protected() && pin == defaultOn && !toggling && !scheduled && mq == []
      ensures outcome != Shutdown ==>
        && unchanged(this`mq, this`pin, this`toggling) && checkEnd && scheduled && end == due
        && if toggling && old(wake) < due then wake == old(wake) && func == old(func) else wake == due && func == Load
    {
      hide Wrap, IsBefore, Closest;
      if checkEnd { ClosestOrder(end, time); }
      if checkEnd && IsBefore(endTime, time) {
        DigitalOutShutdown();
        return Shutdown;
      }
      if toggling { WrappedOrder(wake, due); }
      endTime, end, checkEnd := time, due, true;
      if toggling && IsBefore(waketime, time) {
        // the pulses go on; the toggle that reaches the end makes way for the load
      } else {
        // the load itself is the next event
        waketime, wake := time, due;
        func := Load;
        scheduled := true;
      }
      outcome := Finished;
    }

    /** Change the pin at once, at true time `now`. */
    method UpdateDigitalOut(value: bool, nowTime: Word, ghost now: int) returns (outcome: Outcome)
      requires Valid() && nowTime == Wrap(now)
      modifies this
      ensures Valid() && Protected() && cycleTime == old(cycleTime)
      ensures outcome == if old(mq) != [] then Shutdown else Finished
      ensures outcome == Shutdown ==> pin == defaultOn && !toggling && !scheduled && mq == []
      ensures outcome == Finished ==>
        && pin == value && !toggling && mq == [] && loaded == now
        && (scheduled <==> value != defaultOn && maxDuration > 0)
        && (scheduled ==> wake == end && func == Load)
        && (scheduled ==> end == if maxDuration <= HALF then now + maxDuration else now + maxDuration - 0x1_0000_0000)
    {
      hide Closest, Wrap;
      if mq != [] {
        DigitalOutShutdown();
        return Shutdown;
      }
      SetSteady(value, now);
      if value != defaultOn && maxDuration > 0 {
        HoldAway(nowTime, now);
      }
      outcome := Finished;
    }

    /** Drive the pin to a steady value, with nothing scheduled. */
    method SetSteady(value: bool, ghost now: int)
      requires Valid() && mq == []
      modifies this`pin, this`on, this`toggling, this`checkEnd, this`scheduled, this`loaded
      ensures Valid() && pin == value && !toggling && loaded == now && !scheduled && !checkEnd
    {
      hide Wrap;
      pin, on, toggling, checkEnd, scheduled, loaded := value, value, false, false, false, now;
    }

    /** Hold the pin where it is until the limit. */
    method HoldAway(nowTime: Word, ghost now: int)
      requires Valid() && mq == [] && nowTime == Wrap(now) && !toggling && loaded == now
      modifies this`checkEnd, this`waketime, this`wake, this`endTime, this`end, this`func, this`scheduled
      ensures Valid() && Protected() && scheduled && func == Load
      ensures wake == end == if maxDuration <= HALF then now + maxDuration else now + maxDuration - 0x1_0000_0000
    {
      WrapSum(now, maxDuration);
      ClosestAhead(now, maxDuration);
      ghost var limit := Closest(now, Wrap(now + maxDuration));
      hide Closest, Wrap;
      waketime, wake := Wrap(nowTime + maxDuration), limit;
      endTime, end, func := waketime, wake, Load;
      checkEnd, scheduled := true, true;
    }
  }

  /** Seen from a time not before it, the end stays where it is, or, from half the counter's range on,
      seems to be ahead again. */
  lemma {:induction false} EndFrom(next: int, end: int)
    requires -HALF <= next - end < 0x1_0000_0000
    ensures Closest(next, Wrap(end)) == if next - end < HALF then end else end + 0x1_0000_0000
  {
    hide Closest, Wrap;
    if next - end < HALF {
      ClosestIs(next, end);
    } else {
      WrapAround(end + 0x1_0000_0000);
      ClosestIs(next, end + 0x1_0000_0000);
    }
  }

  /** Nothing is beyond its own limit. */
  lemma {:induction false} LimitItself(t: int, limit: Word)
    ensures !IsBefore(Wrap(t + limit), Wrap(Wrap(t) + limit))
  {
    WrapSum(t, limit);
  }

  /** Left to its timer, with no command arriving, a protected pin that is toggling or away from
      its default is put back to its default: its timer runs a load event, finds nothing queued,
      and the machine shuts down.  No event happens later than `maxDuration` after the last update. */
  method LeftAlone(d: DigitalOut) returns (outcome: Outcome, ghost last: int)
    requires d.Valid() && d.Protected() && d.mq == []
    requires d.maxDuration > 0 && (d.toggling || d.pin != d.defaultOn)
    requires d.func == Toggle ==> d.onDuration <= HALF && d.offDuration <= HALF
    modifies d
    ensures outcome == Shutdown && d.pin == d.defaultOn && !d.scheduled
    ensures last <= old(d.loaded) + d.maxDuration
  {
    while d.func == Toggle
      invariant d.Valid() && d.Protected() && d.mq == [] && d.checkEnd
      invariant d.func == Toggle ==> d.onDuration <= HALF && d.offDuration <= HALF
      invariant d.loaded == old(d.loaded) && d.end == old(d.end)
      decreases d.end - d.wake, d.func == Toggle
    {
      var _ := d.ToggleEvent();
    }
    last := d.wake;
    outcome := d.LoadEvent();
  }

  /** Changes of a pin that is high first: every pulse lasts `on` and every pause `off`. */
  ghost predicate Train(at: seq<int>, on: int, off: int) {
    forall k :: 0 <= k < |at| - 1 ==> at[k + 1] - at[k] == if k % 2 == 0 then on else off
  }

  lemma {:induction false} TrainMore(at: seq<int>, on: int, off: int, next: int)
    requires Train(at, on, off) && at != []
    requires next - at[|at| - 1] == if |at| % 2 == 1 then on else off
    ensures Train(at + [next], on, off)
  {
    var t := at + [next];
    forall k | 0 <= k < |t| - 1 ensures t[k + 1] - t[k] == if k % 2 == 0 then on else off {
      if k < |at| - 1 {
        assert at[k + 1] - at[k] == if k % 2 == 0 then on else off;
      }
    }
  }

  /** Every two changes take a pulse and a pause. */
  lemma {:induction false} TrainCycles(at: seq<int>, on: int, off: int, k: nat)
    requires Train(at, on, off) && k < |at| - 2
    ensures at[k + 2] - at[k] == on + off
  {
    assert at[k + 1] - at[k] == if k % 2 == 0 then on else off;
    assert at[(k + 1) + 1] - at[k + 1] == if (k + 1) % 2 == 0 then on else off;
  }

  /** The pulses of an update, from its load through the next `n` toggles or up to the next load: the
      pin changes at the times `at`, the first of which is the load.  Every pulse lasts `onDuration`,
      every pause `offDuration`, and every two changes take a cycle. */
  method PulseTrain(d: DigitalOut, n: nat) returns (ghost at: seq<int>)
    requires d.Valid() && d.scheduled && d.func == Toggle && d.pin
    requires d.wake == d.loaded + d.onDuration && d.onDuration + d.offDuration == d.cycleTime
    modifies d
    ensures d.Valid() && 1 <= |at| <= n + 1 && at[0] == old(d.loaded) && d.pin == (|at| % 2 == 1)
    ensures Train(at, old(d.onDuration), old(d.offDuration))
    ensures forall k :: 0 <= k < |at| - 2 ==> at[k + 2] - at[k] == old(d.cycleTime)
    ensures |at| <= n ==>
      d.func == Load && d.wake <= at[|at| - 1] + if d.pin then old(d.onDuration) else old(d.offDuration)
  {
    hide *;
    ghost var on: int, off: int := d.onDuration, d.offDuration;
    at := [d.loaded];
    FirstChange(d.loaded, on, off);
    var i := 0;
    while i < n && d.func == Toggle
      invariant d.Valid() && d.scheduled && i <= n && |at| == i + 1 && at[0] == old(d.loaded)
      invariant d.pin == (|at| % 2 == 1) && d.onDuration == on && d.offDuration == off
      invariant Train(at, on, off)
      invariant d.wake <= at[|at| - 1] + if d.pin then on else off
      invariant d.func == Toggle ==> d.wake == at[|at| - 1] + if d.pin then on else off
    {
      TrainMore(at, on, off, d.wake);
      at := at + [d.wake];
      var _ := d.ToggleEvent();
      i := i + 1;
    }
    forall k | 0 <= k < |at| - 2 ensures at[k + 2] - at[k] == old(d.cycleTime) {
      TrainCycles(at, on, off, k);
    }
  }

  lemma {:induction false} FirstChange(t: int, on: int, off: int)
    ensures Train([t], on, off)
  {
  }

  /** The limit missed: with a limit of 1000 ticks, pulses of 3000 ticks in every 5000 are queued for
      clock 1000, and behind them an update for a clock half the counter's range away.  No shutdown
      stops the pulses, and the next update is not due until more than 2^31 ticks after they began. */
  method LimitMissed(now: int, onTicks: Word) returns (d: DigitalOut)
    ensures d.Valid() && !d.Protected() && d.toggling && d.func == Toggle && d.maxDuration == 1000
    ensures d.mq == [DigitalMove(0x8000_09C4, onTicks)] && d.end > d.loaded + HALF
  {
    hide Closest, Wrap, IsBefore, Escapes;
    d := new DigitalOut(false, false, 1000);
    var outcome := d.SetPwmCycle(5000);
    outcome := d.QueueDigitalOut(1000, 3000, now);
    outcome := d.QueueDigitalOut(0x8000_09C4, onTicks, now);
    FarClock(d.wake);
    ClosestOrder(d.wake + 1000, 0x8000_09C4);
    ClosestOrder(d.wake + 3000, 0x8000_09C4);
    outcome := d.LoadEvent();
  }

  lemma {:induction false} FarClock(t: int)
    requires Wrap(t) == 1000
    ensures Escapes(t, 3000, 1000, 0x8000_09C4)
    ensures !IsBefore(Wrap(t + 1000), 0x8000_09C4) && IsBefore(Wrap(t + 3000), 0x8000_09C4)
  {
    WrapOfDifference(0x8000_09C4, t);
    assert Wrap(0x8000_09C4 - t) == 0x8000_05DC;
    hide Wrap, IsBefore;
    EscapeWindow(t, 3000, 1000, 0x8000_09C4);
  }
}
