/** Extending the 32-bit clock: the firmware's uptime and the host's tracking of it. */
module Clock {
  import opened Words32

  function HighWord(t: int): int {
    t / 0x1_0000_0000
  }

  lemma {:induction false} Split(t: int)
    ensures t == HighWord(t) * 0x1_0000_0000 + Wrap(t)
  {
  }

  /** Adding one to the high word when the low word went down accounts for all of the time passed but
      the whole ranges of the counter in it. */
  lemma {:induction false} OneWrapCounts(from: int, to: int)
    requires from <= to
    ensures HighWord(to) ==
            HighWord(from) + (if Wrap(to) < Wrap(from) then 1 else 0) + (to - from) / 0x1_0000_0000
  {
    Split(from);
    Split(to);
    Split(to - from);
    hide HighWord;
  }

  // ------------------------------------------------------------ the firmware

  class Uptime {
    var sendTime: Word
    var sendTimeHigh: Word
    /** The ticks in five seconds. */
    const ticks: Word
    /** The true clock at the last report, and at the last call. */
    ghost var sent: int
    ghost var last: int
    /** How many whole ranges of the counter have gone by unnoticed between reports. */
    ghost var missed: nat

    ghost predicate Valid()
      reads this
    {
      && sendTime == Wrap(sent) && sendTimeHigh == Wrap(HighWord(sent) - missed)
      && 0 <= sent <= last && missed <= HighWord(sent)
    }

    /** Calls have come often enough: no range of the counter has been missed, and the last report is
        no older than it should be. */
    ghost predicate UpToDate()
      reads this
    {
      missed == 0 && (last == sent || last - sent < ticks)
    }

    constructor (ticks: Word)
      ensures Valid() && UpToDate() && last == sent == 0 && this.ticks == ticks
    {
      this.ticks := ticks;
      sendTime, sendTimeHigh, sent, last, missed := 0, 0, 0, 0, 0;
    }

    /** Report, if the low words say that it is five seconds since the last report.  `now` is the true
        clock. */
    method StatsUpdate(ghost now: int, cur: Word) returns (reported: bool)
      requires Valid() && cur == Wrap(now) && last <= now
      modifies this
      ensures Valid() && last == now
      ensures reported <==> (now - old(sent) - ticks) % 0x1_0000_0000 < 0x8000_0000
      ensures sent == if reported then now else old(sent)
      ensures missed == old(missed) + if reported then (now - old(sent)) / 0x1_0000_0000 else 0
      // calls less than half the counter's range apart keep it up to date, and report every five seconds
      ensures old(UpToDate()) && ticks < 0x8000_0000 && now - old(last) < 0x8000_0000 ==>
        UpToDate() && (reported <==> now - old(sent) >= ticks)
    {
      hide HighWord;
      DueByLowWords(now, sent, ticks);
      HighWordGrows(sent, now);
      last := now;
      if IsBefore(cur, Wrap(sendTime + ticks)) {
        return false;
      }
      OneWrapCounts(sent, now);
      if cur < sendTime {
        WrapSum(HighWord(sent) - missed, 1);
        sendTimeHigh := Wrap(sendTimeHigh + 1);
      }
      sendTime := cur;
      missed := missed + (now - sent) / 0x1_0000_0000;
      sent := now;
      reported := true;
    }

    /** The uptime is the true 64-bit clock exactly if no range of the counter has been missed, before
        the last report or since; so always with calls often enough. */
    method GetUptime(ghost now: int, cur: Word) returns (high: Word, clock: Word)
      requires Valid() && cur == Wrap(now) && last <= now < 0x1_0000_0000 * 0x1_0000_0000
      ensures high * 0x1_0000_0000 + clock == now <==> missed == 0 && now - sent < 0x1_0000_0000
      ensures UpToDate() && ticks < 0x8000_0000 && now - last < 0x8000_0000 ==> high * 0x1_0000_0000 + clock == now
    {
      hide HighWord;
      high := Wrap(sendTimeHigh + if cur < sendTime then 1 else 0);
      clock := cur;
      WrapSum(HighWord(sent) - missed, if cur < sendTime then 1 else 0);
      OneWrapCounts(sent, now);
      HighWordFits(now);
      HighWordsDiffer(HighWord(now), missed + (now - sent) / 0x1_0000_0000);
      Split(now);
    }
  }

  lemma {:induction false} DueByLowWords(now: int, sent: int, ticks: Word)
    ensures IsBefore(Wrap(now), Wrap(Wrap(sent) + ticks)) <==> (now - sent - ticks) % 0x1_0000_0000 >= 0x8000_0000
  {
    WrapSum(sent, ticks);
    WrapOfDifference(now, sent + ticks);
  }

  lemma {:induction false} HighWordGrows(from: int, to: int)
    requires 0 <= from <= to
    ensures 0 <= HighWord(from) && HighWord(from) + (to - from) / 0x1_0000_0000 <= HighWord(to)
  {
  }

  lemma {:induction false} HighWordFits(t: int)
    requires 0 <= t < 0x1_0000_0000 * 0x1_0000_0000
    ensures 0 <= HighWord(t) < 0x1_0000_0000
  {
  }

  /** A high word that falls short of the true one is not the true one. */
  lemma {:induction false} HighWordsDiffer(high: int, short: int)
    requires 0 <= short <= high < 0x1_0000_0000
    ensures Wrap(high - short) == high <==> short == 0
  {
  }

  // ------------------------------------------------------------ the host

  class ClockSync {
    var lastClock: int

    /** The host starts from the firmware's uptime. */
    constructor (high: Word, clock: Word)
      ensures lastClock == high * 0x1_0000_0000 + clock
    {
      lastClock := high * 0x1_0000_0000 + clock;
    }

    /** A clock sample taken at the true clock `now`: the host's clock becomes the true clock exactly
        if that is not before, and less than the counter's range after, the clock it had. */
    method HandleClock(ghost now: int, clock32: Word)
      requires clock32 == Wrap(now)
      modifies this
      ensures lastClock == now <==> 0 <= now - old(lastClock) < 0x1_0000_0000
      ensures old(lastClock) <= lastClock < old(lastClock) + 0x1_0000_0000 && Wrap(lastClock) == clock32
    {
      ghost var before := lastClock;
      Split(before);
      var clock := lastClock - lastClock % 0x1_0000_0000 + clock32;
      SameLow(HighWord(before), clock32);
      if clock < lastClock {
        clock := clock + 0x1_0000_0000;
        SameLow(HighWord(before) + 1, clock32);
      }
      lastClock := clock;
      Split(now);
      Nearby(before, clock, now);
    }

    /** Every sample of a run is exact when successive samples are less than the counter's range
        apart. */
    method HandleClocks(ghost nows: seq<int>, samples: seq<Word>)
      requires |nows| == |samples| && forall i :: 0 <= i < |nows| ==> samples[i] == Wrap(nows[i])
      requires nows != [] ==> 0 <= nows[0] - lastClock < 0x1_0000_0000
      requires forall i :: 0 < i < |nows| ==> 0 <= nows[i] - nows[i - 1] < 0x1_0000_0000
      modifies this
      ensures lastClock == if nows == [] then old(lastClock) else nows[|nows| - 1]
    {
      for i := 0 to |samples|
        invariant lastClock == if i == 0 then old(lastClock) else nows[i - 1]
      {
        HandleClock(nows[i], samples[i]);
      }
    }

    /** The 64-bit clock nearest to the last one known. */
    function Clock32ToClock64(clock32: Word): int
      reads this
    {
      var diff := (lastClock - clock32) % 0x1_0000_0000;
      if diff >= 0x8000_0000 then lastClock + 0x1_0000_0000 - diff else lastClock - diff
    }

    /** It recovers exactly the clocks from less than half the counter's range before the last known
        clock up to half the range after it. */
    lemma {:induction false} RecoversIff(t: int)
      ensures Clock32ToClock64(Wrap(t)) == t <==> lastClock - 0x8000_0000 < t <= lastClock + 0x8000_0000
    {
      Backwards(lastClock, t);
    }
  }

  lemma {:induction false} SameLow(high: int, low: Word)
    ensures Wrap(high * 0x1_0000_0000 + low) == low
  {
  }

  /** Equal low words a multiple of the range apart. */
  lemma {:induction false} Nearby(before: int, clock: int, now: int)
    requires Wrap(clock) == Wrap(now) && before <= clock < before + 0x1_0000_0000
    ensures clock == now <==> before <= now < before + 0x1_0000_0000
  {
    Split(clock);
    Split(now);
  }

  lemma {:induction false} Backwards(last: int, t: int)
    ensures (last - Wrap(t)) % 0x1_0000_0000 == (last - t) % 0x1_0000_0000
  {
    assert last - Wrap(t) == (last - t) + (t / 0x1_0000_0000) * 0x1_0000_0000;
  }
}
