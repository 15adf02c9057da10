/** Synchronised triggers: the first trigger stops every registered stepper, once. */
module TriggerSync {
  import opened Words32
  import Stepper

  type Reason = x: int | 0 <= x < 0x100

  /** A stepper's stop signal; `active` while it is registered with a trigger. */
  class Signal {
    const stepper: Stepper.Stepper
    var next: Signal?
    var active: bool
    /** How often the signal has been called. */
    ghost var calls: nat

    constructor (stepper: Stepper.Stepper)
      ensures this.stepper == stepper && next == null && !active && calls == 0
    {
      this.stepper, next, active, calls := stepper, null, false, 0;
    }

    /** Stop the stepper this signal belongs to. */
    method Call()
      requires stepper.Valid()
      modifies this`calls, stepper
      ensures calls == old(calls) + 1
      ensures Stopped(stepper) && stepper.pulsed == old(stepper.pulsed)
    {
      calls := calls + 1;
      stepper.Stop();
    }
  }

  /** A stepper that makes no step until its clock is reset. */
  ghost predicate Stopped(s: Stepper.Stepper)
    reads s
  {
    s.Valid() && s.needReset && !s.scheduled && s.count == 0 && s.mq == []
  }

  /** The signals of `l` are linked in that order from `head`. */
  ghost predicate Chained(head: Signal?, l: seq<Signal>)
    reads l`next
    decreases |l|
  {
    if l == [] then head == null else head == l[0] && Chained(l[0].next, l[1..])
  }

  /** Each signal belongs to a stepper of its own. */
  ghost predicate Apart(l: seq<Signal>) {
    forall i, j :: 0 <= i < j < |l| ==> l[i] != l[j] && l[i].stepper != l[j].stepper
  }

  /** A signal that has been called once since it had `calls` calls, and what it has done. */
  ghost predicate Called(s: Signal, calls: nat, pulsed: int)
    reads s, s.stepper
  {
    s.calls == calls + 1 && !s.active && s.next == null && Stopped(s.stepper) && s.stepper.pulsed == pulsed
  }

  ghost predicate Uncalled(s: Signal, calls: nat, pulsed: int)
    reads s`calls, s.stepper
  {
    s.calls == calls && s.stepper.pulsed == pulsed && s.stepper.Valid()
  }

  /** The first `n` signals have been called, the others not yet. */
  ghost predicate CalledUpTo(l: seq<Signal>, calls: seq<nat>, pulsed: seq<int>, n: nat)
    requires n <= |l| == |calls| == |pulsed|
    reads l, set s | s in l :: s.stepper
  {
    && (forall i :: 0 <= i < n ==> Called(l[i], calls[i], pulsed[i]))
    && (forall i :: n <= i < |l| ==> Uncalled(l[i], calls[i], pulsed[i]))
  }

  ghost function Calls(l: seq<Signal>): (c: seq<nat>)
    reads l`calls
    ensures |c| == |l| && forall i :: 0 <= i < |l| ==> c[i] == l[i].calls
  {
    if l == [] then [] else [l[0].calls] + Calls(l[1..])
  }

  ghost function Pulsed(l: seq<Signal>): (p: seq<int>)
    reads set s | s in l :: s.stepper
    ensures |p| == |l| && forall i :: 0 <= i < |l| ==> p[i] == l[i].stepper.pulsed
  {
    if l == [] then [] else [l[0].stepper.pulsed] + Pulsed(l[1..])
  }

  ghost predicate Ready(l: seq<Signal>)
    reads set s | s in l :: s.stepper
  {
    forall i :: 0 <= i < |l| ==> l[i].stepper.Valid()
  }

  lemma {:induction false} ChainHead(head: Signal?, l: seq<Signal>)
    requires Chained(head, l)
    ensures head == null <==> l == []
  {
  }

  /** Unregister every signal of a list. */
  method Release(head: Signal?, ghost l: seq<Signal>)
    requires Chained(head, l) && Apart(l)
    modifies l`active, l`next
    ensures forall i :: 0 <= i < |l| ==> !l[i].active && l[i].next == null
  {
    ghost var n := 0;
    var tss := head;
    while tss != null
      invariant 0 <= n <= |l| && Chained(tss, l[n..])
      invariant forall i :: 0 <= i < n ==> !l[i].active && l[i].next == null
      decreases |l| - n
    {
      var next := tss.next;
      assert tss == l[n] && l[n..][1..] == l[n + 1..] && tss !in l[n + 1..];
      tss.active := false;
      tss.next := null;
      tss := next;
      n := n + 1;
    }
  }

  class TriggerSync {
    var signals: Signal?
    var canTrigger: bool
    var report: bool
    var triggerReason: Reason
    var expireReason: Reason
    var reportTicks: Word
    var reportWake: Word
    var expireWake: Word
    /** Whether the two timers are scheduled. */
    ghost var reporting: bool
    ghost var expiring: bool
    /** The registered signals. */
    ghost var list: seq<Signal>
    /** The triggers that have taken effect since the last start. */
    ghost var effects: seq<Reason>

    ghost predicate Valid()
      reads this`signals, this`canTrigger, this`triggerReason, this`list, this`effects, list`next, list`active
    {
      && Chained(signals, list) && Apart(list)
      && (forall i :: 0 <= i < |list| ==> list[i].active)
      && |effects| <= 1
      && (canTrigger ==> effects == [])
      && triggerReason == if effects == [] then 0 else effects[0]
    }

    constructor ()
      ensures Valid() && !canTrigger && list == [] && effects == []
    {
      signals, canTrigger, report, triggerReason, expireReason := null, false, false, 0, 0;
      reportTicks, reportWake, expireWake := 0, 0, 0;
      reporting, expiring, list, effects := false, false, [], [];
    }

    /** Activate a trigger.  The first one since the start takes effect: it calls every registered
        signal exactly once.  Any other does nothing. */
    method DoTrigger(reason: Reason)
      requires Valid() && Ready(list)
      modifies this`signals, this`canTrigger, this`report, this`triggerReason, this`list, this`effects,
        list, set s | s in list :: s.stepper
      ensures Valid() && !canTrigger
      ensures old(canTrigger) ==>
        && effects == [reason] && report && list == []
        && forall i :: 0 <= i < |old(list)| ==>
             Called(old(list)[i], old(list[i].calls), old(list[i].stepper.pulsed))
      ensures !old(canTrigger) ==>
        && effects == old(effects) && report == old(report) && list == old(list)
        && forall i :: 0 <= i < |list| ==>
             list[i].calls == old(list[i].calls) && list[i].stepper.pulsed == old(list[i].stepper.pulsed)
    {
      hide Called, Chained, Apart, Stopped;
      if !canTrigger {
        return;
      }
      triggerReason := reason;
      canTrigger := false;
      report := true;
      effects := effects + [reason];
      CallSignals(Calls(list), Pulsed(list));
    }

    /** Unregister the first signal. */
    method PopSignal() returns (s: Signal)
      requires list != [] && Chained(signals, list) && Apart(list)
      modifies this`signals, this`list, list`next, list`active
      ensures s == old(list)[0] && s.next == null && !s.active
      ensures list == old(list)[1..] && Chained(signals, list)
    {
      s := signals;
      signals := s.next;
      list := list[1..];
      assert s !in list;
      s.next := null;
      s.active := false;
    }

    /** Unregister the first signal and call it. */
    method CallFirst(ghost calls: nat, ghost pulsed: int)
      requires list != [] && Chained(signals, list) && Apart(list) && Uncalled(list[0], calls, pulsed)
      modifies this`signals, this`list, list`next, list`active, list[0], list[0].stepper
      ensures Called(old(list)[0], calls, pulsed)
      ensures list == old(list)[1..] && Chained(signals, list)
    {
      hide Chained, Apart, Stopped;
      var s := PopSignal();
      s.Call();
    }

    /** Dispatch the registered signals. */
    method CallSignals(ghost calls: seq<nat>, ghost pulsed: seq<int>)
      requires Chained(signals, list) && Apart(list) && |calls| == |list| == |pulsed|
      requires forall i :: 0 <= i < |list| ==> Uncalled(list[i], calls[i], pulsed[i])
      modifies this`signals, this`list, list, set s | s in list :: s.stepper
      ensures list == [] && Chained(signals, list) && Apart(list)
      ensures forall i :: 0 <= i < |old(list)| ==> Called(old(list)[i], calls[i], pulsed[i])
    {
      hide Chained, Called, Uncalled;
      ghost var all, n := list, 0;
      while signals != null
        invariant 0 <= n <= |all| && list == all[n..] && Chained(signals, list)
        invariant CalledUpTo(all, calls, pulsed, n)
        decreases |all| - n
      {
        ChainHead(signals, list);
        CallNext(all, calls, pulsed, n);
        n := n + 1;
      }
      ChainHead(signals, list);
    }

    /** Call the first signal of those that are left, without touching the others. */
    method CallNext(ghost all: seq<Signal>, ghost calls: seq<nat>, ghost pulsed: seq<int>, ghost n: nat)
      requires n < |all| && |calls| == |all| == |pulsed| && list == all[n..] && Chained(signals, list) && Apart(all)
      requires CalledUpTo(all, calls, pulsed, n)
      modifies this`signals, this`list, list`next, list`active, list[0], list[0].stepper
      ensures list == all[n + 1..] && Chained(signals, list) && CalledUpTo(all, calls, pulsed, n + 1)
    {
      hide Chained, Called, Uncalled;
      assert list[0] == all[n];
      CallFirst(calls[n], pulsed[n]);
    }

    /** Register a signal to be called on a trigger.  A signal can be registered only once. */
    method AddSignal(s: Signal) returns (ok: bool)
      requires Valid()
      requires s !in list ==> forall i :: 0 <= i < |list| ==> list[i].stepper != s.stepper
      modifies this`signals, this`list, s`active, s`next
      ensures Valid() && ok == !old(s.active)
      ensures list == if ok then [s] + old(list) else old(list)
    {
      if s.active {
        return false;
      }
      assert s !in list;
      s.active := true;
      s.next := signals;
      signals := s;
      list := [s] + list;
      ok := true;
    }

    /** Nothing is registered any more, and nothing has been called for it. */
    method Clear()
      requires Valid()
      modifies this, list`active, list`next
      ensures Valid() && !canTrigger && list == [] && effects == [] && !report && expireReason == 0
      ensures !reporting && !expiring
      ensures reportTicks == old(reportTicks)
      ensures forall i :: 0 <= i < |old(list)| ==> !old(list)[i].active && old(list)[i].next == null
    {
      reporting, expiring := false, false;
      Release(signals, list);
      signals, list := null, [];
      canTrigger, report, triggerReason, expireReason, effects := false, false, 0, 0, [];
    }

    /** Begin a new round: nothing registered, and the next trigger will take effect. */
    method Start(reportClock: Word, reportTicks: Word, expireReason: Reason)
      requires Valid()
      modifies this, list`active, list`next
      ensures Valid() && canTrigger && list == [] && effects == [] && !report
      ensures this.expireReason == expireReason && this.reportTicks == reportTicks && reportWake == reportClock
      ensures !expiring && (reporting <==> reportTicks != 0)
      ensures forall i :: 0 <= i < |old(list)| ==> !old(list)[i].active
    {
      Clear();
      canTrigger := true;
      reportWake := reportClock;
      this.reportTicks := reportTicks;
      reporting := reportTicks != 0;
      this.expireReason := expireReason;
    }

    /** Set the time at which the trigger fires by itself, unless it has fired already. */
    method SetTimeout(clock: Word)
      requires Valid()
      modifies this`expireWake, this`expiring
      ensures Valid()
      ensures if canTrigger then expiring && expireWake == clock
              else expiring == old(expiring) && expireWake == old(expireWake)
    {
      if canTrigger {
        expireWake := clock;
        expiring := true;
      }
    }

    /** The timeout: a trigger with the reason given at the start. */
    method ExpireEvent()
      requires Valid() && Ready(list) && expiring
      modifies this`signals, this`canTrigger, this`report, this`triggerReason, this`list, this`effects, this`expiring,
        list, set s | s in list :: s.stepper
      ensures Valid() && !canTrigger && !expiring
      ensures effects == if old(canTrigger) then [expireReason] else old(effects)
      ensures old(canTrigger) ==>
        list == [] && forall i :: 0 <= i < |old(list)| ==>
          Called(old(list)[i], old(list[i].calls), old(list[i].stepper.pulsed))
    {
      hide *;
      expiring := false;
      DoTrigger(expireReason);
    }

    /** Trigger by command, and report the reason of the trigger that took effect in this round. */
    method TriggerCommand(reason: Reason) returns (reported: Reason)
      requires Valid() && Ready(list)
      modifies this, list, set s | s in list :: s.stepper
      ensures Valid() && !canTrigger && !report && !reporting && !expiring
      ensures effects == if old(canTrigger) then [reason] else old(effects)
      ensures reported == if effects == [] then 0 else effects[0]
      ensures old(canTrigger) ==>
        list == [] && forall i :: 0 <= i < |old(list)| ==>
          Called(old(list)[i], old(list[i].calls), old(list[i].stepper.pulsed))
    {
      hide Ready, Stopped, Apart;
      DoTrigger(reason);
      reporting, expiring := false, false;
      canTrigger, report := false, false;
      reported := triggerReason;
    }

    method ReportEvent()
      requires Valid() && reporting
      modifies this`report, this`reportWake
      ensures Valid() && report && reportWake == Wrap(old(reportWake) + reportTicks)
    {
      report := true;
      reportWake := Wrap(reportWake + reportTicks);
    }

    /** The report task: what it sends while a report is due. */
    method ReportTask() returns (sent: bool, trigger: bool, reason: Reason)
      requires Valid()
      modifies this`report
      ensures Valid() && !report && sent == old(report)
      ensures sent ==> trigger == canTrigger && reason == if effects == [] then 0 else effects[0]
    {
      sent, trigger, reason := report, canTrigger, triggerReason;
      report := false;
    }
  }
}
