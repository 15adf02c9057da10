/** Look-ahead planning over squared velocities: what a queue of moves is planned to do.

    Every quantity is defined move by move, from the limits of the moves alone, with no
    reference to the order in which the planner's loop fills it in.  `MoveQueue` holds the
    loop and is proved to compute exactly these values. */
module LookAhead {

  /** The limits the planner knows about one move.  All are squared velocities. */
  datatype Limits = Limits(
    maxStart: real,      // highest speed at which the move may be entered
    maxCruise: real,     // highest speed anywhere in the move
    delta: real,         // how much the squared velocity can change within the move
    maxSmoothed: real,   // maxStart under the smoothed (acceleration-to-deceleration) profile
    smoothDelta: real)   // delta under the smoothed profile

  /** The speeds a move is committed with. */
  datatype Plan = Plan(start: real, cruise: real, end: real)

  function Min(a: real, b: real): real {
    if a <= b then a else b
  }

  predicate Sound(m: Limits) {
    && 0.0 < m.smoothDelta <= m.delta
    && 0.0 < m.maxCruise
    && 0.0 <= m.maxSmoothed <= m.maxStart <= m.maxCruise
  }

  /** What the junction computation guarantees between a move and its predecessor. */
  predicate Follows(m: Limits, prev: Limits) {
    && m.maxStart <= prev.maxCruise
    && m.maxStart <= prev.maxStart + prev.delta
    && m.maxSmoothed == Min(m.maxStart, prev.maxSmoothed + prev.smoothDelta)
  }

  /** A stretch of moves, possibly the tail of a longer path. */
  ghost predicate Chain(q: seq<Limits>) {
    && (forall i :: 0 <= i < |q| ==> Sound(q[i]))
    && (forall i, j :: 0 <= i && j == i + 1 < |q| ==> Follows(q[j], q[i]))
  }

  /** A whole path, which begins at rest. */
  ghost predicate Path(q: seq<Limits>) {
    && Chain(q)
    && (q != [] ==> q[0].maxStart == 0.0)
  }

  // ------------------------------------------------------------ the two backward profiles

  /** Highest speed at which move `i` can be entered so that the queue can still end at rest. */
  ghost function Start(q: seq<Limits>, i: nat): real
    decreases |q| - i
  {
    if i >= |q| then 0.0 else Min(q[i].maxStart, Start(q, i + 1) + q[i].delta)
  }

  /** The same under the smoothed profile. */
  ghost function Smoothed(q: seq<Limits>, i: nat): real
    decreases |q| - i
  {
    if i >= |q| then 0.0 else Min(q[i].maxSmoothed, Smoothed(q, i + 1) + q[i].smoothDelta)
  }

  /** Move `i` may accelerate: its smoothed entry speed is not bound by having to stop later. */
  ghost predicate Accelerates(q: seq<Limits>, i: nat) {
    i < |q| && q[i].maxSmoothed < Smoothed(q, i + 1) + q[i].smoothDelta
  }

  /** Move `i` tops out: it can also decelerate, or the moves after it only decelerate. */
  ghost predicate Turns(q: seq<Limits>, i: nat) {
    && Accelerates(q, i)
    && (|| Smoothed(q, i) + q[i].smoothDelta > Smoothed(q, i + 1)
        || (i + 1 < |q| && !Accelerates(q, i + 1)))
  }

  ghost predicate HasTurn(q: seq<Limits>, i: nat) {
    exists j :: i <= j < |q| && Turns(q, j)
  }

  /** The peak cruising speed set by the first turn at or after move `i`. */
  ghost function Peak(q: seq<Limits>, i: nat): real
    decreases |q| - i
  {
    if i >= |q| then 0.0
    else if Turns(q, i) then Min(q[i].maxCruise, (Smoothed(q, i) + (Smoothed(q, i + 1) + q[i].smoothDelta)) * 0.5)
    else Peak(q, i + 1)
  }

  /** The cruising speed of a move that only decelerates: the peak of the last accelerating move
      before it, worn down by the entry speeds since. */
  ghost function Cap(q: seq<Limits>, i: nat): real {
    if i == 0 || Accelerates(q, i) then Peak(q, i) else Min(Cap(q, i - 1), Start(q, i))
  }

  /** The speeds move `i` gets when the whole queue is flushed at once. */
  ghost function PlanAt(q: seq<Limits>, i: nat): Plan
    requires i < |q|
  {
    var start, end := Start(q, i), Start(q, i + 1);
    var cruise :=
      if Accelerates(q, i)
      then Min(Min((start + (end + q[i].delta)) * 0.5, q[i].maxCruise), Peak(q, i))
      else Cap(q, i);
    Plan(Min(start, cruise), cruise, Min(end, cruise))
  }

  /** The last turn that has another turn behind it, or -1: a lazy flush commits the moves
      before it. */
  ghost function Split(q: seq<Limits>, i: nat): (f: int)
    ensures -1 <= f < |q|
    ensures f >= 0 ==> i <= f && Turns(q, f) && HasTurn(q, f + 1)
    decreases |q| - i
  {
    if i >= |q| then -1
    else
      var f := Split(q, i + 1);
      if f >= 0 then f else if Turns(q, i) && HasTurn(q, i + 1) then i else -1
  }

  /** A prefix of `c` moves that no later move can affect. */
  ghost predicate Settled(q: seq<Limits>, c: nat) {
    c == 0 || (c < |q| && Turns(q, c) && HasTurn(q, c + 1))
  }

  // ------------------------------------------------------------ bounds on the profiles

  lemma {:induction false} ProfileBounds(q: seq<Limits>, i: nat)
    requires Chain(q)
    ensures 0.0 <= Smoothed(q, i) <= Start(q, i)
    ensures i < |q| ==> Smoothed(q, i) <= q[i].maxSmoothed && Start(q, i) <= q[i].maxStart
    ensures Accelerates(q, i) ==> Smoothed(q, i) == q[i].maxSmoothed
    decreases |q| - i
  {
    if i < |q| {
      assert Sound(q[i]);
      ProfileBounds(q, i + 1);
    }
  }

  /** Later moves can only raise both profiles. */
  lemma {:induction false} ProfilesGrow(q: seq<Limits>, r: seq<Limits>, i: nat)
    requires Chain(r) && q <= r && i <= |q|
    ensures Start(q, i) <= Start(r, i)
    ensures Smoothed(q, i) <= Smoothed(r, i)
    decreases |q| - i
  {
    if i < |q| {
      ProfilesGrow(q, r, i + 1);
    } else {
      ProfileBounds(r, i);
    }
  }

  /** Where both profiles agree they agree at every earlier move, and so does everything
      that is derived from them. */
  lemma {:induction false} ProfilesAgree(q: seq<Limits>, r: seq<Limits>, k: nat, i: nat)
    requires q <= r && i <= k < |q|
    requires Start(q, k) == Start(r, k) && Smoothed(q, k) == Smoothed(r, k)
    ensures Start(q, i) == Start(r, i) && Smoothed(q, i) == Smoothed(r, i)
    ensures i < k ==> Accelerates(q, i) == Accelerates(r, i)
    decreases k - i
  {
    if i < k {
      ProfilesAgree(q, r, k, i + 1);
    }
  }

  lemma {:induction false} LinkUp(q: seq<Limits>, i: nat)
    requires Chain(q) && i + 1 < |q|
    ensures Sound(q[i]) && Sound(q[i + 1]) && Follows(q[i + 1], q[i])
  {
  }

  /** Peak covers the smoothed speed of an accelerating move and of the move after a turn. */
  lemma {:induction false} PeakCovers(q: seq<Limits>, i: nat)
    requires Chain(q) && Accelerates(q, i)
    ensures HasTurn(q, i)
    ensures 0.0 < Peak(q, i)
    ensures Smoothed(q, i) <= Peak(q, i)
    ensures Turns(q, i) ==> Smoothed(q, i + 1) <= Peak(q, i) <= q[i].maxCruise
    decreases |q| - i
  {
    ProfileBounds(q, i);
    ProfileBounds(q, i + 1);
    if i + 1 < |q| { LinkUp(q, i); }
    if Turns(q, i) {
      assert i <= i < |q| && Turns(q, i);
    } else {
      assert i + 1 < |q|;
      PeakCovers(q, i + 1);
      var j :| i + 1 <= j < |q| && Turns(q, j);
      assert i <= j < |q| && Turns(q, j);
    }
  }

  lemma {:induction false} PeakIsPositive(q: seq<Limits>, i: nat)
    requires Chain(q)
    ensures 0.0 <= Peak(q, i)
    ensures Peak(q, i) != 0.0 <==> HasTurn(q, i)
    decreases |q| - i
  {
    if i < |q| {
      if Turns(q, i) {
        PeakCovers(q, i);
      } else {
        PeakIsPositive(q, i + 1);
        assert HasTurn(q, i) <==> HasTurn(q, i + 1) by {
          if HasTurn(q, i + 1) {
            var j :| i + 1 <= j < |q| && Turns(q, j);
            assert i <= j < |q| && Turns(q, j);
          }
        }
      }
    }
  }

  /** Speeds `v` at the boundaries of the queue that keep every junction limit, can always slow
      down in time, and end at rest. */
  ghost predicate CanStop(q: seq<Limits>, v: seq<real>) {
    && |v| == |q| + 1
    && v[|q|] == 0.0
    && forall i :: 0 <= i < |q| ==> v[i] <= q[i].maxStart && v[i] <= v[i + 1] + q[i].delta
  }

  /** `Start` is the fastest such profile: it is one, and no other exceeds it anywhere. */
  lemma {:induction false} StartIsFastest(q: seq<Limits>, v: seq<real>, i: nat)
    requires CanStop(q, v) && i <= |q|
    ensures v[i] <= Start(q, i)
    ensures CanStop(q, seq(|q| + 1, j requires 0 <= j <= |q| => Start(q, j)))
    decreases |q| - i
  {
    if i < |q| {
      StartIsFastest(q, v, i + 1);
    }
  }

  /** Speeds at the boundaries of the queue that keep every smoothed limit, can slow down in time
      under the smoothed profile, and end at rest. */
  ghost predicate CanStopSmoothly(q: seq<Limits>, v: seq<real>) {
    && |v| == |q| + 1
    && v[|q|] == 0.0
    && forall i :: 0 <= i < |q| ==> v[i] <= q[i].maxSmoothed && v[i] <= v[i + 1] + q[i].smoothDelta
  }

  /** `Smoothed` is the fastest such profile: it is one, and no other exceeds it anywhere. */
  lemma {:induction false} SmoothedIsFastest(q: seq<Limits>, v: seq<real>, i: nat)
    requires CanStopSmoothly(q, v) && i <= |q|
    ensures v[i] <= Smoothed(q, i)
    ensures CanStopSmoothly(q, seq(|q| + 1, j requires 0 <= j <= |q| => Smoothed(q, j)))
    decreases |q| - i
  {
    if i < |q| {
      SmoothedIsFastest(q, v, i + 1);
    }
  }

  // ------------------------------------------------------------ what the peaks and caps are

  /** From its smoothed entry speed move `i` can reach speed `p` and slow down again to the next
      smoothed speed, within its smoothed delta. */
  ghost predicate Peaks(q: seq<Limits>, i: nat, p: real)
    requires i < |q|
  {
    (p - Smoothed(q, i)) + (p - Smoothed(q, i + 1)) <= q[i].smoothDelta
  }

  /** A move accelerates exactly if it need not spend all of its smoothed delta on slowing down, and
      tops out exactly if it can moreover rise above the next smoothed speed, or the move after it
      only decelerates. */
  lemma {:induction false} TurnsIff(q: seq<Limits>, i: nat)
    requires i < |q|
    ensures Accelerates(q, i) <==> Smoothed(q, i) - Smoothed(q, i + 1) < q[i].smoothDelta
    ensures Turns(q, i) <==>
      && Accelerates(q, i)
      && (Rises(q, i) || (i + 1 < |q| && !Accelerates(q, i + 1)))
  {
    var top := (Smoothed(q, i) + Smoothed(q, i + 1) + q[i].smoothDelta) * 0.5;
    assert Peaks(q, i, top);
  }

  ghost predicate Rises(q: seq<Limits>, i: nat)
    requires i < |q|
  {
    exists p: real :: p > Smoothed(q, i + 1) && Peaks(q, i, p)
  }

  /** The peak of a turn is the highest speed the move allows that it can reach and slow down from
      under the smoothed profile. */
  lemma {:induction false} PeakIsHighest(q: seq<Limits>, i: nat, p: real)
    requires Turns(q, i)
    ensures Peak(q, i) <= q[i].maxCruise && Peaks(q, i, Peak(q, i))
    ensures p <= q[i].maxCruise && Peaks(q, i, p) ==> p <= Peak(q, i)
  {
  }

  /** Any other move has the peak of the next turn, or none when there is no turn to come. */
  lemma {:induction false} PeakOfNextTurn(q: seq<Limits>, i: nat, j: nat)
    requires i <= j <= |q| && forall k :: i <= k < j ==> !Turns(q, k)
    ensures Peak(q, i) == Peak(q, j)
    ensures j == |q| ==> Peak(q, i) == 0.0
    decreases j - i
  {
    if i < j {
      PeakOfNextTurn(q, i + 1, j);
    }
  }

  /** A speed that move `i` can have when move `j` is the last one before it to accelerate: no more
      than the peak of that move and than the entry speeds since. */
  ghost predicate Carried(q: seq<Limits>, j: nat, i: nat, c: real) {
    c <= Peak(q, j) && forall k :: j < k <= i ==> c <= Start(q, k)
  }

  /** The cap is the highest such speed. */
  lemma {:induction false} CapIsHighest(q: seq<Limits>, j: nat, i: nat, c: real)
    requires j <= i && Accelerates(q, j) && forall k :: j < k <= i ==> !Accelerates(q, k)
    ensures Carried(q, j, i, Cap(q, i))
    ensures Carried(q, j, i, c) ==> c <= Cap(q, i)
    decreases i
  {
    if j < i {
      CapIsHighest(q, j, i - 1, c);
      assert Carried(q, j, i, c) ==> Carried(q, j, i - 1, c);
    }
  }

  /** The plan of an accelerating move cruises at the highest speed its limit and its peak allow from
      which its length suffices, and the plan of any other move at the cap; both are entered and left
      as fast as the profile and the cruising speed allow. */
  lemma {:induction false} PlanIsFastest(q: seq<Limits>, i: nat, c: real)
    requires i < |q|
    ensures var p := PlanAt(q, i);
      && (Accelerates(q, i) ==> Cruises(q, i, p.cruise) && (Cruises(q, i, c) ==> c <= p.cruise))
      && (!Accelerates(q, i) ==> p.cruise == Cap(q, i))
      && p.start <= Start(q, i) && p.start <= p.cruise && (c <= Start(q, i) && c <= p.cruise ==> c <= p.start)
      && p.end <= Start(q, i + 1) && p.end <= p.cruise && (c <= Start(q, i + 1) && c <= p.cruise ==> c <= p.end)
  {
  }

  ghost predicate Cruises(q: seq<Limits>, i: nat, c: real)
    requires i < |q|
  {
    c <= q[i].maxCruise && c <= Peak(q, i) && (c - Start(q, i)) + (c - Start(q, i + 1)) <= q[i].delta
  }

  /** No prefix longer than the one before the split is settled: a lazy flush commits all it can. */
  lemma {:induction false} SplitIsLast(q: seq<Limits>, i: nat, c: nat)
    requires i <= c && Settled(q, c) && c > 0
    ensures c <= Split(q, i)
    decreases c - i
  {
    if i < c {
      SplitIsLast(q, i + 1, c);
    }
  }

  // ------------------------------------------------------------ stability of a settled prefix

  /** The next accelerating move after a turn, when there is one, is entered at its own limit. */
  lemma {:induction false} NextAccelerating(q: seq<Limits>, f: nat, h: nat) returns (k: nat)
    requires Chain(q) && f < h < |q| && Accelerates(q, h)
    ensures f < k <= h && Accelerates(q, k)
    ensures forall j :: f < j < k ==> !Accelerates(q, j)
    decreases h - f
  {
    k := f + 1;
    while !Accelerates(q, k)
      invariant f < k <= h
      invariant forall j :: f < j < k ==> !Accelerates(q, j)
      decreases h - k
    {
      k := k + 1;
    }
  }

  lemma {:induction false} AfterTurnAtLimit(q: seq<Limits>, f: nat, k: nat)
    requires Chain(q) && Turns(q, f) && f < k && Accelerates(q, k)
    requires forall j :: f < j < k ==> !Accelerates(q, j)
    ensures q[k].maxSmoothed == q[k].maxStart
    ensures Start(q, k) == q[k].maxStart && Smoothed(q, k) == q[k].maxSmoothed
  {
    LinkUp(q, k - 1);
    ProfileBounds(q, k);
    ProfileBounds(q, k + 1);
    ProfileBounds(q, k - 1);
    if k - 1 > f {
      assert !Accelerates(q, k - 1);
    }
  }

  /** An accelerating move entered at its own limit stays one however the path goes on. */
  lemma {:induction false} LimitIsStable(q: seq<Limits>, r: seq<Limits>, k: nat)
    requires Chain(q) && Chain(r) && q <= r
    requires Accelerates(q, k) && q[k].maxSmoothed == q[k].maxStart
    ensures Accelerates(r, k)
    ensures Start(q, k) == Start(r, k) && Smoothed(q, k) == Smoothed(r, k)
  {
    assert Sound(q[k]) && r[k] == q[k];
    ProfilesGrow(q, r, k + 1);
    ProfileBounds(q, k);
    ProfileBounds(q, k + 1);
    ProfileBounds(r, k);
    ProfileBounds(r, k + 1);
  }

  /** A settled turn stays one, with the same profiles and peak, however the path goes on. */
  lemma {:induction false} TurnIsStable(q: seq<Limits>, r: seq<Limits>, f: nat)
    requires Chain(q) && Chain(r) && q <= r
    requires f < |q| && Turns(q, f) && HasTurn(q, f + 1)
    ensures Start(q, f) == Start(r, f) && Smoothed(q, f) == Smoothed(r, f)
    ensures Accelerates(r, f) && Turns(r, f) && HasTurn(r, f + 1)
    ensures Peak(q, f) == Peak(r, f)
  {
    var g :| f + 1 <= g < |q| && Turns(q, g);
    var k := NextAccelerating(q, f, g);
    AfterTurnAtLimit(q, f, k);
    LimitIsStable(q, r, k);
    hide Chain;
    ProfilesAgree(q, r, k, f);
    ProfilesAgree(q, r, k, f + 1);
    assert HasTurn(r, f + 1) by {
      PeakCovers(r, k);
      var h :| k <= h < |r| && Turns(r, h);
      assert f + 1 <= h < |r| && Turns(r, h);
    }
  }

  /** Everything before a stable turn is decided. */
  lemma {:induction false} TurnsAgree(q: seq<Limits>, r: seq<Limits>, f: nat, i: nat)
    requires q <= r && i <= f < |q| && Turns(q, f) && Turns(r, f)
    requires Start(q, f) == Start(r, f) && Smoothed(q, f) == Smoothed(r, f)
    requires Peak(q, f) == Peak(r, f)
    ensures Accelerates(q, i) == Accelerates(r, i) && Turns(q, i) == Turns(r, i)
    ensures Start(q, i) == Start(r, i) && Smoothed(q, i) == Smoothed(r, i)
    ensures Peak(q, i) == Peak(r, i)
    decreases f - i
  {
    if i < f {
      ProfilesAgree(q, r, f, i);
      TurnsAgree(q, r, f, i + 1);
    }
  }

  lemma {:induction false} CapsAgree(q: seq<Limits>, r: seq<Limits>, f: nat, i: nat)
    requires q <= r && i <= f < |q|
    requires forall j :: 0 <= j <= f ==>
      && Accelerates(q, j) == Accelerates(r, j)
      && Start(q, j) == Start(r, j)
      && Peak(q, j) == Peak(r, j)
    ensures Cap(q, i) == Cap(r, i)
    decreases i
  {
    if i > 0 {
      CapsAgree(q, r, f, i - 1);
    }
  }

  /** A lazily committed prefix never needs revising: however the path is extended, the full
      plan gives the moves of a settled prefix exactly the speeds they already have. */
  lemma {:induction false} SettledPrefixIsFinal(q: seq<Limits>, r: seq<Limits>, c: nat)
    requires Chain(q) && Chain(r) && q <= r
    requires Settled(q, c)
    ensures Settled(r, c)
    ensures forall i :: 0 <= i < c ==> PlanAt(r, i) == PlanAt(q, i)
  {
    if c > 0 {
      TurnIsStable(q, r, c);
      forall j | 0 <= j <= c
        ensures Accelerates(q, j) == Accelerates(r, j) && Start(q, j) == Start(r, j) && Peak(q, j) == Peak(r, j)
      {
        TurnsAgree(q, r, c, j);
      }
      forall i | 0 <= i < c
        ensures PlanAt(r, i) == PlanAt(q, i)
      {
        CapsAgree(q, r, c, i);
      }
    }
  }

  // ------------------------------------------------------------ planning the tail on its own

  lemma {:induction false} TailProfiles(q: seq<Limits>, c: nat, i: nat)
    requires c <= |q|
    ensures Start(q[c..], i) == Start(q, c + i)
    ensures Smoothed(q[c..], i) == Smoothed(q, c + i)
    ensures Accelerates(q[c..], i) == Accelerates(q, c + i)
    decreases |q| - i
  {
    if c + i < |q| {
      TailProfiles(q, c, i + 1);
    }
  }

  lemma {:induction false} TailTurns(q: seq<Limits>, c: nat, i: nat)
    requires c <= |q|
    ensures Turns(q[c..], i) == Turns(q, c + i)
    ensures Peak(q[c..], i) == Peak(q, c + i)
    decreases |q| - i
  {
    TailProfiles(q, c, i);
    TailProfiles(q, c, i + 1);
    if c + i < |q| {
      TailTurns(q, c, i + 1);
    }
  }

  lemma {:induction false} TailCaps(q: seq<Limits>, c: nat, i: nat)
    requires c <= |q| && Accelerates(q, c)
    ensures Cap(q[c..], i) == Cap(q, c + i)
    decreases i
  {
    TailProfiles(q, c, i);
    TailTurns(q, c, i);
    if i > 0 {
      TailCaps(q, c, i - 1);
    }
  }

  /** The moves left behind by a lazy flush are planned as if the whole path were still queued. */
  lemma {:induction false} TailPlans(q: seq<Limits>, c: nat, i: nat)
    requires c <= |q| && i < |q| - c && Accelerates(q, c)
    ensures PlanAt(q[c..], i) == PlanAt(q, c + i)
  {
    TailProfiles(q, c, i);
    TailProfiles(q, c, i + 1);
    TailTurns(q, c, i);
    TailCaps(q, c, i);
  }

  lemma {:induction false} TailSettled(q: seq<Limits>, c: nat, f: nat)
    requires c <= |q| && f > 0 && Settled(q[c..], f)
    ensures Settled(q, c + f)
  {
    TailTurns(q, c, f);
    var g :| f + 1 <= g < |q| - c && Turns(q[c..], g);
    TailTurns(q, c, g);
    assert c + f + 1 <= c + g < |q| && Turns(q, c + g);
  }

  /** The front of a queue always accelerates: a path begins at rest, and a tail begins at a turn. */
  lemma {:induction false} FrontAccelerates(q: seq<Limits>, c: nat)
    requires Path(q) && Settled(q, c) && c < |q|
    ensures Accelerates(q, c)
  {
    if c == 0 {
      assert Sound(q[0]);
      ProfileBounds(q, 1);
    }
  }

  // ------------------------------------------------------------ the plan is continuous and feasible

  /** On a run of decelerating moves the cap stays between the next smoothed speed and the entry
      limits, and never exceeds the peak of the move the run follows. */
  lemma {:induction false} CapBounds(q: seq<Limits>, i: nat)
    requires Chain(q) && i < |q| && Accelerates(q, 0)
    ensures 0.0 < Cap(q, i)
    ensures Smoothed(q, i) <= Cap(q, i)
    ensures !Accelerates(q, i) ==> Cap(q, i) <= Start(q, i) && Smoothed(q, i + 1) < Cap(q, i)
    ensures Accelerates(q, i) && i + 1 < |q| && !Accelerates(q, i + 1) ==>
      && Smoothed(q, i + 1) <= Cap(q, i) <= q[i].maxCruise
    decreases i
  {
    ProfileBounds(q, i);
    ProfileBounds(q, i + 1);
    assert Sound(q[i]);
    if Accelerates(q, i) {
      PeakCovers(q, i);
    } else {
      CapBounds(q, i - 1);
      LinkUp(q, i - 1);
    }
  }

  /** Speeds at the boundary after move `i`, when move `i` accelerates. */
  lemma {:induction false} AcceleratingExit(q: seq<Limits>, i: nat)
    requires Chain(q) && Accelerates(q, i) && i + 1 < |q|
    ensures PlanAt(q, i).end == Min(Start(q, i + 1), Peak(q, i))
  {
    LinkUp(q, i);
    ProfileBounds(q, i);
    ProfileBounds(q, i + 1);
    PeakCovers(q, i);
  }

  lemma {:induction false} AcceleratingEntry(q: seq<Limits>, i: nat)
    requires Chain(q) && Accelerates(q, i)
    ensures PlanAt(q, i).start == Min(Start(q, i), Peak(q, i))
  {
    ProfileBounds(q, i);
    ProfileBounds(q, i + 1);
    assert Sound(q[i]);
  }

  lemma {:induction false} Continuous(q: seq<Limits>, i: nat)
    requires Chain(q) && Accelerates(q, 0) && i + 1 < |q|
    ensures PlanAt(q, i).end == PlanAt(q, i + 1).start
  {
    ProfileBounds(q, i + 1);
    ProfileBounds(q, i + 2);
    CapBounds(q, i);
    LinkUp(q, i);
    if Accelerates(q, i) {
      AcceleratingExit(q, i);
      PeakCovers(q, i);
      if Accelerates(q, i + 1) {
        AcceleratingEntry(q, i + 1);
        PeakCovers(q, i + 1);
        if Turns(q, i) {
          AfterTurnAtLimit(q, i, i + 1);
        }
      }
    } else if Accelerates(q, i + 1) {
      AcceleratingEntry(q, i + 1);
      PeakCovers(q, i + 1);
      DecelerationEndsAtLimit(q, i);
    }
  }

  lemma {:induction false} DecelerationEndsAtLimit(q: seq<Limits>, i: nat)
    requires Chain(q) && i + 1 < |q| && !Accelerates(q, i) && Accelerates(q, i + 1)
    ensures Start(q, i + 1) == Smoothed(q, i + 1) == q[i + 1].maxStart
  {
    LinkUp(q, i);
    ProfileBounds(q, i);
    ProfileBounds(q, i + 1);
    ProfileBounds(q, i + 2);
  }

  /** One move's plan respects its limits and its length. */
  ghost predicate Feasible(m: Limits, p: Plan) {
    && 0.0 <= p.start <= m.maxStart
    && p.start <= p.cruise <= m.maxCruise
    && 0.0 <= p.end <= p.cruise
    && 0.0 < p.cruise
    && (p.cruise - p.start) + (p.cruise - p.end) <= m.delta
  }

  lemma {:induction false} PlansAreFeasible(q: seq<Limits>, i: nat)
    requires Chain(q) && Accelerates(q, 0) && i < |q|
    ensures Feasible(q[i], PlanAt(q, i))
  {
    assert Sound(q[i]);
    ProfileBounds(q, i);
    ProfileBounds(q, i + 1);
    CapBounds(q, i);
    if i + 1 < |q| { LinkUp(q, i); }
    if Accelerates(q, i) { PeakCovers(q, i); }
  }

  /** The whole plan of a path: starts at rest, joins up at every boundary, respects every limit,
      and ends at rest. */
  lemma {:induction false} PathPlan(q: seq<Limits>)
    requires Path(q) && q != []
    ensures PlanAt(q, 0).start == 0.0
    ensures PlanAt(q, |q| - 1).end == 0.0
    ensures forall i :: 0 <= i < |q| ==> Feasible(q[i], PlanAt(q, i))
    ensures forall i :: 0 <= i < |q| - 1 ==> PlanAt(q, i).end == PlanAt(q, i + 1).start
  {
    FrontAccelerates(q, 0);
    ProfileBounds(q, 0);
    PlansAreFeasible(q, 0);
    forall i | 0 <= i < |q| ensures Feasible(q[i], PlanAt(q, i)) { PlansAreFeasible(q, i); }
    forall i | 0 <= i < |q| - 1 ensures PlanAt(q, i).end == PlanAt(q, i + 1).start { Continuous(q, i); }
  }
}
