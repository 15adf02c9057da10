/** The micro-controller's timer list: a singly linked list ordered by wrapping 32-bit wake times,
    with a periodic timer, a sentinel, and a dummy head standing in for deleted timers. */
module TimerList {
  import opened Words32
  import opened TimerQueue

  class Timer {
    var next: Timer?
    var waketime: Word

    constructor ()
      ensures next == null && waketime == 0
    {
      next, waketime := null, 0;
    }
  }

  type Queue = seq<Entry<Timer>>

  /** What a timer's callback asks for. */
  datatype Outcome = Finished | Rescheduled(waketime: Word)

  /** The three timers the scheduler owns. */
  datatype Fixed = Fixed(periodic: Timer, sentinel: Timer, deleted: Timer) {
    predicate Valid() {
      periodic != sentinel && periodic != deleted && sentinel != deleted
    }
  }

  // ------------------------------------------------------------ the list as a value

  ghost predicate Unique(q: Queue) {
    forall i, j :: 0 <= i < j < |q| ==> q[i].timer != q[j].timer
  }

  ghost predicate DummyOnlyFirst(q: Queue, deleted: Timer) {
    forall i :: 0 < i < |q| ==> q[i].timer != deleted
  }

  /** The shape of the list: acyclic, ending at the sentinel, with the dummy nowhere but at the head,
      the periodic timer and the last inserted one proper members, at `m` and `k`, and times that
      fit together. */
  ghost predicate Shape(q: Queue, f: Fixed, m: nat, k: nat) {
    && f.Valid() && Unique(q) && Fits(q) && DummyOnlyFirst(q, f.deleted)
    && m < |q| - 1 && q[m].timer == f.periodic
    && q[|q| - 1] == Entry(f.sentinel, q[m].time + HALF)
    && k < |q| - 1 && q[k].timer != f.deleted
  }

  ghost predicate Scheduled(q: Queue, t: Timer) {
    exists i :: 0 <= i < |q| && q[i].timer == t
  }

  /** The entries at the head of the list that are dummies: none or one. */
  ghost function Dummies(q: Queue, f: Fixed): nat {
    if q != [] && q[0].timer == f.deleted then 1 else 0
  }

  /** The live timers, in the order in which they will run. */
  ghost function Live(q: Queue, f: Fixed): Queue
    requires 2 <= |q|
  {
    q[Dummies(q, f)..|q| - 1]
  }

  function Insert<T>(s: seq<T>, p: nat, x: T): seq<T>
    requires p <= |s|
  {
    s[..p] + [x] + s[p..]
  }

  function Remove<T>(s: seq<T>, p: nat): seq<T>
    requires p < |s|
  {
    s[..p] + s[p + 1..]
  }

  function After(i: nat, p: nat): nat {
    if i < p then i else i + 1
  }

  function Before(i: nat, p: nat): nat
    requires i != p
  {
    if i < p then i else i - 1
  }

  lemma {:induction false} UniqueInserted(q: Queue, e: Entry<Timer>, p: nat)
    requires Unique(q) && !Scheduled(q, e.timer) && p <= |q|
    ensures Unique(Insert(q, p, e))
  {
    var r := Insert(q, p, e);
    forall i, j | 0 <= i < j < |r|
      ensures r[i].timer != r[j].timer
    {
    }
  }

  lemma {:induction false} DummyInserted(q: Queue, e: Entry<Timer>, p: nat, deleted: Timer)
    requires DummyOnlyFirst(q, deleted) && e.timer != deleted && 0 < p <= |q|
    ensures DummyOnlyFirst(Insert(q, p, e), deleted)
  {
  }

  lemma {:induction false} InsertIndex<T>(s: seq<T>, p: nat, x: T, i: nat)
    requires p <= |s| && i < |s|
    ensures |Insert(s, p, x)| == |s| + 1 && Insert(s, p, x)[After(i, p)] == s[i]
    ensures Insert(s, p, x)[p] == x
    ensures p > 0 ==> Insert(s, p, x)[0] == s[0]
  {
  }

  lemma {:induction false} RemoveIndex<T>(s: seq<T>, p: nat, i: nat)
    requires 0 < p < |s| && i < |s| && i != p
    ensures |Remove(s, p)| == |s| - 1 && Remove(s, p)[Before(i, p)] == s[i]
    ensures Remove(s, p)[0] == s[0]
  {
  }

  lemma {:induction false} ShapeInserted(q: Queue, f: Fixed, m: nat, k: nat, e: Entry<Timer>, p: nat)
    requires Shape(q, f, m, k) && !Scheduled(q, e.timer) && e.timer != f.deleted
    requires Near(q, e.time) && SortedPosition(q, e.time, p) && 0 < p
    ensures Shape(Insert(q, p, e), f, After(m, p), After(k, p))
    ensures Live(Insert(q, p, e), f) == InsertEntry(Live(q, f), e)
  {
    hide Unique, Fits, DummyOnlyFirst, Scheduled, Near, InsertEntry;
    FitsInserted(q, e, p);
    LiveInserted(q, Dummies(q, f), e, p);
    UniqueInserted(q, e, p);
    DummyInserted(q, e, p, f.deleted);
    InsertIndex(q, p, e, m);
    InsertIndex(q, p, e, k);
    InsertIndex(q, p, e, |q| - 1);
    hide Insert;
  }

  ghost function AddFirst(q: Queue, f: Fixed, e: Entry<Timer>): Queue
    requires 2 <= |q|
  {
    [Entry(f.deleted, e.time), e] + q[Dummies(q, f)..]
  }

  lemma {:induction false} AddFirstIndex(q: Queue, f: Fixed, e: Entry<Timer>, i: nat)
    requires 2 <= |q| && Dummies(q, f) <= i < |q|
    ensures |AddFirst(q, f, e)| == |q| + 2 - Dummies(q, f)
    ensures AddFirst(q, f, e)[i + 2 - Dummies(q, f)] == q[i]
  {
  }

  lemma {:induction false} NoDummyBefore(q: Queue, f: Fixed, m: nat, k: nat)
    requires Shape(q, f, m, k)
    ensures Dummies(q, f) <= m && Dummies(q, f) <= k
  {
  }

  lemma {:induction false} UniqueAddedFirst(q: Queue, f: Fixed, e: Entry<Timer>)
    requires 2 <= |q| && Unique(q) && DummyOnlyFirst(q, f.deleted) && !Scheduled(q, e.timer) && e.timer != f.deleted
    ensures Unique(AddFirst(q, f, e)) && DummyOnlyFirst(AddFirst(q, f, e), f.deleted)
  {
  }

  lemma {:induction false} FitsAddedFirst(q: Queue, f: Fixed, e: Entry<Timer>)
    requires 2 <= |q| && Fits(q) && Near(q, e.time) && e.time < q[0].time
    ensures Fits(AddFirst(q, f, e))
  {
    var r, d := AddFirst(q, f, e), Dummies(q, f);
    forall j | 1 < j < |r|
      ensures e.time <= r[j].time && (j < |r| - 1 ==> r[j].time - e.time < HALF)
    {
      assert q[0].time <= q[j - 2 + d].time;
    }
  }

  lemma {:induction false} LiveAddedFirst(q: Queue, f: Fixed, e: Entry<Timer>)
    requires 2 <= |q| && Sorted(q) && e.time < q[0].time
    ensures Live(AddFirst(q, f, e), f) == InsertEntry(Live(q, f), e)
  {
    var d := Dummies(q, f);
    assert q[0].time <= q[d].time;
    assert Live(AddFirst(q, f, e), f) == [e] + q[d..|q| - 1];
  }

  lemma {:induction false} ShapeAddedFirst(q: Queue, f: Fixed, m: nat, k: nat, e: Entry<Timer>)
    requires Shape(q, f, m, k) && !Scheduled(q, e.timer) && e.timer != f.deleted
    requires Near(q, e.time) && e.time < q[0].time
    ensures Shape(AddFirst(q, f, e), f, m + 2 - Dummies(q, f), k + 2 - Dummies(q, f))
    ensures Live(AddFirst(q, f, e), f) == InsertEntry(Live(q, f), e)
  {
    assert Sorted(q);
    hide Unique, Fits, Sorted, DummyOnlyFirst, Scheduled, Near, InsertEntry;
    NoDummyBefore(q, f, m, k);
    UniqueAddedFirst(q, f, e);
    FitsAddedFirst(q, f, e);
    LiveAddedFirst(q, f, e);
    AddFirstIndex(q, f, e, m);
    AddFirstIndex(q, f, e, k);
    AddFirstIndex(q, f, e, |q| - 1);
    hide AddFirst, Live;
  }

  lemma {:induction false} UniqueRemoved(q: Queue, p: nat)
    requires p < |q| && Unique(q)
    ensures Unique(Remove(q, p))
  {
  }

  lemma {:induction false} FitsRemoved(q: Queue, p: nat)
    requires p < |q| - 1 && Fits(q)
    ensures Fits(Remove(q, p))
  {
  }

  /** A middle part of a list that is put together from two. */
  lemma {:induction false} SliceJoined<T>(a: seq<T>, b: seq<T>, d: nat, e: nat)
    requires d <= |a| && e <= |b|
    ensures (a + b)[d..|a| + e] == a[d..] + b[..e]
  {
  }

  lemma {:induction false} SliceWithout<T>(s: seq<T>, d: nat, p: nat)
    requires d <= p < |s| - 1
    ensures var inner := s[d..|s| - 1];
      Remove(s, p)[d..|s| - 2] == inner[..p - d] + inner[p - d + 1..] && inner[p - d] == s[p]
  {
    var inner := s[d..|s| - 1];
    SliceJoined(s[..p], s[p + 1..], d, |s| - p - 2);
    assert inner[..p - d] == s[..p][d..];
    assert inner[p - d + 1..] == s[p + 1..][..|s| - p - 2];
  }

  lemma {:induction false} LiveRemoved(q: Queue, f: Fixed, p: nat)
    requires 0 < p < |q| - 1 && Unique(q)
    ensures Live(Remove(q, p), f) == RemoveTimer(Live(q, f), q[p].timer)
  {
    var d := Dummies(q, f);
    assert Live(q, f) == q[d..|q| - 1];
    forall i | 0 <= i < p - d
      ensures Live(q, f)[i].timer != q[p].timer
    {
      assert Live(q, f)[i] == q[d + i];
    }
    RemoveIndex(q, p, 0);
    SliceWithout(q, d, p);
    hide Unique, Remove, RemoveTimer;
    RemoveTimerAt(Live(q, f), q[p].timer, p - d);
  }

  lemma {:induction false} DummyRemoved(q: Queue, p: nat, deleted: Timer)
    requires 0 < p < |q| && DummyOnlyFirst(q, deleted)
    ensures DummyOnlyFirst(Remove(q, p), deleted)
  {
  }

  lemma {:induction false} ShapeRemoved(q: Queue, f: Fixed, m: nat, k: nat, p: nat)
    requires Shape(q, f, m, k) && 0 < p < |q| - 1 && p != m
    ensures Shape(Remove(q, p), f, Before(m, p), if k == p then Before(m, p) else Before(k, p))
    ensures Live(Remove(q, p), f) == RemoveTimer(Live(q, f), q[p].timer)
  {
    hide Unique, Fits, DummyOnlyFirst, RemoveTimer;
    UniqueRemoved(q, p);
    FitsRemoved(q, p);
    LiveRemoved(q, f, p);
    DummyRemoved(q, p, f.deleted);
    RemoveIndex(q, p, m);
    if k != p { RemoveIndex(q, p, k); }
    RemoveIndex(q, p, |q| - 1);
    hide Remove, Live;
  }

  /** A list with a different head, at the same time. */
  lemma {:induction false} HeadReplaced(q: Queue, h: Timer)
    requires q != [] && Unique(q) && Fits(q) && forall i :: 0 < i < |q| ==> q[i].timer != h
    ensures Unique([Entry(h, q[0].time)] + q[1..]) && Fits([Entry(h, q[0].time)] + q[1..])
    ensures DummyOnlyFirst([Entry(h, q[0].time)] + q[1..], h)
  {
  }

  lemma {:induction false} LiveHeadDeleted(q: Queue, f: Fixed)
    requires 2 <= |q| && q[0].timer != f.deleted
    ensures Live([Entry(f.deleted, q[0].time)] + q[1..], f) == RemoveTimer(Live(q, f), q[0].timer)
  {
    RemoveTimerAt(Live(q, f), q[0].timer, 0);
  }

  lemma {:induction false} ShapeHeadDeleted(q: Queue, f: Fixed, m: nat, k: nat)
    requires Shape(q, f, m, k) && q[0].timer != f.deleted && 0 < m
    ensures var q' := [Entry(f.deleted, q[0].time)] + q[1..];
      Shape(q', f, m, if k == 0 then m else k) && Live(q', f) == RemoveTimer(Live(q, f), q[0].timer)
  {
    HeadReplaced(q, f.deleted);
    hide Unique, Fits, DummyOnlyFirst, RemoveTimer, Live;
    LiveHeadDeleted(q, f);
  }

  lemma {:induction false} HeadPopped(q: Queue, deleted: Timer)
    requires q != [] && Unique(q) && Fits(q) && DummyOnlyFirst(q, deleted)
    ensures Unique(q[1..]) && Fits(q[1..]) && !Scheduled(q[1..], deleted) && !Scheduled(q[1..], q[0].timer)
  {
  }

  lemma {:induction false} LivePopped(q: Queue, f: Fixed)
    requires 3 <= |q| && !Scheduled(q[1..], f.deleted)
    ensures Live(q[1..], f) == (if q[0].timer == f.deleted then Live(q, f) else Live(q, f)[1..]) == q[1..|q| - 1]
  {
    assert q[1..][0] == q[1];
  }

  lemma {:induction false} ShapeHeadPopped(q: Queue, f: Fixed, m: nat, k: nat)
    requires Shape(q, f, m, k) && 0 < m
    ensures Shape(q[1..], f, m - 1, if k == 0 then 0 else k - 1)
    ensures Live(q[1..], f) == (if q[0].timer == f.deleted then Live(q, f) else Live(q, f)[1..]) == q[1..|q| - 1]
  {
    hide Unique, Fits, DummyOnlyFirst, Live;
    HeadPopped(q, f.deleted);
    NoDummy(q[1..], f.deleted);
    LivePopped(q, f);
  }

  lemma {:induction false} DummyNotInserted(q: Queue, e: Entry<Timer>, p: nat, deleted: Timer)
    requires !Scheduled(q, deleted) && e.timer != deleted && p <= |q|
    ensures !Scheduled(Insert(q, p, e), deleted)
  {
    var r := Insert(q, p, e);
    forall i | 0 <= i < |r|
      ensures r[i].timer != deleted
    {
      assert i < p ==> r[i] == q[i];
      assert i > p ==> r[i] == q[i - 1];
    }
  }

  /** What the others look like to the periodic timer once it has moved on by `ticks`. */
  lemma {:induction false} PeriodicMoved(q: Queue, f: Fixed, m: nat, k: nat, ticks: nat)
    requires Shape(q, f, m, k) && m == 0 && 0 < ticks < HALF
    ensures var time := q[0].time + ticks;
      var r := q[1..|q| - 1] + [Entry(f.sentinel, time + HALF)];
      && |r| == |q| - 1 && Unique(r) && Fits(r) && Near(r, time)
      && !Scheduled(r, f.periodic) && !Scheduled(r, f.deleted)
      && r[..|r| - 1] == Live(q, f)[1..]
  {
  }

  /** Putting the running timer back among the others keeps the shape, wherever it goes. */
  lemma {:induction false} ShapeReinserted(r: Queue, f: Fixed, e: Entry<Timer>, p: nat, m: nat, k: nat)
    requires f.Valid() && Unique(r) && Fits(r) && !Scheduled(r, e.timer) && !Scheduled(r, f.deleted) && e.timer != f.deleted
    requires Near(r, e.time) && SortedPosition(r, e.time, p) && m < |r| && k < |r|
    requires Insert(r, p, e)[m].timer == f.periodic
    requires r[|r| - 1] == Entry(f.sentinel, Insert(r, p, e)[m].time + HALF)
    ensures Shape(Insert(r, p, e), f, m, k)
    ensures Live(Insert(r, p, e), f) == InsertEntry(r[..|r| - 1], e)
  {
    hide Unique, Fits, DummyOnlyFirst, Near, InsertEntry, Scheduled, Insert;
    FitsReinserted(r, e, p);
    UniqueInserted(r, e, p);
    DummyNotInserted(r, e, p, f.deleted);
    NoDummy(Insert(r, p, e), f.deleted);
    InsertIndex(r, p, e, |r| - 1);
  }

  lemma {:induction false} FitsReinserted(r: Queue, e: Entry<Timer>, p: nat)
    requires Fits(r) && Near(r, e.time) && SortedPosition(r, e.time, p)
    ensures Fits(Insert(r, p, e))
    ensures Insert(r, p, e)[..|r|] == InsertEntry(r[..|r| - 1], e)
  {
    FitsInserted(r, e, p);
    hide Fits, Near, InsertEntry;
    LiveInserted(r, 0, e, p);
    assert r[0..|r| - 1] == r[..|r| - 1];
  }

  lemma {:induction false} NoDummy(q: Queue, deleted: Timer)
    requires !Scheduled(q, deleted)
    ensures DummyOnlyFirst(q, deleted)
    ensures forall i :: 0 <= i < |q| ==> q[i].timer != deleted
  {
  }

  /** Cancelling a timer that is not scheduled changes nothing. */
  lemma {:induction false} LiveWithout(q: Queue, f: Fixed, m: nat, k: nat, t: Timer)
    requires Shape(q, f, m, k) && !Scheduled(q, t)
    ensures RemoveTimer(Live(q, f), t) == Live(q, f)
  {
    RemoveTimerAbsent(Live(q, f), t);
  }

  lemma {:induction false} LiveSlice(q: Queue, f: Fixed, m: nat)
    requires 2 <= |q| && f.Valid() && Unique(q) && Fits(q) && DummyOnlyFirst(q, f.deleted)
    requires m < |q| - 1 && q[m].timer == f.periodic && q[|q| - 1].timer == f.sentinel
    ensures Sorted(Live(q, f)) && Unique(Live(q, f)) && Scheduled(Live(q, f), f.periodic)
    ensures !Scheduled(Live(q, f), f.sentinel) && !Scheduled(Live(q, f), f.deleted)
    ensures forall i, j :: 0 <= i < j < |Live(q, f)| ==> Live(q, f)[j].time - Live(q, f)[i].time < HALF
  {
    var l, d := Live(q, f), Dummies(q, f);
    assert forall i :: 0 <= i < |l| ==> l[i] == q[d + i];
    assert l[m - d].timer == f.periodic;
  }

  // ------------------------------------------------------------ the list in memory

  lemma {:induction false} LiveEntries(q: Queue, f: Fixed, m: nat, k: nat, e: Entry<Timer>)
    requires Shape(q, f, m, k)
    ensures e in Live(q, f) <==> e in q && e.timer != f.sentinel && e.timer != f.deleted
  {
    hide Fits, Unique, DummyOnlyFirst;
    OnlyLast(q, |q| - 1);
    var d, live := Dummies(q, f), Live(q, f);
    if e in live {
      var i :| 0 <= i < |live| && live[i] == e;
      assert q[d + i] == e && q[d + i].timer != q[|q| - 1].timer;
      NotTheDummy(q, f, d + i);
    }
    if e in q && e.timer != f.sentinel && e.timer != f.deleted {
      var i :| 0 <= i < |q| && q[i] == e;
      assert d <= i < |q| - 1 && live[i - d] == e;
    }
  }

  lemma {:induction false} OnlyLast(q: Queue, last: nat)
    requires Unique(q) && last < |q|
    ensures forall i :: 0 <= i < |q| && i != last ==> q[i].timer != q[last].timer
  {
  }

  lemma {:induction false} NotTheDummy(q: Queue, f: Fixed, i: nat)
    requires DummyOnlyFirst(q, f.deleted) && Dummies(q, f) <= i < |q|
    ensures q[i].timer != f.deleted
  {
  }

  ghost predicate Distinct(l: seq<Timer>) {
    forall i, j :: 0 <= i < j < |l| ==> l[i] != l[j]
  }

  ghost predicate Matches(l: seq<Timer>, q: Queue) {
    |l| == |q| && forall i :: 0 <= i < |l| ==> q[i].timer == l[i]
  }

  /** The timers of `l` are linked in that order. */
  ghost predicate Linked(l: seq<Timer>)
    reads l`next
  {
    forall i :: 0 <= i < |l| - 1 ==> l[i].next == l[i + 1]
  }

  /** Every wake time is the wrapped true time. */
  ghost predicate Clocked(l: seq<Timer>, q: Queue)
    requires |l| == |q|
    reads l`waketime
  {
    forall i :: 0 <= i < |l| ==> l[i].waketime == Wrap(q[i].time)
  }

  lemma {:induction false} ClockedInserted(l: seq<Timer>, q: Queue, p: nat, e: Entry<Timer>)
    requires Matches(l, q) && Clocked(l, q) && p <= |l| && e.timer.waketime == Wrap(e.time)
    ensures Matches(Insert(l, p, e.timer), Insert(q, p, e)) && Clocked(Insert(l, p, e.timer), Insert(q, p, e))
  {
  }

  lemma {:induction false} ClockedRemoved(l: seq<Timer>, q: Queue, p: nat)
    requires Matches(l, q) && Clocked(l, q) && p < |l|
    ensures Matches(Remove(l, p), Remove(q, p)) && Clocked(Remove(l, p), Remove(q, p))
  {
  }

  lemma {:induction false} MatchesDistinct(l: seq<Timer>, q: Queue, t: Timer)
    requires Matches(l, q) && Unique(q)
    ensures Distinct(l)
    ensures t in l <==> Scheduled(q, t)
  {
  }

  /** What is linked behind the dummies: the rest of the list, itself without a dummy. */
  lemma {:induction false} BehindDummies(l: seq<Timer>, q: Queue, f: Fixed, m: nat, k: nat)
    requires Shape(q, f, m, k) && Matches(l, q)
    ensures var d := Dummies(q, f); d < |l| - 1 && f.deleted !in l[d..] && l[d..][|l| - d - 1] == f.sentinel
    ensures Linked(l) ==> Linked(l[Dummies(q, f)..])
    ensures Clocked(l, q) ==> Clocked(l[Dummies(q, f)..], q[Dummies(q, f)..])
    ensures Matches(l[Dummies(q, f)..], q[Dummies(q, f)..])
  {
  }

  lemma {:induction false} InFront(l: seq<Timer>, q: Queue, a: Entry<Timer>)
    requires Matches(l, q) && Linked(l) && Clocked(l, q)
    requires a.timer.waketime == Wrap(a.time) && (l != [] ==> a.timer.next == l[0])
    ensures Matches([a.timer] + l, [a] + q) && Linked([a.timer] + l) && Clocked([a.timer] + l, [a] + q)
  {
  }

  lemma {:induction false} MatchesAt(l: seq<Timer>, q: Queue, p: nat)
    requires Matches(l, q) && p < |l|
    ensures q[p].timer == l[p]
  {
  }

  lemma {:induction false} LastIndex(rest: seq<Timer>, head: Timer, k: nat, last: Timer)
    requires rest != [] && k < |rest| + 1 && last == if k == 0 then rest[0] else rest[k - 1]
    ensures rest[if k == 0 then 0 else k - 1] == last
  {
  }

  lemma {:induction false} ClockedAt(l: seq<Timer>, q: Queue, i: nat)
    requires |l| == |q| && Clocked(l, q) && i < |l|
    ensures l[i].waketime == Wrap(q[i].time)
  {
  }

  lemma {:induction false} CompareAt(q: Queue, time: int, i: nat)
    requires Near(q, time) && i < |q| && time < q[|q| - 1].time
    requires i == |q| - 1 ==> q[i].time - time <= HALF
    ensures IsBefore(Wrap(time), Wrap(q[i].time)) <==> time < q[i].time
  {
    WrappedOrder(time, q[i].time);
  }

  lemma {:induction false} ReinsertAt(rest: seq<Timer>, r: Queue, e: Entry<Timer>, p: nat, m: nat)
    requires Matches(rest, r) && Clocked(rest, r) && p <= |rest| && m <= |rest| && e.timer.waketime == Wrap(e.time)
    ensures Matches(Insert(rest, p, e.timer), Insert(r, p, e)) && Clocked(Insert(rest, p, e.timer), Insert(r, p, e))
    ensures |Insert(rest, p, e.timer)| == |rest| + 1
    ensures Insert(rest, p, e.timer)[p] == e.timer && Insert(r, p, e)[p] == e
    ensures p > 0 ==> Insert(rest, p, e.timer)[0] == rest[0]
    ensures m > 0 ==> Insert(r, p, e)[After(m - 1, p)] == r[m - 1] && r[m - 1].timer == rest[m - 1]
  {
    ClockedInserted(rest, r, p, e);
  }

  lemma {:induction false} StayFirst(rest: seq<Timer>, r: Queue, e: Entry<Timer>, m: nat, k: nat)
    requires Matches(rest, r) && Clocked(rest, r) && Linked(rest) && rest != [] && m <= |rest| && k <= |rest|
    requires e.timer.waketime == Wrap(e.time) && e.timer.next == rest[0]
    ensures var l, q := Insert(rest, 0, e.timer), Insert(r, 0, e);
      && |l| == |rest| + 1 && l[0] == e.timer && l[k] == (if k == 0 then e.timer else rest[k - 1])
      && Matches(l, q) && Linked(l) && Clocked(l, q)
      && q[m] == (if m == 0 then e else r[m - 1]) && (m > 0 ==> r[m - 1].timer == rest[m - 1])
  {
    InFront(rest, r, e);
    assert Insert(rest, 0, e.timer) == [e.timer] + rest && Insert(r, 0, e) == [e] + r;
  }

  lemma {:induction false} NearRemoved(q: Queue, p: nat, time: int)
    requires p < |q| - 1 && Near(q, time)
    ensures Near(Remove(q, p), time)
  {
  }

  lemma {:induction false} StillThere(l: seq<Timer>, p: nat, t: Timer)
    requires p < |l| && t in Remove(l, p)
    ensures t in l
  {
  }

  /** The rest of the list when only the sentinel has moved. */
  lemma {:induction false} SentinelLast(rest: seq<Timer>, q: Queue, r: Queue, sentinel: Timer)
    requires Matches(rest, q) && rest != [] && rest[|rest| - 1] == sentinel && |r| == |q| && r[..|r| - 1] == q[..|q| - 1]
    requires r[|r| - 1].timer == sentinel
    ensures Matches(rest, r)
  {
    forall i | 0 <= i < |r|
      ensures r[i].timer == rest[i]
    {
      if i < |r| - 1 { assert r[i] == r[..|r| - 1][i] == q[..|q| - 1][i]; }
    }
  }

  lemma {:induction false} SentinelClocked(rest: seq<Timer>, q: Queue, r: Queue)
    requires |rest| == |q| == |r| && rest != [] && r[..|r| - 1] == q[..|q| - 1]
    requires Clocked(rest[..|rest| - 1], q[..|q| - 1]) && rest[|rest| - 1].waketime == Wrap(r[|r| - 1].time)
    ensures Clocked(rest, r)
  {
    forall i | 0 <= i < |r|
      ensures rest[i].waketime == Wrap(r[i].time)
    {
      if i < |r| - 1 { assert rest[..|rest| - 1][i].waketime == Wrap(q[..|q| - 1][i].time); }
    }
  }

  /** The front of a list is clocked too, and the last timer is not in it. */
  lemma {:induction false} FrontClocked(l: seq<Timer>, q: Queue)
    requires |l| == |q| && l != [] && Clocked(l, q) && Distinct(l)
    ensures Clocked(l[..|l| - 1], q[..|q| - 1])
    ensures forall t :: t in l[..|l| - 1] ==> t in l && t != l[|l| - 1]
  {
  }

  lemma {:induction false} UniqueGone(l: seq<Timer>, p: nat)
    requires Distinct(l) && p < |l|
    ensures l[p] !in Remove(l, p)
  {
  }

  lemma {:induction false} SameIndex(l: seq<Timer>, i: nat, j: nat)
    requires Distinct(l) && i < |l| && j < |l|
    ensures l[i] == l[j] ==> i == j
  {
  }

  /** Find the position for a timer after `pos` and link it in there.  `pos` is entry `k` of the
      list `s`, or is the timer itself, linked in front of `s`. */
  method InsertTimer(pos: Timer, t: Timer, waketime: Word, ghost s: seq<Timer>, ghost k: int)
    returns (ghost p: nat)
    requires Linked(s) && Distinct(s) && s != [] && t !in s
    requires if k == -1 then pos == t && t.next == s[0] else 0 <= k < |s| && pos == s[k]
    requires k == -1 ==> !IsBefore(waketime, s[0].waketime)
    requires exists j :: k < j < |s| && IsBefore(waketime, s[j].waketime)
    modifies s`next, t`next
    ensures k < p < |s| && 0 < p && IsBefore(waketime, s[p].waketime)
    ensures forall i :: k < i < p ==> !IsBefore(waketime, s[i].waketime)
    ensures Linked(Insert(s, p, t))
    ensures s[|s| - 1].next == old(s[|s| - 1].next)
  {
    hide IsBefore, Insert;
    var prev, cur := pos, pos;
    p := k + 1;
    ghost var j :| k < j < |s| && IsBefore(waketime, s[j].waketime);
    while true
      invariant k < p <= j
      invariant if p == 0 then cur == t else cur == s[p - 1]
      invariant forall i :: k < i < p ==> !IsBefore(waketime, s[i].waketime)
      decreases j - p
    {
      prev := cur;
      cur := cur.next;
      assert cur == s[p];
      if IsBefore(waketime, cur.waketime) {
        break;
      }
      p := p + 1;
    }
    LinkAfter(prev, t, cur, s, p);
  }

  /** Link a timer in between two neighbours. */
  method LinkAfter(prev: Timer, t: Timer, cur: Timer, ghost s: seq<Timer>, ghost p: nat)
    requires Linked(s) && Distinct(s) && 0 < p < |s| && prev == s[p - 1] && cur == s[p] && t !in s
    modifies prev`next, t`next
    ensures Linked(Insert(s, p, t)) && s[|s| - 1].next == old(s[|s| - 1].next)
  {
    t.next := cur;
    prev.next := t;
  }

  /** Insert by wrapped times, starting at a timer that is not later: the true times decide.
      The sentinel is half the counter's range after entry `m`, or no more than that after the
      new time. */
  method InsertSorted(pos: Timer, ghost e: Entry<Timer>, t: Timer, ghost s: seq<Timer>, ghost q: Queue, ghost k: int, ghost m: nat)
    returns (ghost p: nat)
    requires Linked(s) && Distinct(s) && t !in s && |s| == |q| && Clocked(s, q) && t.waketime == Wrap(e.time)
    requires Fits(q) && Near(q, e.time)
    requires s != [] && e.time < q[|q| - 1].time
    requires q[|q| - 1].time - HALF > e.time ==> m < |q| - 1 && q[|q| - 1].time == q[m].time + HALF
    requires if k == -1 then pos == t && t.next == s[0] && q[0].time <= e.time
             else 0 <= k < |s| - 1 && pos == s[k] && q[k].time <= e.time
    modifies s`next, t`next
    ensures SortedPosition(q, e.time, p) && 0 < p
    ensures Linked(Insert(s, p, t))
    ensures s[|s| - 1].next == old(s[|s| - 1].next)
  {
    ghost var from := if k == -1 then 0 else k;
    WrappedOrder(e.time, q[0].time);
    SearchEnds(q, e.time, from, m);
    ghost var j :| from < j < |q| && IsBefore(Wrap(e.time), Wrap(q[j].time));
    assert k < j < |s| && IsBefore(t.waketime, s[j].waketime);
    p := InsertTimer(pos, t, t.waketime, s, k);
    assert forall i :: from < i < p ==> !IsBefore(Wrap(e.time), s[i].waketime);
    SearchFindsPosition(q, e.time, from, p);
  }

  /** Unlink a timer that is not the head, if it is in the list. */
  method Unlink(head: Timer, del: Timer, ghost l: seq<Timer>) returns (ghost p: nat)
    requires l != [] && l[0] == head && head != del && Linked(l) && Distinct(l)
    requires l[|l| - 1].next == null && l[|l| - 1] != del
    modifies l`next
    ensures del !in l ==> p == |l| && Linked(l)
    ensures del in l ==> 0 < p < |l| - 1 && l[p] == del && Linked(Remove(l, p))
    ensures l[|l| - 1].next == null
  {
    var pos := head;
    p := 1;
    while pos.next != null
      invariant 0 < p <= |l| && pos == l[p - 1] && del !in l[..p]
      invariant Linked(l) && l[|l| - 1].next == null
      invariant pos.next == if p < |l| then l[p] else null
      decreases |l| - p
    {
      assert p < |l| && pos.next == l[p];
      if pos.next == del {
        pos.next := del.next;
        return;
      }
      pos := pos.next;
      p := p + 1;
    }
    assert l[..p] == l;
  }

  class Scheduler {
    const periodicTimer: Timer
    const sentinelTimer: Timer
    const deletedTimer: Timer
    const periodTicks: nat
    var timerList: Timer
    var lastInsert: Timer
    /** The timers reachable from `timerList`, in order, with their true wake times, and the
        positions of the periodic timer and of `lastInsert`. */
    ghost var list: seq<Timer>
    ghost var entries: Queue
    ghost var m: nat
    ghost var k: nat

    ghost function Own(): Fixed {
      Fixed(periodicTimer, sentinelTimer, deletedTimer)
    }

    /** The list in memory is the list `entries` describes. */
    ghost predicate InMemory()
      reads this, list, sentinelTimer
    {
      && 2 <= |list| && Matches(list, entries) && Linked(list) && Clocked(list, entries)
      && timerList == list[0] && sentinelTimer.next == null
      && k < |list| && lastInsert == list[k]
    }

    ghost predicate Valid()
      reads this, list, sentinelTimer
    {
      InMemory() && Shape(entries, Own(), m, k) && 0 < periodTicks < HALF
    }

    ghost function LiveTimers(): Queue
      reads this
      requires 2 <= |entries|
    {
      Live(entries, Own())
    }

    /** The list at power-up. */
    constructor (periodTicks: nat)
      requires 0 < periodTicks < HALF
      ensures Valid() && this.periodTicks == periodTicks
      ensures fresh(periodicTimer) && fresh(sentinelTimer) && fresh(deletedTimer)
      ensures LiveTimers() == [Entry(periodicTimer, 0)] && lastInsert == periodicTimer
    {
      var p := new Timer();
      var s := new Timer();
      var d := new Timer();
      s.waketime := HALF;
      p.next := s;
      periodicTimer, sentinelTimer, deletedTimer := p, s, d;
      this.periodTicks := periodTicks;
      timerList, lastInsert := p, p;
      list, entries, m, k := [p, s], [Entry(p, 0), Entry(s, HALF)], 0, 0;
    }

    /** Record what the list in memory has become. */
    ghost method Describe(l: seq<Timer>, q: Queue, m: nat, k: nat)
      requires 2 <= |l| && Matches(l, q) && Linked(l) && Clocked(l, q)
      requires timerList == l[0] && sentinelTimer.next == null && k < |l| && lastInsert == l[k]
      requires Shape(q, Own(), m, k) && 0 < periodTicks < HALF
      modifies this`list, this`entries, this`m, this`k
      ensures Valid() && list == l && entries == q && this.m == m && this.k == k
    {
      hide Shape, Matches, Linked, Clocked;
      list, entries, this.m, this.k := l, q, m, k;
    }

    /** What is behind the dummies. */
    lemma {:induction false} FrontFacts(add: Timer)
      requires Valid() && add !in list
      ensures var d := Dummies(entries, Own());
        var rest := list[d..];
        && d <= k && rest[k - d] == lastInsert
        && Matches(rest, entries[d..]) && Linked(rest) && Clocked(rest, entries[d..])
        && deletedTimer !in rest && add !in rest && rest[|rest| - 1] == sentinelTimer
        && rest[0] == (if timerList == deletedTimer then deletedTimer.next else timerList)
    {
      BehindDummies(list, entries, Own(), m, k);
      hide Unique, Fits, Sorted, DummyOnlyFirst, Clocked;
    }

    lemma {:induction false} FirstInShape(add: Timer, time: int)
      requires Valid() && add !in list && add != deletedTimer
      requires Near(entries, time) && time < entries[0].time
      ensures var e, d := Entry(add, time), Dummies(entries, Own());
        && d <= m && d <= k
        && AddFirst(entries, Own(), e) == [Entry(deletedTimer, time)] + ([e] + entries[d..])
        && Shape(AddFirst(entries, Own(), e), Own(), m + 2 - d, k + 2 - d)
        && Live(AddFirst(entries, Own(), e), Own()) == InsertEntry(LiveTimers(), e)
    {
      hide Fits, Near, Unique, Sorted, Live, InsertEntry, Scheduled, Linked, Clocked, DummyOnlyFirst;
      MatchesDistinct(list, entries, add);
      ShapeAddedFirst(entries, Own(), m, k, Entry(add, time));
      NoDummyBefore(entries, Own(), m, k);
    }

    /** Put a timer in front of all others, behind the dummy. */
    method LinkFirst(add: Timer, ghost time: int)
      requires Valid() && add !in list && add != deletedTimer
      requires add.waketime == Wrap(time) && Near(entries, time) && time < entries[0].time
      modifies this`timerList, this`list, this`entries, this`m, this`k, add`next, deletedTimer
      ensures Valid() && timerList == deletedTimer
      ensures LiveTimers() == InsertEntry(old(LiveTimers()), Entry(add, time))
    {
      hide Shape, Near, Matches, Linked, Clocked, Live, InsertEntry, AddFirst, Scheduled;
      FrontFacts(add);
      FirstInShape(add, time);
      ghost var e, d := Entry(add, time), Dummies(entries, Own());
      ghost var rest, restEntries := list[d..], entries[d..];
      add.next := if timerList == deletedTimer then deletedTimer.next else timerList;
      deletedTimer.waketime := add.waketime;
      deletedTimer.next := add;
      timerList := deletedTimer;
      InFront(rest, restEntries, e);
      InFront([add] + rest, [e] + restEntries, Entry(deletedTimer, time));
      ghost var l := [deletedTimer] + ([add] + rest);
      assert l[k + 2 - d] == rest[k - d];
      Describe(l, AddFirst(entries, Own(), e), m + 2 - d, k + 2 - d);
    }

    lemma {:induction false} ListFacts()
      requires Valid()
      ensures |list| == |entries| && Distinct(list) && list[|list| - 1] == sentinelTimer && Own().Valid()
      ensures m < |list| - 1 && k < |list| - 1 && list[m] == periodicTimer
      ensures Fits(entries) && entries[|entries| - 1].time == entries[m].time + HALF
      ensures forall t :: t in list <==> Scheduled(entries, t)
      ensures deletedTimer !in list[1..] && (deletedTimer in list <==> timerList == deletedTimer)
    {
      MatchesDistinct(list, entries, timerList);
      forall t
        ensures t in list <==> Scheduled(entries, t)
      {
        MatchesDistinct(list, entries, t);
      }
    }

    lemma {:induction false} NearSentinel(time: int)
      requires Valid() && Near(entries, time)
      ensures time < entries[|entries| - 1].time
    {
      assert -HALF < time - entries[m].time < HALF;
    }

    /** Insert a timer into the list, starting the search at entry `from`. */
    method InsertFrom(pos: Timer, add: Timer, ghost time: int, ghost from: nat)
      requires Valid() && add !in list && add != deletedTimer
      requires add.waketime == Wrap(time) && Near(entries, time)
      requires from < |list| - 1 && pos == list[from] && entries[from].time <= time
      modifies this`list, this`entries, this`m, this`k, list`next, add`next
      ensures Valid()
      ensures LiveTimers() == InsertEntry(old(LiveTimers()), Entry(add, time))
    {
      hide Shape, Fits, Near, Matches, Linked, Clocked, Live, InsertEntry, Scheduled, Insert;
      ListFacts();
      NearSentinel(time);
      ghost var e := Entry(add, time);
      ghost var p := InsertSorted(pos, e, add, list, entries, from, m);
      ShapeInserted(entries, Own(), m, k, e, p);
      ClockedInserted(list, entries, p, e);
      InsertIndex(list, p, add, k);
      Describe(Insert(list, p, add), Insert(entries, p, e), After(m, p), After(k, p));
    }

    /** Schedule a timer at the time in its `waketime`.  A time already past shuts the machine
        down, unless it is down already: then `ok` is false and nothing is scheduled. */
    method AddTimer(add: Timer, ghost time: int, now: Word, isShutdown: bool) returns (ok: bool)
      requires Valid() && add !in list && add != deletedTimer
      requires add.waketime == Wrap(time) && Near(entries, time)
      modifies this`timerList, this`list, this`entries, this`m, this`k, list`next, add`next, deletedTimer
      ensures Valid()
      ensures ok <==> isShutdown || !IsBefore(add.waketime, now) || old(entries[0].time) <= time
      ensures !ok ==> LiveTimers() == old(LiveTimers())
      ensures ok ==> LiveTimers() == InsertEntry(old(LiveTimers()), Entry(add, time))
    {
      var waketime := add.waketime;
      var tl := timerList;
      WrappedOrder(time, entries[0].time);
      hide Shape, Near, Matches, Linked, Live, InsertEntry;
      if IsBefore(waketime, tl.waketime) {
        if IsBefore(waketime, now) {
          if !isShutdown { return false; }
        }
        LinkFirst(add, time);
      } else {
        InsertFrom(tl, add, time, 0);
      }
      ok := true;
    }

    /** Nothing has been added since the list was `l` with times `q`, and the head has stayed. */
    ghost predicate OnlyLost(l: seq<Timer>, q: Queue)
      reads this
    {
      && l != [] && timerList == l[0] && q != [] && entries != [] && entries[0] == q[0]
      && (forall t :: t in list ==> t in l)
      && (forall x :: Near(q, x) ==> Near(entries, x))
    }

    /** Afterwards the timer is not live, whether or not it was. */
    method DelTimer(del: Timer)
      requires Valid() && del != periodicTimer && del != sentinelTimer && del != deletedTimer
      modifies this`timerList, this`lastInsert, this`list, this`entries, this`m, this`k, list`next, deletedTimer
      ensures Valid() && del !in list
      ensures LiveTimers() == RemoveTimer(old(LiveTimers()), del)
      ensures old(timerList) != del ==> OnlyLost(old(list), old(entries))
    {
      ListFacts();
      if timerList == del {
        DeleteHead(del);
      } else {
        DeleteLater(del);
      }
    }

    /** What is behind the head. */
    lemma {:induction false} RestFacts()
      requires Valid()
      ensures var rest := list[1..];
        && Own().Valid() && |rest| == |list| - 1 == |entries| - 1 && m < |rest| && k < |rest| && Matches(rest, entries[1..]) && Linked(rest) && Clocked(rest, entries[1..])
        && Distinct(rest) && timerList !in rest && deletedTimer !in rest
        && rest[0] == timerList.next && rest[|rest| - 1] == sentinelTimer
        && (m > 0 ==> rest[m - 1] == periodicTimer)
        && (if k > 0 then rest[k - 1] == lastInsert else timerList == lastInsert)
        && timerList == entries[0].timer && timerList.waketime == Wrap(entries[0].time)
        && (m == 0 <==> timerList == periodicTimer)
    {
      ListFacts();
      assert list[m] == periodicTimer && list[k] == lastInsert && list[0] == timerList;
      hide Fits, DummyOnlyFirst, Unique;
      if timerList == periodicTimer { SameIndex(list, 0, m); }
      assert timerList !in list[1..];
    }

    /** The head goes, and the dummy takes over its place and time. */
    method DeleteHead(del: Timer)
      requires Valid() && timerList == del && del != periodicTimer && del != deletedTimer
      modifies this`timerList, this`lastInsert, this`list, this`entries, this`m, this`k, deletedTimer
      ensures Valid() && del !in list
      ensures LiveTimers() == RemoveTimer(old(LiveTimers()), del)
    {
      hide Shape, Matches, Linked, Clocked, Live, Distinct, RemoveTimer, Fits;
      RestFacts();
      ShapeHeadDeleted(entries, Own(), m, k);
      ghost var rest, e := list[1..], Entry(deletedTimer, entries[0].time);
      deletedTimer.waketime := del.waketime;
      deletedTimer.next := del.next;
      timerList := deletedTimer;
      if lastInsert == del {
        lastInsert := periodicTimer;
      }
      InFront(rest, entries[1..], e);
      Describe([deletedTimer] + rest, [e] + entries[1..], m, if k == 0 then m else k);
    }

    method DeleteLater(del: Timer)
      requires Valid() && timerList != del && del != periodicTimer && del != sentinelTimer
      modifies this`lastInsert, this`list, this`entries, this`m, this`k, list`next
      ensures Valid() && del !in list && OnlyLost(old(list), old(entries))
      ensures LiveTimers() == RemoveTimer(old(LiveTimers()), del)
    {
      hide Shape, Matches, Linked, Clocked, Live, RemoveTimer, Scheduled, Remove, Distinct, Fits, Near;
      ListFacts();
      ghost var p := Unlink(timerList, del, list);
      if del in list { SameIndex(list, k, p); }
      if lastInsert == del {
        lastInsert := periodicTimer;
      }
      if del in list {
        ShapeRemoved(entries, Own(), m, k, p);
        ClockedRemoved(list, entries, p);
        MatchesAt(list, entries, p);
        RemoveIndex(list, p, m);
        if k != p { RemoveIndex(list, p, k); }
        UniqueGone(list, p);
        RemoveIndex(entries, p, 0);
        forall x | Near(entries, x)
          ensures Near(Remove(entries, p), x)
        {
          NearRemoved(entries, p, x);
        }
        forall t | t in Remove(list, p)
          ensures t in list
        {
          StillThere(list, p, t);
        }
        Describe(Remove(list, p), Remove(entries, p), Before(m, p), if k == p then Before(m, p) else Before(k, p));
      } else {
        LiveWithout(entries, Own(), m, k, del);
      }
    }

    /** The head has finished: go on with the rest. */
    method FinishHead() returns (next: Word)
      requires Valid() && timerList != periodicTimer
      modifies this
      ensures Valid() && next == timerList.waketime
      ensures LiveTimers() == if old(timerList) == deletedTimer then old(LiveTimers()) else old(LiveTimers())[1..]
    {
      hide Shape, Matches, Linked, Clocked, Live, Distinct, Fits;
      RestFacts();
      ShapeHeadPopped(entries, Own(), m, k);
      var t := timerList;
      next := t.next.waketime;
      timerList := t.next;
      if lastInsert == t {
        lastInsert := t.next;
      }
      ghost var rest := list[1..];
      LastIndex(rest, t, k, lastInsert);
      Describe(rest, entries[1..], m - 1, if k == 0 then 0 else k - 1);
    }

    /** Put the head back at its new time, given the rest of the list with its true times `r`. */
    method RescheduleHead(ghost time: int, ghost rest: seq<Timer>, ghost r: Queue) returns (next: Word)
      requires |list| >= 2 && rest == list[1..] && |r| == |rest| && timerList == list[0]
      requires Own().Valid() && Matches(rest, r) && Linked(rest) && Clocked(rest, r) && Distinct(rest)
      requires Unique(r) && Fits(r) && !Scheduled(r, timerList) && !Scheduled(r, deletedTimer) && timerList !in rest
      requires timerList != deletedTimer && timerList != sentinelTimer && timerList.next == rest[0]
      requires rest[|rest| - 1] == sentinelTimer && sentinelTimer.next == null && 0 < periodTicks < HALF
      requires timerList.waketime == Wrap(time) && Near(r, time) && time < r[|r| - 1].time
      requires if timerList == periodicTimer then m == 0 && r[|r| - 1].time == time + HALF
               else 0 < m < |r| && rest[m - 1] == periodicTimer && r[|r| - 1].time == r[m - 1].time + HALF
      requires k < |r| && if k > 0 then rest[k - 1] == lastInsert else timerList == lastInsert
      modifies this, list`next
      ensures Valid() && next == timerList.waketime
      ensures LiveTimers() == InsertEntry(r[..|r| - 1], Entry(old(timerList), time))
    {
      hide Matches, Linked, Clocked, Live, Distinct, Fits, Unique, Scheduled, InsertEntry, Near, Shape, Insert;
      var t := timerList;
      ghost var e := Entry(t, time);
      var updated := t.waketime;
      ClockedAt(rest, r, 0);
      CompareAt(r, time, 0);
      MatchesAt(rest, r, |r| - 1);
      if !IsBefore(updated, t.next.waketime) {
        next := t.next.waketime;
        timerList := t.next;
        var pos := lastInsert;
        if k > 0 {
          ClockedAt(rest, r, k - 1);
          CompareAt(r, time, k - 1);
        }
        ghost var from := if k == 0 then -1 else if time < r[k - 1].time then 0 else k - 1;
        if IsBefore(updated, pos.waketime) {
          pos := timerList;
        }
        ghost var p := InsertSorted(pos, e, t, rest, r, from, if m == 0 then 0 else m - 1);
        lastInsert := t;
        ReinsertAt(rest, r, e, p, m);
        ShapeReinserted(r, Own(), e, p, if m == 0 then p else After(m - 1, p), p);
        Describe(Insert(rest, p, t), Insert(r, p, e), if m == 0 then p else After(m - 1, p), p);
      } else {
        next := updated;
        StayFirst(rest, r, e, m, k);
        ShapeReinserted(r, Own(), e, 0, m, k);
        Describe(Insert(rest, 0, t), Insert(r, 0, e), m, k);
      }
    }

    /** The periodic timer moves on by its period, and takes the sentinel with it. */
    method PeriodicEvent()
      requires Valid() && timerList == periodicTimer
      modifies periodicTimer`waketime, sentinelTimer`waketime
      ensures periodicTimer.waketime == Wrap(entries[0].time + periodTicks)
      ensures sentinelTimer.waketime == Wrap(entries[0].time + periodTicks + HALF)
    {
      RestFacts();
      WrapSum(entries[0].time, periodTicks);
      WrapSum(entries[0].time + periodTicks, HALF);
      periodicTimer.waketime := Wrap(periodicTimer.waketime + periodTicks);
      sentinelTimer.waketime := Wrap(periodicTimer.waketime + HALF);
    }

    /** Cancel timers other than the running one, as a callback may. */
    method CancelAll(cancelled: seq<Timer>)
      requires Valid()
      requires forall t :: t in cancelled ==>
        t != periodicTimer && t != sentinelTimer && t != deletedTimer && t != timerList
      modifies this`timerList, this`lastInsert, this`list, this`entries, this`m, this`k, list`next, deletedTimer
      ensures Valid() && OnlyLost(old(list), old(entries))
      ensures LiveTimers() == Without(old(LiveTimers()), cancelled)
    {
      hide Shape, Near, Live, RemoveTimer, Linked, Clocked;
      var i := 0;
      while i < |cancelled|
        invariant 0 <= i <= |cancelled|
        invariant Valid() && OnlyLost(old(list), old(entries))
        invariant Without(old(LiveTimers()), cancelled) == Without(LiveTimers(), cancelled[i..])
      {
        assert cancelled[i] in cancelled;
        assert forall j :: 0 <= j < |list| ==> list[j] in list;
        DelTimer(cancelled[i]);
        i := i + 1;
      }
    }

    /** The periodic timer has run: put it back. */
    method DispatchPeriodic() returns (next: Word)
      requires Valid() && timerList == periodicTimer
      modifies this, list`next, periodicTimer`waketime, sentinelTimer`waketime
      ensures Valid() && next == timerList.waketime
      ensures LiveTimers() == InsertEntry(old(LiveTimers())[1..], Entry(periodicTimer, old(entries[0].time) + periodTicks))
    {
      hide Shape, Live, Unique, Fits, Near, Scheduled, Linked, Distinct, InsertEntry, DummyOnlyFirst, Matches, Clocked;
      RestFacts();
      PeriodicMoved(entries, Own(), m, k, periodTicks);
      ghost var time := entries[0].time + periodTicks;
      ghost var r := entries[1..|entries| - 1] + [Entry(sentinelTimer, time + HALF)];
      ghost var rest := list[1..];
      SentinelLast(rest, entries[1..], r, sentinelTimer);
      FrontClocked(rest, entries[1..]);
      PeriodicEvent();
      SentinelClocked(rest, entries[1..], r);
      next := RescheduleHead(time, rest, r);
    }

    /** A timer that is not the scheduler's own has run: put it back. */
    method DispatchAgain(waketime: Word, ghost time: int) returns (next: Word)
      requires Valid() && timerList != periodicTimer && timerList != deletedTimer
      requires waketime == Wrap(time) && Near(entries, time)
      modifies this, list`next, timerList`waketime
      ensures Valid() && next == timerList.waketime
      ensures LiveTimers() == InsertEntry(old(LiveTimers())[1..], Entry(old(timerList), time))
    {
      hide Live, Unique, Fits, Scheduled, Linked, Distinct, InsertEntry, Matches, Clocked;
      RestFacts();
      NearSentinel(time);
      ShapeHeadPopped(entries, Own(), m, k);
      HeadPopped(entries, deletedTimer);
      ghost var rest, r := list[1..], entries[1..];
      assert Near(r, time);
      assert r[..|r| - 1] == entries[1..|entries| - 1];
      timerList.waketime := waketime;
      next := RescheduleHead(time, rest, r);
    }

    /** Run the callback of the timer at the head and put the list in order again.  The callback may
        cancel other timers; `outcome` is what it asks for itself, at true time `time`.  The
        scheduler's own timers do what they always do.  Returns the wake time of the next timer. */
    method Dispatch(outcome: Outcome, ghost time: int, cancelled: seq<Timer>) returns (next: Word)
      requires Valid()
      requires forall t :: t in cancelled ==>
        t != periodicTimer && t != sentinelTimer && t != deletedTimer && t != timerList
      requires outcome.Rescheduled? ==> outcome.waketime == Wrap(time) && Near(entries, time)
      modifies this, list, deletedTimer
      ensures Valid() && next == timerList.waketime
      ensures old(timerList) == periodicTimer ==>
        LiveTimers() == InsertEntry(old(LiveTimers())[1..], Entry(periodicTimer, old(entries[0].time) + periodTicks))
      ensures old(timerList) == deletedTimer ==> LiveTimers() == old(LiveTimers())
      ensures old(timerList) != periodicTimer && old(timerList) != deletedTimer ==>
        var others := Without(old(LiveTimers())[1..], cancelled);
        LiveTimers() == if outcome.Finished? then others else InsertEntry(others, Entry(old(timerList), time))
    {
      hide Live, Shape, Near, Linked, Clocked, Matches, InsertEntry, Without;
      RestFacts();
      HeadIsLive();
      if timerList == periodicTimer {
        next := DispatchPeriodic();
      } else if timerList == deletedTimer {
        next := FinishHead();
      } else {
        WithoutKeepsHead(LiveTimers(), cancelled);
        assert timerList in list;
        CancelAll(cancelled);
        assert forall j :: 0 <= j < |list| ==> list[j] in list;
        match outcome {
          case Finished =>
            next := FinishHead();
          case Rescheduled(waketime) =>
            next := DispatchAgain(waketime, time);
        }
      }
    }

    /** Drop every timer but the periodic one. */
    method Reset()
      requires Valid()
      modifies this, periodicTimer`next, deletedTimer
      ensures Valid() && timerList == deletedTimer && lastInsert == periodicTimer
      ensures LiveTimers() == [Entry(periodicTimer, old(entries[m].time))]
    {
      ListFacts();
      ghost var pt := entries[m].time;
      ClockedAt(list, entries, m);
      ClockedAt(list, entries, |list| - 1);
      timerList := deletedTimer;
      deletedTimer.waketime := periodicTimer.waketime;
      deletedTimer.next := periodicTimer;
      lastInsert := periodicTimer;
      periodicTimer.next := sentinelTimer;
      Describe([deletedTimer, periodicTimer, sentinelTimer],
               [Entry(deletedTimer, pt), Entry(periodicTimer, pt), Entry(sentinelTimer, pt + HALF)], 1, 1);
    }

    /** The live timers are in the order of their true times, each once, less than half the
        counter's range apart; the periodic timer is always among them, the sentinel and the dummy
        never. */
    lemma {:induction false} LiveIsSorted()
      requires Valid()
      ensures Sorted(LiveTimers()) && Unique(LiveTimers()) && Scheduled(LiveTimers(), periodicTimer)
      ensures !Scheduled(LiveTimers(), sentinelTimer) && !Scheduled(LiveTimers(), deletedTimer)
      ensures forall i, j :: 0 <= i < j < |LiveTimers()| ==> LiveTimers()[j].time - LiveTimers()[i].time < HALF
    {
      ListFacts();
      LiveSlice(entries, Own(), m);
    }

    /** The live timers are those linked in the list, without the sentinel and the dummy. */
    lemma {:induction false} LiveIsTheList(e: Entry<Timer>)
      requires Valid()
      ensures e in LiveTimers() <==> e in entries && e.timer != sentinelTimer && e.timer != deletedTimer
      ensures e in LiveTimers() ==> e.timer in list && e.timer.waketime == Wrap(e.time)
    {
      LiveEntries(entries, Own(), m, k, e);
      hide Live, Shape;
      if e in LiveTimers() {
        var i :| 0 <= i < |entries| && entries[i] == e;
        ClockedAt(list, entries, i);
        assert list[i] == e.timer;
      }
    }

    lemma {:induction false} HeadIsLive()
      requires Valid()
      ensures LiveTimers() != []
      ensures timerList != deletedTimer ==> LiveTimers()[0].timer == timerList
    {
    }
  }

  /** Whatever the wake time, with no assumption on how it relates to the times in the list, the
      search of `AddTimer` stops at or before the sentinel. */
  lemma {:induction false} SearchStops(s: Scheduler, w: Word)
    requires s.Valid() && !IsBefore(w, s.timerList.waketime)
    ensures exists p :: 0 < p < |s.list| && IsBefore(w, s.list[p].waketime)
  {
    s.ListFacts();
    var last := |s.list| - 1;
    ClockedAt(s.list, s.entries, s.m);
    ClockedAt(s.list, s.entries, last);
    WrapSum(s.entries[s.m].time, HALF);
    BeforeExactlyOne(w, s.periodicTimer.waketime);
    if IsBefore(w, s.periodicTimer.waketime) {
      assert 0 < s.m < |s.list| && IsBefore(w, s.list[s.m].waketime);
    } else {
      assert 0 < last < |s.list| && IsBefore(w, s.list[last].waketime);
    }
  }
}
