/** The abstract view of the scheduler: live timers in the order in which they will run. */
module TimerQueue {
  import opened Words32

  /** A live timer and its true, unbounded wake time. */
  datatype Entry<T> = Entry(timer: T, time: int)

  /** Insert after every entry that is not later: earliest first, first come first served. */
  ghost function InsertEntry<T>(q: seq<Entry<T>>, e: Entry<T>): (r: seq<Entry<T>>)
    ensures |r| == |q| + 1
  {
    if q == [] || e.time < q[0].time then [e] + q else [q[0]] + InsertEntry(q[1..], e)
  }

  ghost predicate Sorted<T>(q: seq<Entry<T>>) {
    forall i, j :: 0 <= i < j < |q| ==> q[i].time <= q[j].time
  }

  ghost function RemoveTimer<T>(q: seq<Entry<T>>, t: T): seq<Entry<T>> {
    if q == [] then [] else if q[0].timer == t then q[1..] else [q[0]] + RemoveTimer(q[1..], t)
  }

  /** Where an entry goes: after everything not later, before everything later. */
  lemma {:induction false} InsertBetween<T>(a: seq<Entry<T>>, e: Entry<T>, b: seq<Entry<T>>)
    requires forall i :: 0 <= i < |a| ==> a[i].time <= e.time
    requires b != [] ==> e.time < b[0].time
    ensures InsertEntry(a + b, e) == a + [e] + b
  {
    if a == [] {
      assert a + b == b;
    } else {
      assert (a + b)[1..] == a[1..] + b;
      InsertBetween(a[1..], e, b);
    }
  }

  ghost function Without<T>(q: seq<Entry<T>>, cancelled: seq<T>): seq<Entry<T>>
    decreases |cancelled|
  {
    if cancelled == [] then q else Without(RemoveTimer(q, cancelled[0]), cancelled[1..])
  }

  /** Deleting a timer from a queue that has each timer once takes out its entry and no other, and keeps
      the order. */
  lemma {:induction false} RemovesJustThat<T>(q: seq<Entry<T>>, t: T, e: Entry<T>)
    requires forall i, j :: 0 <= i < j < |q| ==> q[i].timer != q[j].timer
    ensures e in RemoveTimer(q, t) <==> e in q && e.timer != t
    ensures var r := RemoveTimer(q, t); forall i, j :: 0 <= i < j < |r| ==> r[i].timer != r[j].timer
    ensures Sorted(q) ==> Sorted(RemoveTimer(q, t))
  {
    if p :| 0 <= p < |q| && q[p].timer == t {
      RemoveTimerAt(q, t, p);
      var r := q[..p] + q[p + 1..];
      assert q == q[..p] + [q[p]] + q[p + 1..];
      forall i, j | 0 <= i < j < |r| ensures r[i].timer != r[j].timer && (Sorted(q) ==> r[i].time <= r[j].time) {
        var i', j' := if i < p then i else i + 1, if j < p then j else j + 1;
        assert r[i] == q[i'] && r[j] == q[j'];
      }
      assert forall i :: 0 <= i < |q| && i != p ==> q[i].timer != t;
    } else {
      RemoveTimerAbsent(q, t);
    }
  }

  /** What is left after deleting several timers are just the entries of the others, in order. */
  lemma {:induction false} WithoutExactly<T>(q: seq<Entry<T>>, cancelled: seq<T>, e: Entry<T>)
    requires forall i, j :: 0 <= i < j < |q| ==> q[i].timer != q[j].timer
    ensures e in Without(q, cancelled) <==> e in q && e.timer !in cancelled
    ensures Sorted(q) ==> Sorted(Without(q, cancelled))
    decreases |cancelled|
  {
    hide Sorted, RemoveTimer;
    if cancelled != [] {
      RemovesJustThat(q, cancelled[0], e);
      WithoutExactly(RemoveTimer(q, cancelled[0]), cancelled[1..], e);
      assert cancelled == [cancelled[0]] + cancelled[1..];
    }
  }

  lemma {:induction false} WithoutKeepsHead<T>(q: seq<Entry<T>>, cancelled: seq<T>)
    requires q != [] && q[0].timer !in cancelled
    ensures Without(q, cancelled) == [q[0]] + Without(q[1..], cancelled)
    decreases |cancelled|
  {
    if cancelled == [] {
      assert q == [q[0]] + q[1..];
    } else {
      var r := RemoveTimer(q, cancelled[0]);
      assert r == [q[0]] + RemoveTimer(q[1..], cancelled[0]) && r[1..] == RemoveTimer(q[1..], cancelled[0]);
      WithoutKeepsHead(r, cancelled[1..]);
    }
  }

  lemma {:induction false} InsertKeepsLowerBound<T>(q: seq<Entry<T>>, e: Entry<T>, low: int)
    requires low <= e.time && forall i :: 0 <= i < |q| ==> low <= q[i].time
    ensures forall i :: 0 <= i <= |q| ==> low <= InsertEntry(q, e)[i].time
  {
    if q != [] && e.time >= q[0].time {
      InsertKeepsLowerBound(q[1..], e, low);
    }
  }

  lemma {:induction false} InsertKeepsSorted<T>(q: seq<Entry<T>>, e: Entry<T>)
    requires Sorted(q)
    ensures Sorted(InsertEntry(q, e))
  {
    if q != [] && e.time >= q[0].time {
      InsertKeepsSorted(q[1..], e);
      InsertKeepsLowerBound(q[1..], e, q[0].time);
    }
  }

  lemma {:induction false} InsertAddsOne<T>(q: seq<Entry<T>>, e: Entry<T>)
    ensures multiset(InsertEntry(q, e)) == multiset(q) + multiset{e}
  {
    if q != [] && e.time >= q[0].time {
      InsertAddsOne(q[1..], e);
      assert q == [q[0]] + q[1..];
    }
  }

  lemma {:induction false} RemoveTimerAt<T>(q: seq<Entry<T>>, t: T, p: nat)
    requires p < |q| && q[p].timer == t && forall i :: 0 <= i < p ==> q[i].timer != t
    ensures RemoveTimer(q, t) == q[..p] + q[p + 1..]
  {
    if p > 0 {
      RemoveTimerAt(q[1..], t, p - 1);
      assert q[..p] == [q[0]] + q[1..][..p - 1];
    }
  }

  lemma {:induction false} RemoveTimerAbsent<T>(q: seq<Entry<T>>, t: T)
    requires forall i :: 0 <= i < |q| ==> q[i].timer != t
    ensures RemoveTimer(q, t) == q
  {
    if q != [] {
      RemoveTimerAbsent(q[1..], t);
    }
  }

  /** Cancelling a timer that was just added restores the queue. */
  lemma {:induction false} RemoveUndoesInsert<T>(q: seq<Entry<T>>, e: Entry<T>)
    requires Sorted(q) && forall i :: 0 <= i < |q| ==> q[i].timer != e.timer
    ensures RemoveTimer(InsertEntry(q, e), e.timer) == q
  {
    if q != [] && e.time >= q[0].time {
      RemoveUndoesInsert(q[1..], e);
    }
  }

  /** Times, of which the last is the sentinel's, that never decrease; those before the sentinel
      span less than half the counter's range. */
  ghost predicate Fits<T>(q: seq<Entry<T>>) {
    Sorted(q) && forall i, j :: 0 <= i < j < |q| - 1 ==> q[j].time - q[i].time < HALF
  }

  /** `time` is within half the counter's range of every time in `q` but the sentinel's. */
  ghost predicate Near<T>(q: seq<Entry<T>>, time: int) {
    forall i :: 0 <= i < |q| - 1 ==> -HALF < time - q[i].time < HALF
  }

  ghost predicate SortedPosition<T>(q: seq<Entry<T>>, time: int, p: nat) {
    p < |q| && (p > 0 ==> q[p - 1].time <= time) && time < q[p].time
  }

  lemma {:induction false} FitsBetween<T>(a: seq<Entry<T>>, e: Entry<T>, b: seq<Entry<T>>)
    requires Fits(a + b) && Near(a + b, e.time) && b != []
    requires forall i :: 0 <= i < |a| ==> a[i].time <= e.time
    requires forall i :: 0 <= i < |b| ==> e.time < b[i].time
    ensures Fits(a + [e] + b)
  {
    var q, r := a + b, a + [e] + b;
    forall i, j | 0 <= i < j < |r|
      ensures r[i].time <= r[j].time && (j < |r| - 1 ==> r[j].time - r[i].time < HALF)
    {
      var i', j' := if i <= |a| then i else i - 1, if j <= |a| then j else j - 1;
      assert i != |a| ==> r[i] == q[i'];
      assert j != |a| ==> r[j] == q[j'];
    }
  }

  lemma {:induction false} FitsInserted<T>(q: seq<Entry<T>>, e: Entry<T>, p: nat)
    requires Fits(q) && Near(q, e.time) && SortedPosition(q, e.time, p)
    ensures Fits(q[..p] + [e] + q[p..])
  {
    var a, b := q[..p], q[p..];
    assert forall i :: 0 <= i < |a| ==> a[i].time <= e.time;
    assert forall i :: 0 <= i < |b| ==> e.time < b[i].time;
    assert q == a + b;
    hide Sorted, Fits, Near;
    FitsBetween(a, e, b);
  }

  lemma {:induction false} SliceAround<T>(s: seq<T>, d: nat, p: nat, x: T)
    requires d <= p < |s|
    ensures s[d..|s| - 1] == s[d..p] + s[p..|s| - 1]
    ensures (s[..p] + [x] + s[p..])[d..|s|] == s[d..p] + [x] + s[p..|s| - 1]
  {
  }

  /** Inserting at the sorted position of the whole list inserts into the live part of it. */
  lemma {:induction false} LiveInserted<T>(q: seq<Entry<T>>, d: nat, e: Entry<T>, p: nat)
    requires Fits(q) && SortedPosition(q, e.time, p) && d <= p
    ensures (q[..p] + [e] + q[p..])[d..|q|] == InsertEntry(q[d..|q| - 1], e)
  {
    var a, b := q[d..p], q[p..|q| - 1];
    assert forall i :: 0 <= i < |a| ==> a[i].time <= e.time;
    SliceAround(q, d, p, e);
    InsertBetween(a, e, b);
  }

  /** Among times that fit together, the search stops exactly at the sorted position. */
  lemma {:induction false} SearchFindsPosition<T>(q: seq<Entry<T>>, time: int, k: nat, p: nat)
    requires Fits(q) && Near(q, time) && k < p < |q|
    requires q[k].time <= time < q[|q| - 1].time
    requires IsBefore(Wrap(time), Wrap(q[p].time))
    requires forall i :: k < i < p ==> !IsBefore(Wrap(time), Wrap(q[i].time))
    ensures SortedPosition(q, time, p)
  {
    if p < |q| - 1 {
      WrappedOrder(time, q[p].time);
    }
    if k < p - 1 {
      WrappedOrder(time, q[p - 1].time);
    }
  }

  /** ... and there is a position to stop at: the sentinel, or the entry `m` half the counter's
      range before it. */
  lemma {:induction false} SearchEnds<T>(q: seq<Entry<T>>, time: int, k: nat, m: nat)
    requires Fits(q) && Near(q, time) && k < |q| - 1
    requires q[k].time <= time < q[|q| - 1].time
    requires q[|q| - 1].time - HALF > time ==> m < |q| - 1 && q[|q| - 1].time == q[m].time + HALF
    ensures exists j :: k < j < |q| && IsBefore(Wrap(time), Wrap(q[j].time))
  {
    var last := |q| - 1;
    if q[last].time - HALF > time {
      WrappedOrder(time, q[m].time);
      assert k < m < |q| && IsBefore(Wrap(time), Wrap(q[m].time));
    } else {
      WrappedOrder(time, q[last].time);
      assert k < last < |q| && IsBefore(Wrap(time), Wrap(q[last].time));
    }
  }
}
