/** The shared pool of move nodes: a free list, and queues the nodes travel through. */
module MovePool {

  /** Where a node is: on the free list, in a queue, or held by the running command. */
  datatype Owner = Free | Queued(queue: QueueHead) | Held

  class Node {
    var next: Node?
    ghost var owner: Owner

    constructor ()
      ensures owner == Held
    {
      next, owner := null, Held;
    }
  }

  class QueueHead {
    var first: Node?
    var last: Node?
    ghost var contents: seq<Node>

    constructor ()
      ensures first == null && contents == []
    {
      first, last, contents := null, null, [];
    }
  }

  // ------------------------------------------------------------ linked lists of nodes

  ghost predicate Distinct(l: seq<Node>) {
    forall i, j :: 0 <= i < j < |l| ==> l[i] != l[j]
  }

  ghost predicate Within(l: seq<Node>, nodes: seq<Node>) {
    forall i :: 0 <= i < |l| ==> l[i] in nodes
  }

  /** `l` is linked in order, and ends the list. */
  ghost predicate Linked(l: seq<Node>)
    reads l`next
  {
    && (forall i :: 0 <= i < |l| - 1 ==> l[i].next == l[i + 1])
    && (l != [] ==> l[|l| - 1].next == null)
  }

  ghost predicate IsList(head: Node?, l: seq<Node>)
    reads l`next
  {
    head == (if l == [] then null else l[0]) && Linked(l) && Distinct(l)
  }

  /** Link a node in front of a list. */
  method LinkFront(m: Node, head: Node?, ghost l: seq<Node>)
    requires IsList(head, l) && m !in l
    modifies m`next
    ensures IsList(m, [m] + l)
  {
    m.next := head;
  }

  lemma {:induction false} Behind(head: Node?, l: seq<Node>)
    requires IsList(head, l) && l != []
    ensures head == l[0] && IsList(l[0].next, l[1..]) && l[0] !in l[1..]
  {
    assert |l| > 1 ==> l[0].next == l[1];
  }

  lemma {:induction false} Heads(head: Node?, l: seq<Node>)
    requires IsList(head, l)
    ensures head == if l == [] then null else l[0]
  {
  }

  lemma {:induction false} Alone(m: Node)
    requires m.next == null
    ensures IsList(m, [m])
  {
  }

  /** Link a node behind a non-empty list. */
  method LinkBack(last: Node, m: Node, ghost head: Node?, ghost l: seq<Node>)
    requires IsList(head, l) && l != [] && last == l[|l| - 1] && m !in l
    modifies last`next, m`next
    ensures IsList(head, l + [m])
  {
    m.next := null;
    last.next := m;
  }

  // ------------------------------------------------------------ the pool

  class Pool {
    /** Every node, in the order of the array they are allocated in. */
    const nodes: seq<Node>
    var freeList: Node?
    ghost var free: seq<Node>
    ghost const queues: set<QueueHead>

    /** The lists in memory hold what the ghost contents say. */
    ghost predicate InMemory()
      reads this, nodes`next, queues
    {
      && Within(free, nodes) && IsList(freeList, free)
      && forall q :: q in queues ==> QueueInMemory(q)
    }

    ghost predicate QueueInMemory(q: QueueHead)
      reads this, nodes`next, q
    {
      && Within(q.contents, nodes) && IsList(q.first, q.contents)
      && (q.contents != [] ==> q.last == q.contents[|q.contents| - 1])
    }

    /** Every node is in the one place its owner says: on the free list, in one queue, or held. */
    ghost predicate Conserved()
      reads this`free, nodes`owner, queues`contents
    {
      && (forall n :: n in nodes ==> (n in free <==> n.owner == Free))
      && (forall n, q :: n in nodes && q in queues ==> (n in q.contents <==> n.owner == Queued(q)))
      && (forall n :: n in nodes && n.owner.Queued? ==> n.owner.queue in queues)
    }

    ghost predicate Valid()
      reads this, nodes, queues
    {
      Distinct(nodes) && InMemory() && Conserved()
    }

    /** The node held becomes free. */
    method MoveFree(m: Node)
      requires Valid() && m in nodes && m.owner == Held
      modifies this`freeList, this`free, m
      ensures Valid() && free == [m] + old(free) && m.owner == Free
    {
      hide IsList, Distinct;
      LinkFront(m, freeList, free);
      freeList := m;
      free := [m] + free;
      m.owner := Free;
    }

    /** Allocate a node; when there is none left the machine shuts down. */
    method MoveAlloc() returns (m: Node?)
      requires Valid()
      modifies this`freeList, this`free, nodes`owner
      ensures Valid()
      ensures m == null <==> old(free) == []
      ensures m != null ==> m == old(free)[0] && free == old(free)[1..] && m in nodes && m.owner == Held
      ensures forall n :: n in nodes && n != m ==> n.owner == old(n.owner)
    {
      m := freeList;
      if m == null {
        return;
      }
      Behind(freeList, free);
      assert free[0] in free;
      hide IsList, Distinct;
      freeList := m.next;
      free := free[1..];
      m.owner := Held;
    }

    /** Add a node to a queue; returns whether it is the first one there. */
    method Push(m: Node, q: QueueHead) returns (firstOnQueue: bool)
      requires Valid() && q in queues && m in nodes && m.owner == Held
      modifies q, nodes`next, m`owner
      ensures Valid() && q.contents == old(q.contents) + [m] && m.owner == Queued(q)
      ensures firstOnQueue <==> old(q.contents) == []
    {
      hide IsList, Distinct, Conserved;
      Heads(q.first, q.contents);
      if q.first != null {
        assert q.last == q.contents[|q.contents| - 1];
        PushBack(m, q);
        firstOnQueue := false;
      } else {
        PushFirst(m, q);
        firstOnQueue := true;
      }
    }

    lemma {:induction false} HeldNowhere(m: Node)
      requires Conserved() && m in nodes && m.owner == Held
      ensures m !in free && forall q :: q in queues ==> m !in q.contents
    {
    }

    lemma {:induction false} QueuesApart(q: QueueHead, m: Node)
      requires Conserved() && q in queues && m in q.contents && m in nodes
      ensures m !in free && forall r :: r in queues && r != q ==> m !in r.contents
    {
      assert m.owner == Queued(q);
    }

    /** Note that a held node is now at the end of a queue. */
    ghost method Enter(m: Node, q: QueueHead)
      requires Conserved() && q in queues && m in nodes && m.owner == Held
      modifies q`contents, m`owner
      ensures Conserved() && q.contents == old(q.contents) + [m] && m.owner == Queued(q)
    {
      q.contents := q.contents + [m];
      m.owner := Queued(q);
    }

    method PushFirst(m: Node, q: QueueHead)
      requires Valid() && q in queues && m in nodes && m.owner == Held && q.contents == []
      modifies q, m`next, m`owner
      ensures Valid() && q.contents == [m] && m.owner == Queued(q)
    {
      hide IsList, Distinct, Conserved;
      HeldNowhere(m);
      m.next := null;
      Alone(m);
      q.first, q.last := m, m;
      assert q.contents + [m] == [m];
      Enter(m, q);
    }

    method PushBack(m: Node, q: QueueHead)
      requires Valid() && q in queues && m in nodes && m.owner == Held && q.contents != []
      modifies q, q.last`next, m`next, m`owner
      ensures Valid() && q.contents == old(q.contents) + [m] && m.owner == Queued(q)
    {
      hide IsList, Distinct, Conserved;
      HeldNowhere(m);
      assert q.last in q.contents;
      QueuesApart(q, q.last);
      LinkBack(q.last, m, q.first, q.contents);
      q.last := m;
      Enter(m, q);
    }

    /** Remove the first node of a queue that is not empty. */
    method Pop(q: QueueHead) returns (m: Node)
      requires Valid() && q in queues && q.contents != []
      modifies q`first, q`contents, nodes`owner
      ensures Valid() && m == old(q.contents)[0] && q.contents == old(q.contents)[1..]
      ensures m in nodes && m.owner == Held
      ensures forall n :: n in nodes && n != m ==> n.owner == old(n.owner)
    {
      hide IsList, Distinct;
      Behind(q.first, q.contents);
      assert q.contents[0] in q.contents;
      m := q.first;
      q.first := m.next;
      q.contents := q.contents[1..];
      m.owner := Held;
    }

    /** Put every node on the free list, whatever list it is on. */
    method MoveReset()
      requires Distinct(nodes) && (nodes == [] ==> freeList == null && free == [])
      modifies this`freeList, this`free, nodes
      ensures free == nodes && IsList(freeList, free)
      ensures forall n :: n in nodes ==> n.owner == Free
      ensures nodes == [] ==> freeList == null
    {
      if nodes == [] {
        return;
      }
      var i := 0;
      while i < |nodes| - 1
        invariant 0 <= i <= |nodes| - 1
        invariant forall j :: 0 <= j < i ==> nodes[j].next == nodes[j + 1]
      {
        nodes[i].next := nodes[i + 1];
        i := i + 1;
      }
      nodes[|nodes| - 1].next := null;
      freeList := nodes[0];
      free := nodes;
      forall n | n in nodes {
        n.owner := Free;
      }
    }

    // ---------------------------------------------------------- the commands' use of the pool

    /** No node is held: what holds between commands. */
    ghost predicate Settled()
      reads nodes`owner
    {
      forall n :: n in nodes ==> n.owner != Held
    }

    /** Take the next node of a queue and free it, if there is one. */
    method LoadNext(q: QueueHead) returns (loaded: bool)
      requires Valid() && Settled() && q in queues
      modifies this`freeList, this`free, q`first, q`contents, nodes
      ensures Valid() && Settled() && (loaded <==> old(q.contents) != [])
      ensures if loaded then q.contents == old(q.contents)[1..] && free == [old(q.contents)[0]] + old(free)
              else q.contents == [] && free == old(free)
    {
      hide IsList, Distinct, Conserved;
      Heads(q.first, q.contents);
      if q.first == null {
        return false;
      }
      var m := Pop(q);
      MoveFree(m);
      loaded := true;
    }

    /** Free a whole queue, the oldest node first. */
    method StopQueue(q: QueueHead)
      requires Valid() && Settled() && q in queues
      modifies this`freeList, this`free, q`first, q`contents, nodes
      ensures Valid() && Settled() && q.contents == [] && free == Reversed(old(q.contents)) + old(free)
    {
      hide IsList, Distinct, Conserved;
      var more := q.first != null;
      Heads(q.first, q.contents);
      assert Reversed(q.contents) + free == old(Reversed(q.contents) + free);
      while more
        invariant Valid() && Settled() && (more <==> q.contents != [])
        invariant Reversed(q.contents) + free == old(Reversed(q.contents) + free)
        decreases |q.contents|
      {
        ghost var before, rest := free, q.contents[1..];
        assert Reversed(q.contents) + before == Reversed(rest) + ([q.contents[0]] + before);
        var _ := LoadNext(q);
        Heads(q.first, q.contents);
        more := q.first != null;
      }
      assert Reversed(q.contents) + free == free;
    }

    /** Allocate a node and queue it; with none left the machine shuts down. */
    method QueueNew(q: QueueHead) returns (shutdown: bool)
      requires Valid() && Settled() && q in queues
      modifies this`freeList, this`free, q, nodes
      ensures Valid() && Settled() && (shutdown <==> old(free) == [])
      ensures !shutdown ==> free == old(free)[1..] && q.contents == old(q.contents) + [old(free)[0]]
    {
      hide IsList, Distinct, Conserved;
      var m := MoveAlloc();
      if m == null {
        return true;
      }
      var _ := Push(m, q);
      shutdown := false;
    }

    /** Queue a step: a stepper that is waiting for a reset drops the move, and one that is idle loads
        it at once. */
    method QueueStep(q: QueueHead, count: nat, active: bool, needReset: bool) returns (shutdown: bool)
      requires Valid() && Settled() && q in queues
      modifies this`freeList, this`free, q, nodes
      ensures Valid() && (shutdown <==> old(free) == [] || count == 0)
      ensures !shutdown ==>
        var all := old(q.contents) + [old(free)[0]];
        && Settled()
        && if active then q.contents == all && free == old(free)[1..]
           else if needReset then q.contents == old(q.contents) && free == old(free)
           else q.contents == all[1..] && free == [all[0]] + old(free)[1..]
    {
      hide IsList, Distinct, Conserved;
      var m := MoveAlloc();
      if m == null || count == 0 {
        return true;
      }
      if active {
        var _ := Push(m, q);
      } else if needReset {
        MoveFree(m);
      } else {
        var _ := Push(m, q);
        var _ := LoadNext(q);
      }
      shutdown := false;
    }

    /** Forget a queue's contents, without looking at them. */
    method ClearQueue(q: QueueHead)
      modifies q`first, q`contents
      ensures q.first == null && q.contents == []
    {
      q.first, q.contents := null, [];
    }
  }

  function Reversed<T>(s: seq<T>): (r: seq<T>)
    ensures |r| == |s|
  {
    if s == [] then [] else Reversed(s[1..]) + [s[0]]
  }

  /** What a shutdown function does to the pool. */
  datatype ShutdownStep = ResetPool | Clear(queue: QueueHead)

  /** Run the shutdown functions, in whatever order they are linked in and from whatever state the
      machine was stopped in: if the pool is reset and every queue is cleared, all nodes are free. */
  method RunShutdown(p: Pool, steps: seq<ShutdownStep>)
    requires Distinct(p.nodes) && (p.nodes == [] ==> p.freeList == null && p.free == [])
    requires ResetPool in steps && forall q :: q in p.queues ==> Clear(q) in steps
    requires forall s :: s in steps && s.Clear? ==> s.queue in p.queues
    modifies p`freeList, p`free, p.nodes, p.queues`first, p.queues`contents
    ensures p.Valid() && p.free == p.nodes
    ensures forall n :: n in p.nodes ==> n.owner == Free
    ensures forall q :: q in p.queues ==> q.contents == [] && q.first == null
  {
    var i := 0;
    while i < |steps|
      invariant 0 <= i <= |steps|
      invariant p.nodes == [] ==> p.freeList == null && p.free == []
      invariant ResetPool in steps[..i] ==>
        p.free == p.nodes && IsList(p.freeList, p.free) && forall n :: n in p.nodes ==> n.owner == Free
      invariant forall q :: q in p.queues && Clear(q) in steps[..i] ==> q.contents == [] && q.first == null
    {
      hide IsList, Distinct;
      assert steps[i] in steps;
      match steps[i] {
        case ResetPool =>
          p.MoveReset();
        case Clear(q) =>
          p.ClearQueue(q);
      }
      i := i + 1;
    }
    assert steps[..i] == steps;
  }

  /** What commands and events do to the pool. */
  datatype Use =
    | QueueStep(queue: QueueHead, count: nat, active: bool, needReset: bool)
    | LoadStep(queue: QueueHead)
    | StopStepper(queue: QueueHead)
    | QueueOutput(queue: QueueHead, exceeds: bool)
    | LoadOutput(queue: QueueHead, exceeds: bool)

  /** Carry out one command or event: unless it shuts the machine down, no node is left held. */
  method Carry(p: Pool, use: Use) returns (shutdown: bool)
    requires p.Valid() && p.Settled() && use.queue in p.queues
    modifies p`freeList, p`free, use.queue, p.nodes
    ensures p.Valid() && (!shutdown ==> p.Settled())
    ensures shutdown <==>
      match use {
        case QueueStep(_, count, _, _) => old(p.free) == [] || count == 0
        case QueueOutput(_, exceeds) => old(p.free) == [] || exceeds
        case LoadOutput(q, exceeds) => old(q.contents) == [] || exceeds
        case _ => false
      }
    ensures !shutdown ==>
      |p.free| + |use.queue.contents| == old(|p.free| + |use.queue.contents|)
  {
    hide IsList, Distinct;
    match use {
      case QueueStep(q, count, active, needReset) =>
        shutdown := p.QueueStep(q, count, active, needReset);
      case LoadStep(q) =>
        var _ := p.LoadNext(q);
        shutdown := false;
      case StopStepper(q) =>
        p.StopQueue(q);
        shutdown := false;
      case QueueOutput(q, exceeds) =>
        // the check follows after the node has been queued
        shutdown := p.QueueNew(q);
        shutdown := shutdown || exceeds;
      case LoadOutput(q, exceeds) =>
        // and after it has been freed
        var loaded := p.LoadNext(q);
        shutdown := !loaded || exceeds;
    }
  }

  /** Any run of commands and events, ended by a shutdown or not: no node is lost. */
  method RunCommands(p: Pool, uses: seq<Use>, steps: seq<ShutdownStep>) returns (done: nat)
    requires p.Valid() && p.Settled()
    requires forall u :: u in uses ==> u.queue in p.queues
    requires ResetPool in steps && forall q :: q in p.queues ==> Clear(q) in steps
    requires forall s :: s in steps && s.Clear? ==> s.queue in p.queues
    modifies p`freeList, p`free, p.nodes, p.queues
    ensures p.Valid() && p.Settled() && done <= |uses|
    ensures done < |uses| ==> p.free == p.nodes
  {
    done := 0;
    while done < |uses|
      invariant done <= |uses| && p.Valid() && p.Settled()
    {
      hide IsList, Distinct;
      assert uses[done] in uses;
      var shutdown := Carry(p, uses[done]);
      if shutdown {
        InPool(p);
        RunShutdown(p, steps);
        return;
      }
      done := done + 1;
    }
  }

  lemma {:induction false} InPool(p: Pool)
    requires p.Valid()
    ensures Distinct(p.nodes) && (p.nodes == [] ==> p.freeList == null && p.free == [])
  {
  }

  // ------------------------------------------------------------ counting the nodes

  ghost function Lengths(qs: seq<QueueHead>): nat
    reads qs`contents
  {
    if qs == [] then 0 else |qs[0].contents| + Lengths(qs[1..])
  }

  function Elements(l: seq<Node>): set<Node> {
    set n | n in l
  }

  lemma {:induction false} SizeOf(l: seq<Node>)
    requires Distinct(l)
    ensures |Elements(l)| == |l|
    decreases |l|
  {
    if l != [] {
      SizeOf(l[1..]);
      assert Elements(l) == {l[0]} + Elements(l[1..]);
    }
  }

  /** The nodes whose owner is one of these queues. */
  ghost function QueuedIn(p: Pool, qs: seq<QueueHead>): set<Node>
    reads p.nodes`owner
  {
    set n | n in p.nodes && n.owner.Queued? && n.owner.queue in qs
  }

  lemma {:induction false} SizeOfQueued(p: Pool, qs: seq<QueueHead>)
    requires p.Valid() && (forall q :: q in qs ==> q in p.queues)
    requires forall i, j :: 0 <= i < j < |qs| ==> qs[i] != qs[j]
    ensures |QueuedIn(p, qs)| == Lengths(qs)
    decreases |qs|
  {
    hide IsList, Distinct, Elements, QueuedIn;
    if qs == [] {
      NoQueues(p);
    } else {
      var q := qs[0];
      SizeOfQueued(p, qs[1..]);
      ContentsDistinct(p, q);
      SizeOf(q.contents);
      OneMoreQueue(p, qs);
    }
  }

  lemma {:induction false} NoQueues(p: Pool)
    ensures QueuedIn(p, []) == {}
  {
  }

  lemma {:induction false} ContentsDistinct(p: Pool, q: QueueHead)
    requires p.InMemory() && q in p.queues
    ensures Distinct(q.contents) && Within(q.contents, p.nodes)
  {
    assert p.QueueInMemory(q);
  }

  lemma {:induction false} OneMoreQueue(p: Pool, qs: seq<QueueHead>)
    requires p.Conserved() && qs != [] && qs[0] in p.queues && qs[0] !in qs[1..] && Within(qs[0].contents, p.nodes)
    ensures QueuedIn(p, qs) == Elements(qs[0].contents) + QueuedIn(p, qs[1..])
    ensures Elements(qs[0].contents) !! QueuedIn(p, qs[1..])
  {
    var q, rest := qs[0], qs[1..];
    assert qs == [q] + rest;
    forall n | n in Elements(q.contents) ensures n in p.nodes && n.owner == Queued(q) {
      assert n in q.contents;
    }
  }

  /** Between commands the free nodes and the lengths of all queues add up to all the nodes there are:
      allocation fails exactly when every node is queued. */
  lemma {:induction false} NothingLost(p: Pool, qs: seq<QueueHead>)
    requires p.Valid() && p.Settled() && (forall q :: q in qs <==> q in p.queues)
    requires forall i, j :: 0 <= i < j < |qs| ==> qs[i] != qs[j]
    ensures |p.free| + Lengths(qs) == |p.nodes|
    ensures p.free == [] <==> Lengths(qs) == |p.nodes|
  {
    hide IsList, Distinct, Elements, QueuedIn;
    SizeOfQueued(p, qs);
    FreeDistinct(p);
    SizeOf(p.free);
    SizeOf(p.nodes);
    FreeOrQueued(p, qs);
  }

  lemma {:induction false} FreeDistinct(p: Pool)
    requires p.Valid()
    ensures Distinct(p.free) && Within(p.free, p.nodes) && Distinct(p.nodes)
  {
  }

  lemma {:induction false} FreeOrQueued(p: Pool, qs: seq<QueueHead>)
    requires p.Conserved() && p.Settled() && Within(p.free, p.nodes) && forall q :: q in p.queues ==> q in qs
    ensures Elements(p.nodes) == Elements(p.free) + QueuedIn(p, qs) && Elements(p.free) !! QueuedIn(p, qs)
  {
    forall n | n in Elements(p.free) ensures n in p.nodes && n.owner == Free {
      assert n in p.free;
    }
  }
}
