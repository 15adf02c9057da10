/** Finding message blocks in a stream of received bytes, and finding the way back into it after an
    error. */
module BlockFinder {
  import opened Frame
  import opened Vlq

  /** `needSync`: discard bytes up to the next sync byte.  `needValid`: an error has been reported and
      no valid block seen since. */
  datatype State = State(needSync: bool, needValid: bool, next: Byte)

  /** A state the finder can be in. */
  predicate Sound(st: State) {
    (st.needSync ==> st.needValid) && st.next / 16 == 1
  }

  /** What the receiver sees: a block to dispatch, or a nak sent. */
  datatype Event = Block(bytes: seq<Byte>) | Nak

  datatype Step = Step(ret: int, pop: nat, events: seq<Event>, state: State)

  /** The position of the first sync byte, or the length if there is none. */
  function FirstSync(buf: seq<Byte>): (i: nat)
    ensures i <= |buf| && (i < |buf| ==> buf[i] == SYNC)
    ensures forall j :: 0 <= j < i ==> buf[j] != SYNC
  {
    if buf == [] || buf[0] == SYNC then 0 else 1 + FirstSync(buf[1..])
  }

  /** Discard through the next sync byte; the first error since a valid block is reported. */
  function Skip(st: State, buf: seq<Byte>): Step {
    var i := FirstSync(buf);
    var found := i < |buf|;
    Step(-1, if found then i + 1 else |buf|, if st.needValid then [] else [Nak],
         State(!found, true, st.next))
  }

  /** One look at the buffer. */
  function Find(st: State, buf: seq<Byte>): Step {
    if buf != [] && st.needSync then Skip(st, buf)
    else
      var n := CheckPacket(buf);
      if n == 0 then Step(0, 0, [], st)
      else if n < 0 then if buf[0] == SYNC then Step(-1, 1, [], st) else Skip(st, buf)
      else if buf[1] != st.next then Step(-1, n, [Nak], st.(needValid := false))
      else Step(1, n, [Block(buf[..n])], st.(needValid := false, next := SequenceByte(st.next + 1)))
  }

  /** Every look that does not wait takes at least a byte and at most the buffer; the state stays
      sound; and out of step, or unless the buffer starts with a valid block, nothing is taken beyond
      the first sync byte. */
  lemma {:induction false} FindProgress(st: State, buf: seq<Byte>)
    requires Sound(st)
    ensures var f := Find(st, buf);
            && Sound(f.state)
            && (f.ret == 0 ==> f.pop == 0 && f.events == [] && f.state == st)
            && (f.ret != 0 ==> 1 <= f.pop <= |buf|)
            && (f.ret < 0 && (st.needSync || CheckPacket(buf) <= 0) ==> f.pop <= FirstSync(buf) + 1)
            && (f.ret > 0 ==> f.pop == CheckPacket(buf) && !st.needSync)
  {
    hide CheckPacket;
  }

  // ------------------------------------------------------------ the finder

  class BlockFinder {
    var needSync: bool
    var needValid: bool
    var nextSequence: Byte
    /** What the receiver has seen so far. */
    ghost var events: seq<Event>

    ghost function Now(): State
      reads this`needSync, this`needValid, this`nextSequence
    {
      State(needSync, needValid, nextSequence)
    }

    constructor ()
      ensures Now() == State(false, false, 0x10) && Sound(Now()) && events == []
    {
      needSync, needValid, nextSequence, events := false, false, 0x10, [];
    }

    method SendNak()
      modifies this`events
      ensures events == old(events) + [Nak]
    {
      events := events + [Nak];
    }

    /** Check whether a complete valid block starts the buffer. */
    method Check(buf: seq<Byte>) returns (n: int)
      ensures n == CheckPacket(buf)
    {
      hide Crc.Checksum, Crc.HighByte, Crc.LowByte;
      if |buf| < MESSAGE_MIN {
        return 0;
      }
      var msglen := buf[0];
      if msglen < MESSAGE_MIN || msglen > MESSAGE_MAX {
        return -1;
      }
      var msgseq := buf[1];
      if msgseq - msgseq % 16 != 0x10 {
        return -1;
      }
      if |buf| < msglen {
        return 0;
      }
      if buf[msglen - 1] != SYNC {
        return -1;
      }
      var crc := Crc.FirmwareCrc(buf[..msglen - 3]);
      assert buf[msglen - 3..msglen - 1] == [buf[msglen - 3], buf[msglen - 2]];
      if Crc.HighByte(crc) != buf[msglen - 3] || Crc.LowByte(crc) != buf[msglen - 2] {
        return -1;
      }
      n := msglen;
    }

    method SearchSync(buf: seq<Byte>) returns (i: nat)
      ensures i == FirstSync(buf)
    {
      i := 0;
      while i < |buf| && buf[i] != SYNC
        invariant i <= |buf| && FirstSync(buf) == i + FirstSync(buf[i..])
      {
        assert buf[i..][1..] == buf[i + 1..];
        i := i + 1;
      }
    }

    /** Skip, out of step, as the specification does. */
    method Discard(buf: seq<Byte>) returns (pop: nat)
      requires needSync
      modifies this
      ensures var f := Skip(old(Now()), buf);
              pop == f.pop && Now() == f.state && events == old(events) + f.events
    {
      var i := SearchSync(buf);
      if i < |buf| {
        needSync := false;
        pop := i + 1;
      } else {
        pop := |buf|;
      }
      if needValid {
        assert events + [] == events;
        return;
      }
      needValid := true;
      SendNak();
    }

    /** Find the next complete message block: 1 if there is one to dispatch, 0 to wait for more bytes,
        and -1 if bytes are dropped.  `pop` bytes are finished with. */
    method FindBlock(buf: seq<Byte>) returns (ret: int, pop: nat)
      requires Sound(Now())
      modifies this
      ensures var f := Find(old(Now()), buf);
              ret == f.ret && pop == f.pop && Now() == f.state && events == old(events) + f.events
    {
      hide CheckPacket, Skip;
      SkipSearches(Now(), buf);
      if |buf| > 0 && needSync {
        pop := Discard(buf);
        return -1, pop;
      }
      var n := Check(buf);
      if n == 0 {
        assert events + [] == events;
        return 0, 0;
      }
      if n < 0 {
        if buf[0] == SYNC {
          assert events + [] == events;
          return -1, 1;
        }
        needSync := true;
        pop := Discard(buf);
        return -1, pop;
      }
      needValid := false;
      if buf[1] != nextSequence {
        SendNak();
        return -1, n;
      }
      nextSequence := SequenceByte(buf[1] + 1);
      events := events + [Block(buf[..n])];
      return 1, n;
    }
  }

  /** Skipping starts the same whether or not the finder was already out of step. */
  lemma {:induction false} SkipSearches(st: State, buf: seq<Byte>)
    ensures Skip(st.(needSync := true), buf) == Skip(st, buf) && Skip(st, buf).ret == -1
  {
  }

  // ------------------------------------------------------------ runs

  datatype Outcome = Outcome(events: seq<Event>, state: State, rest: seq<Byte>)

  /** Looking at the buffer until the finder waits for more bytes. */
  function Run(st: State, buf: seq<Byte>): (o: Outcome)
    requires Sound(st)
    ensures Sound(o.state)
    decreases |buf|
  {
    FindProgress(st, buf);
    var f := Find(st, buf);
    if f.ret == 0 then Outcome([], st, buf)
    else
      var o := Run(f.state, buf[f.pop..]);
      Outcome(f.events + o.events, o.state, o.rest)
  }

  /** A run over bytes that arrive in several reads: what is left over of one read is looked at again
      together with the next. */
  function RunChunks(st: State, buf: seq<Byte>, chunks: seq<seq<Byte>>): (o: Outcome)
    requires Sound(st)
    decreases |chunks|
  {
    if chunks == [] then Run(st, buf)
    else
      var o := Run(st, buf);
      var more := RunChunks(o.state, o.rest + chunks[0], chunks[1..]);
      Outcome(o.events + more.events, more.state, more.rest)
  }

  function Concat(chunks: seq<seq<Byte>>): seq<Byte> {
    if chunks == [] then [] else chunks[0] + Concat(chunks[1..])
  }

  lemma {:induction false} FirstSyncPrefix(a: seq<Byte>, b: seq<Byte>)
    ensures FirstSync(a + b) == if FirstSync(a) < |a| then FirstSync(a) else |a| + FirstSync(b)
    decreases |a|
  {
    if a == [] {
      assert a + b == b;
    } else if a[0] != SYNC {
      FirstSyncPrefix(a[1..], b);
      assert (a + b)[1..] == a[1..] + b;
    }
  }

  /** The look at `buf` discards all of it, searching for a sync byte. */
  predicate SkipsAll(st: State, buf: seq<Byte>) {
    buf != [] && (st.needSync || CheckPacket(buf) < 0) && FirstSync(buf) == |buf|
  }

  /** Any other look that does something does the same when there are more bytes. */
  lemma {:induction false} FindStands(st: State, a: seq<Byte>, b: seq<Byte>)
    requires Sound(st) && Find(st, a).ret != 0 && !SkipsAll(st, a)
    ensures Find(st, a + b) == Find(st, a)
  {
    hide CheckPacket;
    FirstSyncPrefix(a, b);
    if a == [] || !st.needSync {
      DecisionStands(a, b);
      if CheckPacket(a) > 0 {
        assert (a + b)[..CheckPacket(a)] == a[..CheckPacket(a)];
      }
    }
  }

  /** Skipping all the bytes there are and then some more is the same as skipping them together. */
  lemma {:induction false} SkipTogether(st: State, a: seq<Byte>, b: seq<Byte>)
    requires FirstSync(a) == |a|
    ensures var f, g := Skip(st, a), Skip(Skip(st, a).state, b);
            Skip(st, a + b) == Step(-1, f.pop + g.pop, f.events + g.events, g.state)
  {
    FirstSyncPrefix(a, b);
  }

  lemma {:induction false} FindSkips(st: State, a: seq<Byte>, b: seq<Byte>)
    requires Sound(st) && SkipsAll(st, a)
    ensures Find(st, a) == Skip(st, a) && Find(st, a + b) == Skip(st, a + b)
  {
    hide CheckPacket, Skip;
    if !st.needSync {
      DecisionStands(a, b);
    }
  }

  lemma {:induction false} RunStep(st: State, buf: seq<Byte>)
    requires Sound(st) && Find(st, buf).ret != 0
    ensures var f := Find(st, buf);
            && Sound(f.state) && 1 <= f.pop <= |buf|
            && Run(st, buf) == Joined(f.events, Run(f.state, buf[f.pop..]))
  {
    FindProgress(st, buf);
  }

  function Joined(events: seq<Event>, o: Outcome): Outcome {
    Outcome(events + o.events, o.state, o.rest)
  }

  lemma {:induction false} JoinedTwice(e: seq<Event>, f: seq<Event>, o: Outcome)
    ensures Joined(e, Joined(f, o)) == Joined(e + f, o)
  {
    assert e + (f + o.events) == (e + f) + o.events;
  }

  /** Out of step with nothing to look at, the finder waits. */
  lemma {:induction false} RunNothing(st: State)
    requires Sound(st)
    ensures Run(st, []) == Outcome([], st, [])
  {
  }

  lemma {:induction false} RunSkips(st: State, a: seq<Byte>, b: seq<Byte>)
    requires Sound(st) && SkipsAll(st, a)
    ensures Sound(Skip(st, a).state)
    ensures Run(st, a) == Outcome(Skip(st, a).events, Skip(st, a).state, [])
    ensures Run(st, a + b) == Joined(Skip(st, a).events, Run(Skip(st, a).state, b))
  {
    hide Find, Run;
    var f := Skip(st, a);
    FindSkips(st, a, b);
    RunStep(st, a);
    assert a[f.pop..] == [];
    RunNothing(f.state);
    assert f.events + [] == f.events;
    RunStep(st, a + b);
    SkipTogether(st, a, b);
    if b == [] {
      assert (a + b)[f.pop..] == [];
    } else {
      FindOutOfStep(f.state, b);
      var g := Skip(f.state, b);
      RunStep(f.state, b);
      assert (a + b)[f.pop + g.pop..] == b[g.pop..];
      JoinedTwice(f.events, g.events, Run(g.state, b[g.pop..]));
    }
  }

  lemma {:induction false} FindOutOfStep(st: State, buf: seq<Byte>)
    requires st.needSync && buf != []
    ensures Find(st, buf) == Skip(st, buf)
  {
  }

  /** Looking at some bytes first, and then at what is left of them together with the bytes that
      follow, sees the same blocks, sends the same naks and ends the same as looking at them all. */
  lemma {:induction false} RunInTwo(st: State, a: seq<Byte>, b: seq<Byte>)
    requires Sound(st)
    ensures Run(st, a + b) == Joined(Run(st, a).events, Run(Run(st, a).state, Run(st, a).rest + b))
    decreases |a|
  {
    hide Find, SkipsAll, Skip;
    var f := Find(st, a);
    if f.ret == 0 {
      WaitsHere(st, a);
      assert [] + Run(st, a + b).events == Run(st, a + b).events;
    } else if SkipsAll(st, a) {
      RunSkips(st, a, b);
      assert [] + b == b;
    } else {
      FindStands(st, a, b);
      RunStep(st, a);
      RunStep(st, a + b);
      var rest := a[f.pop..];
      assert (a + b)[f.pop..] == rest + b;
      RunInTwo(f.state, rest, b);
      var o := Run(f.state, rest);
      JoinedTwice(f.events, o.events, Run(o.state, o.rest + b));
    }
  }

  lemma {:induction false} WaitsHere(st: State, buf: seq<Byte>)
    requires Sound(st) && Find(st, buf).ret == 0
    ensures Run(st, buf) == Outcome([], st, buf)
  {
  }

  /** However a stream is split into reads, the blocks dispatched, the naks sent, the state and the
      bytes left over in the end are the same. */
  lemma {:induction false} ChunksDoNotMatter(st: State, buf: seq<Byte>, chunks: seq<seq<Byte>>)
    requires Sound(st)
    ensures RunChunks(st, buf, chunks) == Run(st, buf + Concat(chunks))
    decreases |chunks|
  {
    hide Run;
    if chunks == [] {
      assert buf + [] == buf;
    } else {
      var o, rest := Run(st, buf), Concat(chunks[1..]);
      ChunksDoNotMatter(o.state, o.rest + chunks[0], chunks[1..]);
      assert o.rest + chunks[0] + rest == o.rest + (chunks[0] + rest);
      RunInTwo(st, buf, chunks[0] + rest);
    }
  }

  // ------------------------------------------------------------ looks at any time

  /** What looks see when each is shown some of the bytes, at most `looks[i]` of those not finished
      with: those that have arrived by then, or fit in the buffer. */
  function RunLooks(st: State, stream: seq<Byte>, looks: seq<nat>): (o: Outcome)
    requires Sound(st)
    ensures Sound(o.state)
    decreases |looks|
  {
    if looks == [] then Outcome([], st, stream)
    else
      var n := Shown(stream, looks[0]);
      FindProgress(st, stream[..n]);
      var f := Find(st, stream[..n]);
      Joined(f.events, RunLooks(f.state, stream[f.pop..], looks[1..]))
  }

  function Shown(stream: seq<Byte>, look: nat): (n: nat)
    ensures n <= |stream| && n <= look
  {
    if look < |stream| then look else |stream|
  }

  /** A single look at the bytes there are, and then a run over what is left and the bytes that follow. */
  lemma {:induction false} OneLook(st: State, a: seq<Byte>, b: seq<Byte>)
    requires Sound(st)
    ensures var f := Find(st, a);
            Sound(f.state) && f.pop <= |a| && Run(st, a + b) == Joined(f.events, Run(f.state, (a + b)[f.pop..]))
  {
    hide Find, Run, SkipsAll, Skip;
    FindProgress(st, a);
    var f := Find(st, a);
    if f.ret == 0 {
      NothingSeen(Run(st, a + b));
    } else if SkipsAll(st, a) {
      RunSkips(st, a, b);
      FindSkips(st, a, b);
      SkipsThrough(st, a);
      assert (a + b)[|a|..] == b;
    } else {
      FindStands(st, a, b);
      RunStep(st, a + b);
    }
  }

  lemma {:induction false} SkipsThrough(st: State, buf: seq<Byte>)
    requires SkipsAll(st, buf)
    ensures Skip(st, buf).pop == |buf|
  {
  }

  /** Whenever the looks happen and however many bytes each is shown: together with a run over what
      they leave, they see the same blocks and send the same naks as a run over the whole stream. */
  lemma {:induction false} AnySchedule(st: State, stream: seq<Byte>, looks: seq<nat>)
    requires Sound(st)
    ensures var o := RunLooks(st, stream, looks);
            Run(st, stream) == Joined(o.events, Run(o.state, o.rest))
    decreases |looks|
  {
    hide Find, Run;
    if looks == [] {
      NothingSeen(Run(st, stream));
    } else {
      var n := Shown(stream, looks[0]);
      OneLook(st, stream[..n], stream[n..]);
      assert stream[..n] + stream[n..] == stream;
      var f := Find(st, stream[..n]);
      AnySchedule(f.state, stream[f.pop..], looks[1..]);
      var o := RunLooks(f.state, stream[f.pop..], looks[1..]);
      JoinedTwice(f.events, o.events, Run(o.state, o.rest));
    }
  }

  /** Looks that go on until one would wait for more than all the bytes left come to the same as a run. */
  lemma {:induction false} ScheduleCompletes(st: State, stream: seq<Byte>, looks: seq<nat>)
    requires Sound(st)
    requires var o := RunLooks(st, stream, looks); Find(o.state, o.rest).ret == 0
    ensures RunLooks(st, stream, looks) == Run(st, stream)
  {
    hide Find, Run, RunLooks;
    AnySchedule(st, stream, looks);
    var o := RunLooks(st, stream, looks);
    WaitsHere(o.state, o.rest);
    assert o.events + [] == o.events;
  }

  /** A look shown as many bytes as the longest block has never waits, so a buffer of that size does
      not fill up for good. */
  lemma {:induction false} FullBufferDecides(st: State, buf: seq<Byte>)
    requires |buf| >= 64
    ensures Find(st, buf).ret != 0
  {
    hide Skip, Crc.Checksum, Crc.HighByte, Crc.LowByte;
    SkipSearches(st, buf);
  }

  lemma {:induction false} NextLook(st: State, stream: seq<Byte>, looks: seq<nat>, i: nat)
    requires Sound(st) && i < |looks|
    ensures var f := Find(st, stream[..Shown(stream, looks[i])]);
            && Sound(f.state) && f.pop <= |stream|
            && RunLooks(st, stream, looks[i..]) == Joined(f.events, RunLooks(f.state, stream[f.pop..], looks[i + 1..]))
  {
    hide Find;
    FindProgress(st, stream[..Shown(stream, looks[i])]);
    assert looks[i..][1..] == looks[i + 1..];
  }

  lemma {:induction false} NoMoreLooks(seen: seq<Event>, st: State, rest: seq<Byte>)
    requires Sound(st)
    ensures Joined(seen, RunLooks(st, rest, [])) == Outcome(seen, st, rest)
  {
    assert seen + [] == seen;
  }

  /** The console task: woken any number of times, it looks once each time at as many
      bytes as it is shown, and drops those it is finished with. */
  method WatchStream(finder: BlockFinder, stream: seq<Byte>, looks: seq<nat>)
    returns (rest: seq<Byte>, ghost seen: seq<Event>)
    requires Sound(finder.Now())
    modifies finder
    ensures Sound(finder.Now()) && finder.events == old(finder.events) + seen
    ensures RunLooks(old(finder.Now()), stream, looks) == Outcome(seen, finder.Now(), rest)
    ensures Run(old(finder.Now()), stream) == Joined(seen, Run(finder.Now(), rest))
  {
    hide *;
    ghost var st := finder.Now();
    AnySchedule(st, stream, looks);
    rest, seen := stream, [];
    assert looks[0..] == looks;
    NothingSeen(RunLooks(st, stream, looks));
    var i := 0;
    while i < |looks|
      invariant i <= |looks| && Sound(finder.Now()) && finder.events == old(finder.events) + seen
      invariant RunLooks(st, stream, looks) == Joined(seen, RunLooks(finder.Now(), rest, looks[i..]))
    {
      var shown := rest[..Shown(rest, looks[i])];
      ghost var f := Find(finder.Now(), shown);
      NextLook(finder.Now(), rest, looks, i);
      JoinedTwice(seen, f.events, RunLooks(f.state, rest[f.pop..], looks[i + 1..]));
      var ret, pop := finder.FindBlock(shown);
      rest, seen := rest[pop..], seen + f.events;
      i := i + 1;
    }
    assert looks[i..] == [];
    NoMoreLooks(seen, finder.Now(), rest);
  }

  lemma {:induction false} NothingSeen(o: Outcome)
    ensures Joined([], o) == o
  {
    assert [] + o.events == o.events;
  }

  // ------------------------------------------------------------ what is accepted

  /** The blocks dispatched. */
  function Blocks(events: seq<Event>): seq<seq<Byte>> {
    if events == [] then []
    else (if events[0].Block? then [events[0].bytes] else []) + Blocks(events[1..])
  }

  lemma {:induction false} BlocksJoined(a: seq<Event>, b: seq<Event>)
    ensures Blocks(a + b) == Blocks(a) + Blocks(b)
    decreases |a|
  {
    if a == [] {
      assert a + b == b;
    } else {
      BlocksJoined(a[1..], b);
      assert (a + b)[1..] == a[1..] + b;
    }
  }

  /** Blocks whose sequence bytes count up from `next`, modulo 16. */
  ghost predicate CountUp(next: Byte, blocks: seq<seq<Byte>>) {
    forall j :: 0 <= j < |blocks| ==> |blocks[j]| > 1 && blocks[j][1] == SequenceByte(next + j)
  }

  /** What one look dispatches: nothing, or a valid block with the sequence byte that was due. */
  lemma {:induction false} FindAccepts(st: State, buf: seq<Byte>)
    requires Sound(st)
    ensures var f := Find(st, buf);
            && |Blocks(f.events)| <= 1 && CountUp(st.next, Blocks(f.events))
            && f.state.next == SequenceByte(st.next + |Blocks(f.events)|)
  {
    hide CheckPacket;
  }

  lemma {:induction false} CountOn(next: Byte, later: Byte, a: seq<seq<Byte>>, b: seq<seq<Byte>>)
    requires CountUp(next, a) && CountUp(later, b) && later == SequenceByte(next + |a|)
    ensures CountUp(next, a + b)
  {
    hide SequenceByte;
    var c := a + b;
    forall k | 0 <= k < |c| ensures |c[k]| > 1 && c[k][1] == SequenceByte(next + k) {
      if k >= |a| {
        SequenceSum(next + |a|, k - |a|);
      }
    }
  }

  lemma {:induction false} SequenceSum(n: int, k: int)
    ensures SequenceByte(SequenceByte(n) + k) == SequenceByte(n + k)
  {
  }

  /** In any run the dispatched blocks carry consecutive sequence numbers, and the finder goes on with
      the one after the last. */
  lemma {:induction false} AcceptedInSequence(st: State, buf: seq<Byte>)
    requires Sound(st)
    ensures CountUp(st.next, Blocks(Run(st, buf).events))
    ensures Run(st, buf).state.next == SequenceByte(st.next + |Blocks(Run(st, buf).events)|)
    decreases |buf|
  {
    hide Find, Blocks, CountUp, Run, SequenceByte;
    var f := Find(st, buf);
    if f.ret == 0 {
      WaitsHere(st, buf);
      FindAccepts(st, buf);
      FindProgress(st, buf);
    } else {
      RunStep(st, buf);
      var rest := buf[f.pop..];
      FindAccepts(st, buf);
      AcceptedInSequence(f.state, rest);
      var later := Run(f.state, rest).events;
      BlocksJoined(f.events, later);
      CountOn(st.next, f.state.next, Blocks(f.events), Blocks(later));
      SequenceSum(st.next + |Blocks(f.events)|, |Blocks(later)|);
    }
  }

  /** A sender's blocks, numbered from `next`. */
  function Stream(next: Byte, bodies: seq<seq<Byte>>): seq<seq<Byte>>
    requires forall i :: 0 <= i < |bodies| ==> |bodies[i]| <= 59
    decreases |bodies|
  {
    if bodies == [] then []
    else [FrameOf(next, bodies[0])] + Stream(SequenceByte(next + 1), bodies[1..])
  }

  function Dispatched(blocks: seq<seq<Byte>>): seq<Event> {
    if blocks == [] then [] else [Block(blocks[0])] + Dispatched(blocks[1..])
  }

  lemma {:induction false} FindFrame(st: State, body: seq<Byte>, rest: seq<Byte>)
    requires Sound(st) && !st.needSync && |body| <= 59
    ensures Find(st, FrameOf(st.next, body) + rest) ==
            Step(1, |body| + 5, [Block(FrameOf(st.next, body))], State(false, false, SequenceByte(st.next + 1)))
  {
    var f := FrameOf(st.next, body);
    AcceptsEncodedIff(st.next, body, rest);
    assert (f + rest)[..|f|] == f;
    assert f[1] == st.next;
    hide CheckPacket, FrameOf;
  }

  // ------------------------------------------------------------ what a nak is sent for

  /** A valid block that is not the one due: just that block is dropped, one nak is sent, and the finder
      stays in step with the same number due. */
  lemma {:induction false} LostBlockNaks(st: State, sequence: Byte, body: seq<Byte>, rest: seq<Byte>)
    requires Sound(st) && !st.needSync && sequence / 16 == 1 && sequence != st.next && |body| <= 59
    ensures Find(st, FrameOf(sequence, body) + rest) == Step(-1, |body| + 5, [Nak], State(false, false, st.next))
    ensures Run(st, FrameOf(sequence, body) + rest) == Joined([Nak], Run(State(false, false, st.next), rest))
  {
    var f := FrameOf(sequence, body);
    AcceptsEncodedIff(sequence, body, rest);
    assert f[1] == sequence;
    hide CheckPacket, FrameOf, Run;
    RunStep(st, f + rest);
    assert (f + rest)[|f|..] == rest;
  }

  /** An error in step that does not start with a sync byte: a nak is sent exactly if there has been a
      valid block since the last one.  A stray sync byte is dropped without a nak. */
  lemma {:induction false} ErrorNaks(st: State, buf: seq<Byte>)
    requires Sound(st) && !st.needSync && CheckPacket(buf) < 0
    ensures buf != [] && var f := Find(st, buf);
      && f.ret == -1 && f.state.next == st.next
      && if buf[0] == SYNC then f.pop == 1 && f.events == [] && f.state == st
         else f.events == (if st.needValid then [] else [Nak]) && f.state.needValid
              && f.state.needSync == (SYNC !in buf) && f.pop == if SYNC in buf then FirstSync(buf) + 1 else |buf|
  {
    hide CheckPacket;
  }

  /** Out of step nothing is sent: the nak went out when step was lost. */
  lemma {:induction false} SearchingIsQuiet(st: State, buf: seq<Byte>)
    requires Sound(st) && st.needSync
    ensures Find(st, buf).events == [] && Find(st, buf).state.next == st.next
    ensures buf != [] ==>
      && Find(st, buf).state.needSync == (SYNC !in buf)
      && Find(st, buf).pop == if SYNC in buf then FirstSync(buf) + 1 else |buf|
  {
    hide CheckPacket;
  }

  /** Bytes without a valid block anywhere: a run over them sends a nak exactly when it meets its first
      error since a valid block, and no other however many errors follow. */
  lemma {:induction false} NoiseNaksOnce(st: State, buf: seq<Byte>)
    requires Sound(st) && forall i :: 0 <= i <= |buf| ==> CheckPacket(buf[i..]) <= 0
    ensures var o := Run(st, buf);
      && o.events == (if !st.needValid && o.state.needValid then [Nak] else [])
      && (st.needValid ==> o.state.needValid) && o.state.next == st.next
    decreases |buf|
  {
    hide CheckPacket, Find, Run;
    assert buf[0..] == buf;
    var f := Find(st, buf);
    if f.ret == 0 {
      WaitsHere(st, buf);
    } else {
      NoiseLook(st, buf);
      RunStep(st, buf);
      var rest := buf[f.pop..];
      forall i | 0 <= i <= |rest| ensures CheckPacket(rest[i..]) <= 0 {
        assert rest[i..] == buf[f.pop + i..];
      }
      NoiseNaksOnce(f.state, rest);
      assert [] + Run(f.state, rest).events == Run(f.state, rest).events && [Nak] + [] == [Nak];
    }
  }

  lemma {:induction false} NoiseLook(st: State, buf: seq<Byte>)
    requires Sound(st) && CheckPacket(buf) <= 0 && Find(st, buf).ret != 0
    ensures var f := Find(st, buf);
      && f.events == (if !st.needValid && f.state.needValid then [Nak] else [])
      && (st.needValid ==> f.state.needValid) && f.state.next == st.next
  {
    hide CheckPacket;
  }

  /** A finder in step dispatches every block of a sender who numbers them on from where it is, and
      sends no nak, whatever follows them. */
  lemma {:induction false} StreamIsDispatched(st: State, bodies: seq<seq<Byte>>, rest: seq<Byte>)
    requires Sound(st) && !st.needSync && bodies != []
    requires forall i :: 0 <= i < |bodies| ==> |bodies[i]| <= 59
    ensures Run(st, Concat(Stream(st.next, bodies)) + rest) ==
            Joined(Dispatched(Stream(st.next, bodies)),
                   Run(State(false, false, SequenceByte(st.next + |bodies|)), rest))
    decreases |bodies|
  {
    hide Find, FrameOf, Run, Joined;
    var f, later := FrameOf(st.next, bodies[0]), State(false, false, SequenceByte(st.next + 1));
    var frames := Stream(later.next, bodies[1..]);
    assert Stream(st.next, bodies) == [f] + frames;
    var s := f + (Concat(frames) + rest);
    assert ([f] + frames)[1..] == frames;
    assert Concat(Stream(st.next, bodies)) + rest == s;
    FindFrame(st, bodies[0], Concat(frames) + rest);
    RunStep(st, s);
    assert s[|f|..] == Concat(frames) + rest;
    assert Dispatched([f] + frames) == [Block(f)] + Dispatched(frames);
    if |bodies| == 1 {
      assert frames == [] && Concat(frames) + rest == rest;
      assert [Block(f)] + [] == [Block(f)];
    } else {
      SequenceSum(st.next + 1, |bodies| - 1);
      StreamIsDispatched(later, bodies[1..], rest);
      JoinedTwice([Block(f)], Dispatched(frames), Run(State(false, false, SequenceByte(st.next + |bodies|)), rest));
    }
  }

  /** A finder out of step is back in step after the next sync byte: the block after it is
      dispatched, and nothing is sent for the bytes before. */
  lemma {:induction false} Resynchronises(st: State, noise: seq<Byte>, body: seq<Byte>)
    requires Sound(st) && st.needSync && FirstSync(noise) == |noise| && |body| <= 59
    ensures Run(st, noise + [SYNC] + FrameOf(st.next, body)) ==
            Outcome([Block(FrameOf(st.next, body))], State(false, false, SequenceByte(st.next + 1)), [])
  {
    hide *;
    var f, back := FrameOf(st.next, body), State(false, true, st.next);
    var s := noise + [SYNC] + f;
    SkipsNoise(st, noise, f);
    RunStep(st, s);
    assert s[|noise| + 1..] == f;
    StreamIsDispatched(back, [body], []);
    OneFrame(st.next, body);
    RunNothing(State(false, false, SequenceByte(st.next + 1)));
    NothingMore(Block(f), State(false, false, SequenceByte(st.next + 1)));
  }

  lemma {:induction false} SkipsNoise(st: State, noise: seq<Byte>, more: seq<Byte>)
    requires Sound(st) && st.needSync && FirstSync(noise) == |noise|
    ensures Find(st, noise + [SYNC] + more) == Step(-1, |noise| + 1, [], State(false, true, st.next))
    ensures Sound(State(false, true, st.next))
  {
    hide CheckPacket;
    assert noise + [SYNC] + more == noise + ([SYNC] + more);
    FirstSyncPrefix(noise, [SYNC] + more);
    FindOutOfStep(st, noise + [SYNC] + more);
  }

  lemma {:induction false} NothingMore(e: Event, st: State)
    ensures Joined([], Joined([e], Outcome([], st, []))) == Outcome([e], st, [])
  {
  }

  lemma {:induction false} OneFrame(next: Byte, body: seq<Byte>)
    requires |body| <= 59
    ensures Concat(Stream(next, [body])) + [] == FrameOf(next, body)
    ensures Dispatched(Stream(next, [body])) == [Block(FrameOf(next, body))]
  {
    hide FrameOf;
    assert Stream(next, [body]) == [FrameOf(next, body)];
    assert Concat([FrameOf(next, body)]) == FrameOf(next, body) + [];
  }
}
