/** From the host's encoder through a block and the block finder to the firmware's command handlers. */
module Wire {
  import opened BlockFinder
  import opened Frame
  import opened Message
  import opened Vlq

  /** Commands the host packs into a block are what the firmware calls for that block. */
  lemma {:induction false} BlockDelivers(sequence: Byte, index: seq<Types>, cmds: seq<Call>)
    requires forall i :: 0 <= i < |cmds| ==> WellFormed(cmds[i], index)
    requires |BlockBytes(cmds, index)| <= 59
    ensures var body := BlockBytes(cmds, index);
            CallsAt(FrameOf(sequence, body), HEADER_SIZE, |body| + 2, index) == (CallsReceived(cmds), Done)
  {
    var body := BlockBytes(cmds, index);
    var f := FrameOf(sequence, body);
    assert f[2..2 + |body|] == body;
    hide FrameOf, BlockBytes, CallsAt;
    BlockRoundTrip(f, 2, |body| + 2, index, cmds);
  }

  /** Dispatching a block that passed the checks never reads outside it, whatever its commands. */
  lemma {:induction false} AcceptedStaysInside(buf: seq<Byte>, index: seq<Types>)
    requires CheckPacket(buf) > 0
    ensures CallsAt(buf[..CheckPacket(buf)], HEADER_SIZE, CheckPacket(buf) - 3, index).1 != OutOfBuffer
  {
    var n := CheckPacket(buf);
    AcceptedIsFrame(buf);
    assert buf[..n][n - 1] == SYNC;
    hide FrameOf, CallsAt, CheckPacket;
    BlockStaysInside(buf[..n], 2, n - 3, index);
  }

  /** With the machine running, all of them are handled. */
  lemma {:induction false} AllDelivered(sequence: Byte, index: seq<Types>, cmds: seq<Call>, always: seq<bool>,
      down: nat -> bool)
    requires forall i :: 0 <= i < |cmds| ==> WellFormed(cmds[i], index)
    requires |BlockBytes(cmds, index)| <= 59 && forall i: nat :: !down(i)
    ensures var body := BlockBytes(cmds, index);
            Handled(CallsAt(FrameOf(sequence, body), HEADER_SIZE, |body| + 2, index).0, always, down, 0) ==
            CallsReceived(cmds)
  {
    hide *;
    BlockDelivers(sequence, index, cmds);
    AllHandled(CallsReceived(cmds), always, down, 0);
  }

  /** Look for a block, call the handlers of its commands, and acknowledge it; a bad command or bad
      arguments shut the firmware down before the acknowledgement. */
  method FindAndDispatch(finder: BlockFinder, buf: seq<Byte>, index: seq<Types>, always: seq<bool>, down: nat -> bool)
    returns (ret: int, pop: nat, calls: seq<Call>, ending: Ending, ack: bool)
    requires Sound(finder.Now())
    modifies finder
    ensures var f := Find(old(finder.Now()), buf);
            ret == f.ret && pop == f.pop && finder.Now() == f.state && finder.events == old(finder.events) + f.events
    ensures ret > 0 ==>
      && 5 <= pop <= |buf| && finder.events == old(finder.events) + [Block(buf[..pop])]
      && calls == Handled(CallsAt(buf[..pop], HEADER_SIZE, pop - 3, index).0, always, down, 0)
      && ending == CallsAt(buf[..pop], HEADER_SIZE, pop - 3, index).1 && ending != OutOfBuffer
    ensures ret <= 0 ==> calls == [] && !ack
    ensures ack <==> ret > 0 && ending == Done
  {
    hide CheckPacket, CallsAt, Handled;
    FindProgress(finder.Now(), buf);
    ghost var st := finder.Now();
    ret, pop := finder.FindBlock(buf);
    calls, ending, ack := [], Done, false;
    if ret > 0 {
      AcceptedStaysInside(buf, index);
      calls, ending := Dispatch(buf[..pop], pop, index, always, down);
      ack := ending == Done;
    }
  }
}
