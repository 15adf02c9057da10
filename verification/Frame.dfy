/** Message blocks: a length byte, a sequence byte, commands, the checksum and a sync byte. */
module Frame {
  import opened Crc
  import opened Vlq

  const MESSAGE_MIN := 5
  const MESSAGE_MAX := 64
  const SYNC: Byte := 0x7e

  /** The sequence byte for a sequence number. */
  function SequenceByte(number: int): (b: Byte)
    ensures b / 16 == 1 && b % 16 == number % 16
  {
    number % 16 + 16
  }

  function Header(sequence: Byte, body: seq<Byte>): seq<Byte>
    requires |body| <= 250
  {
    [|body| + 5, sequence] + body
  }

  /** The block that carries `body`. */
  function FrameOf(sequence: Byte, body: seq<Byte>): (f: seq<Byte>)
    requires |body| <= 250
    ensures |f| == |body| + 5
  {
    var h := Header(sequence, body);
    h + [HighByte(Checksum(h)), LowByte(Checksum(h)), SYNC]
  }

  /** The host's encoder; a body too long for the length byte is an error. */
  function Encode(number: int, cmd: seq<Byte>): (r: Option<seq<Byte>>) {
    if |cmd| > 250 then None else Some(FrameOf(SequenceByte(number), cmd))
  }

  /** What the host makes of received bytes: the length of the block they start with, 0 when more
      bytes are needed to tell, and -1 when they do not start with a valid block. */
  function CheckPacket(s: seq<Byte>): (r: int)
    ensures r == -1 || r == 0 || (5 <= r <= 64 && r <= |s|)
    ensures r != 0 ==> |s| >= 5
  {
    if |s| < MESSAGE_MIN then 0
    else
      var msglen := s[0];
      if msglen < MESSAGE_MIN || msglen > MESSAGE_MAX then -1
      else if s[1] / 16 != 1 then -1
      else if |s| < msglen then 0
      else if s[msglen - 1] != SYNC then -1
      else
        var crc := Checksum(s[..msglen - 3]);
        if [HighByte(crc), LowByte(crc)] != s[msglen - 3..msglen - 1] then -1 else msglen
  }

  /** Add the header and trailer of a block in place, around the body already in the buffer. */
  method AddFrame(buf: array<Byte>, msglen: nat, nextSequence: Byte)
    requires MESSAGE_MIN <= msglen < 0x100 && msglen <= buf.Length
    modifies buf
    ensures buf[..msglen] == FrameOf(nextSequence, old(buf[2..msglen - 3]))
    ensures buf[msglen..] == old(buf[msglen..])
  {
    hide Checksum, HighByte, LowByte;
    ghost var body := buf[2..msglen - 3];
    buf[0] := msglen;
    buf[1] := nextSequence;
    assert buf[..msglen - 3] == Header(nextSequence, body);
    var crc := FirmwareCrc(buf[..msglen - 3]);
    buf[msglen - 3] := HighByte(crc);
    buf[msglen - 2] := LowByte(crc);
    buf[msglen - 1] := SYNC;
    assert buf[..msglen - 3] == Header(nextSequence, body);
  }

  // ------------------------------------------------------------ acceptance

  /** The host recognises the blocks it encodes, whatever follows them, exactly when the body has at
      most 59 bytes; it rejects longer ones. */
  lemma {:induction false} AcceptsEncodedIff(sequence: Byte, body: seq<Byte>, rest: seq<Byte>)
    requires sequence / 16 == 1 && |body| <= 250
    ensures CheckPacket(FrameOf(sequence, body) + rest) == if |body| <= 59 then |body| + 5 else -1
  {
    hide Checksum, HighByte, LowByte;
    var s, n := FrameOf(sequence, body) + rest, |body| + 5;
    assert s[..n - 3] == Header(sequence, body);
    assert s[n - 3..n - 1] == [HighByte(Checksum(s[..n - 3])), LowByte(Checksum(s[..n - 3]))];
  }

  /** What the host encodes can be made out again as the block it is, carrying the number modulo 16 and
      the commands, exactly for commands of at most 59 bytes; from 251 bytes on encoding is an error. */
  lemma {:induction false} EncodedIsRead(number: int, cmd: seq<Byte>, rest: seq<Byte>)
    ensures Encode(number, cmd).None? <==> |cmd| > 250
    ensures Encode(number, cmd).Some? ==>
      var b := Encode(number, cmd).value;
      && (CheckPacket(b + rest) == |b| <==> |cmd| <= 59)
      && b[1] % 16 == number % 16 && b[2..|b| - 3] == cmd
  {
    hide CheckPacket, Checksum, HighByte, LowByte;
    if |cmd| <= 250 {
      AcceptsEncodedIff(SequenceByte(number), cmd, rest);
    }
  }

  /** A block that has not arrived in full is waited for. */
  lemma {:induction false} WaitsForEncoded(sequence: Byte, body: seq<Byte>, n: nat)
    requires sequence / 16 == 1 && |body| <= 59 && n < |body| + 5
    ensures CheckPacket(FrameOf(sequence, body)[..n]) == 0
  {
    hide Checksum, HighByte, LowByte;
  }

  /** Once decided, later bytes change nothing. */
  lemma {:induction false} DecisionStands(s: seq<Byte>, more: seq<Byte>)
    requires CheckPacket(s) != 0
    ensures CheckPacket(s + more) == CheckPacket(s)
  {
    hide Checksum, HighByte, LowByte;
    var msglen := s[0];
    if 5 <= msglen <= |s| {
      assert (s + more)[..msglen - 3] == s[..msglen - 3];
      assert (s + more)[msglen - 3..msglen - 1] == s[msglen - 3..msglen - 1];
    }
  }

  /** Only blocks of the encoder's form are accepted. */
  lemma {:induction false} AcceptedIsFrame(s: seq<Byte>)
    requires CheckPacket(s) > 0
    ensures s[1] / 16 == 1 && s[..CheckPacket(s)] == FrameOf(s[1], s[2..CheckPacket(s) - 3])
  {
    hide Checksum, HighByte, LowByte;
    var n := CheckPacket(s);
    assert s[..n - 3] == Header(s[1], s[2..n - 3]);
    assert s[..n] == s[..n - 3] + s[n - 3..n - 1] + [s[n - 1]];
  }

  /** Bytes are rejected exactly if there are enough for the header and that is not a block's, or if
      as many are there as the length byte says and they are not of the encoder's form.  Bytes that
      are not rejected and do not start with a block are waited for. */
  lemma {:induction false} RejectsIff(s: seq<Byte>)
    ensures CheckPacket(s) == -1 <==>
      && |s| >= 5
      && (|| s[0] < 5 || s[0] > 64 || s[1] / 16 != 1
          || (s[0] <= |s| && s[..s[0]] != FrameOf(s[1], s[2..s[0] - 3])))
    ensures CheckPacket(s) > 0 ==> CheckPacket(s) == s[0]
  {
    hide Checksum, HighByte, LowByte;
    if |s| >= 5 && 5 <= s[0] <= 64 && s[1] / 16 == 1 && s[0] <= |s| {
      assert s[..s[0]] + s[s[0]..] == s;
      AcceptsEncodedIff(s[1], s[2..s[0] - 3], s[s[0]..]);
      if CheckPacket(s) > 0 {
        AcceptedIsFrame(s);
      }
    }
  }

  /** The empty block with the first sequence number, byte by byte. */
  lemma {:induction false} EmptyBlock()
    ensures FrameOf(0x10, []) == [0x05, 0x10, 0x9e, 0x81, 0x7e]
  {
    hide Checksum, HighByte, LowByte;
    HeaderChecksum();
    assert Header(0x10, []) == [5, 0x10];
  }

  // ------------------------------------------------------------ corruption

  /** A block in which exactly one byte other than the length byte has been changed is rejected. */
  lemma {:induction false} RejectsOneByteChange(sequence: Byte, body: seq<Byte>, rest: seq<Byte>, i: nat, b: Byte)
    requires sequence / 16 == 1 && |body| <= 59
    requires 0 < i < |body| + 5 && FrameOf(sequence, body)[i] != b
    ensures CheckPacket(FrameOf(sequence, body)[i := b] + rest) == -1
  {
    hide Checksum, HighByte, LowByte;
    var f, n := FrameOf(sequence, body), |body| + 5;
    var s, h := f[i := b] + rest, Header(sequence, body);
    assert s[0] == n;
    if i < n - 3 {
      assert s[..n - 3] == h[i := b];
      OneByteChange(h, i, b);
      var crc := Checksum(h[i := b]);
      assert s[n - 3] == HighByte(Checksum(h)) && s[n - 2] == LowByte(Checksum(h));
      if HighByte(crc) == HighByte(Checksum(h)) && LowByte(crc) == LowByte(Checksum(h)) {
        BytesDetermine(crc, Checksum(h));
      }
      assert s[n - 3..n - 1][0] == s[n - 3] && s[n - 3..n - 1][1] == s[n - 2];
    } else if i < n - 1 {
      assert s[..n - 3] == h;
      assert s[n - 3..n - 1][0] == s[n - 3] && s[n - 3..n - 1][1] == s[n - 2];
    }
  }

  /** A length byte raised within the allowed range is not noticed until that many bytes are there. */
  lemma {:induction false} LongerLengthWaits(sequence: Byte, body: seq<Byte>, b: Byte)
    requires sequence / 16 == 1 && |body| + 5 < b <= MESSAGE_MAX
    ensures CheckPacket(FrameOf(sequence, body)[0 := b]) == 0
  {
    hide Checksum, HighByte, LowByte;
  }
}
