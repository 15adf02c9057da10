/** Messages: an identifier and parameters one after the other, as the host and the firmware write
    and read them. */
module Message {
  import opened Words32
  import opened Vlq

  const HEADER_SIZE := 2
  const TRAILER_SIZE := 3

  /** Integers and byte strings with a length byte; `Text` is a C string, `Buffer` has an explicit
      length. */
  datatype ParamType = Unsigned | SignedInt | Text | Buffer

  datatype Param = Number(value: int) | Bytes(bytes: seq<Byte>)

  type Types = seq<ParamType>
  type Params = seq<Param>

  predicate IsInt(t: ParamType) {
    t.Unsigned? || t.SignedInt?
  }

  /** A parameter of the right kind; byte strings must fit their length byte. */
  predicate Suits(t: ParamType, p: Param) {
    if IsInt(t) then p.Number? else p.Bytes? && |p.bytes| < 0x100
  }

  predicate WellTyped(types: Types, params: Params) {
    |types| == |params| && forall i :: 0 <= i < |types| ==> Suits(types[i], params[i])
  }

  function Min(a: int, b: int): int {
    if a < b then a else b
  }

  // ------------------------------------------------------------ the host encodes

  function HostParam(t: ParamType, p: Param): seq<Byte>
    requires Suits(t, p)
  {
    if IsInt(t) then HostBytes(p.value) else [|p.bytes|] + p.bytes
  }

  /** The bytes written for each parameter. */
  function HostParts(types: Types, params: Params): (parts: seq<seq<Byte>>)
    requires WellTyped(types, params)
    ensures |parts| == |types| && forall i :: 0 <= i < |parts| ==> parts[i] == HostParam(types[i], params[i])
  {
    if types == [] then [] else [HostParam(types[0], params[0])] + HostParts(types[1..], params[1..])
  }

  function Joined(parts: seq<seq<Byte>>): seq<Byte> {
    if parts == [] then [] else parts[0] + Joined(parts[1..])
  }

  method EncodeHostParam(out: seq<Byte>, t: ParamType, p: Param) returns (r: seq<Byte>)
    requires Suits(t, p)
    ensures r == out + HostParam(t, p)
  {
    if IsInt(t) {
      r := EncodeHost(out, p.value);
    } else {
      r := out + [|p.bytes|];
      r := r + p.bytes;
    }
  }

  method EncodeHostMessage(id: Byte, types: Types, params: Params) returns (out: seq<Byte>)
    requires WellTyped(types, params)
    ensures out == [id] + Joined(HostParts(types, params))
  {
    hide HostParam;
    out := [id];
    for i := 0 to |types|
      invariant out + Joined(HostParts(types[i..], params[i..])) == [id] + Joined(HostParts(types, params))
    {
      ghost var rest := Joined(HostParts(types[i + 1..], params[i + 1..]));
      assert types[i..][1..] == types[i + 1..] && params[i..][1..] == params[i + 1..];
      var before := out;
      out := EncodeHostParam(out, types[i], params[i]);
      JoinedHead(types[i..], params[i..]);
      assert before + (HostParam(types[i], params[i]) + rest) == out + rest;
    }
    assert out + [] == out;
  }

  lemma {:induction false} JoinedHead(types: Types, params: Params)
    requires WellTyped(types, params) && types != []
    ensures Joined(HostParts(types, params)) ==
            HostParam(types[0], params[0]) + Joined(HostParts(types[1..], params[1..]))
  {
    assert HostParts(types, params)[1..] == HostParts(types[1..], params[1..]);
  }

  // ------------------------------------------------------------ the host decodes

  /** A parameter at `pos`; reading past the end is an error only for integers and length bytes. */
  function HostParamAt(s: seq<Byte>, pos: nat, t: ParamType): (r: Option<Parsed<Param>>) {
    if IsInt(t) then
      match IntAt(s, pos)
      case None => None
      case Some(p) => Some(Parsed(Number(if t.SignedInt? then p.value else Wrap(p.value)), p.pos))
    else if pos >= |s| then None
    else
      var end := pos + s[pos] + 1;
      Some(Parsed(Bytes(s[pos + 1..][..Min(s[pos], |s| - pos - 1)]), end))
  }

  function HostParamsAt(s: seq<Byte>, pos: nat, types: Types): (r: Option<Parsed<Params>>)
    decreases |types|
  {
    if types == [] then Some(Parsed([], pos))
    else
      match HostParamAt(s, pos, types[0])
      case None => None
      case Some(p) =>
        match HostParamsAt(s, p.pos, types[1..])
        case None => None
        case Some(q) => Some(Parsed([p.value] + q.value, q.pos))
  }

  /** The parameters read in a loop are those of the specification. */
  method ParseHostMessage(s: seq<Byte>, start: nat, types: Types) returns (r: Option<Parsed<Params>>)
    ensures r == HostParamsAt(s, start + 1, types)
  {
    var pos: nat := start + 1;
    var out: Params := [];
    assert types[0..] == types;
    PrependedNothing(HostParamsAt(s, pos, types));
    for i := 0 to |types|
      invariant HostParamsAt(s, start + 1, types) == Prepended(out, HostParamsAt(s, pos, types[i..]))
    {
      var one := HostParamAt(s, pos, types[i]);
      assert types[i..][0] == types[i] && types[i..][1..] == types[i + 1..];
      if one.None? {
        return None;
      }
      PrependedMore(out, one.value.value, HostParamsAt(s, one.value.pos, types[i + 1..]));
      pos, out := one.value.pos, out + [one.value.value];
    }
    assert types[|types|..] == [] && out + [] == out;
    return Some(Parsed(out, pos));
  }

  function Prepended(out: Params, r: Option<Parsed<Params>>): Option<Parsed<Params>> {
    match r
    case None => None
    case Some(p) => Some(Parsed(out + p.value, p.pos))
  }

  lemma {:induction false} PrependedNothing(r: Option<Parsed<Params>>)
    ensures Prepended([], r) == r
  {
    if r.Some? {
      assert [] + r.value.value == r.value.value;
    }
  }

  lemma {:induction false} PrependedMore(out: Params, p: Param, r: Option<Parsed<Params>>)
    ensures Prepended(out + [p], r) == Prepended(out, Prepended([p], r))
  {
    if r.Some? {
      assert out + [p] + r.value.value == out + ([p] + r.value.value);
    }
  }

  /** What the host reads of a parameter are the bytes of one: a complete integer, or a length byte and
      that many bytes, or fewer if the input ends before; nothing exactly if there is no complete
      integer or no length byte. */
  lemma {:induction false} HostParamMeans(s: seq<Byte>, pos: nat, t: ParamType)
    ensures HostParamAt(s, pos, t).None? <==>
      if IsInt(t) then forall end :: pos < end <= |s| ==> !Complete(s[pos..end]) else pos >= |s|
    ensures HostParamAt(s, pos, t).Some? && IsInt(t) ==>
      var p := HostParamAt(s, pos, t).value;
      && pos < p.pos <= |s| && Complete(s[pos..p.pos])
      && p.value == Number(if t.SignedInt? then Value(s[pos..p.pos]) else Wrap(Value(s[pos..p.pos])))
    ensures HostParamAt(s, pos, t).Some? && !IsInt(t) ==>
      var p := HostParamAt(s, pos, t).value;
      && p.value.Bytes? && pos < |s| && p.pos == pos + 1 + s[pos]
      && s[pos..if p.pos <= |s| then p.pos else |s|] == [s[pos]] + p.value.bytes
  {
    hide IntAt, Complete, Value, Wrap;
    if IsInt(t) {
      NothingReadIff(s, pos);
      if IntAt(s, pos).Some? {
        ReadIsComplete(s, pos);
      }
    }
  }

  /** The host reads parameters one right after the other, and nothing exactly if one is missing. */
  lemma {:induction false} HostParamPositions(s: seq<Byte>, pos: nat, types: Types) returns (at: seq<nat>)
    ensures 1 <= |at| <= |types| + 1 && at[0] == pos
    ensures forall k :: 0 <= k < |at| - 1 ==>
      HostParamAt(s, at[k], types[k]).Some? && HostParamAt(s, at[k], types[k]).value.pos == at[k + 1]
    ensures match HostParamsAt(s, pos, types)
            case None => |at| <= |types| && HostParamAt(s, at[|at| - 1], types[|at| - 1]).None?
            case Some(p) =>
              && |at| == |types| + 1 == |p.value| + 1 && at[|types|] == p.pos
              && forall k :: 0 <= k < |types| ==> HostParamAt(s, at[k], types[k]).value.value == p.value[k]
    decreases |types|
  {
    hide HostParamAt;
    at := [pos];
    if types != [] {
      var p := HostParamAt(s, pos, types[0]);
      if p.Some? {
        var rest := HostParamPositions(s, p.value.pos, types[1..]);
        at := [pos] + rest;
      }
    }
  }

  datatype HostResult = Message(params: Params) | UnknownMessage | ExtraData | OutOfBytes

  /** A received block is one message; it must end exactly where the trailer begins. */
  method ParseBlock(s: seq<Byte>, formats: map<Byte, Types>) returns (r: HostResult)
    requires |s| > HEADER_SIZE
    ensures s[HEADER_SIZE] !in formats ==> r == UnknownMessage
    ensures s[HEADER_SIZE] in formats ==>
      r == match HostParamsAt(s, HEADER_SIZE + 1, formats[s[HEADER_SIZE]])
           case None => OutOfBytes
           case Some(p) => if p.pos == |s| - TRAILER_SIZE then Message(p.value) else ExtraData
  {
    var id := s[HEADER_SIZE];
    if id !in formats {
      return UnknownMessage;
    }
    var p := ParseHostMessage(s, HEADER_SIZE, formats[id]);
    match p {
      case None => return OutOfBytes;
      case Some(q) =>
        if q.pos != |s| - TRAILER_SIZE {
          return ExtraData;
        }
        return Message(q.value);
    }
  }

  // ------------------------------------------------------------ round trips

  /** What a decoder reads for bytes written for a parameter: `e` stands at `pos`, is consumed in full,
      and gives `p`. */
  ghost predicate ReadsAs(t: ParamType, e: seq<Byte>, p: Param) {
    forall s: seq<Byte>, pos: nat :: At(s, pos, e) ==> HostParamAt(s, pos, t) == Some(Parsed(p, pos + |e|))
  }

  lemma {:induction false} BytesRead(t: ParamType, b: seq<Byte>)
    requires !IsInt(t) && |b| < 0x100
    ensures ReadsAs(t, [|b|] + b, Bytes(b))
  {
    forall s: seq<Byte>, pos: nat | At(s, pos, [|b|] + b)
      ensures HostParamAt(s, pos, t) == Some(Parsed(Bytes(b), pos + 1 + |b|))
    {
      AtByte(s, pos, [|b|] + b, 0);
      assert s[pos + 1..][..|b|] == s[pos..pos + 1 + |b|][1..];
    }
  }

  /** What the host reads of an integer it wrote itself. */
  function HostReading(t: ParamType, p: Param): Param
    requires Suits(t, p)
  {
    if t.SignedInt? then Number(Reduced(p.value)) else if t.Unsigned? then Number(Wrap(Reduced(p.value))) else p
  }

  lemma {:induction false} HostParamRead(t: ParamType, p: Param)
    requires Suits(t, p)
    ensures ReadsAs(t, HostParam(t, p), HostReading(t, p))
  {
    hide IntAt, Reduced, HostBytes, Wrap;
    if IsInt(t) {
      forall s: seq<Byte>, pos: nat | At(s, pos, HostParam(t, p))
        ensures HostParamAt(s, pos, t) == Some(Parsed(HostReading(t, p), pos + |HostParam(t, p)|))
      {
        ReadsHostBytes(s, pos, p.value);
      }
    } else {
      BytesRead(t, p.bytes);
    }
  }

  /** Parameters that each read back from their own bytes read back from all the bytes together,
      consuming exactly those. */
  lemma {:induction false} JoinedRead(s: seq<Byte>, pos: nat, types: Types, parts: seq<seq<Byte>>, params: Params)
    requires |types| == |parts| == |params|
    requires forall i :: 0 <= i < |types| ==> ReadsAs(types[i], parts[i], params[i])
    requires At(s, pos, Joined(parts))
    ensures HostParamsAt(s, pos, types) == Some(Parsed(params, pos + |Joined(parts)|))
    decreases |types|
  {
    hide HostParamAt;
    if types == [] {
    } else {
      var e, rest := parts[0], Joined(parts[1..]);
      AtParts(s, pos, e, rest);
      assert HostParamAt(s, pos, types[0]) == Some(Parsed(params[0], pos + |e|));
      JoinedRead(s, pos + |e|, types[1..], parts[1..], params[1..]);
      assert [params[0]] + params[1..] == params;
    }
  }

  lemma {:induction false} AtParts(s: seq<Byte>, pos: nat, e: seq<Byte>, rest: seq<Byte>)
    requires At(s, pos, e + rest)
    ensures At(s, pos, e) && At(s, pos + |e|, rest)
  {
    var n := |e| + |rest|;
    assert s[pos..pos + |e|] == s[pos..pos + n][..|e|];
    assert s[pos + |e|..pos + n] == s[pos..pos + n][|e|..];
  }

  function HostReadings(types: Types, params: Params): (r: Params)
    requires WellTyped(types, params)
    ensures |r| == |types| && forall i :: 0 <= i < |r| ==> r[i] == HostReading(types[i], params[i])
  {
    if types == [] then [] else [HostReading(types[0], params[0])] + HostReadings(types[1..], params[1..])
  }

  /** A parameter the host reads back as it is. */
  predicate Exact(t: ParamType, p: Param)
    requires Suits(t, p)
  {
    match t
    case Unsigned => 0 <= p.value < 0x1_0000_0000
    case SignedInt => -0x2_0000_0000 <= p.value < 0x6_0000_0000
    case Text | Buffer => true
  }

  /** A host message, wherever it stands and whatever follows it, is read back by the host consuming
      exactly its bytes; it is the same message just when each integer is in its type's range. */
  lemma {:induction false} HostMessageRoundTrip(s: seq<Byte>, pos: nat, id: Byte, types: Types, params: Params)
    requires WellTyped(types, params) && At(s, pos, [id] + Joined(HostParts(types, params)))
    ensures HostParamsAt(s, pos + 1, types) ==
            Some(Parsed(HostReadings(types, params), pos + |[id] + Joined(HostParts(types, params))|))
    ensures HostReadings(types, params) == params <==> forall i :: 0 <= i < |types| ==> Exact(types[i], params[i])
  {
    hide HostParam, HostReading, Reduced;
    AtParts(s, pos, [id], Joined(HostParts(types, params)));
    forall i | 0 <= i < |types|
      ensures ReadsAs(types[i], HostParts(types, params)[i], HostReadings(types, params)[i])
    {
      HostParamRead(types[i], params[i]);
    }
    hide ReadsAs;
    JoinedRead(s, pos + 1, types, HostParts(types, params), HostReadings(types, params));
    forall i | 0 <= i < |types| ensures HostReading(types[i], params[i]) == params[i] <==> Exact(types[i], params[i]) {
      ReadingExact(types[i], params[i]);
    }
  }

  lemma {:induction false} ReadingExact(t: ParamType, p: Param)
    requires Suits(t, p)
    ensures HostReading(t, p) == p <==> Exact(t, p)
  {
    hide Reduced, Wrap;
    if IsInt(t) {
      HostRoundTrip(p.value);
    }
  }

  // ------------------------------------------------------------ the firmware encodes a response

  /** Arguments of a response: 32-bit words, strings and buffers. */
  predicate Passed(t: ParamType, p: Param) {
    if IsInt(t) then p.Number? && 0 <= p.value < 0x1_0000_0000 else p.Bytes?
  }

  predicate AllPassed(types: Types, params: Params) {
    |types| == |params| && forall i :: 0 <= i < |types| ==> Passed(types[i], params[i])
  }

  /** How many bytes of a string or buffer are sent from position `pos`, when `maxend` is where the
      parameters should end: for a buffer, the length byte is not allowed for. */
  function SentLength(t: ParamType, b: seq<Byte>, pos: nat, maxend: nat): (n: nat)
    requires pos <= maxend
    ensures n <= |b| && n <= maxend - pos
  {
    if t.Text? && pos == maxend then 0
    else Min(|b|, if t.Text? then maxend - pos - 1 else maxend - pos)
  }

  /** As much is sent as there is room for: all of it, or a string up to the end with its length byte and
      a buffer up to the end without it. */
  lemma {:induction false} SendsWhatFits(t: ParamType, b: seq<Byte>, pos: nat, maxend: nat)
    requires !IsInt(t) && pos <= maxend
    ensures var n := SentLength(t, b, pos, maxend);
      && (n < |b| ==> n == if t.Text? && pos < maxend then maxend - pos - 1 else maxend - pos)
      && (t.Text? && pos < maxend ==> pos + 1 + n <= maxend)
  {
  }

  function FirmwareParam(t: ParamType, p: Param, pos: nat, maxend: nat): seq<Byte>
    requires Passed(t, p) && pos <= maxend < 0x100
  {
    if IsInt(t) then FirmwareBytes(p.value)
    else var n := SentLength(t, p.bytes, pos, maxend); [n] + p.bytes[..n]
  }

  /** The bytes of each parameter; an error if one would start after `maxend`. */
  function FirmwareParts(types: Types, params: Params, pos: nat, maxend: nat): (r: Option<seq<seq<Byte>>>)
    requires AllPassed(types, params) && maxend < 0x100
    ensures r.Some? ==> |r.value| == |types|
  {
    if types == [] then Some([])
    else if pos > maxend then None
    else
      var e := FirmwareParam(types[0], params[0], pos, maxend);
      match FirmwareParts(types[1..], params[1..], pos + |e|, maxend)
      case None => None
      case Some(rest) => Some([e] + rest)
  }

  /** The parameters follow each other; encoding them is an error exactly if one of them would start
      after the end. */
  lemma {:induction false} PartPositions(types: Types, params: Params, pos: nat, maxend: nat) returns (at: seq<nat>)
    requires AllPassed(types, params) && maxend < 0x100
    ensures 1 <= |at| <= |types| + 1 && at[0] == pos
    ensures forall k :: 0 <= k < |at| - 1 ==>
      at[k] <= maxend && at[k + 1] == at[k] + |FirmwareParam(types[k], params[k], at[k], maxend)|
    ensures match FirmwareParts(types, params, pos, maxend)
            case None => |at| <= |types| && at[|at| - 1] > maxend
            case Some(parts) =>
              && |at| == |types| + 1
              && forall k :: 0 <= k < |types| ==> parts[k] == FirmwareParam(types[k], params[k], at[k], maxend)
    decreases |types|
  {
    hide FirmwareParam;
    at := [pos];
    if types != [] && pos <= maxend {
      var rest := PartPositions(types[1..], params[1..], pos + |FirmwareParam(types[0], params[0], pos, maxend)|, maxend);
      at := [pos] + rest;
    }
  }

  method EncodeFirmwareParam(p: seq<Byte>, t: ParamType, a: Param, maxend: nat) returns (r: seq<Byte>)
    requires Passed(t, a) && |p| <= maxend < 0x100
    ensures r == p + FirmwareParam(t, a, |p|, maxend)
  {
    hide FirmwareBytes, SentLength;
    if IsInt(t) {
      r := EncodeFirmware(p, a.value);
      return;
    }
    var n := CountSent(t, a.bytes, |p|, maxend);
    assert n < 0x100;
    r := p + [n];
    r := r + a.bytes[..n];
  }

  method CountSent(t: ParamType, b: seq<Byte>, pos: nat, maxend: nat) returns (n: nat)
    requires !IsInt(t) && pos <= maxend
    ensures n == SentLength(t, b, pos, maxend)
  {
    if t.Text? {
      n := 0;
      while n < |b| && pos + 1 + n < maxend
        invariant n <= SentLength(t, b, pos, maxend)
      {
        n := n + 1;
      }
    } else {
      n := |b|;
      if n > maxend - pos {
        n := maxend - pos;
      }
    }
  }

  /** Encode the parameters of a response after `header`, the header bytes and the identifier. */
  method EncodeResponse(header: seq<Byte>, types: Types, params: Params, maxend: nat)
    returns (r: Option<seq<Byte>>)
    requires AllPassed(types, params) && maxend < 0x100
    ensures r == match FirmwareParts(types, params, |header|, maxend)
                 case None => None
                 case Some(parts) => Some(header + Joined(parts))
  {
    hide FirmwareParam;
    var p := header;
    assert types[0..] == types && params[0..] == params;
    for i := 0 to |types|
      invariant match FirmwareParts(types[i..], params[i..], |p|, maxend)
                case None => FirmwareParts(types, params, |header|, maxend) == None
                case Some(rest) =>
                  && FirmwareParts(types, params, |header|, maxend).Some?
                  && p + Joined(rest) == header + Joined(FirmwareParts(types, params, |header|, maxend).value)
    {
      assert types[i..][1..] == types[i + 1..] && params[i..][1..] == params[i + 1..];
      if |p| > maxend {
        return None;
      }
      ghost var e := FirmwareParam(types[i], params[i], |p|, maxend);
      ghost var rest := FirmwareParts(types[i + 1..], params[i + 1..], |p| + |e|, maxend);
      JoinedMore(p, e, rest);
      p := EncodeFirmwareParam(p, types[i], params[i], maxend);
    }
    assert p + [] == p;
    return Some(p);
  }

  lemma {:induction false} JoinedMore(p: seq<Byte>, e: seq<Byte>, rest: Option<seq<seq<Byte>>>)
    ensures rest.Some? ==> p + Joined([e] + rest.value) == p + e + Joined(rest.value)
  {
    if rest.Some? {
      assert ([e] + rest.value)[1..] == rest.value;
      assert p + (e + Joined(rest.value)) == p + e + Joined(rest.value);
    }
  }

  /** A string or buffer parameter ends at or before `maxend` exactly when there is room to spare: a
      buffer of at least as many bytes as there is room for ends one byte too far, and so does a
      string with no room at all. */
  lemma {:induction false} EndsInTimeIff(t: ParamType, p: Param, pos: nat, maxend: nat)
    requires Passed(t, p) && !IsInt(t) && pos <= maxend < 0x100
    ensures pos + |FirmwareParam(t, p, pos, maxend)| <= maxend <==>
            if t.Text? then pos < maxend else |p.bytes| < maxend - pos
    ensures pos + |FirmwareParam(t, p, pos, maxend)| <= maxend + 1
  {
  }

  /** What the host reads of a parameter the firmware sent. */
  function ResponseReading(t: ParamType, p: Param, pos: nat, maxend: nat): Param
    requires Passed(t, p) && pos <= maxend < 0x100
  {
    match t
    case Unsigned => p
    case SignedInt => Number(Written(p.value))
    case Text | Buffer => Bytes(p.bytes[..SentLength(t, p.bytes, pos, maxend)])
  }

  lemma {:induction false} ResponseParamRead(t: ParamType, p: Param, pos: nat, maxend: nat)
    requires Passed(t, p) && pos <= maxend < 0x100
    ensures ReadsAs(t, FirmwareParam(t, p, pos, maxend), ResponseReading(t, p, pos, maxend))
  {
    hide IntAt, Written, FirmwareBytes, Wrap, SentLength;
    if IsInt(t) {
      forall s: seq<Byte>, at: nat | At(s, at, FirmwareBytes(p.value))
        ensures HostParamAt(s, at, t) ==
                Some(Parsed(ResponseReading(t, p, pos, maxend), at + |FirmwareBytes(p.value)|))
      {
        ReadsFirmwareBytes(s, at, p.value);
        FirmwareRoundTrip(p.value);
      }
    } else {
      BytesRead(t, p.bytes[..SentLength(t, p.bytes, pos, maxend)]);
    }
  }

  function ResponseReadings(types: Types, params: Params, pos: nat, maxend: nat): (r: Params)
    requires AllPassed(types, params) && maxend < 0x100 && FirmwareParts(types, params, pos, maxend).Some?
    ensures |r| == |types|
  {
    if types == [] then []
    else
      [ResponseReading(types[0], params[0], pos, maxend)]
      + ResponseReadings(types[1..], params[1..], pos + |FirmwareParam(types[0], params[0], pos, maxend)|, maxend)
  }

  lemma {:induction false} ResponsePartsRead(types: Types, params: Params, pos: nat, maxend: nat)
    requires AllPassed(types, params) && maxend < 0x100 && FirmwareParts(types, params, pos, maxend).Some?
    ensures forall i :: 0 <= i < |types| ==>
      ReadsAs(types[i], FirmwareParts(types, params, pos, maxend).value[i],
              ResponseReadings(types, params, pos, maxend)[i])
    decreases |types|
  {
    hide ReadsAs, FirmwareParam, ResponseReading;
    if types == [] {
    } else {
      var e := FirmwareParam(types[0], params[0], pos, maxend);
      ResponseParamRead(types[0], params[0], pos, maxend);
      ResponsePartsRead(types[1..], params[1..], pos + |e|, maxend);
    }
  }

  /** A response the firmware encoded is read back by the host consuming exactly its bytes: unsigned
      words as they are, signed ones as `Written`, strings and buffers as far as they were sent. */
  lemma {:induction false} ResponseRoundTrip(s: seq<Byte>, at: nat, types: Types, params: Params, pos: nat, maxend: nat)
    requires AllPassed(types, params) && maxend < 0x100 && FirmwareParts(types, params, pos, maxend).Some?
    requires At(s, at, Joined(FirmwareParts(types, params, pos, maxend).value))
    ensures HostParamsAt(s, at, types) ==
            Some(Parsed(ResponseReadings(types, params, pos, maxend),
                        at + |Joined(FirmwareParts(types, params, pos, maxend).value)|))
  {
    hide ReadsAs, FirmwareParam, ResponseReading;
    ResponsePartsRead(types, params, pos, maxend);
    JoinedRead(s, at, types, FirmwareParts(types, params, pos, maxend).value,
               ResponseReadings(types, params, pos, maxend));
  }

  // ------------------------------------------------------------ the firmware decodes commands

  /** Decoding a command's arguments; `Overrun` would be reading outside the buffer. */
  datatype Args<T> = Args(value: T, pos: nat) | ParserError | Overrun

  function ArgAt(s: seq<Byte>, pos: nat, msgend: nat, t: ParamType): (r: Args<Param>)
    requires msgend <= |s|
  {
    if pos > msgend then ParserError
    else if IsInt(t) then
      match IntAt(s, pos)
      case None => Overrun
      case Some(p) => Args(Number(Wrap(p.value)), p.pos)
    else if t.Buffer? then
      if pos >= |s| then Overrun
      else if pos + 1 + s[pos] > msgend then ParserError
      else Args(Bytes(s[pos + 1..pos + 1 + s[pos]]), pos + 1 + s[pos])
    else ParserError
  }

  function ArgsAt(s: seq<Byte>, pos: nat, msgend: nat, types: Types): (r: Args<Params>)
    requires msgend <= |s|
    decreases |types|
  {
    if types == [] then Args([], pos)
    else
      match ArgAt(s, pos, msgend, types[0])
      case ParserError => ParserError
      case Overrun => Overrun
      case Args(a, next) =>
        match ArgsAt(s, next, msgend, types[1..])
        case ParserError => ParserError
        case Overrun => Overrun
        case Args(rest, end) => Args([a] + rest, end)
  }

  /** A call of the handler of command `id`. */
  datatype Call = Call(id: Byte, args: Params)

  datatype Ending = Done | BadArguments | BadCommand | OutOfBuffer

  /** The commands that may run while the machine is shut down. */
  predicate RunsInShutdown(always: seq<bool>, id: Byte) {
    id < |always| && always[id]
  }

  /** The commands handled, when `down(i)` says whether the machine is shut down at the `i`-th. */
  function Handled(calls: seq<Call>, always: seq<bool>, down: nat -> bool, i: nat): (r: seq<Call>)
    ensures |r| <= |calls|
    decreases |calls|
  {
    if calls == [] then []
    else if down(i) && !RunsInShutdown(always, calls[0].id) then Handled(calls[1..], always, down, i + 1)
    else [calls[0]] + Handled(calls[1..], always, down, i + 1)
  }

  /** Every command is handled unless the machine is shut down. */
  lemma {:induction false} AllHandled(calls: seq<Call>, always: seq<bool>, down: nat -> bool, i: nat)
    requires forall j :: i <= j < i + |calls| ==> !down(j)
    ensures Handled(calls, always, down, i) == calls
    decreases |calls|
  {
    if calls != [] {
      AllHandled(calls[1..], always, down, i + 1);
    }
  }

  /** `picked` are the commands at the positions `at`, in order. */
  ghost predicate Picks(at: seq<nat>, calls: seq<Call>, picked: seq<Call>) {
    && |at| == |picked|
    && (forall k :: 0 <= k < |at| ==> at[k] < |calls| && picked[k] == calls[at[k]])
    && (forall k, l :: 0 <= k < l < |at| ==> at[k] < at[l])
  }

  /** The positions are just those of the commands that may run. */
  ghost predicate AllThatMayRun(at: seq<nat>, calls: seq<Call>, always: seq<bool>, down: nat -> bool, i: nat) {
    forall j :: 0 <= j < |calls| ==>
      (j in at <==> !down(i + j) || (calls[j].id < |always| && always[calls[j].id]))
  }

  function Later(at: seq<nat>): (r: seq<nat>)
    ensures |r| == |at| && forall k :: 0 <= k < |r| ==> r[k] == at[k] + 1
  {
    if at == [] then [] else [at[0] + 1] + Later(at[1..])
  }

  lemma {:induction false} LaterIn(at: seq<nat>, j: nat)
    ensures 0 !in Later(at)
    ensures j > 0 ==> (j in Later(at) <==> j - 1 in at)
  {
    var t := Later(at);
    if j > 0 && j in t {
      var k :| 0 <= k < |t| && t[k] == j;
      assert at[k] == j - 1;
    }
    if j > 0 && j - 1 in at {
      var k :| 0 <= k < |at| && at[k] == j - 1;
      assert t[k] == j;
    }
  }

  lemma {:induction false} PicksLater(at: seq<nat>, calls: seq<Call>, picked: seq<Call>)
    requires calls != [] && Picks(at, calls[1..], picked)
    ensures Picks(Later(at), calls, picked) && Picks([0] + Later(at), calls, [calls[0]] + picked)
  {
    var later := Later(at);
    assert Picks(later, calls, picked) by {
      assert forall k :: 0 <= k < |at| ==> later[k] == at[k] + 1 && calls[1..][at[k]] == calls[later[k]];
    }
    assert forall k :: 0 <= k < |at| ==> later[k] > 0;
    hide Later;
    PicksFirst(later, calls, picked);
  }

  lemma {:induction false} PicksFirst(at: seq<nat>, calls: seq<Call>, picked: seq<Call>)
    requires calls != [] && Picks(at, calls, picked) && forall k :: 0 <= k < |at| ==> at[k] > 0
    ensures Picks([0] + at, calls, [calls[0]] + picked)
  {
    var t, c := [0] + at, [calls[0]] + picked;
    forall k, l | 0 <= k < l < |t| ensures t[k] < t[l] {
      if k > 0 {
        assert t[k] == at[k - 1] && t[l] == at[l - 1];
      }
    }
    forall k | 0 <= k < |t| ensures t[k] < |calls| && c[k] == calls[t[k]] {
      if k > 0 {
        assert t[k] == at[k - 1] && c[k] == picked[k - 1];
      }
    }
  }

  lemma {:induction false} MayRunLater(at: seq<nat>, calls: seq<Call>, always: seq<bool>, down: nat -> bool, i: nat)
    requires calls != [] && AllThatMayRun(at, calls[1..], always, down, i + 1)
    ensures var first := if !down(i) || RunsInShutdown(always, calls[0].id) then [0] else [];
            AllThatMayRun(first + Later(at), calls, always, down, i)
  {
    hide Later;
    var first := if !down(i) || RunsInShutdown(always, calls[0].id) then [0] else [];
    forall j | 0 <= j < |calls|
      ensures j in first + Later(at) <==> !down(i + j) || (calls[j].id < |always| && always[calls[j].id])
    {
      LaterIn(at, j);
      if j > 0 {
        assert calls[1..][j - 1] == calls[j] && (i + 1) + (j - 1) == i + j;
        assert j - 1 in at <==> !down(i + j) || (calls[j].id < |always| && always[calls[j].id]);
      }
    }
  }

  /** Exactly the commands at certain positions are handled, in order: those decoded while the machine
      is not shut down, and those that may always run. */
  lemma {:induction false} HandledPositions(calls: seq<Call>, always: seq<bool>, down: nat -> bool, i: nat)
    returns (at: seq<nat>)
    ensures Picks(at, calls, Handled(calls, always, down, i))
    ensures AllThatMayRun(at, calls, always, down, i)
    decreases |calls|
  {
    at := [];
    if calls != [] {
      var rest := HandledPositions(calls[1..], always, down, i + 1);
      PicksLater(rest, calls, Handled(calls[1..], always, down, i + 1));
      MayRunLater(rest, calls, always, down, i);
      hide Picks, AllThatMayRun, Later;
      at := (if !down(i) || RunsInShutdown(always, calls[0].id) then [0] else []) + Later(rest);
      assert [] + Later(rest) == Later(rest);
    }
  }

  /** With the machine down throughout, the commands handled are those that may run then, and every one
      of those decoded is handled. */
  lemma {:induction false} DownHandles(calls: seq<Call>, always: seq<bool>, down: nat -> bool, c: Call)
    requires forall j: nat :: down(j)
    ensures c in Handled(calls, always, down, 0) <==> c in calls && c.id < |always| && always[c.id]
  {
    var at := HandledPositions(calls, always, down, 0);
    var handled := Handled(calls, always, down, 0);
    if c in handled {
      var k :| 0 <= k < |handled| && handled[k] == c;
      assert at[k] in at && calls[at[k]] == c && down(0 + at[k]);
    }
    if c in calls && c.id < |always| && always[c.id] {
      var j :| 0 <= j < |calls| && calls[j] == c;
      assert j in at;
      var k :| 0 <= k < |at| && at[k] == j;
      assert handled[k] == c;
    }
  }

  /** The commands decoded up to `msgend`, and how that ends. */
  function CallsAt(s: seq<Byte>, pos: nat, msgend: nat, index: seq<Types>): (r: (seq<Call>, Ending))
    requires msgend <= |s|
    decreases msgend - pos
  {
    if pos >= msgend then ([], Done)
    else if s[pos] == 0 || s[pos] >= |index| then ([], BadCommand)
    else
      ArgsAdvance(s, pos + 1, msgend, index[s[pos]]);
      match ArgsAt(s, pos + 1, msgend, index[s[pos]])
      case ParserError => ([], BadArguments)
      case Overrun => ([], OutOfBuffer)
      case Args(args, next) =>
        var rest := CallsAt(s, next, msgend, index);
        ([Call(s[pos], args)] + rest.0, rest.1)
  }

  /** Commands are decoded one right after the other, each from its identifier and its arguments; that
      ends where the trailer begins, at an identifier no command has, or at arguments that are in error. */
  lemma {:induction false} CallPositions(s: seq<Byte>, pos: nat, msgend: nat, index: seq<Types>) returns (at: seq<nat>)
    requires msgend <= |s|
    ensures var (calls, ending) := CallsAt(s, pos, msgend, index);
      && |at| == |calls| + 1 && at[0] == pos
      && (forall k :: 0 <= k < |calls| ==>
            && at[k] < msgend && calls[k].id == s[at[k]] && 0 < s[at[k]] < |index|
            && ArgsAt(s, at[k] + 1, msgend, index[s[at[k]]]) == Args(calls[k].args, at[k + 1]))
      && var end := at[|calls|];
        && (ending == Done <==> end >= msgend)
        && (ending == BadCommand <==> end < msgend && !(0 < s[end] < |index|))
        && (ending == BadArguments <==>
              end < msgend && 0 < s[end] < |index| && ArgsAt(s, end + 1, msgend, index[s[end]]) == ParserError)
    decreases msgend - pos
  {
    hide ArgsAt;
    at := [pos];
    if pos < msgend && 0 < s[pos] < |index| {
      ArgsAdvance(s, pos + 1, msgend, index[s[pos]]);
      var a := ArgsAt(s, pos + 1, msgend, index[s[pos]]);
      if a.Args? {
        var rest := CallPositions(s, a.pos, msgend, index);
        at := [pos] + rest;
      }
    }
  }

  /** Arguments are decoded one right after the other; they are in error exactly if one of them is. */
  lemma {:induction false} ArgPositions(s: seq<Byte>, pos: nat, msgend: nat, types: Types) returns (at: seq<nat>)
    requires msgend <= |s|
    ensures 1 <= |at| <= |types| + 1 && at[0] == pos
    ensures forall k :: 0 <= k < |at| - 1 ==>
      ArgAt(s, at[k], msgend, types[k]).Args? && ArgAt(s, at[k], msgend, types[k]).pos == at[k + 1]
    ensures match ArgsAt(s, pos, msgend, types)
            case Args(args, end) =>
              && |at| == |types| + 1 == |args| + 1 && at[|types|] == end
              && forall k :: 0 <= k < |types| ==> ArgAt(s, at[k], msgend, types[k]).value == args[k]
            case ParserError => |at| <= |types| && ArgAt(s, at[|at| - 1], msgend, types[|at| - 1]) == ParserError
            case Overrun => |at| <= |types| && ArgAt(s, at[|at| - 1], msgend, types[|at| - 1]) == Overrun
    decreases |types|
  {
    hide ArgAt;
    at := [pos];
    if types != [] {
      var a := ArgAt(s, pos, msgend, types[0]);
      if a.Args? {
        var rest := ArgPositions(s, a.pos, msgend, types[1..]);
        at := [pos] + rest;
      }
    }
  }

  /** An argument is in error exactly if it starts after the end, is of a type no command has, or is a
      buffer that does not end in time; otherwise it is an integer modulo 2^32 or the buffer's bytes. */
  lemma {:induction false} ArgMeans(s: seq<Byte>, pos: nat, msgend: nat, t: ParamType)
    requires msgend <= |s|
    ensures ArgAt(s, pos, msgend, t) == ParserError <==>
      pos > msgend || t == Text || (t == Buffer && pos < |s| && pos + 1 + s[pos] > msgend)
    ensures ArgAt(s, pos, msgend, t).Args? && IsInt(t) ==>
      var end := ArgAt(s, pos, msgend, t).pos;
      && pos < end <= |s| && Complete(s[pos..end])
      && ArgAt(s, pos, msgend, t).value == Number(Wrap(Value(s[pos..end])))
    ensures ArgAt(s, pos, msgend, t).Args? && !IsInt(t) ==>
      var end := ArgAt(s, pos, msgend, t).pos;
      && pos < end <= msgend && ArgAt(s, pos, msgend, t).value.Bytes?
      && s[pos..end] == [end - pos - 1] + ArgAt(s, pos, msgend, t).value.bytes
  {
    hide IntAt, Complete, Value, Wrap;
    if IsInt(t) && IntAt(s, pos).Some? {
      ReadIsComplete(s, pos);
    }
  }

  lemma {:induction false} ArgsAdvance(s: seq<Byte>, pos: nat, msgend: nat, types: Types)
    requires msgend <= |s|
    ensures ArgsAt(s, pos, msgend, types).Args? ==> ArgsAt(s, pos, msgend, types).pos >= pos
    decreases |types|
  {
    if types != [] {
      var a := ArgAt(s, pos, msgend, types[0]);
      if a.Args? {
        if IsInt(types[0]) {
          FollowingAdvances(s, pos + 1, Leading(s[pos]), s[pos]);
        }
        ArgsAdvance(s, a.pos, msgend, types[1..]);
      }
    }
  }

  lemma {:induction false} FollowingAdvances(s: seq<Byte>, pos: nat, v: int, c: Byte)
    ensures Following(s, pos, v, c).Some? ==> Following(s, pos, v, c).value.pos >= pos
    decreases |s| - pos
  {
    if c >= 0x80 && pos < |s| {
      FollowingAdvances(s, pos + 1, v * 0x80 + s[pos] % 0x80, s[pos]);
    }
  }

  // ------------------------------------------------------------ nothing is read past the sync byte

  lemma {:induction false} FollowingStops(s: seq<Byte>, pos: nat, v: int, c: Byte, end: nat)
    requires end < |s| && s[end] < 0x80 && (pos <= end || (c < 0x80 && pos == end + 1))
    ensures Following(s, pos, v, c).Some? && Following(s, pos, v, c).value.pos <= end + 1
    decreases |s| - pos
  {
    if c >= 0x80 {
      FollowingStops(s, pos + 1, v * 0x80 + s[pos] % 0x80, s[pos], end);
    }
  }

  lemma {:induction false} ArgsStayInside(s: seq<Byte>, pos: nat, msgend: nat, types: Types)
    requires msgend + TRAILER_SIZE <= |s| && s[msgend + 2] < 0x80
    ensures ArgsAt(s, pos, msgend, types) != Overrun
    decreases |types|
  {
    if types != [] && pos <= msgend {
      if IsInt(types[0]) {
        FollowingStops(s, pos + 1, Leading(s[pos]), s[pos], msgend + 2);
      }
      var a := ArgAt(s, pos, msgend, types[0]);
      if a.Args? {
        ArgsStayInside(s, a.pos, msgend, types[1..]);
      }
    }
  }

  /** Whatever bytes a block holds, as long as the last byte of its trailer is a sync byte no command
      makes the decoder read outside the block. */
  lemma {:induction false} BlockStaysInside(s: seq<Byte>, pos: nat, msgend: nat, index: seq<Types>)
    requires msgend + TRAILER_SIZE <= |s| && s[msgend + 2] == 0x7e
    ensures CallsAt(s, pos, msgend, index).1 != OutOfBuffer
    decreases msgend - pos
  {
    if pos < msgend && 0 < s[pos] < |index| {
      ArgsStayInside(s, pos + 1, msgend, index[s[pos]]);
      var a := ArgsAt(s, pos + 1, msgend, index[s[pos]]);
      if a.Args? {
        ArgsAdvance(s, pos + 1, msgend, index[s[pos]]);
        BlockStaysInside(s, a.pos, msgend, index);
      }
    }
  }

  /** The arguments decoded in a loop are those of the specification. */
  method ParseArgs(s: seq<Byte>, start: nat, msgend: nat, types: Types) returns (r: Args<Params>)
    requires msgend <= |s|
    ensures r == ArgsAt(s, start, msgend, types)
  {
    var p: nat, args: Params := start, [];
    assert types[0..] == types;
    Prefixed([], ArgsAt(s, p, msgend, types));
    for i := 0 to |types|
      invariant ArgsAt(s, start, msgend, types) == WithPrefix(args, ArgsAt(s, p, msgend, types[i..]))
    {
      var a := ArgAt(s, p, msgend, types[i]);
      assert types[i..][0] == types[i] && types[i..][1..] == types[i + 1..];
      match a {
        case ParserError => return ParserError;
        case Overrun => return Overrun;
        case Args(value, next) =>
          PrefixedMore(args, value, ArgsAt(s, next, msgend, types[i + 1..]));
          p, args := next, args + [value];
      }
    }
    assert types[|types|..] == [] && args + [] == args;
    return Args(args, p);
  }

  function WithPrefix(args: Params, r: Args<Params>): Args<Params> {
    match r
    case Args(rest, end) => Args(args + rest, end)
    case ParserError => ParserError
    case Overrun => Overrun
  }

  lemma {:induction false} Prefixed(none: Params, r: Args<Params>)
    requires none == []
    ensures WithPrefix(none, r) == r
  {
    if r.Args? {
      assert none + r.value == r.value;
    }
  }

  lemma {:induction false} PrefixedMore(args: Params, a: Param, r: Args<Params>)
    ensures WithPrefix(args + [a], r) == WithPrefix(args, WithPrefix([a], r))
  {
    if r.Args? {
      assert args + [a] + r.value == args + ([a] + r.value);
    }
  }

  /** Dispatch all the commands of a block; while the machine is shut down only those that may run
      then are handled.  `down(i)` says whether it is when the `i`-th command has been decoded. */
  method Dispatch(s: seq<Byte>, msglen: nat, index: seq<Types>, always: seq<bool>, down: nat -> bool)
    returns (calls: seq<Call>, ending: Ending)
    requires HEADER_SIZE + TRAILER_SIZE <= msglen <= |s|
    ensures var decoded := CallsAt(s, HEADER_SIZE, msglen - TRAILER_SIZE, index);
            calls == Handled(decoded.0, always, down, 0) && ending == decoded.1
  {
    hide ArgsAt;
    var p: nat, msgend := HEADER_SIZE, msglen - TRAILER_SIZE;
    var n: nat := 0;
    calls := [];
    ghost var all := CallsAt(s, p, msgend, index);
    assert [] + Handled(all.0, always, down, 0) == Handled(all.0, always, down, 0);
    while p < msgend
      invariant calls + Handled(CallsAt(s, p, msgend, index).0, always, down, n) == Handled(all.0, always, down, 0)
      invariant CallsAt(s, p, msgend, index).1 == all.1
      decreases msgend - p
    {
      assert calls + [] == calls;
      var id := s[p];
      if id == 0 || id >= |index| {
        return calls, BadCommand;
      }
      var a := ParseArgs(s, p + 1, msgend, index[id]);
      match a {
        case ParserError => return calls, BadArguments;
        case Overrun => return calls, OutOfBuffer;
        case Args(args, next) =>
          ArgsAdvance(s, p + 1, msgend, index[id]);
          ghost var rest := CallsAt(s, next, msgend, index).0;
          assert ([Call(id, args)] + rest)[1..] == rest;
          MoreCalls(calls, Call(id, args), Handled(rest, always, down, n + 1));
          if !(down(n) && !RunsInShutdown(always, id)) {
            calls := calls + [Call(id, args)];
          }
          p, n := next, n + 1;
      }
    }
    assert calls + [] == calls;
    return calls, Done;
  }

  lemma {:induction false} MoreCalls(calls: seq<Call>, c: Call, rest: seq<Call>)
    ensures calls + ([c] + rest) == calls + [c] + rest
  {
  }

  // ------------------------------------------------------------ a block of commands

  /** A command of the index, with arguments of its types. */
  predicate WellFormed(c: Call, index: seq<Types>) {
    && 0 < c.id < |index| && WellTyped(index[c.id], c.args)
    && forall i :: 0 <= i < |index[c.id]| ==> index[c.id][i] != Text
  }

  function CommandBytes(c: Call, index: seq<Types>): seq<Byte>
    requires WellFormed(c, index)
  {
    [c.id] + Joined(HostParts(index[c.id], c.args))
  }

  /** What the host sends for a run of commands. */
  function BlockBytes(cmds: seq<Call>, index: seq<Types>): seq<Byte>
    requires forall i :: 0 <= i < |cmds| ==> WellFormed(cmds[i], index)
  {
    if cmds == [] then [] else CommandBytes(cmds[0], index) + BlockBytes(cmds[1..], index)
  }

  /** Integers arrive as 32-bit words. */
  function Received(p: Param): Param {
    if p.Number? then Number(Wrap(p.value)) else p
  }

  function AllReceived(params: Params): (r: Params)
    ensures |r| == |params|
  {
    if params == [] then [] else [Received(params[0])] + AllReceived(params[1..])
  }

  function CallsReceived(cmds: seq<Call>): (r: seq<Call>) {
    if cmds == [] then [] else [Call(cmds[0].id, AllReceived(cmds[0].args))] + CallsReceived(cmds[1..])
  }

  lemma {:induction false} ArgRead(s: seq<Byte>, pos: nat, msgend: nat, t: ParamType, p: Param)
    requires Suits(t, p) && t != Text && At(s, pos, HostParam(t, p)) && pos + |HostParam(t, p)| <= msgend <= |s|
    ensures ArgAt(s, pos, msgend, t) == Args(Received(p), pos + |HostParam(t, p)|)
  {
    hide IntAt, Reduced, HostBytes, Wrap;
    if IsInt(t) {
      ReadsHostBytes(s, pos, p.value);
      HostRoundTrip(p.value);
    } else {
      var e := [|p.bytes|] + p.bytes;
      AtByte(s, pos, e, 0);
      assert s[pos + 1..pos + 1 + |p.bytes|] == s[pos..pos + |e|][1..];
    }
  }

  lemma {:induction false} ArgsRead(s: seq<Byte>, pos: nat, msgend: nat, types: Types, params: Params)
    requires WellTyped(types, params) && forall i :: 0 <= i < |types| ==> types[i] != Text
    requires At(s, pos, Joined(HostParts(types, params)))
    requires pos + |Joined(HostParts(types, params))| <= msgend <= |s|
    ensures ArgsAt(s, pos, msgend, types) == Args(AllReceived(params), pos + |Joined(HostParts(types, params))|)
    decreases |types|
  {
    hide ArgAt, HostParam, Received;
    if types != [] {
      JoinedHead(types, params);
      var e, rest := HostParam(types[0], params[0]), Joined(HostParts(types[1..], params[1..]));
      AtParts(s, pos, e, rest);
      ArgRead(s, pos, msgend, types[0], params[0]);
      ArgsRead(s, pos + |e|, msgend, types[1..], params[1..]);
    }
  }

  /** A block of commands as the host encodes them, one after the other, is decoded as exactly
      those commands, in order, with every integer modulo 2^32. */
  lemma {:induction false} BlockRoundTrip(s: seq<Byte>, pos: nat, msgend: nat, index: seq<Types>, cmds: seq<Call>)
    requires forall i :: 0 <= i < |cmds| ==> WellFormed(cmds[i], index)
    requires At(s, pos, BlockBytes(cmds, index)) && pos + |BlockBytes(cmds, index)| == msgend
    ensures CallsAt(s, pos, msgend, index) == (CallsReceived(cmds), Done)
    decreases |cmds|
  {
    hide ArgsAt, HostParts, Joined, AllReceived;
    if cmds != [] {
      var c := cmds[0];
      var params, rest := Joined(HostParts(index[c.id], c.args)), BlockBytes(cmds[1..], index);
      AtParts(s, pos, [c.id] + params, rest);
      AtParts(s, pos, [c.id], params);
      AtByte(s, pos, [c.id], 0);
      ArgsRead(s, pos + 1, msgend, index[c.id], c.args);
      BlockRoundTrip(s, pos + 1 + |params|, msgend, index, cmds[1..]);
    }
  }
}
