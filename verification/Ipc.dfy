/** Length-prefixed frames over a byte stream with short reads, short writes and interruptions. */
module Ipc {
  import opened Common

  type Byte = b: int | 0 <= b < 256
  type Bytes = seq<Byte>

  const PROTOCOL_VERSION := 1
  const MAXIMUM_PAYLOAD := 0x1_0000
  const METADATA_SIZE := 5

  // ----- command codes

  datatype Command = On | Off | Status | GetSetting | SetSetting | Bypass

  function CommandCode(c: Command): nat {
    match c
    case On => 1
    case Off => 2
    case Status => 3
    case GetSetting => 4
    case SetSetting => 5
    case Bypass => 6
  }

  function EncodeCommand(c: Command): nat { PROTOCOL_VERSION * 0x1_0000 + CommandCode(c) }

  function DecodeCommand(code: nat): Option<Command> {
    if code / 0x1_0000 != PROTOCOL_VERSION then None
    else match code % 0x1_0000
      case 1 => Some(On)
      case 2 => Some(Off)
      case 3 => Some(Status)
      case 4 => Some(GetSetting)
      case 5 => Some(SetSetting)
      case 6 => Some(Bypass)
      case _ => None
  }

  /** Each is the inverse of the other: a code is accepted exactly when some command encodes to it. */
  lemma CommandsInvert(code: nat, c: Command)
    ensures DecodeCommand(code) == Some(c) <==> code == EncodeCommand(c)
  {
    assert code == code / 0x1_0000 * 0x1_0000 + code % 0x1_0000;
  }

  // ----- frames

  datatype FrameKind = Request | Log | Reply | ErrorFrame

  datatype Frame = Frame(kind: FrameKind, code: nat, payload: Bytes)

  predicate ValidFrame(f: Frame) { f.code < 0x1_0000_0000 && |f.payload| <= MAXIMUM_PAYLOAD }

  function KindByte(k: FrameKind): Byte {
    match k
    case Request => 1
    case Log => 2
    case Reply => 3
    case ErrorFrame => 4
  }

  function KindOf(b: Byte): Option<FrameKind> {
    if b == 1 then Some(Request) else if b == 2 then Some(Log)
    else if b == 3 then Some(Reply) else if b == 4 then Some(ErrorFrame) else None
  }

  /** htonl: four bytes, most significant first. */
  function ToNetwork(n: nat): (b: Bytes)
    requires n < 0x1_0000_0000
    ensures |b| == 4
  {
    [n / 256 / 256 / 256, n / 256 / 256 % 256, n / 256 % 256, n % 256]
  }

  /** ntohl. */
  function FromNetwork(b: Bytes): (n: nat)
    requires |b| == 4
    ensures n < 0x1_0000_0000
  {
    ((b[0] as int * 256 + b[1] as int) * 256 + b[2] as int) * 256 + b[3] as int
  }

  lemma NumberInverts(n: nat)
    requires n < 0x1_0000_0000
    ensures FromNetwork(ToNetwork(n)) == n
  {
  }

  lemma BytesInvert(b: Bytes)
    requires |b| == 4
    ensures ToNetwork(FromNetwork(b)) == b
  {
    var n1 := b[0] as int * 256 + b[1] as int;
    var n2 := n1 * 256 + b[2] as int;
    assert FromNetwork(b) / 256 == n2 && n2 / 256 == n1;
  }

  function Header(f: Frame): (h: Bytes)
    requires ValidFrame(f)
    ensures |h| == 9
  {
    ToNetwork(METADATA_SIZE + |f.payload|) + [KindByte(f.kind)] + ToNetwork(f.code)
  }

  function EncodeFrame(f: Frame): Bytes
    requires ValidFrame(f)
  {
    Header(f) + f.payload
  }

  datatype Decoded = Incomplete | BadSize | BadKind | Whole(frame: Frame, rest: Bytes)

  /** What the first frame of a byte string is. */
  function DecodeFrame(input: Bytes): Decoded {
    if |input| < 4 then Incomplete
    else
      var size := FromNetwork(input[..4]);
      if size < METADATA_SIZE || size > METADATA_SIZE + MAXIMUM_PAYLOAD then BadSize
      else if |input| < 9 then Incomplete
      else if KindOf(input[4]).None? then BadKind
      else if |input| < 4 + size then Incomplete
      else
        Whole(Frame(KindOf(input[4]).value, FromNetwork(input[5..9]), input[9..4 + size]), input[4 + size..])
  }

  /** Every valid frame is decoded from its encoding, and what follows it is left over. */
  lemma DecodeInvertsEncode(f: Frame, rest: Bytes)
    requires ValidFrame(f)
    ensures DecodeFrame(EncodeFrame(f) + rest) == Whole(f, rest)
  {
    var input := EncodeFrame(f) + rest;
    var size := METADATA_SIZE + |f.payload|;
    NumberInverts(size);
    NumberInverts(f.code);
    assert input[..4] == ToNetwork(size);
    assert input[4] == KindByte(f.kind) && input[5..9] == ToNetwork(f.code);
    assert input[9..4 + size] == f.payload && input[4 + size..] == rest;
  }

  /** Everything that is accepted is the encoding of the frame that is returned. */
  lemma EncodeInvertsDecode(input: Bytes)
    requires DecodeFrame(input).Whole?
    ensures var d := DecodeFrame(input);
      ValidFrame(d.frame) && input == EncodeFrame(d.frame) + d.rest
  {
    var d := DecodeFrame(input);
    BytesInvert(input[..4]);
    BytesInvert(input[5..9]);
    assert Header(d.frame) == input[..9];
    assert input == input[..9] + input[9..4 + FromNetwork(input[..4])] + input[4 + FromNetwork(input[..4])..];
  }

  function EncodeAll(frames: seq<Frame>): Bytes
    requires forall i | 0 <= i < |frames| :: ValidFrame(frames[i])
  {
    if frames == [] then [] else EncodeFrame(frames[0]) + EncodeAll(frames[1..])
  }

  function DecodeAll(input: Bytes): (r: (seq<Frame>, Bytes))
    decreases |input|
  {
    var d := DecodeFrame(input);
    if !d.Whole? then ([], input)
    else
      EncodeInvertsDecode(input);
      var (frames, residue) := DecodeAll(d.rest);
      ([d.frame] + frames, residue)
  }

  /** A sequence of frames is received unchanged with no residue. */
  lemma {:induction false} DecodeAllInvertsEncodeAll(frames: seq<Frame>)
    requires forall i | 0 <= i < |frames| :: ValidFrame(frames[i])
    ensures DecodeAll(EncodeAll(frames)) == (frames, [])
  {
    if frames != [] {
      DecodeInvertsEncode(frames[0], EncodeAll(frames[1..]));
      DecodeAllInvertsEncodeAll(frames[1..]);
      assert [frames[0]] + frames[1..] == frames;
    }
  }

  // ----- the stream

  datatype Transfer = Interrupted | Broken | Moved(count: nat)

  /** One direction of a connection: the bytes written and not yet read. */
  class Stream {
    var wire: Bytes
    var patience: nat         // how often a call may still be interrupted by a signal
    const reliable: bool      // whether no call fails but for lack of data

    constructor (reliable: bool, patience: nat)
      ensures wire == [] && this.reliable == reliable
    {
      wire, this.reliable, this.patience := [], reliable, patience;
    }

    /** write(): some of the bytes, at least one. */
    method Write(data: Bytes) returns (t: Transfer)
      requires data != []
      modifies this
      ensures t.Interrupted? ==> wire == old(wire) && patience < old(patience)
      ensures !t.Interrupted? ==> patience == old(patience)
      ensures t.Broken? ==> wire == old(wire) && !reliable
      ensures t.Moved? ==> 0 < t.count <= |data| && wire == old(wire) + data[..t.count]
    {
      var choice: int, count: nat := *, *;
      if choice == 0 && patience > 0 {
        patience := patience - 1;
        return Interrupted;
      }
      if choice == 1 && !reliable {
        return Broken;
      }
      count := if count == 0 || count > |data| then |data| else count;
      wire := wire + data[..count];
      t := Moved(count);
    }

    /** recv(): some of the bytes, or nothing once the connection is drained and closed or timed out. */
    method Recv(limit: nat) returns (t: Transfer, data: Bytes)
      requires limit > 0
      modifies this
      ensures t.Interrupted? ==> wire == old(wire) && data == [] && patience < old(patience)
      ensures !t.Interrupted? ==> patience == old(patience)
      ensures t.Broken? ==> wire == old(wire) && data == [] && (reliable ==> wire == [])
      ensures t.Moved? ==> 0 < t.count == |data| <= limit && old(wire) == data + wire
    {
      var choice: int, count: nat := *, *;
      if choice == 0 && patience > 0 {
        patience := patience - 1;
        return Interrupted, [];
      }
      if wire == [] || (choice == 1 && !reliable) {
        return Broken, [];
      }
      count := if count == 0 || count > |wire| then |wire| else count;
      count := if count > limit then limit else count;
      data := wire[..count];
      wire := wire[count..];
      t := Moved(count);
    }
  }

  /** What a write of `data` may leave on the wire: none of it, all of it, or a part from the front. */
  ghost predicate Partly(before: Bytes, after: Bytes, data: Bytes) { before <= after <= before + data }

  /** A part written after others is a part of the whole. */
  lemma PartOfWhole(before: Bytes, sent: Bytes, after: Bytes, part: Bytes, rest: Bytes)
    requires Partly(before + sent, after, part)
    ensures Partly(before, after, sent + part + rest)
  {
    assert before + (sent + part + rest) == before + sent + part + rest;
  }

  method SendAll(s: Stream, data: Bytes) returns (ok: bool)
    modifies s
    ensures ok ==> s.wire == old(s.wire) + data
    ensures s.reliable ==> ok
    ensures Partly(old(s.wire), s.wire, data)
  {
    var sent := 0;
    while sent < |data|
      invariant sent <= |data| && s.wire == old(s.wire) + data[..sent]
      decreases |data| - sent + s.patience
    {
      var t := s.Write(data[sent..]);
      match t {
        case Moved(count) =>
          assert data[..sent] + data[sent..][..count] == data[..sent + count];
          sent := sent + count;
        case Interrupted =>
        case Broken =>
          return false;
      }
    }
    assert data[..sent] == data;
    ok := true;
  }

  method ReceiveAll(s: Stream, size: nat) returns (ok: bool, data: Bytes)
    modifies s
    ensures old(s.wire) == data + s.wire && |data| <= size
    ensures ok <==> |data| == size
    ensures s.reliable ==> (ok <==> size <= |old(s.wire)|)
  {
    data := [];
    while |data| < size
      invariant |data| <= size && old(s.wire) == data + s.wire
      decreases size - |data| + s.patience
    {
      var t, chunk := s.Recv(size - |data|);
      match t {
        case Moved(_) =>
          data := data + chunk;
        case Interrupted =>
        case Broken =>
          return false, data;
      }
    }
    ok := true;
  }

  function TooLarge(): Result<()> { Failure(Error(InvalidArguments, "IPC payload is too large")) }

  function WriteFailed(): Result<()> { Failure(Error(StateError, "control connection write failed")) }

  /** The four writes of a frame; only a frame within the limit is written at all. */
  method SendIpcFrame(s: Stream, f: Frame) returns (r: Result<()>)
    requires f.code < 0x1_0000_0000
    modifies s
    ensures |f.payload| > MAXIMUM_PAYLOAD ==> r == TooLarge() && s.wire == old(s.wire)
    ensures |f.payload| <= MAXIMUM_PAYLOAD ==>
      && (r == Success(()) || r == WriteFailed()) && Partly(old(s.wire), s.wire, EncodeFrame(f))
    ensures r.Success? ==> s.wire == old(s.wire) + EncodeFrame(f)
    ensures s.reliable && |f.payload| <= MAXIMUM_PAYLOAD ==> r.Success?
  {
    if |f.payload| > MAXIMUM_PAYLOAD {
      return TooLarge();
    }
    var size, kind, code := ToNetwork(METADATA_SIZE + |f.payload|), [KindByte(f.kind)], ToNetwork(f.code);
    ghost var before := s.wire;
    assert before + [] == before;
    var ok := SendAll(s, size);
    PartOfWhole(before, [], s.wire, size, kind + code + f.payload);
    assert [] + size + (kind + code + f.payload) == EncodeFrame(f);
    if !ok {
      return WriteFailed();
    }
    ok := SendAll(s, kind);
    PartOfWhole(before, size, s.wire, kind, code + f.payload);
    assert size + kind + (code + f.payload) == EncodeFrame(f);
    if !ok {
      return WriteFailed();
    }
    r := SendCodeAndPayload(s, before, f);
  }

  method SendCodeAndPayload(s: Stream, ghost before: Bytes, f: Frame) returns (r: Result<()>)
    requires ValidFrame(f) && s.wire == before + ToNetwork(METADATA_SIZE + |f.payload|) + [KindByte(f.kind)]
    modifies s
    ensures (r == Success(()) || r == WriteFailed()) && Partly(before, s.wire, EncodeFrame(f))
    ensures r.Success? ==> s.wire == before + EncodeFrame(f)
    ensures s.reliable ==> r.Success?
  {
    ghost var sent := ToNetwork(METADATA_SIZE + |f.payload|) + [KindByte(f.kind)];
    assert s.wire == before + sent;
    var ok := SendAll(s, ToNetwork(f.code));
    PartOfWhole(before, sent, s.wire, ToNetwork(f.code), f.payload);
    if !ok {
      return WriteFailed();
    }
    assert s.wire == before + Header(f);
    if f.payload == [] {
      assert EncodeFrame(f) == Header(f);
      return Success(());
    }
    ok := SendAll(s, f.payload);
    PartOfWhole(before, Header(f), s.wire, f.payload, []);
    assert Header(f) + f.payload + [] == EncodeFrame(f);
    r := if ok then Success(()) else WriteFailed();
  }

  function ReadFailed<T>(): Result<T> { Failure(Error(StateError, "control connection read failed")) }

  function Malformed<T>(message: string): Result<T> { Failure(Error(InvalidArguments, message)) }

  /** What receiveIpcFrame makes of the bytes on a reliable stream. */
  function Received(input: Bytes): Result<Frame> {
    match DecodeFrame(input)
    case Incomplete => ReadFailed()
    case BadSize => Malformed("invalid IPC frame size")
    case BadKind => Malformed("invalid IPC frame type")
    case Whole(frame, _) => Success(frame)
  }

  method ReceiveIpcFrame(s: Stream) returns (r: Result<Frame>)
    modifies s
    ensures r.Success? ==> ValidFrame(r.value) && old(s.wire) == EncodeFrame(r.value) + s.wire
    ensures r == Received(old(s.wire)) || (r == ReadFailed() && !s.reliable)
    ensures r.Success? ==> DecodeFrame(old(s.wire)) == Whole(r.value, s.wire)
  {
    ghost var input := s.wire;
    var ok, sizeBytes := ReceiveAll(s, 4);
    if !ok {
      return ReadFailed();
    }
    assert input[..4] == sizeBytes;
    var size := FromNetwork(sizeBytes);
    if size < METADATA_SIZE || size > METADATA_SIZE + MAXIMUM_PAYLOAD {
      return Malformed("invalid IPC frame size");
    }
    r := ReceiveBody(s, input, sizeBytes);
  }

  method ReceiveBody(s: Stream, ghost input: Bytes, sizeBytes: Bytes) returns (r: Result<Frame>)
    requires |sizeBytes| == 4 && input == sizeBytes + s.wire
    requires METADATA_SIZE <= FromNetwork(sizeBytes) <= METADATA_SIZE + MAXIMUM_PAYLOAD
    modifies s
    ensures r.Success? ==> DecodeFrame(input) == Whole(r.value, s.wire)
    ensures r.Success? ==> ValidFrame(r.value) && input == EncodeFrame(r.value) + s.wire
    ensures r == Received(input) || (r == ReadFailed() && !s.reliable)
  {
    var ok, kindBytes := ReceiveAll(s, 1);
    if !ok {
      return ReadFailed();
    }
    var codeBytes;
    ok, codeBytes := ReceiveAll(s, 4);
    if !ok {
      return ReadFailed();
    }
    assert input[..4] == sizeBytes && input[4] == kindBytes[0] && input[5..9] == codeBytes;
    var kind := KindOf(kindBytes[0]);
    if kind.None? {
      return Malformed("invalid IPC frame type");
    }
    var payload;
    ok, payload := ReceiveAll(s, FromNetwork(sizeBytes) - METADATA_SIZE);
    if !ok {
      return ReadFailed();
    }
    assert input[9..4 + FromNetwork(sizeBytes)] == payload && input[4 + FromNetwork(sizeBytes)..] == s.wire;
    r := Success(Frame(kind.value, FromNetwork(codeBytes), payload));
    EncodeInvertsDecode(input);
  }

  /** Frames sent one after the other over a reliable stream are received unchanged and leave nothing behind. */
  method SendThenReceive(s: Stream, frames: seq<Frame>) returns (received: seq<Frame>)
    requires s.reliable && s.wire == []
    requires forall i | 0 <= i < |frames| :: ValidFrame(frames[i])
    modifies s
    ensures received == frames && s.wire == []
  {
    SendFrames(s, frames);
    received := ReceiveFrames(s, |frames|, frames);
  }

  method SendFrames(s: Stream, frames: seq<Frame>)
    requires s.reliable && forall i | 0 <= i < |frames| :: ValidFrame(frames[i])
    modifies s
    ensures s.wire == old(s.wire) + EncodeAll(frames)
  {
    assert frames[0..] == frames;
    for i := 0 to |frames|
      invariant s.wire + EncodeAll(frames[i..]) == old(s.wire) + EncodeAll(frames)
    {
      assert frames[i..][1..] == frames[i + 1..];
      assert s.wire + (EncodeFrame(frames[i]) + EncodeAll(frames[i + 1..])) ==
             (s.wire + EncodeFrame(frames[i])) + EncodeAll(frames[i + 1..]);
      var _ := SendIpcFrame(s, frames[i]);
    }
  }

  method ReceiveFrames(s: Stream, count: nat, ghost frames: seq<Frame>) returns (received: seq<Frame>)
    requires s.reliable && count == |frames| && forall i | 0 <= i < |frames| :: ValidFrame(frames[i])
    requires s.wire == EncodeAll(frames)
    modifies s
    ensures received == frames && s.wire == []
  {
    received := [];
    for i := 0 to count
      invariant received == frames[..i] && s.wire == EncodeAll(frames[i..])
    {
      assert frames[i..][1..] == frames[i + 1..];
      DecodeInvertsEncode(frames[i], EncodeAll(frames[i + 1..]));
      var r := ReceiveIpcFrame(s);
      if r.Success? {
        received := received + [r.value];
      }
    }
  }
}
