/** One command over the control socket: the worker that serves it and the client that waits for it. */
module Session {
  import opened Common
  import opened Text
  import opened Ipc

  datatype LogLevel = Info | Warning | Progress

  datatype LogCall = LogCall(level: LogLevel, message: Bytes)

  /** The outcome of a command: its text, or an error. */
  datatype Answer = Answered(text: Bytes) | Rejected(code: ErrorCode, message: Bytes)

  /** What CommandController::execute does with a command: the messages it logs, then its outcome. */
  type Controller = (Command, Bytes) -> (seq<LogCall>, Answer)

  function LevelCode(l: LogLevel): nat {
    match l
    case Info => 0
    case Warning => 1
    case Progress => 2
  }

  function CodeNumber(c: ErrorCode): nat {
    match c
    case Generic => 1
    case InvalidArguments => 2
    case InsufficientPrivileges => 3
    case InvalidConfiguration => 4
    case UpstreamUnreachable => 5
    case CoreVerificationFailure => 6
    case CoreDownloadFailure => 7
    case CoreStartFailure => 8
    case StateError => 9
  }

  function CodeOf(n: nat): Option<ErrorCode> {
    if n == 1 then Some(Generic) else if n == 2 then Some(InvalidArguments)
    else if n == 3 then Some(InsufficientPrivileges) else if n == 4 then Some(InvalidConfiguration)
    else if n == 5 then Some(UpstreamUnreachable) else if n == 6 then Some(CoreVerificationFailure)
    else if n == 7 then Some(CoreDownloadFailure) else if n == 8 then Some(CoreStartFailure)
    else if n == 9 then Some(StateError) else None
  }

  predicate IsMutating(c: Command) { c == On || c == Off || c == SetSetting }

  function CommandName(c: Command): string {
    match c
    case On => "on"
    case Off => "off"
    case Status => "status"
    case GetSetting => "setting query"
    case SetSetting => "setting update"
    case Bypass => "bypass query"
  }

  function ToBytes(s: string): (b: Bytes)
    ensures |b| == |s|
  {
    seq(|s|, i requires 0 <= i < |s| => s[i] as int % 256)
  }

  // ----- the frames a worker sends

  /** A message in pieces of at most 64 KiB; an empty message has none. */
  function Chunks(message: Bytes): (chunks: seq<Bytes>)
    ensures forall i | 0 <= i < |chunks| :: 0 < |chunks[i]| <= MAXIMUM_PAYLOAD
    decreases |message|
  {
    if message == [] then []
    else if |message| <= MAXIMUM_PAYLOAD then [message]
    else [message[..MAXIMUM_PAYLOAD]] + Chunks(message[MAXIMUM_PAYLOAD..])
  }

  function Concat(parts: seq<Bytes>): Bytes {
    if parts == [] then [] else parts[0] + Concat(parts[1..])
  }

  /** The chunks of a message concatenate back to it. */
  lemma {:induction false} ChunksConcatenate(message: Bytes)
    ensures Concat(Chunks(message)) == message
    decreases |message|
  {
    if |message| > MAXIMUM_PAYLOAD {
      ChunksConcatenate(message[MAXIMUM_PAYLOAD..]);
      assert Chunks(message)[1..] == Chunks(message[MAXIMUM_PAYLOAD..]);
    } else if message != [] {
      assert Concat([message]) == message + Concat([]);
    }
  }

  type Frames = seq<Frame>

  predicate AllValid(frames: Frames) { forall i | 0 <= i < |frames| :: ValidFrame(frames[i]) }

  function ChunkFrames(level: LogLevel, chunks: seq<Bytes>): (frames: Frames)
    requires forall i | 0 <= i < |chunks| :: |chunks[i]| <= MAXIMUM_PAYLOAD
    ensures AllValid(frames) && |frames| == |chunks|
  {
    if chunks == [] then [] else [Frame(Log, LevelCode(level), chunks[0])] + ChunkFrames(level, chunks[1..])
  }

  function Payloads(frames: Frames): Bytes {
    if frames == [] then [] else frames[0].payload + Payloads(frames[1..])
  }

  lemma {:induction false} ChunkPayloads(level: LogLevel, chunks: seq<Bytes>)
    requires forall i | 0 <= i < |chunks| :: |chunks[i]| <= MAXIMUM_PAYLOAD
    ensures Payloads(ChunkFrames(level, chunks)) == Concat(chunks)
  {
    if chunks != [] {
      ChunkPayloads(level, chunks[1..]);
      assert ChunkFrames(level, chunks)[1..] == ChunkFrames(level, chunks[1..]);
    }
  }

  /** The payloads of a message's log frames concatenate back to it. */
  lemma MessageIsCarried(call: LogCall)
    ensures Payloads(MessageFrames(call)) == call.message
  {
    ChunkPayloads(call.level, Chunks(call.message));
    ChunksConcatenate(call.message);
  }

  function MessageFrames(call: LogCall): (frames: Frames)
    ensures AllValid(frames)
  {
    ChunkFrames(call.level, Chunks(call.message))
  }

  function LogFrames(logs: seq<LogCall>): (frames: Frames)
    ensures AllValid(frames)
  {
    if logs == [] then [] else MessageFrames(logs[0]) + LogFrames(logs[1..])
  }

  function Cut(message: Bytes): (cut: Bytes)
    ensures |cut| <= MAXIMUM_PAYLOAD
  {
    if |message| <= MAXIMUM_PAYLOAD then message else message[..MAXIMUM_PAYLOAD]
  }

  function ErrorReply(code: ErrorCode, message: Bytes): (f: Frame)
    ensures ValidFrame(f)
  {
    Frame(ErrorFrame, CodeNumber(code), Cut(message))
  }

  /** The terminal frame; a result over the limit is refused by the sender and none is sent. */
  function TerminalFrames(answer: Answer): (frames: Frames)
    ensures AllValid(frames) && |frames| <= 1
  {
    match answer
    case Answered(text) => if |text| <= MAXIMUM_PAYLOAD then [Frame(Reply, 0, text)] else []
    case Rejected(code, message) => [ErrorReply(code, message)]
  }

  /** Log frames, then one terminal frame. */
  function SessionFrames(logs: seq<LogCall>, answer: Answer): (frames: Frames)
    ensures AllValid(frames)
  {
    LogFrames(logs) + TerminalFrames(answer)
  }

  function BusyMessage(active: Bytes): Bytes {
    ToBytes("another operation is in progress") + if active == [] then [] else ToBytes(": ") + active
  }

  function Refusal(code: ErrorCode, message: Bytes): Frames { [ErrorReply(code, message)] }

  predicate IsCommand(f: Frame) { f.kind == Request && DecodeCommand(f.code).Some? }

  /** What the worker answers to what it received, with the operation mutex taken elsewhere or not. */
  function Response(received: Result<Frame>, taken: bool, active: Bytes, controller: Controller): (frames: Frames)
    ensures AllValid(frames)
  {
    match received
    case Failure(e) => Refusal(e.code, ToBytes(e.message))
    case Success(f) =>
      if !IsCommand(f) then Refusal(InvalidArguments, ToBytes("unsupported IPC protocol or command"))
      else
        var command := DecodeCommand(f.code).value;
        if IsMutating(command) && taken then Refusal(StateError, BusyMessage(active))
        else
          var (logs, answer) := controller(command, f.payload);
          SessionFrames(logs, answer)
  }

  lemma EncodeFirst(f: Frame, rest: Frames)
    requires ValidFrame(f) && AllValid(rest)
    ensures AllValid([f] + rest) && EncodeAll([f] + rest) == EncodeFrame(f) + EncodeAll(rest)
  {
    assert ([f] + rest)[1..] == rest;
  }

  lemma {:induction false} EncodeAllAppend(a: Frames, b: Frames)
    requires AllValid(a) && AllValid(b)
    ensures AllValid(a + b) && EncodeAll(a + b) == EncodeAll(a) + EncodeAll(b)
  {
    if a == [] {
      assert a + b == b;
    } else {
      EncodeAllAppend(a[1..], b);
      EncodeFirst(a[0], a[1..] + b);
      assert a + b == [a[0]] + (a[1..] + b);
      ConcatAssociates(EncodeFrame(a[0]), EncodeAll(a[1..]), EncodeAll(b));
    }
  }

  lemma EncodeOne(f: Frame)
    requires ValidFrame(f)
    ensures EncodeAll([f]) == EncodeFrame(f)
  {
    assert [f][1..] == [];
  }

  // ----- the worker

  /** What a worker does to run a command. */
  datatype Deed = TookMutex | Ran(command: Command, argument: Bytes) | GaveMutexBack

  class DaemonState {
    var operationTaken: bool
    var activeName: Bytes
    var deeds: seq<Deed>      // all so far

    constructor ()
      ensures !operationTaken && activeName == [] && deeds == []
    {
      operationTaken, activeName, deeds := false, [], [];
    }
  }

  /** A mutating command runs between taking and giving back the mutex, any other without it. */
  function Deeds(command: Command, argument: Bytes): seq<Deed> {
    if IsMutating(command) then [TookMutex, Ran(command, argument), GaveMutexBack] else [Ran(command, argument)]
  }

  /** What the worker does about what it received. */
  function DeedsFor(received: Result<Frame>, taken: bool): seq<Deed> {
    match received
    case Failure(_) => []
    case Success(f) =>
      if !IsCommand(f) then []
      else
        var command := DecodeCommand(f.code).value;
        if IsMutating(command) && taken then [] else Deeds(command, f.payload)
  }

  method SendError(s: Stream, code: ErrorCode, message: Bytes)
    modifies s
    ensures Partly(old(s.wire), s.wire, EncodeAll(Refusal(code, message)))
    ensures s.reliable ==> s.wire == old(s.wire) + EncodeAll(Refusal(code, message))
  {
    EncodeOne(ErrorReply(code, message));
    var _ := SendIpcFrame(s, ErrorReply(code, message));
  }

  /** The frames of a message from `offset` on. */
  function RestFrames(call: LogCall, offset: nat): (frames: Frames)
    ensures AllValid(frames)
  {
    if offset < |call.message| then ChunkFrames(call.level, Chunks(call.message[offset..])) else []
  }

  function FrameAt(call: LogCall, offset: nat): (f: Frame)
    requires offset < |call.message|
    ensures ValidFrame(f)
  {
    var left := |call.message| - offset;
    var count := if left < MAXIMUM_PAYLOAD then left else MAXIMUM_PAYLOAD;
    Frame(Log, LevelCode(call.level), call.message[offset..offset + count])
  }

  lemma NextFrame(call: LogCall, offset: nat)
    requires offset < |call.message|
    ensures EncodeAll(RestFrames(call, offset)) ==
      EncodeFrame(FrameAt(call, offset)) + EncodeAll(RestFrames(call, offset + MAXIMUM_PAYLOAD))
  {
    var rest := call.message[offset..];
    if |rest| <= MAXIMUM_PAYLOAD {
      assert rest == FrameAt(call, offset).payload;
      assert Chunks(rest) == [rest];
    } else {
      assert rest[..MAXIMUM_PAYLOAD] == FrameAt(call, offset).payload;
      assert rest[MAXIMUM_PAYLOAD..] == call.message[offset + MAXIMUM_PAYLOAD..];
      assert Chunks(rest)[1..] == Chunks(rest[MAXIMUM_PAYLOAD..]);
    }
    OneFrameFirst(call.level, Chunks(rest));
  }

  lemma OneFrameFirst(level: LogLevel, chunks: seq<Bytes>)
    requires chunks != [] && forall i | 0 <= i < |chunks| :: |chunks[i]| <= MAXIMUM_PAYLOAD
    ensures EncodeAll(ChunkFrames(level, chunks)) ==
      EncodeFrame(Frame(Log, LevelCode(level), chunks[0])) + EncodeAll(ChunkFrames(level, chunks[1..]))
  {
    assert ChunkFrames(level, chunks)[1..] == ChunkFrames(level, chunks[1..]);
  }

  /** Once all before it went out, what is sent of a part comes right behind it. */
  lemma PartComesNext(start: Bytes, before: Bytes, after: Bytes, part: Bytes, rest: Bytes, all: Bytes)
    requires start <= before && before + (part + rest) == start + all && Partly(before, after, part)
    ensures Partly(start, after, all)
    ensures after == before + part ==> after + rest == start + all
  {
    assert before + (part + rest) == before + part + rest;
  }

  /**
   The log callback: the active operation is renamed, then the message goes out in chunks; after a failed
   write it does nothing any more.
   */
  method SendLog(s: Stream, daemon: DaemonState, command: Command, call: LogCall, connected: bool)
    returns (still: bool)
    modifies s, daemon`activeName
    ensures !connected ==> !still && s.wire == old(s.wire) && daemon.activeName == old(daemon.activeName)
    ensures Partly(old(s.wire), s.wire, EncodeAll(MessageFrames(call)))
    ensures still ==> s.wire == old(s.wire) + EncodeAll(MessageFrames(call))
    ensures connected && s.reliable ==> still
    ensures !IsMutating(command) ==> daemon.activeName == old(daemon.activeName)
  {
    still := connected;
    if !still {
      return;
    }
    if IsMutating(command) && call.level != Progress {
      daemon.activeName := ToBytes(CommandName(command) + ": ") + call.message;
    }
    assert call.message[0..] == call.message;
    still := SendChunks(s, call);
  }

  method SendChunks(s: Stream, call: LogCall) returns (still: bool)
    modifies s
    ensures Partly(old(s.wire), s.wire, EncodeAll(RestFrames(call, 0)))
    ensures still ==> s.wire == old(s.wire) + EncodeAll(RestFrames(call, 0))
    ensures s.reliable ==> still
  {
    still := true;
    var offset := 0;
    ghost var all := EncodeAll(RestFrames(call, 0));
    while offset < |call.message| && still
      invariant Partly(old(s.wire), s.wire, all)
      invariant still ==> s.wire + EncodeAll(RestFrames(call, offset)) == old(s.wire) + all
      invariant s.reliable ==> still
      decreases |call.message| - offset
    {
      ghost var before := s.wire;
      NextFrame(call, offset);
      var sent := SendIpcFrame(s, FrameAt(call, offset));
      still := sent.Success?;
      PartComesNext(old(s.wire), before, s.wire, EncodeFrame(FrameAt(call, offset)),
                    EncodeAll(RestFrames(call, offset + MAXIMUM_PAYLOAD)), all);
      offset := offset + MAXIMUM_PAYLOAD;
    }
  }

  lemma NextMessage(logs: seq<LogCall>, i: nat)
    requires i < |logs|
    ensures EncodeAll(LogFrames(logs[i..])) == EncodeAll(MessageFrames(logs[i])) + EncodeAll(LogFrames(logs[i + 1..]))
  {
    assert logs[i..][1..] == logs[i + 1..];
    EncodeAllAppend(MessageFrames(logs[i]), LogFrames(logs[i + 1..]));
  }

  /** The logs of a command, as long as the client is there. */
  method SendLogs(s: Stream, daemon: DaemonState, command: Command, logs: seq<LogCall>) returns (connected: bool)
    modifies s, daemon`activeName
    ensures Partly(old(s.wire), s.wire, EncodeAll(LogFrames(logs)))
    ensures connected ==> s.wire == old(s.wire) + EncodeAll(LogFrames(logs))
    ensures s.reliable ==> connected
    ensures !IsMutating(command) ==> daemon.activeName == old(daemon.activeName)
  {
    ghost var all := EncodeAll(LogFrames(logs));
    connected := true;
    assert logs[0..] == logs;
    for i := 0 to |logs|
      invariant Partly(old(s.wire), s.wire, all)
      invariant connected ==> s.wire + EncodeAll(LogFrames(logs[i..])) == old(s.wire) + all
      invariant s.reliable ==> connected
      invariant !IsMutating(command) ==> daemon.activeName == old(daemon.activeName)
    {
      ghost var before, was := s.wire, connected;
      NextMessage(logs, i);
      connected := SendLog(s, daemon, command, logs[i], connected);
      if was {
        PartComesNext(old(s.wire), before, s.wire, EncodeAll(MessageFrames(logs[i])),
                      EncodeAll(LogFrames(logs[i + 1..])), all);
      }
    }
  }

  /**
   The part of the worker that runs the command; a mutating one holds the operation mutex meanwhile.
   A client that goes away stops the frames, not the command.
   */
  method RunCommand(output: Stream, daemon: DaemonState, command: Command, argument: Bytes, controller: Controller)
    requires IsMutating(command) ==> !daemon.operationTaken
    modifies output, daemon
    ensures var (logs, answer) := controller(command, argument);
      && Partly(old(output.wire), output.wire, EncodeAll(SessionFrames(logs, answer)))
      && (output.reliable ==> output.wire == old(output.wire) + EncodeAll(SessionFrames(logs, answer)))
    ensures daemon.operationTaken == old(daemon.operationTaken)
    ensures daemon.activeName == if IsMutating(command) then [] else old(daemon.activeName)
    ensures daemon.deeds == old(daemon.deeds) + Deeds(command, argument)
  {
    var taken := daemon.operationTaken;
    if IsMutating(command) {
      daemon.operationTaken := true;
      daemon.deeds := daemon.deeds + [TookMutex];
      daemon.activeName := ToBytes(CommandName(command));
    }
    daemon.deeds := daemon.deeds + [Ran(command, argument)];
    var (logs, answer) := controller(command, argument);
    TellClient(output, daemon, command, logs, answer);
    if IsMutating(command) {
      daemon.operationTaken := taken;
      daemon.deeds := daemon.deeds + [GaveMutexBack];
    }
  }

  /** The logs, the end of the name, and the answer. */
  method TellClient(output: Stream, daemon: DaemonState, command: Command, logs: seq<LogCall>, answer: Answer)
    modifies output, daemon`activeName
    ensures Partly(old(output.wire), output.wire, EncodeAll(SessionFrames(logs, answer)))
    ensures output.reliable ==> output.wire == old(output.wire) + EncodeAll(SessionFrames(logs, answer))
    ensures daemon.activeName == if IsMutating(command) then [] else old(daemon.activeName)
  {
    var connected := SendLogs(output, daemon, command, logs);
    if IsMutating(command) {
      daemon.activeName := [];
    }
    ghost var before := output.wire;
    if connected {
      SendAnswer(output, answer);
    }
    SessionParts(old(output.wire), before, output.wire, logs, answer);
  }

  lemma SessionParts(start: Bytes, middle: Bytes, after: Bytes, logs: seq<LogCall>, answer: Answer)
    requires Partly(start, middle, EncodeAll(LogFrames(logs)))
    requires after == middle ||
      (middle == start + EncodeAll(LogFrames(logs)) && Partly(middle, after, EncodeAll(TerminalFrames(answer))))
    ensures Partly(start, after, EncodeAll(SessionFrames(logs, answer)))
    ensures middle == start + EncodeAll(LogFrames(logs)) && after == middle + EncodeAll(TerminalFrames(answer)) ==>
      after == start + EncodeAll(SessionFrames(logs, answer))
  {
    EncodeAllAppend(LogFrames(logs), TerminalFrames(answer));
    ConcatAssociates(start, EncodeAll(LogFrames(logs)), EncodeAll(TerminalFrames(answer)));
  }

  /** A whole answer or, to a client that goes away, a part of it. */
  ghost predicate Served(before: Bytes, after: Bytes, frames: Frames, whole: bool)
    requires AllValid(frames)
  {
    Partly(before, after, EncodeAll(frames)) && (whole ==> after == before + EncodeAll(frames))
  }

  method ServeClient(input: Stream, output: Stream, daemon: DaemonState, controller: Controller)
    requires input != output
    modifies input, output, daemon
    ensures exists received | received == Received(old(input.wire)) || (received == ReadFailed() && !input.reliable) ::
      && Served(old(output.wire), output.wire,
           Response(received, old(daemon.operationTaken), old(daemon.activeName), controller), output.reliable)
      && daemon.deeds == old(daemon.deeds) + DeedsFor(received, old(daemon.operationTaken))
    ensures daemon.operationTaken == old(daemon.operationTaken)
    ensures daemon.activeName == old(daemon.activeName) || (!daemon.operationTaken && daemon.activeName == [])
  {
    var request := ReceiveIpcFrame(input);
    Respond(request, output, daemon, controller);
  }

  method Respond(request: Result<Frame>, output: Stream, daemon: DaemonState, controller: Controller)
    modifies output, daemon
    ensures Served(old(output.wire), output.wire,
      Response(request, old(daemon.operationTaken), old(daemon.activeName), controller), output.reliable)
    ensures daemon.deeds == old(daemon.deeds) + DeedsFor(request, old(daemon.operationTaken))
    ensures daemon.operationTaken == old(daemon.operationTaken)
    ensures daemon.activeName == old(daemon.activeName) || (!daemon.operationTaken && daemon.activeName == [])
  {
    if request.Failure? {
      SendError(output, request.error.code, ToBytes(request.error.message));
      return;
    }
    if !IsCommand(request.value) {
      SendError(output, InvalidArguments, ToBytes("unsupported IPC protocol or command"));
      return;
    }
    var command := DecodeCommand(request.value.code).value;
    if IsMutating(command) && daemon.operationTaken {
      SendError(output, StateError, BusyMessage(daemon.activeName));
      return;
    }
    RunCommand(output, daemon, command, request.value.payload, controller);
  }

  method SendAnswer(s: Stream, answer: Answer)
    modifies s
    ensures Partly(old(s.wire), s.wire, EncodeAll(TerminalFrames(answer)))
    ensures s.reliable ==> s.wire == old(s.wire) + EncodeAll(TerminalFrames(answer))
  {
    match answer {
      case Rejected(code, message) =>
        SendError(s, code, message);
      case Answered(text) =>
        var _ := SendIpcFrame(s, Frame(Reply, 0, text));
        if |text| <= MAXIMUM_PAYLOAD {
          EncodeOne(Frame(Reply, 0, text));
        }
    }
  }

  // ----- the client

  function Unreadable(): Answer { Rejected(StateError, ToBytes("control connection read failed")) }

  /** What the client makes of the frames it receives, one after the other. */
  function ClientResult(frames: Frames): Answer {
    if frames == [] then Unreadable()
    else if frames[0].kind == Log then
      if frames[0].code > LevelCode(Progress) then
        Rejected(StateError, ToBytes("tunproxyd returned an invalid log level"))
      else ClientResult(frames[1..])
    else if frames[0].kind == Reply then Answered(frames[0].payload)
    else if frames[0].kind == ErrorFrame && CodeOf(frames[0].code).Some? then
      Rejected(CodeOf(frames[0].code).value, frames[0].payload)
    else Rejected(StateError, ToBytes("tunproxyd returned an invalid response"))
  }

  /** printLog: progress as it is, anything else as a line, a warning with its prefix. */
  function PrintLog(level: LogLevel, message: Bytes): Bytes {
    match level
    case Progress => message
    case Warning => ToBytes("warning: ") + message + [NEWLINE]
    case Info => message + [NEWLINE]
  }

  const NEWLINE: Byte := 10

  function LevelOf(code: nat): LogLevel
    requires code <= LevelCode(Progress)
  {
    if code == 0 then Info else if code == 1 then Warning else Progress
  }

  /** What the client prints of the frames it receives. */
  function Printed(frames: Frames): Bytes {
    if frames == [] || frames[0].kind != Log || frames[0].code > LevelCode(Progress) then []
    else PrintLog(LevelOf(frames[0].code), frames[0].payload) + Printed(frames[1..])
  }

  /** What is received of a part of some frames is the first of them, and the rest is a part of the others. */
  lemma FirstOfPart(frames: Frames, first: Frame, rest: Bytes)
    requires AllValid(frames) && ValidFrame(first) && EncodeFrame(first) + rest <= EncodeAll(frames)
    ensures frames != [] && frames[0] == first && rest <= EncodeAll(frames[1..])
  {
    var input := EncodeAll(frames);
    var tail := input[|EncodeFrame(first) + rest|..];
    assert input == EncodeFrame(first) + rest + tail;
    ConcatAssociates(EncodeFrame(first), rest, tail);
    DecodeInvertsEncode(first, rest + tail);
    if frames != [] {
      DecodeInvertsEncode(frames[0], EncodeAll(frames[1..]));
    }
  }

  /** A part of some frames is never taken for a malformed frame. */
  lemma PartIsNotMalformed(frames: Frames, part: Bytes)
    requires AllValid(frames) && part <= EncodeAll(frames)
    ensures Received(part).Success? || Received(part) == ReadFailed()
  {
    if frames != [] && |part| >= 4 {
      var size := METADATA_SIZE + |frames[0].payload|;
      NumberInverts(size);
      assert part[..4] == EncodeAll(frames)[..4] == ToNetwork(size);
      if |part| >= 9 {
        assert part[4] == EncodeAll(frames)[4] == KindByte(frames[0].kind);
      }
    }
  }

  /** The client's result is that of all the frames, or a read error after some of the logs. */
  predicate ToldOrCut(answer: Answer, printed: Bytes, frames: Frames) {
    (answer == ClientResult(frames) && printed == Printed(frames)) || (answer == Unreadable() && printed <= Printed(frames))
  }

  /** The receive loop of executeRemote: it ends with the first terminal frame, or with the stream. */
  method AwaitAnswer(s: Stream, ghost frames: Frames) returns (answer: Answer, printed: Bytes)
    requires AllValid(frames) && s.wire <= EncodeAll(frames)
    modifies s
    ensures ToldOrCut(answer, printed, frames)
    ensures s.reliable && old(s.wire) == EncodeAll(frames) ==>
      answer == ClientResult(frames) && printed == Printed(frames)
  {
    printed := [];
    ghost var left := frames;
    while true
      invariant AllValid(left) && s.wire <= EncodeAll(left)
      invariant s.reliable && old(s.wire) == EncodeAll(frames) ==> s.wire == EncodeAll(left)
      invariant ClientResult(left) == ClientResult(frames) && printed + Printed(left) == Printed(frames)
      decreases |left|
    {
      PartIsNotMalformed(left, s.wire);
      if left != [] {
        DecodeInvertsEncode(left[0], EncodeAll(left[1..]));
      }
      var r := ReceiveIpcFrame(s);
      if r.Failure? {
        return Rejected(r.error.code, ToBytes(r.error.message)), printed;
      }
      var frame := r.value;
      FirstOfPart(left, frame, s.wire);
      if frame.kind == Log {
        if frame.code > LevelCode(Progress) {
          return Rejected(StateError, ToBytes("tunproxyd returned an invalid log level")), printed;
        }
        var line := PrintLog(LevelOf(frame.code), frame.payload);
        ConcatAssociates(printed, line, Printed(left[1..]));
        printed := printed + line;
        left := left[1..];
        continue;
      }
      if frame.kind == Reply {
        return Answered(frame.payload), printed;
      }
      if frame.kind == ErrorFrame && CodeOf(frame.code).Some? {
        return Rejected(CodeOf(frame.code).value, frame.payload), printed;
      }
      return Rejected(StateError, ToBytes("tunproxyd returned an invalid response")), printed;
    }
  }

  // ----- remote execution refines direct execution

  /** What is left of a direct outcome when it comes over the socket. */
  function OverTheWire(answer: Answer): Answer {
    match answer
    case Answered(text) => if |text| <= MAXIMUM_PAYLOAD then answer else Unreadable()
    case Rejected(code, message) => Rejected(code, Cut(message))
  }

  lemma ClientSkipsOne(level: LogLevel, chunk: Bytes, rest: Frames)
    ensures ClientResult([Frame(Log, LevelCode(level), chunk)] + rest) == ClientResult(rest)
    ensures Printed([Frame(Log, LevelCode(level), chunk)] + rest) == PrintLog(level, chunk) + Printed(rest)
  {
    assert ([Frame(Log, LevelCode(level), chunk)] + rest)[1..] == rest;
  }

  /** The pieces of a message as they are printed, one by one. */
  function PrintPieces(level: LogLevel, chunks: seq<Bytes>): Bytes {
    if chunks == [] then [] else PrintLog(level, chunks[0]) + PrintPieces(level, chunks[1..])
  }

  lemma {:induction false} ClientSkipsChunks(level: LogLevel, chunks: seq<Bytes>, rest: Frames)
    requires forall i | 0 <= i < |chunks| :: |chunks[i]| <= MAXIMUM_PAYLOAD
    ensures ClientResult(ChunkFrames(level, chunks) + rest) == ClientResult(rest)
    ensures Printed(ChunkFrames(level, chunks) + rest) == PrintPieces(level, chunks) + Printed(rest)
  {
    if chunks == [] {
      assert ChunkFrames(level, chunks) + rest == rest;
    } else {
      var more := ChunkFrames(level, chunks[1..]) + rest;
      ClientSkipsChunks(level, chunks[1..], rest);
      ConcatAssociates([Frame(Log, LevelCode(level), chunks[0])], ChunkFrames(level, chunks[1..]), rest);
      ClientSkipsOne(level, chunks[0], more);
      ConcatAssociates(PrintLog(level, chunks[0]), PrintPieces(level, chunks[1..]), Printed(rest));
    }
  }

  /** What the client prints of a message, and of all messages of a command. */
  function RemotePrint(call: LogCall): Bytes { PrintPieces(call.level, Chunks(call.message)) }

  function RemoteOutput(logs: seq<LogCall>): Bytes {
    if logs == [] then [] else RemotePrint(logs[0]) + RemoteOutput(logs[1..])
  }

  /** The same when the command runs in the client's own process. */
  function DirectOutput(logs: seq<LogCall>): Bytes {
    if logs == [] then [] else PrintLog(logs[0].level, logs[0].message) + DirectOutput(logs[1..])
  }

  lemma {:induction false} ClientSkipsLogs(logs: seq<LogCall>, rest: Frames)
    ensures ClientResult(LogFrames(logs) + rest) == ClientResult(rest)
    ensures Printed(LogFrames(logs) + rest) == RemoteOutput(logs) + Printed(rest)
  {
    if logs == [] {
      assert LogFrames(logs) + rest == rest;
    } else {
      ClientSkipsLogs(logs[1..], rest);
      ClientSkipsChunks(logs[0].level, Chunks(logs[0].message), LogFrames(logs[1..]) + rest);
      ConcatAssociates(MessageFrames(logs[0]), LogFrames(logs[1..]), rest);
      ConcatAssociates(RemotePrint(logs[0]), RemoteOutput(logs[1..]), Printed(rest));
    }
  }

  /** A whole session tells the client the controller's outcome, and prints every message in order. */
  lemma SessionTellsTheOutcome(logs: seq<LogCall>, answer: Answer)
    ensures ClientResult(SessionFrames(logs, answer)) == OverTheWire(answer)
    ensures Printed(SessionFrames(logs, answer)) == RemoteOutput(logs)
  {
    ClientSkipsLogs(logs, TerminalFrames(answer));
    TerminalFrameTells(answer);
  }

  lemma TerminalFrameTells(answer: Answer)
    ensures ClientResult(TerminalFrames(answer)) == OverTheWire(answer) && Printed(TerminalFrames(answer)) == []
  {
    match answer {
      case Answered(text) =>
      case Rejected(code, message) => CodesInvert(code);
    }
  }

  // ----- what is printed remotely and directly

  /** How many bytes printLog adds to a message. */
  function Extra(level: LogLevel): nat { if level.Progress? then 0 else if level.Warning? then 10 else 1 }

  lemma {:induction false} PiecesLength(level: LogLevel, chunks: seq<Bytes>)
    ensures |PrintPieces(level, chunks)| == |Concat(chunks)| + |chunks| * Extra(level)
  {
    if chunks != [] {
      PiecesLength(level, chunks[1..]);
      assert |PrintLog(level, chunks[0])| == |chunks[0]| + Extra(level);
      assert |chunks| * Extra(level) == Extra(level) + |chunks[1..]| * Extra(level);
    }
  }

  lemma {:induction false} ProgressPieces(chunks: seq<Bytes>)
    ensures PrintPieces(Progress, chunks) == Concat(chunks)
  {
    if chunks != [] {
      ProgressPieces(chunks[1..]);
    }
  }

  /** A message prints the same both ways exactly when it is progress, or is not empty and fits one frame. */
  lemma PrintsTheSameIff(call: LogCall)
    ensures RemotePrint(call) == PrintLog(call.level, call.message) <==>
      call.level.Progress? || 0 < |call.message| <= MAXIMUM_PAYLOAD
  {
    var chunks := Chunks(call.message);
    ChunksConcatenate(call.message);
    if call.level.Progress? {
      ProgressPieces(chunks);
    } else if 0 < |call.message| <= MAXIMUM_PAYLOAD {
      OnePiece(call);
    } else {
      PiecesLength(call.level, chunks);
      assert call.message != [] ==> |chunks| >= 2;
      assert |chunks| * Extra(call.level) != Extra(call.level);
    }
  }

  lemma OnePiece(call: LogCall)
    requires 0 < |call.message| <= MAXIMUM_PAYLOAD
    ensures RemotePrint(call) == PrintLog(call.level, call.message)
  {
    var line := PrintLog(call.level, call.message);
    assert Chunks(call.message) == [call.message];
    assert PrintPieces(call.level, [call.message]) == line + PrintPieces(call.level, []);
  }

  /** An empty message is a line directly and nothing remotely. */
  lemma EmptyMessagePrints()
    ensures RemotePrint(LogCall(Info, [])) == [] && PrintLog(Info, []) == [NEWLINE]
  {
  }

  /** One byte too many, and a line is broken in two. */
  lemma LongMessagePrints(call: LogCall)
    requires |call.message| == MAXIMUM_PAYLOAD + 1
    ensures RemotePrint(call) ==
      PrintLog(call.level, call.message[..MAXIMUM_PAYLOAD]) + PrintLog(call.level, call.message[MAXIMUM_PAYLOAD..])
  {
    OnePiece(LogCall(call.level, call.message[MAXIMUM_PAYLOAD..]));
    assert Chunks(call.message)[1..] == Chunks(call.message[MAXIMUM_PAYLOAD..]);
  }

  /** Every message is progress, or is not empty and fits one frame. */
  predicate Printable(logs: seq<LogCall>) {
    forall i | 0 <= i < |logs| :: logs[i].level.Progress? || 0 < |logs[i].message| <= MAXIMUM_PAYLOAD
  }

  lemma {:induction false} OutputsAgree(logs: seq<LogCall>)
    requires Printable(logs)
    ensures RemoteOutput(logs) == DirectOutput(logs)
  {
    if logs != [] {
      PrintsTheSameIff(logs[0]);
      OutputsAgree(logs[1..]);
    }
  }

  lemma CodesInvert(code: ErrorCode)
    ensures CodeOf(CodeNumber(code)) == Some(code)
  {
  }

  predicate FitsOneFrame(answer: Answer) {
    match answer
    case Answered(text) => |text| <= MAXIMUM_PAYLOAD
    case Rejected(_, message) => |message| <= MAXIMUM_PAYLOAD
  }

  /** So the client of a session gets the controller's own outcome exactly when its text or message fits one frame. */
  lemma RemoteEqualsDirectIffItFits(logs: seq<LogCall>, answer: Answer)
    ensures ClientResult(SessionFrames(logs, answer)) == answer <==> FitsOneFrame(answer)
  {
    SessionTellsTheOutcome(logs, answer);
  }

  /**
   executeRemote against a worker, with nobody else holding the operation mutex. On reliable streams the
   client gets the direct outcome; on any streams it gets that or a connection error, never another one.
   */
  method ExecuteRemote(command: Command, argument: Bytes, controller: Controller, daemon: DaemonState,
                       toServer: Stream, toClient: Stream)
    returns (answer: Answer, printed: Bytes)
    requires toServer != toClient && toServer.wire == [] && toClient.wire == [] && !daemon.operationTaken
    modifies toServer, toClient, daemon
    ensures |argument| <= MAXIMUM_PAYLOAD && toServer.reliable && toClient.reliable ==>
      answer == OverTheWire(controller(command, argument).1) && printed == RemoteOutput(controller(command, argument).0)
    ensures |argument| <= MAXIMUM_PAYLOAD ==>
      && (answer == OverTheWire(controller(command, argument).1) || answer == Unreadable() || answer == Unsent())
      && printed <= RemoteOutput(controller(command, argument).0)
    ensures |argument| > MAXIMUM_PAYLOAD ==> answer.Rejected? && answer.code == InvalidArguments && printed == []
    ensures !daemon.operationTaken
  {
    var request := Frame(Request, EncodeCommand(command), argument);
    var sent := SendIpcFrame(toServer, request);
    if sent.Failure? {
      return Rejected(sent.error.code, ToBytes(sent.error.message)), [];
    }
    assert [] + EncodeFrame(request) == EncodeFrame(request);
    ghost var input, active := toServer.wire, daemon.activeName;
    RequestIsRun(command, argument, active, controller);
    FailedReadIsTold(false, active, controller);
    ServeClient(toServer, toClient, daemon, controller);
    ghost var received :| (received == Received(input) || (received == ReadFailed() && !toServer.reliable)) &&
      Served([], toClient.wire, Response(received, false, active, controller), toClient.reliable);
    ghost var frames := Response(received, false, active, controller);
    assert [] + EncodeAll(frames) == EncodeAll(frames);
    answer, printed := AwaitAnswer(toClient, frames);
  }

  /** execute(): over the socket, or in this process for root. */
  method Execute(direct: bool, root: bool, command: Command, argument: Bytes, controller: Controller,
                 daemon: DaemonState, toServer: Stream, toClient: Stream)
    returns (answer: Answer, printed: Bytes)
    requires toServer != toClient && toServer.wire == [] && toClient.wire == [] && !daemon.operationTaken
    modifies toServer, toClient, daemon
    ensures direct && !root ==> answer.Rejected? && answer.code == InsufficientPrivileges && printed == []
    ensures direct && root ==>
      answer == controller(command, argument).1 && printed == DirectOutput(controller(command, argument).0)
    ensures (if direct then root else toServer.reliable && toClient.reliable && |argument| <= MAXIMUM_PAYLOAD) &&
            FitsOneFrame(controller(command, argument).1) && Printable(controller(command, argument).0) ==>
      answer == controller(command, argument).1 && printed == DirectOutput(controller(command, argument).0)
  {
    if !direct {
      answer, printed := ExecuteRemote(command, argument, controller, daemon, toServer, toClient);
      if Printable(controller(command, argument).0) {
        OutputsAgree(controller(command, argument).0);
      }
      return;
    }
    if !root {
      return Rejected(InsufficientPrivileges, ToBytes("--direct requires root privileges")), [];
    }
    var (logs, outcome) := controller(command, argument);
    answer, printed := outcome, DirectOutput(logs);
  }

  function Unsent(): Answer { Rejected(StateError, ToBytes("control connection write failed")) }

  /** A worker that cannot read the request says so. */
  lemma FailedReadIsTold(taken: bool, active: Bytes, controller: Controller)
    ensures var frames := Response(ReadFailed(), taken, active, controller);
      ClientResult(frames) == Unreadable() && Printed(frames) == []
  {
  }

  /** A well-formed request of a free daemon is run and answered in full. */
  lemma RequestIsRun(command: Command, argument: Bytes, active: Bytes, controller: Controller)
    requires |argument| <= MAXIMUM_PAYLOAD
    ensures var frames := Response(
        Received(EncodeFrame(Frame(Request, EncodeCommand(command), argument))), false, active, controller);
      && ClientResult(frames) == OverTheWire(controller(command, argument).1)
      && Printed(frames) == RemoteOutput(controller(command, argument).0)
  {
    var request := Frame(Request, EncodeCommand(command), argument);
    DecodeInvertsEncode(request, []);
    assert EncodeFrame(request) + [] == EncodeFrame(request);
    CommandsInvert(EncodeCommand(command), command);
    SessionTellsTheOutcome(controller(command, argument).0, controller(command, argument).1);
  }
}
