/** One proxied RPC under grpc-dump as a transition system: a client, a backend, the two
    forwarding goroutines between them, the handler that waits for them, the recorder on
    the client's side, and the interceptor that writes the log out at the end. */
module Forwarding {
  import opened Messages

  datatype Error = EOF | Fault(code: nat)

  /** What an endpoint has done so far: the messages it emitted and those it read, and for
      each emitted one how many it had read by then. */
  datatype History = History(emitted: seq<Bytes>, read: seq<Bytes>, readBefore: seq<nat>)
  {
    function Emit(m: Bytes): History {
      History(emitted + [m], read, readBefore + [|read|])
    }

    function Read(m: Bytes): History {
      this.(read := read + [m])
    }
  }

  /** How the backend ended the RPC. */
  datatype Status = StatusOK | StatusError(code: nat)

  /** The goroutine that takes messages from the client to the backend. lost is the message,
      if any, whose send failed. */
  datatype S2C =
    | S2CReceiving
    | S2CRecording(m: Bytes)
    | S2CSending(m: Bytes)
    | S2CReporting(err: Error, lost: seq<Bytes>)
    | S2CDone(lost: seq<Bytes>)

  /** The goroutine that takes messages from the backend to the client. It can also lose a
      message before that is logged, when the headers fail. */
  datatype C2S =
    | C2SReceiving
    | C2SGettingHeader(m: Bytes)
    | C2SSendingHeader(m: Bytes)
    | C2SRecording(m: Bytes)
    | C2SSending(m: Bytes)
    | C2SReporting(err: Error, unlogged: seq<Bytes>, lost: seq<Bytes>)
    | C2SDone(unlogged: seq<Bytes>, lost: seq<Bytes>)

  datatype Result = ReturnedNil | ReturnedError(err: Error) | NeverReachThisStage

  datatype Handler = Selecting(round: nat) | Returned(result: Result)

  /** The dump interceptor: it waits for the handler, then holds the recorder's lock
      while it decodes and writes the messages. */
  datatype Dump = Waiting | Holding(messages: seq<Event>, decoded: nat) | Written(messages: seq<Event>)

  datatype State = State(
    client: History, clientClosed: bool,
    backend: History, backendDone: Option<Status>,
    toProxy: seq<Bytes>, toBackend: seq<Bytes>, fromBackend: seq<Bytes>, toClient: seq<Bytes>,
    s2c: S2C, s2cErr: Option<Error>, c2s: C2S, c2sFirst: bool, c2sErr: Option<Error>,
    handler: Handler, sendClosed: bool,
    headersSent: nat, sent: seq<Bytes>,  // to the client, in all
    log: seq<Event>, dump: Dump)

  const INITIAL := State(History([], [], []), false, History([], [], []), None, [], [], [], [],
                         S2CReceiving, None, C2SReceiving, true, None,
                         Selecting(0), false, 0, [], [], Waiting)

  datatype Step = ByEndpoint(e: EndpointStep) | ByS2C(u: S2CStep) | ByC2S(d: C2SStep) | ByHandler(h: HandlerStep)

  datatype EndpointStep =
    | ClientEmits(m: Bytes) | ClientCloses | ClientReads
    | BackendReads | BackendEmits(m: Bytes) | BackendEnds(status: Status)

  datatype S2CStep = S2CRecv | S2CRecvFails(err: Error) | S2CRecord | S2CSend | S2CSendFails(err: Error) | S2CReport

  datatype C2SStep =
    | C2SRecv | C2SRecvFails(err: Error)
    | C2SHeader | C2SHeaderFails(code: nat) | C2SSendHeader | C2SSendHeaderFails(code: nat)
    | C2SRecord | C2SSend | C2SSendFails(code: nat) | C2SReport

  datatype HandlerStep = SelectS2C | SelectC2S | LoopEnds | DumpLocks | DumpDecodes | DumpWrites

  predicate Enabled(s: State, a: Step) {
    match a
    case ByEndpoint(e) => EndpointEnabled(s, e)
    case ByS2C(u) => S2CEnabled(s, u)
    case ByC2S(d) => C2SEnabled(s, d)
    case ByHandler(h) => HandlerEnabled(s, h)
  }

  function Next(s: State, a: Step): State
    requires Enabled(s, a)
  {
    match a
    case ByEndpoint(e) => EndpointNext(s, e)
    case ByS2C(u) => S2CNext(s, u)
    case ByC2S(d) => C2SNext(s, d)
    case ByHandler(h) => HandlerNext(s, h)
  }

  predicate EndpointEnabled(s: State, a: EndpointStep) {
    match a
    case ClientEmits(_) => !s.clientClosed
    case ClientCloses => true
    case ClientReads => s.toClient != []
    case BackendReads => s.toBackend != [] && s.backendDone.None?
    case BackendEmits(_) => s.backendDone.None?
    case BackendEnds(_) => s.backendDone.None?
  }

  function EndpointNext(s: State, a: EndpointStep): State
    requires EndpointEnabled(s, a)
  {
    match a
    case ClientEmits(m) => s.(client := s.client.Emit(m), toProxy := s.toProxy + [m])
    case ClientCloses => s.(clientClosed := true)
    case ClientReads => s.(client := s.client.Read(s.toClient[0]), toClient := s.toClient[1..])
    case BackendReads => s.(backend := s.backend.Read(s.toBackend[0]), toBackend := s.toBackend[1..])
    case BackendEmits(m) => s.(backend := s.backend.Emit(m), fromBackend := s.fromBackend + [m])
    case BackendEnds(status) => s.(backendDone := Some(status))
  }

  predicate LockFree(s: State) {
    !s.dump.Holding?
  }

  /** A receive ends with io.EOF only when the client has closed its side and nothing is left;
      other failures can happen at any time. A send to the backend fails with io.EOF only once
      the backend has ended the RPC. */
  predicate S2CEnabled(s: State, a: S2CStep) {
    match a
    case S2CRecv => s.s2c == S2CReceiving && s.toProxy != []
    case S2CRecvFails(err) => s.s2c == S2CReceiving && (err == EOF ==> s.clientClosed && s.toProxy == [])
    case S2CRecord => s.s2c.S2CRecording? && LockFree(s)
    case S2CSend => s.s2c.S2CSending?
    case S2CSendFails(err) => s.s2c.S2CSending? && (err == EOF ==> s.backendDone.Some?)
    case S2CReport => s.s2c.S2CReporting? && s.s2cErr.None?
  }

  function S2CNext(s: State, a: S2CStep): State
    requires S2CEnabled(s, a)
  {
    match a
    case S2CRecv => s.(s2c := S2CRecording(s.toProxy[0]), toProxy := s.toProxy[1..])
    case S2CRecvFails(err) => s.(s2c := S2CReporting(err, []))
    case S2CRecord => s.(s2c := S2CSending(s.s2c.m), log := s.log + [Event(ClientMessage, s.s2c.m)])
    case S2CSend => s.(s2c := S2CReceiving, toBackend := s.toBackend + [s.s2c.m])
    case S2CSendFails(err) => s.(s2c := S2CReporting(err, [s.s2c.m]))
    case S2CReport => s.(s2c := S2CDone(s.s2c.lost), s2cErr := Some(s.s2c.err))
  }

  /** A receive ends with io.EOF only when the backend has ended the RPC with status OK and
      nothing is left. Reading the header and sending to the client never fail with io.EOF. */
  predicate C2SEnabled(s: State, a: C2SStep) {
    match a
    case C2SRecv => s.c2s == C2SReceiving && s.fromBackend != []
    case C2SRecvFails(err) =>
      s.c2s == C2SReceiving && (err == EOF ==> s.backendDone == Some(StatusOK) && s.fromBackend == [])
    case C2SHeader => s.c2s.C2SGettingHeader?
    case C2SHeaderFails(_) => s.c2s.C2SGettingHeader?
    case C2SSendHeader => s.c2s.C2SSendingHeader? && LockFree(s)
    case C2SSendHeaderFails(_) => s.c2s.C2SSendingHeader? && LockFree(s)
    case C2SRecord => s.c2s.C2SRecording? && LockFree(s)
    case C2SSend => s.c2s.C2SSending?
    case C2SSendFails(_) => s.c2s.C2SSending?
    case C2SReport => s.c2s.C2SReporting? && s.c2sErr.None?
  }

  function C2SNext(s: State, a: C2SStep): State
    requires C2SEnabled(s, a)
  {
    match a
    case C2SRecv =>
      s.(c2s := if s.c2sFirst then C2SGettingHeader(s.fromBackend[0]) else C2SRecording(s.fromBackend[0]),
         fromBackend := s.fromBackend[1..])
    case C2SRecvFails(err) => s.(c2s := C2SReporting(err, [], []))
    case C2SHeader => s.(c2s := C2SSendingHeader(s.c2s.m))
    case C2SHeaderFails(code) => s.(c2s := C2SReporting(Fault(code), [s.c2s.m], []))
    case C2SSendHeader => s.(c2s := C2SRecording(s.c2s.m), headersSent := s.headersSent + 1)
    case C2SSendHeaderFails(code) => s.(c2s := C2SReporting(Fault(code), [s.c2s.m], []))
    case C2SRecord => s.(c2s := C2SSending(s.c2s.m), log := s.log + [Event(ServerMessage, s.c2s.m)])
    case C2SSend =>
      s.(c2s := C2SReceiving, c2sFirst := false,
         toClient := s.toClient + [s.c2s.m], sent := s.sent + [s.c2s.m])
    case C2SSendFails(code) => s.(c2s := C2SReporting(Fault(code), [], [s.c2s.m]))
    case C2SReport => s.(c2s := C2SDone(s.c2s.unlogged, s.c2s.lost), c2sErr := Some(s.c2s.err))
  }

  predicate HandlerEnabled(s: State, a: HandlerStep) {
    match a
    case SelectS2C => s.handler.Selecting? && s.handler.round < 2 && s.s2cErr.Some?
    case SelectC2S => s.handler.Selecting? && s.handler.round < 2 && s.c2sErr.Some?
    case LoopEnds => s.handler == Selecting(2)
    case DumpLocks => s.handler.Returned? && s.dump == Waiting
    case DumpDecodes => s.dump.Holding? && s.dump.decoded < |s.dump.messages|
    case DumpWrites => s.dump.Holding? && s.dump.decoded == |s.dump.messages|
  }

  function HandlerNext(s: State, a: HandlerStep): State
    requires HandlerEnabled(s, a)
  {
    match a
    case SelectS2C =>
      if s.s2cErr == Some(EOF) then s.(s2cErr := None, sendClosed := true, handler := Selecting(s.handler.round + 1))
      else s.(s2cErr := None, handler := Returned(ReturnedError(s.s2cErr.value)))
    case SelectC2S =>
      s.(c2sErr := None,
         handler := Returned(if s.c2sErr == Some(EOF) then ReturnedNil else ReturnedError(s.c2sErr.value)))
    case LoopEnds => s.(handler := Returned(NeverReachThisStage))
    case DumpLocks => s.(dump := Holding(s.log, 0))
    case DumpDecodes => s.(dump := s.dump.(decoded := s.dump.decoded + 1))
    case DumpWrites => s.(dump := Written(s.dump.messages))
  }

  /** The state after a sequence of steps, if every one of them was possible. */
  function Run(steps: seq<Step>): Option<State> {
    if steps == [] then Some(INITIAL)
    else
      match Run(steps[..|steps| - 1])
      case None => None
      case Some(s) =>
        var a := steps[|steps| - 1];
        if Enabled(s, a) then Some(Next(s, a)) else None
  }

  /** The message each goroutine holds, or has lost, before it was recorded, */
  function S2CUnrecorded(pc: S2C): seq<Bytes> {
    if pc.S2CRecording? then [pc.m] else []
  }

  function C2SUnrecorded(pc: C2S): seq<Bytes> {
    match pc
    case C2SGettingHeader(m) => [m]
    case C2SSendingHeader(m) => [m]
    case C2SRecording(m) => [m]
    case C2SReporting(_, unlogged, _) => unlogged
    case C2SDone(unlogged, _) => unlogged
    case _ => []
  }

  /** and after it was recorded, before it was sent. */
  function S2CUnsent(pc: S2C): seq<Bytes> {
    match pc
    case S2CSending(m) => [m]
    case S2CReporting(_, lost) => lost
    case S2CDone(lost) => lost
    case _ => []
  }

  function C2SUnsent(pc: C2S): seq<Bytes> {
    match pc
    case C2SSending(m) => [m]
    case C2SReporting(_, _, lost) => lost
    case C2SDone(_, lost) => lost
    case _ => []
  }
}
