/** What holds in every run of the forwarding protocol: nothing is lost or duplicated, the
    two goroutines and the handler never block each other, a nil result means that every
    response was forwarded, and the dump is a consistent cut of the log. */
module ForwardingSafety {
  import opened Messages
  import opened Forwarding

  /** Everything the client emitted is given to the backend, queued somewhere, or the one
      message that its goroutine holds or has lost, all in order; the log has it from the
      moment it is recorded. */
  ghost predicate RequestsLogged(emitted: seq<Bytes>, logged: seq<Bytes>, pc: S2C, toProxy: seq<Bytes>) {
    emitted == logged + S2CUnrecorded(pc) + toProxy
  }

  ghost predicate RequestsSent(logged: seq<Bytes>, pc: S2C, read: seq<Bytes>, toBackend: seq<Bytes>) {
    logged == read + toBackend + S2CUnsent(pc)
  }

  /** The same for the backend's messages. */
  ghost predicate ResponsesLogged(emitted: seq<Bytes>, logged: seq<Bytes>, pc: C2S, fromBackend: seq<Bytes>) {
    emitted == logged + C2SUnrecorded(pc) + fromBackend
  }

  ghost predicate ResponsesSent(logged: seq<Bytes>, pc: C2S, sent: seq<Bytes>) {
    logged == sent + C2SUnsent(pc)
  }

  ghost predicate ResponsesDelivered(sent: seq<Bytes>, read: seq<Bytes>, queued: seq<Bytes>) {
    sent == read + queued
  }

  ghost predicate AtMostOne(up: S2C, down: C2S) {
    |S2CUnrecorded(up)| + |S2CUnsent(up)| <= 1 && |C2SUnrecorded(down)| + |C2SUnsent(down)| <= 1
  }

  ghost predicate ResponsesFlow(s: State) {
    && ResponsesLogged(s.backend.emitted, Raws(s.log, ServerMessage), s.c2s, s.fromBackend)
    && ResponsesSent(Raws(s.log, ServerMessage), s.c2s, s.sent)
    && ResponsesDelivered(s.sent, s.client.read, s.toClient)
  }

  ghost predicate Flow(s: State) {
    && RequestsLogged(s.client.emitted, Raws(s.log, ClientMessage), s.s2c, s.toProxy)
    && RequestsSent(Raws(s.log, ClientMessage), s.s2c, s.backend.read, s.toBackend)
    && ResponsesFlow(s)
    && AtMostOne(s.s2c, s.c2s)
  }

  /** Headers go out at most once, and before the first response message. */
  ghost predicate HeadersFirst(headersSent: nat, sent: seq<Bytes>, first: bool, pc: C2S) {
    && headersSent <= 1
    && (sent != [] || !first || pc.C2SRecording? || pc.C2SSending? ==> headersSent == 1)
    && (pc.C2SGettingHeader? || pc.C2SSendingHeader? ==> first)
    && (first && (pc.C2SReceiving? || pc.C2SGettingHeader? || pc.C2SSendingHeader?) ==> headersSent == 0)
  }

  /** Each channel holds at most the one value its goroutine ends with. While the handler
      selects, it has taken at most one, an EOF from the client's side. */
  ghost predicate Channels(up: S2C, upErr: Option<Error>, down: C2S, downErr: Option<Error>,
                           handler: Handler, sendClosed: bool) {
    && (upErr.Some? ==> up.S2CDone?) && (downErr.Some? ==> down.C2SDone?)
    && match handler
       case Selecting(round) =>
         && (down.C2SDone? <==> downErr.Some?)
         && (round == 0 || round == 1)
         && (round == 0 ==> (up.S2CDone? <==> upErr.Some?))
         && (round == 1 ==> up.S2CDone? && upErr.None? && sendClosed)
       case Returned(result) => result != NeverReachThisStage
  }

  /** The backend's own EOF is on its way to the handler, or is what it returned. */
  predicate CleanEnd(s: State) {
    (s.c2s.C2SReporting? && s.c2s.err == EOF) || s.c2sErr == Some(EOF) || s.handler == Returned(ReturnedNil)
  }

  /** Then the backend has finished and all it emitted was logged and sent. */
  ghost predicate AllForwarded(s: State) {
    && s.backendDone == Some(StatusOK) && (s.c2s.C2SReporting? || s.c2s.C2SDone?)
    && s.backend.emitted == Raws(s.log, ServerMessage) == s.sent
  }

  ghost predicate Dumping(s: State) {
    match s.dump
    case Waiting => true
    case Holding(messages, decoded) => s.handler.Returned? && messages == s.log && decoded <= |messages|
    case Written(messages) =>
      && s.handler.Returned? && messages <= s.log
      && (s.handler == Returned(ReturnedNil) ==> Raws(messages, ServerMessage) == s.backend.emitted)
  }

  ghost predicate Control(s: State) {
    && HeadersFirst(s.headersSent, s.sent, s.c2sFirst, s.c2s)
    && Channels(s.s2c, s.s2cErr, s.c2s, s.c2sErr, s.handler, s.sendClosed)
    && (CleanEnd(s) ==> AllForwarded(s))
    && Dumping(s)
  }

  ghost predicate Safe(s: State) {
    Flow(s) && Control(s)
  }

  lemma EndpointsFlow(s: State, e: EndpointStep)
    requires Flow(s) && EndpointEnabled(s, e)
    ensures Flow(EndpointNext(s, e))
  {
    match e
    case ClientEmits(m) => Regroup(Raws(s.log, ClientMessage) + S2CUnrecorded(s.s2c), s.toProxy, [m]);
    case BackendEmits(m) => Regroup(Raws(s.log, ServerMessage) + C2SUnrecorded(s.c2s), s.fromBackend, [m]);
    case ClientReads => MoveHead(s.client.read, s.toClient);
    case BackendReads => MoveHead(s.backend.read, s.toBackend);
    case _ =>
  }

  lemma EndpointsAreControlled(s: State, e: EndpointStep)
    requires Control(s) && EndpointEnabled(s, e)
    ensures Control(EndpointNext(s, e))
  {
  }

  lemma S2CIsSafe(s: State, u: S2CStep)
    requires Safe(s) && S2CEnabled(s, u)
    ensures Safe(S2CNext(s, u))
  {
    S2CFlows(s, u);
    S2CIsControlled(s, u);
  }

  lemma S2CFlows(s: State, u: S2CStep)
    requires Flow(s) && S2CEnabled(s, u)
    ensures Flow(S2CNext(s, u))
  {
    match u
    case S2CRecv => S2CReceives(s);
    case S2CRecord => S2CRecords(s);
    case S2CSend => S2CSends(s);
    case _ => S2CKeepsItsMessage(s, u);
  }

  lemma S2CReceives(s: State)
    requires Flow(s) && S2CEnabled(s, S2CRecv)
    ensures Flow(S2CNext(s, S2CRecv))
  {
    MoveHead(Raws(s.log, ClientMessage), s.toProxy);
  }

  lemma S2CRecords(s: State)
    requires Flow(s) && S2CEnabled(s, S2CRecord)
    ensures Flow(S2CNext(s, S2CRecord))
  {
    RawsSnoc(s.log, Event(ClientMessage, s.s2c.m), ClientMessage);
    RawsSnoc(s.log, Event(ClientMessage, s.s2c.m), ServerMessage);
  }

  lemma S2CSends(s: State)
    requires Flow(s) && S2CEnabled(s, S2CSend)
    ensures Flow(S2CNext(s, S2CSend))
  {
    Regroup(s.backend.read, s.toBackend, [s.s2c.m]);
  }

  lemma S2CKeepsItsMessage(s: State, u: S2CStep)
    requires Flow(s) && S2CEnabled(s, u) && u !in {S2CRecv, S2CRecord, S2CSend}
    ensures Flow(S2CNext(s, u))
  {
    S2COnlyMoves(s, u);
  }

  lemma S2COnlyMoves(s: State, u: S2CStep)
    requires S2CEnabled(s, u) && u !in {S2CRecv, S2CRecord, S2CSend}
    ensures var t := S2CNext(s, u);
            && t == s.(s2c := t.s2c, s2cErr := t.s2cErr)
            && S2CUnrecorded(t.s2c) == S2CUnrecorded(s.s2c) && S2CUnsent(t.s2c) == S2CUnsent(s.s2c)
  {
  }

  lemma S2CIsControlled(s: State, u: S2CStep)
    requires Safe(s) && S2CEnabled(s, u)
    ensures Control(S2CNext(s, u))
  {
    if u == S2CRecord {
      RawsSnoc(s.log, Event(ClientMessage, s.s2c.m), ServerMessage);
    }
  }

  lemma C2SFlows(s: State, d: C2SStep)
    requires Flow(s) && C2SEnabled(s, d)
    ensures Flow(C2SNext(s, d))
  {
    if d == C2SRecord {
      RawsSnoc(s.log, Event(ServerMessage, s.c2s.m), ClientMessage);
    }
    C2SPassesOn(s, d);
  }

  lemma C2SPassesOn(s: State, d: C2SStep)
    requires C2SEnabled(s, d) && ResponsesFlow(s) && AtMostOne(s.s2c, s.c2s)
    ensures ResponsesFlow(C2SNext(s, d)) && AtMostOne(s.s2c, C2SNext(s, d).c2s)
  {
    match d
    case C2SRecv => C2SReceives(s);
    case C2SRecord => C2SRecords(s);
    case C2SSend => C2SSends(s);
    case _ => C2SKeepsItsMessage(s, d);
  }

  lemma C2SReceives(s: State)
    requires C2SEnabled(s, C2SRecv) && ResponsesFlow(s) && AtMostOne(s.s2c, s.c2s)
    ensures ResponsesFlow(C2SNext(s, C2SRecv)) && AtMostOne(s.s2c, C2SNext(s, C2SRecv).c2s)
  {
    MoveHead(Raws(s.log, ServerMessage), s.fromBackend);
  }

  lemma C2SRecords(s: State)
    requires C2SEnabled(s, C2SRecord) && ResponsesFlow(s) && AtMostOne(s.s2c, s.c2s)
    ensures ResponsesFlow(C2SNext(s, C2SRecord)) && AtMostOne(s.s2c, C2SNext(s, C2SRecord).c2s)
  {
    RawsSnoc(s.log, Event(ServerMessage, s.c2s.m), ServerMessage);
  }

  lemma C2SSends(s: State)
    requires C2SEnabled(s, C2SSend) && ResponsesFlow(s) && AtMostOne(s.s2c, s.c2s)
    ensures ResponsesFlow(C2SNext(s, C2SSend)) && AtMostOne(s.s2c, C2SNext(s, C2SSend).c2s)
  {
    Regroup(s.client.read, s.toClient, [s.c2s.m]);
  }

  lemma C2SKeepsItsMessage(s: State, d: C2SStep)
    requires C2SEnabled(s, d) && d !in {C2SRecv, C2SRecord, C2SSend}
    requires ResponsesFlow(s) && AtMostOne(s.s2c, s.c2s)
    ensures ResponsesFlow(C2SNext(s, d)) && AtMostOne(s.s2c, C2SNext(s, d).c2s)
  {
    C2SOnlyMoves(s, d);
  }

  lemma C2SOnlyMoves(s: State, d: C2SStep)
    requires C2SEnabled(s, d) && d !in {C2SRecv, C2SRecord, C2SSend}
    ensures var t := C2SNext(s, d);
            && t == s.(c2s := t.c2s, c2sErr := t.c2sErr, headersSent := t.headersSent)
            && C2SUnrecorded(t.c2s) == C2SUnrecorded(s.c2s) && C2SUnsent(t.c2s) == C2SUnsent(s.c2s)
  {
  }

  lemma C2SIsControlled(s: State, d: C2SStep)
    requires Safe(s) && C2SEnabled(s, d)
    ensures Control(C2SNext(s, d))
  {
    C2SKeepsHeaders(s, d);
    C2SKeepsChannels(s, d);
    C2SEndsCleanly(s, d);
    C2SKeepsDumping(s, d);
  }

  lemma C2SKeepsHeaders(s: State, d: C2SStep)
    requires HeadersFirst(s.headersSent, s.sent, s.c2sFirst, s.c2s) && C2SEnabled(s, d)
    ensures var t := C2SNext(s, d); HeadersFirst(t.headersSent, t.sent, t.c2sFirst, t.c2s)
  {
  }

  lemma C2SKeepsChannels(s: State, d: C2SStep)
    requires Channels(s.s2c, s.s2cErr, s.c2s, s.c2sErr, s.handler, s.sendClosed) && C2SEnabled(s, d)
    ensures var t := C2SNext(s, d);
            Channels(t.s2c, t.s2cErr, t.c2s, t.c2sErr, t.handler, t.sendClosed)
  {
  }

  lemma C2SEndsCleanly(s: State, d: C2SStep)
    requires Safe(s) && C2SEnabled(s, d)
    ensures CleanEnd(C2SNext(s, d)) ==> AllForwarded(C2SNext(s, d))
  {
  }

  lemma C2SKeepsDumping(s: State, d: C2SStep)
    requires Dumping(s) && C2SEnabled(s, d)
    ensures Dumping(C2SNext(s, d))
  {
    if d == C2SRecord {
      RawsSnoc(s.log, Event(ServerMessage, s.c2s.m), ServerMessage);
    }
  }

  /** The handler and the dump only touch the channels, the result and the dump itself. */
  lemma HandlerIsAside(s: State, h: HandlerStep)
    requires HandlerEnabled(s, h)
    ensures var t := HandlerNext(s, h);
            t == s.(s2cErr := t.s2cErr, c2sErr := t.c2sErr, handler := t.handler,
                    sendClosed := t.sendClosed, dump := t.dump)
  {
  }

  lemma HandlerFlows(s: State, h: HandlerStep)
    requires Flow(s) && HandlerEnabled(s, h)
    ensures Flow(HandlerNext(s, h))
  {
    HandlerIsAside(s, h);
  }

  lemma HandlerKeepsChannels(s: State, h: HandlerStep)
    requires Channels(s.s2c, s.s2cErr, s.c2s, s.c2sErr, s.handler, s.sendClosed) && HandlerEnabled(s, h)
    ensures var t := HandlerNext(s, h);
            Channels(t.s2c, t.s2cErr, t.c2s, t.c2sErr, t.handler, t.sendClosed)
  {
  }

  lemma HandlerEndsCleanly(s: State, h: HandlerStep)
    requires Control(s) && HandlerEnabled(s, h)
    ensures CleanEnd(HandlerNext(s, h)) ==> AllForwarded(HandlerNext(s, h))
  {
    HandlerIsAside(s, h);
  }

  lemma HandlerKeepsDumping(s: State, h: HandlerStep)
    requires Control(s) && HandlerEnabled(s, h)
    ensures Dumping(HandlerNext(s, h))
  {
    HandlerIsAside(s, h);
  }

  lemma HandlerIsControlled(s: State, h: HandlerStep)
    requires Control(s) && HandlerEnabled(s, h)
    ensures Control(HandlerNext(s, h))
  {
    HandlerIsAside(s, h);
    HandlerKeepsChannels(s, h);
    HandlerEndsCleanly(s, h);
    HandlerKeepsDumping(s, h);
  }

  lemma {:induction false} EveryRunIsSafe(steps: seq<Step>)
    requires Run(steps).Some?
    ensures Safe(Run(steps).value)
  {
    if steps != [] {
      var n := |steps| - 1;
      EveryRunIsSafe(steps[..n]);
      StepIsSafe(Run(steps[..n]).value, steps[n]);
    }
  }

  lemma StepIsSafe(s: State, a: Step)
    requires Safe(s) && Enabled(s, a)
    ensures Safe(Next(s, a))
  {
    match a
    case ByEndpoint(e) => EndpointsFlow(s, e); EndpointsAreControlled(s, e);
    case ByS2C(u) => S2CIsSafe(s, u);
    case ByC2S(d) => C2SFlows(s, d); C2SIsControlled(s, d);
    case ByHandler(h) => HandlerFlows(s, h); HandlerIsControlled(s, h);
  }

  // ---------- What a user of the proxy can rely on, for every run ----------

  /** Forwarding is FIFO without loss or duplication in the middle: what each side has been
      given is a prefix of what the other side sent, and the log lies between them. */
  lemma EachSideSeesAPrefix(steps: seq<Step>)
    requires Run(steps).Some?
    ensures var s := Run(steps).value;
            && s.backend.read <= Raws(s.log, ClientMessage) <= s.client.emitted
            && s.client.read <= Raws(s.log, ServerMessage) <= s.backend.emitted
            && (s.client.read != [] ==> s.headersSent == 1) && s.headersSent <= 1
  {
    EveryRunIsSafe(steps);
  }

  /** Conservation: whatever an endpoint emitted has been read by the other one, or is in a
      queue, or is the one message its goroutine holds or has lost, and the order is kept. */
  lemma MessagesAreConserved(steps: seq<Step>)
    requires Run(steps).Some?
    ensures var s := Run(steps).value;
            && s.client.emitted == s.backend.read + s.toBackend + S2CUnsent(s.s2c) + S2CUnrecorded(s.s2c) + s.toProxy
            && s.backend.emitted == s.client.read + s.toClient + C2SUnsent(s.c2s) + C2SUnrecorded(s.c2s) + s.fromBackend
            && |S2CUnsent(s.s2c)| + |S2CUnrecorded(s.s2c)| <= 1 && |C2SUnsent(s.c2s)| + |C2SUnrecorded(s.c2s)| <= 1
  {
    EveryRunIsSafe(steps);
  }

  /** A nil result means that the backend ended with status OK and that every one of its
      messages was forwarded to the client, and is in what the dump writes. */
  lemma NilMeansEverythingForwarded(steps: seq<Step>)
    requires Run(steps).Some? && Run(steps).value.handler == Returned(ReturnedNil)
    ensures var s := Run(steps).value;
            && s.backendDone == Some(StatusOK)
            && s.client.read + s.toClient == s.backend.emitted
            && (s.dump.Written? ==> Raws(s.dump.messages, ServerMessage) == s.backend.emitted)
  {
    EveryRunIsSafe(steps);
  }

  /** The handler's last return is dead code, neither goroutine ever has to wait to report,
      and the handler never waits for a goroutine that has already gone. */
  lemma NobodyBlocks(steps: seq<Step>)
    requires Run(steps).Some?
    ensures var s := Run(steps).value;
            && s.handler != Returned(NeverReachThisStage) && !Enabled(s, ByHandler(LoopEnds))
            && (s.s2c.S2CReporting? ==> Enabled(s, ByS2C(S2CReport)))
            && (s.c2s.C2SReporting? ==> Enabled(s, ByC2S(C2SReport)))
            && (s.handler.Selecting? && s.c2s.C2SDone? ==> Enabled(s, ByHandler(SelectC2S)))
            && (s.handler.Selecting? && s.s2cErr.Some? ==> Enabled(s, ByHandler(SelectS2C)))
            && (s.handler.Selecting? && s.c2sErr.Some? ==> Enabled(s, ByHandler(SelectC2S)))
  {
    EveryRunIsSafe(steps);
  }

  /** While the dump is decoded and written no goroutine can add to the log, and what has
      been written stays as it is while the log may still grow behind it. */
  lemma DumpIsAFixedPrefix(steps: seq<Step>, a: Step)
    requires Run(steps).Some? && Enabled(Run(steps).value, a)
    ensures var s := Run(steps).value;
            var t := Next(s, a);
            && (s.dump.Holding? ==> t.log == s.log == s.dump.messages)
            && (s.dump.Written? ==> t.dump == s.dump && s.dump.messages <= t.log)
  {
    EveryRunIsSafe(steps);
    StepKeepsDump(Run(steps).value, a);
  }

  lemma StepKeepsDump(s: State, a: Step)
    requires Dumping(s) && Enabled(s, a)
    ensures s.dump.Holding? ==> Next(s, a).log == s.log
    ensures s.dump.Written? ==> Next(s, a).dump == s.dump && s.dump.messages <= Next(s, a).log
  {
  }

  ghost predicate SendFailed(steps: seq<Step>) {
    exists i :: 0 <= i < |steps| && SendFails(steps[i])
  }

  predicate SendFails(a: Step) {
    a.ByS2C? && a.u.S2CSendFails?
  }

  predicate HasLost(pc: S2C) {
    (pc.S2CReporting? || pc.S2CDone?) && pc.lost != []
  }

  /** The goroutine has lost a message if and only if one of its sends has failed. */
  lemma {:induction false} LostOnlyByFailedSends(steps: seq<Step>)
    requires Run(steps).Some?
    ensures HasLost(Run(steps).value.s2c) <==> SendFailed(steps)
  {
    if steps != [] {
      var n := |steps| - 1;
      LostOnlyByFailedSends(steps[..n]);
      StepLoses(Run(steps[..n]).value, steps[n]);
      SendFailedSnoc(steps[..n], steps[n]);
      assert steps == steps[..n] + [steps[n]];
    }
  }

  lemma StepLoses(s: State, a: Step)
    requires Enabled(s, a)
    ensures HasLost(Next(s, a).s2c) <==> HasLost(s.s2c) || SendFails(a)
  {
    match a
    case ByHandler(h) => HandlerIsAside(s, h);
    case _ =>
  }

  lemma {:induction false} SendFailedSnoc(steps: seq<Step>, a: Step)
    ensures SendFailed(steps + [a]) <==> SendFailed(steps) || SendFails(a)
  {
    if SendFailed(steps) {
      var i :| 0 <= i < |steps| && SendFails(steps[i]);
      assert SendFails((steps + [a])[i]);
    }
    if SendFails(a) {
      assert SendFails((steps + [a])[|steps|]);
    }
  }

  /** Every logged request was given to the backend if and only if no send to it has failed
      in this run or is under way. Every request the client emitted was, if and only if in
      addition none is waiting to be logged. */
  lemma RequestsAreCoveredUnlessASendFailed(steps: seq<Step>)
    requires Run(steps).Some?
    ensures var s := Run(steps).value;
            var given := s.backend.read + s.toBackend;
            var covered := !SendFailed(steps) && !s.s2c.S2CSending?;
            && (given == Raws(s.log, ClientMessage) <==> covered)
            && (given == s.client.emitted <==> covered && !s.s2c.S2CRecording? && s.toProxy == [])
  {
    EveryRunIsSafe(steps);
    LostOnlyByFailedSends(steps);
    var s := Run(steps).value;
    assert |S2CUnsent(s.s2c)| == 0 <==> !SendFailed(steps) && !s.s2c.S2CSending?;
    assert |S2CUnrecorded(s.s2c)| == 0 <==> !s.s2c.S2CRecording?;
  }

  /** The run has sent a request with io.EOF as the result, and the handler has returned nil
      although the backend was not given everything that is in the log. */
  ghost predicate NilWithALoss(steps: seq<Step>) {
    && Run(steps).Some? && ByS2C(S2CSendFails(EOF)) in steps
    && var s := Run(steps).value;
       && s.handler == Returned(ReturnedNil) && s.s2c.S2CDone?
       && s.backend.read + s.toBackend < Raws(s.log, ClientMessage)
  }

  /** A nil result does not mean that: a send to the backend that fails with io.EOF loses a
      message the log already has, and the handler takes it for a clean end. */
  lemma NilDoesNotCoverRequests()
    ensures exists steps :: NilWithALoss(steps)
  {
    var p, s := ThenNilIsReturned();
    RawsOne(Event(ClientMessage, [7]), ClientMessage);
    assert p[4] in p && NilWithALoss(p);
  }

  lemma ThenNilIsReturned() returns (p: seq<Step>, s: State)
    ensures Run(p) == Some(s) && |p| > 4 && p[4] == ByS2C(S2CSendFails(EOF))
    ensures s.log == [Event(ClientMessage, [7])] && s.backend.read == [] && s.toBackend == []
    ensures s.s2c.S2CDone? && s.handler == Returned(ReturnedNil)
  {
    p, s := ARequestIsLost();
    p, s := After(p, s, ByC2S(C2SRecvFails(EOF)));
    p, s := After(p, s, ByC2S(C2SReport));
    p, s := After(p, s, ByHandler(SelectC2S));
  }

  /** A request is logged, and its send to the backend fails. */
  lemma ARequestIsLost() returns (p: seq<Step>, s: State)
    ensures Run(p) == Some(s) && |p| > 4 && p[4] == ByS2C(S2CSendFails(EOF))
    ensures s.log == [Event(ClientMessage, [7])] && s.backend.read == [] && s.toBackend == []
    ensures s.s2c == S2CDone([[7]]) && s.handler == Selecting(1)
    ensures s.c2s == C2SReceiving && s.c2sErr == None && s.fromBackend == [] && s.backendDone == Some(StatusOK)
  {
    p, s := TheBackendEndsEarly();
    p, s := After(p, s, ByS2C(S2CSendFails(EOF)));
    p, s := After(p, s, ByS2C(S2CReport));
    p, s := After(p, s, ByHandler(SelectS2C));
  }

  /** The backend ends the RPC while a request is on its way to it. */
  lemma TheBackendEndsEarly() returns (p: seq<Step>, s: State)
    ensures Run(p) == Some(s) && |p| == 4
    ensures s.log == [Event(ClientMessage, [7])] && s.backend.read == [] && s.toBackend == []
    ensures s.s2c == S2CSending([7]) && s.s2cErr == None && s.handler == Selecting(0)
    ensures s.c2s == C2SReceiving && s.c2sErr == None && s.fromBackend == [] && s.backendDone == Some(StatusOK)
  {
    p, s := [], INITIAL;
    p, s := After(p, s, ByEndpoint(ClientEmits([7])));
    p, s := After(p, s, ByS2C(S2CRecv));
    p, s := After(p, s, ByS2C(S2CRecord));
    p, s := After(p, s, ByEndpoint(BackendEnds(StatusOK)));
  }

  lemma After(p: seq<Step>, s: State, a: Step) returns (q: seq<Step>, t: State)
    requires Run(p) == Some(s) && Enabled(s, a)
    ensures q == p + [a] && t == Next(s, a) && Run(q) == Some(t)
  {
    q, t := p + [a], Next(s, a);
    assert q[..|p|] == p;
  }
}
