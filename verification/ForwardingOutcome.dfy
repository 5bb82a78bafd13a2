/** Why the handler of a proxied RPC returns what it returns: its result and whether it closed
    the sending side follow from which steps of the run failed, and with what. */
module ForwardingOutcome {
  import opened Messages
  import opened Forwarding
  import opened ForwardingSafety

  // ---------- What happened in a run ----------

  /** The step in which the goroutine from the client to the backend fails. */
  predicate S2CFailsWith(a: Step, e: Error) {
    a == ByS2C(S2CRecvFails(e)) || a == ByS2C(S2CSendFails(e))
  }

  /** The step in which the goroutine from the backend to the client fails. */
  predicate C2SFailsWith(a: Step, e: Error) {
    || a == ByC2S(C2SRecvFails(e))
    || (e.Fault? &&
        a in {ByC2S(C2SHeaderFails(e.code)), ByC2S(C2SSendHeaderFails(e.code)), ByC2S(C2SSendFails(e.code))})
  }

  ghost predicate S2CFailed(steps: seq<Step>, e: Error) {
    exists i :: 0 <= i < |steps| && S2CFailsWith(steps[i], e)
  }

  ghost predicate C2SFailed(steps: seq<Step>, e: Error) {
    exists i :: 0 <= i < |steps| && C2SFailsWith(steps[i], e)
  }

  /** The handler has taken the report of the one goroutine, or of the other. */
  ghost predicate S2CTaken(steps: seq<Step>) {
    ByHandler(SelectS2C) in steps
  }

  ghost predicate C2STaken(steps: seq<Step>) {
    ByHandler(SelectC2S) in steps
  }

  /** Main result, for every run. The handler has returned if and only if it has taken the
      report of the backend's side, or of the client's side with anything but io.EOF. It
      returns nil exactly when the backend's side ended with io.EOF, and otherwise the error
      of the side it took last; an io.EOF from the client's side closes the sending side. */
  lemma TheResultIsTheFailureTaken(steps: seq<Step>)
    requires Run(steps).Some?
    ensures var s := Run(steps).value;
            && (s.handler.Returned? <==> C2STaken(steps) || (S2CTaken(steps) && !S2CFailed(steps, EOF)))
            && (s.handler == Returned(ReturnedNil) <==> C2STaken(steps) && C2SFailed(steps, EOF))
            && (forall e :: s.handler == Returned(ReturnedError(e)) <==>
                  e != EOF && ((C2STaken(steps) && C2SFailed(steps, e)) || (S2CTaken(steps) && S2CFailed(steps, e))))
            && (s.sendClosed <==> S2CTaken(steps) && S2CFailed(steps, EOF))
  {
    EveryRunIsExplained(steps);
    S2CFailsOnce(steps);
    C2SFailsOnce(steps);
  }

  // ---------- The same as functions of the run ----------

  function S2CFailureBy(a: Step, before: Option<Error>): Option<Error> {
    match a
    case ByS2C(S2CRecvFails(e)) => Some(e)
    case ByS2C(S2CSendFails(e)) => Some(e)
    case _ => before
  }

  function C2SFailureBy(a: Step, before: Option<Error>): Option<Error> {
    match a
    case ByC2S(C2SRecvFails(e)) => Some(e)
    case ByC2S(C2SHeaderFails(code)) => Some(Fault(code))
    case ByC2S(C2SSendHeaderFails(code)) => Some(Fault(code))
    case ByC2S(C2SSendFails(code)) => Some(Fault(code))
    case _ => before
  }

  function S2CFailure(steps: seq<Step>): Option<Error> {
    if steps == [] then None else S2CFailureBy(steps[|steps| - 1], S2CFailure(steps[..|steps| - 1]))
  }

  function C2SFailure(steps: seq<Step>): Option<Error> {
    if steps == [] then None else C2SFailureBy(steps[|steps| - 1], C2SFailure(steps[..|steps| - 1]))
  }

  /** The goroutine from the client: what it reports is how it failed, and it has reported
      once the handler has taken it. */
  ghost predicate S2CExplained(s: State, failure: Option<Error>, taken: bool) {
    match s.s2c
    case S2CReporting(err, _) => failure == Some(err) && !taken && s.s2cErr.None?
    case S2CDone(_) => failure.Some? && s.s2cErr == if taken then None else failure
    case _ => failure.None? && !taken && s.s2cErr.None?
  }

  ghost predicate C2SExplained(s: State, failure: Option<Error>, taken: bool) {
    match s.c2s
    case C2SReporting(err, _, _) => failure == Some(err) && !taken && s.c2sErr.None?
    case C2SDone(_, _) => failure.Some? && s.c2sErr == if taken then None else failure
    case _ => failure.None? && !taken && s.c2sErr.None?
  }

  ghost predicate HandlerExplained(s: State, up: Option<Error>, upTaken: bool, down: Option<Error>, downTaken: bool) {
    && (upTaken ==> up.Some?) && (downTaken ==> down.Some?)
    && (upTaken && up != Some(EOF) ==> !downTaken)
    && s.handler ==
         (if downTaken then Returned(if down == Some(EOF) then ReturnedNil else ReturnedError(down.value))
          else if upTaken && up != Some(EOF) then Returned(ReturnedError(up.value))
          else Selecting(if upTaken then 1 else 0))
    && (s.sendClosed <==> upTaken && up == Some(EOF))
  }

  ghost predicate AllExplained(s: State, up: Option<Error>, upTaken: bool, down: Option<Error>, downTaken: bool) {
    && S2CExplained(s, up, upTaken) && C2SExplained(s, down, downTaken)
    && HandlerExplained(s, up, upTaken, down, downTaken)
  }

  ghost predicate Explained(steps: seq<Step>, s: State) {
    AllExplained(s, S2CFailure(steps), S2CTaken(steps), C2SFailure(steps), C2STaken(steps))
  }

  lemma {:induction false} EveryRunIsExplained(steps: seq<Step>)
    requires Run(steps).Some?
    ensures Explained(steps, Run(steps).value)
  {
    if steps != [] {
      var n := |steps| - 1;
      EveryRunIsExplained(steps[..n]);
      assert steps == steps[..n] + [steps[n]];
      StepIsExplained(Run(steps[..n]).value, steps[n], S2CFailure(steps[..n]), S2CTaken(steps[..n]),
                      C2SFailure(steps[..n]), C2STaken(steps[..n]));
    }
  }

  lemma StepIsExplained(s: State, a: Step, up: Option<Error>, upTaken: bool, down: Option<Error>, downTaken: bool)
    requires AllExplained(s, up, upTaken, down, downTaken) && Enabled(s, a)
    ensures AllExplained(Next(s, a), S2CFailureBy(a, up), upTaken || a == ByHandler(SelectS2C),
                         C2SFailureBy(a, down), downTaken || a == ByHandler(SelectC2S))
  {
    match a
    case ByEndpoint(e) => EndpointIsExplained(s, e, up, upTaken, down, downTaken);
    case ByS2C(u) => S2CIsExplained(s, u, up, upTaken, down, downTaken);
    case ByC2S(d) => C2SIsExplained(s, d, up, upTaken, down, downTaken);
    case ByHandler(h) => HandlerIsExplained(s, h, up, upTaken, down, downTaken);
  }

  lemma EndpointIsExplained(
      s: State, e: EndpointStep, up: Option<Error>, upTaken: bool, down: Option<Error>, downTaken: bool)
    requires AllExplained(s, up, upTaken, down, downTaken) && EndpointEnabled(s, e)
    ensures AllExplained(EndpointNext(s, e), up, upTaken, down, downTaken)
  {
    var t := EndpointNext(s, e);
    assert t.s2c == s.s2c && t.s2cErr == s.s2cErr && t.c2s == s.c2s && t.c2sErr == s.c2sErr;
    assert t.handler == s.handler && t.sendClosed == s.sendClosed;
  }

  lemma S2CIsExplained(s: State, u: S2CStep, up: Option<Error>, upTaken: bool, down: Option<Error>, downTaken: bool)
    requires AllExplained(s, up, upTaken, down, downTaken) && S2CEnabled(s, u)
    ensures AllExplained(S2CNext(s, u), S2CFailureBy(ByS2C(u), up), upTaken, down, downTaken)
  {
  }

  lemma C2SIsExplained(s: State, d: C2SStep, up: Option<Error>, upTaken: bool, down: Option<Error>, downTaken: bool)
    requires AllExplained(s, up, upTaken, down, downTaken) && C2SEnabled(s, d)
    ensures AllExplained(C2SNext(s, d), up, upTaken, C2SFailureBy(ByC2S(d), down), downTaken)
  {
  }

  lemma HandlerIsExplained(
      s: State, h: HandlerStep, up: Option<Error>, upTaken: bool, down: Option<Error>, downTaken: bool)
    requires AllExplained(s, up, upTaken, down, downTaken) && HandlerEnabled(s, h)
    ensures AllExplained(HandlerNext(s, h), up, upTaken || h == SelectS2C, down, downTaken || h == SelectC2S)
  {
    HandlerIsAside(s, h);
  }

  // ---------- Each goroutine fails at most once ----------

  lemma {:induction false} S2CFailsOnce(steps: seq<Step>)
    requires Run(steps).Some?
    ensures forall e :: S2CFailed(steps, e) <==> S2CFailure(steps) == Some(e)
  {
    if steps != [] {
      var n := |steps| - 1;
      S2CFailsOnce(steps[..n]);
      EveryRunIsExplained(steps[..n]);
      forall e ensures S2CFailed(steps, e) <==> S2CFailed(steps[..n], e) || S2CFailsWith(steps[n], e) {
        if S2CFailed(steps[..n], e) {
          var i :| 0 <= i < n && S2CFailsWith(steps[..n][i], e);
          assert S2CFailsWith(steps[i], e);
        }
        if S2CFailed(steps, e) && !S2CFailsWith(steps[n], e) {
          var i :| 0 <= i < |steps| && S2CFailsWith(steps[i], e);
          assert S2CFailsWith(steps[..n][i], e);
        }
      }
    }
  }

  lemma {:induction false} C2SFailsOnce(steps: seq<Step>)
    requires Run(steps).Some?
    ensures forall e :: C2SFailed(steps, e) <==> C2SFailure(steps) == Some(e)
  {
    if steps != [] {
      var n := |steps| - 1;
      C2SFailsOnce(steps[..n]);
      EveryRunIsExplained(steps[..n]);
      forall e ensures C2SFailed(steps, e) <==> C2SFailed(steps[..n], e) || C2SFailsWith(steps[n], e) {
        if C2SFailed(steps[..n], e) {
          var i :| 0 <= i < n && C2SFailsWith(steps[..n][i], e);
          assert C2SFailsWith(steps[i], e);
        }
        if C2SFailed(steps, e) && !C2SFailsWith(steps[n], e) {
          var i :| 0 <= i < |steps| && C2SFailsWith(steps[i], e);
          assert C2SFailsWith(steps[..n][i], e);
        }
      }
    }
  }

  // ---------- What is dumped ----------

  /** The dump is the log at the moment at which the interceptor took the lock, whatever
      happens after that. */
  lemma {:induction false} TheDumpIsTheLogAtTheLock(steps: seq<Step>, i: nat)
    requires Run(steps).Some? && i < |steps| && steps[i] == ByHandler(DumpLocks)
    ensures Run(steps[..i]).Some? && Dumps(Run(steps).value.dump, Run(steps[..i]).value.log)
  {
    var n := |steps| - 1;
    if i < n {
      TheDumpIsTheLogAtTheLock(steps[..n], i);
      assert steps[..n][..i] == steps[..i];
      DumpStays(Run(steps[..n]).value, steps[n]);
    } else {
      DumpStarts(Run(steps[..n]).value);
    }
  }

  lemma DumpStarts(s: State)
    requires Enabled(s, ByHandler(DumpLocks))
    ensures Dumps(Next(s, ByHandler(DumpLocks)).dump, s.log)
  {
  }

  /** These messages are being dumped, or have been. */
  predicate Dumps(dump: Dump, messages: seq<Event>) {
    !dump.Waiting? && dump.messages == messages
  }

  lemma DumpStays(s: State, a: Step)
    requires Enabled(s, a) && !s.dump.Waiting?
    ensures Dumps(Next(s, a).dump, s.dump.messages)
  {
    match a
    case ByEndpoint(e) => EndpointLeavesTheDump(s, e);
    case ByS2C(u) => S2CLeavesTheDump(s, u);
    case ByC2S(d) => C2SLeavesTheDump(s, d);
    case ByHandler(h) => HandlerKeepsTheDump(s, h);
  }

  lemma EndpointLeavesTheDump(s: State, e: EndpointStep)
    requires EndpointEnabled(s, e)
    ensures EndpointNext(s, e).dump == s.dump
  {
  }

  lemma S2CLeavesTheDump(s: State, u: S2CStep)
    requires S2CEnabled(s, u)
    ensures S2CNext(s, u).dump == s.dump
  {
  }

  lemma C2SLeavesTheDump(s: State, d: C2SStep)
    requires C2SEnabled(s, d)
    ensures C2SNext(s, d).dump == s.dump
  {
  }

  lemma HandlerKeepsTheDump(s: State, h: HandlerStep)
    requires HandlerEnabled(s, h) && !s.dump.Waiting?
    ensures Dumps(HandlerNext(s, h).dump, s.dump.messages)
  {
  }

  // ---------- The end of the client's side ----------

  /** The client has closed its side, and all it said has been taken and lost by nobody. */
  predicate ClientIsDone(s: State) {
    s.clientClosed && s.toProxy == [] && (s.s2c.S2CReporting? || s.s2c.S2CDone?) && s.s2c.lost == []
  }

  /** In every run in which receiving from the client has ended with io.EOF: the client has
      closed its side, and everything it will ever have said is in the log and was given to
      the backend. */
  lemma TheEndMeansEverythingWasSaid(steps: seq<Step>)
    requires Run(steps).Some? && ByS2C(S2CRecvFails(EOF)) in steps
    ensures var s := Run(steps).value;
            s.clientClosed && Raws(s.log, ClientMessage) == s.client.emitted == s.backend.read + s.toBackend
  {
    TheEndIsTheEnd(steps);
    EveryRunIsSafe(steps);
    LostOnlyByFailedSends(steps);
    RequestsAreCoveredUnlessASendFailed(steps);
  }

  lemma {:induction false} TheEndIsTheEnd(steps: seq<Step>)
    requires Run(steps).Some? && ByS2C(S2CRecvFails(EOF)) in steps
    ensures ClientIsDone(Run(steps).value)
  {
    var n := |steps| - 1;
    assert steps == steps[..n] + [steps[n]];
    if ByS2C(S2CRecvFails(EOF)) in steps[..n] {
      TheEndIsTheEnd(steps[..n]);
      ClientStaysDone(Run(steps[..n]).value, steps[n]);
    }
  }

  lemma ClientStaysDone(s: State, a: Step)
    requires ClientIsDone(s) && Enabled(s, a)
    ensures ClientIsDone(Next(s, a))
  {
  }

  /** A send to the backend has only failed with io.EOF if the backend has ended the RPC. */
  lemma {:induction false} SendsEndWithTheBackend(steps: seq<Step>)
    requires Run(steps).Some? && ByS2C(S2CSendFails(EOF)) in steps
    ensures Run(steps).value.backendDone.Some?
  {
    var n := |steps| - 1;
    assert steps == steps[..n] + [steps[n]];
    if ByS2C(S2CSendFails(EOF)) in steps[..n] {
      SendsEndWithTheBackend(steps[..n]);
    }
    TheBackendStaysDone(Run(steps[..n]).value, steps[n]);
  }

  lemma TheBackendStaysDone(s: State, a: Step)
    requires Enabled(s, a) && (s.backendDone.Some? || a == ByS2C(S2CSendFails(EOF)))
    ensures Next(s, a).backendDone.Some?
  {
  }

  /** Other failures can happen whenever a goroutine receives or sends. */
  lemma AnythingCanFail(steps: seq<Step>, code: nat)
    requires Run(steps).Some?
    ensures var s := Run(steps).value;
            s.s2c == S2CReceiving || s.s2c.S2CSending? ==>
              exists a :: S2CFailsWith(a, Fault(code)) && Run(steps + [a]).Some?
    ensures var s := Run(steps).value;
            s.c2s == C2SReceiving || s.c2s.C2SGettingHeader? || (s.c2s.C2SSendingHeader? && !s.dump.Holding?)
            || s.c2s.C2SSending? ==>
              exists a :: C2SFailsWith(a, Fault(code)) && Run(steps + [a]).Some?
  {
    var s := Run(steps).value;
    var up := if s.s2c.S2CSending? then S2CSendFails(Fault(code)) else S2CRecvFails(Fault(code));
    var down :=
      match s.c2s
      case C2SGettingHeader(_) => C2SHeaderFails(code)
      case C2SSendingHeader(_) => C2SSendHeaderFails(code)
      case C2SSending(_) => C2SSendFails(code)
      case _ => C2SRecvFails(Fault(code));
    assert (steps + [ByS2C(up)])[..|steps|] == steps && S2CFailsWith(ByS2C(up), Fault(code));
    assert (steps + [ByC2S(down)])[..|steps|] == steps && C2SFailsWith(ByC2S(down), Fault(code));
  }

  // ---------- Every exchange can go through ----------

  /** Nobody has anything to do but to wait for the endpoints, after these messages. */
  ghost predicate Quiet(p: seq<Step>, s: State, es: seq<Event>) {
    Idle(p, s, es) && s.s2c == S2CReceiving && !s.clientClosed && !s.sendClosed && s.handler == Selecting(0)
  }

  ghost predicate Idle(p: seq<Step>, s: State, es: seq<Event>) {
    && Run(p) == Some(s) && s.log == es && s.c2s == C2SReceiving && s.c2sErr == None
    && s.toProxy == [] && s.toBackend == [] && s.fromBackend == [] && s.toClient == []
    && s.backendDone == None && s.dump == Waiting
  }

  /** Both endpoints have read all that the other one said, the handler has returned nil, and
      the dump has been written and holds just that. If the client has closed its side, so has
      the handler its own. */
  ghost predicate WentThrough(steps: seq<Step>, es: seq<Event>, closes: bool) {
    && Run(steps).Some?
    && var s := Run(steps).value;
       && s.client.emitted == s.backend.read == Raws(es, ClientMessage)
       && s.backend.emitted == s.client.read == Raws(es, ServerMessage)
       && s.handler == Returned(ReturnedNil) && s.dump == Written(es)
       && s.clientClosed == s.sendClosed == closes
  }

  /** Whatever client and backend have to say to each other, in any order, and whether or not
      the client closes its side in the end: there is a run in which all of it goes through
      and is dumped in that order. */
  lemma EveryExchangeCanGoThrough(es: seq<Event>, closes: bool)
    requires forall i :: 0 <= i < |es| ==> es[i].origin in {ClientMessage, ServerMessage}
    ensures exists steps :: WentThrough(steps, es, closes)
  {
    var p, s := MessagesGoThrough(es);
    if closes {
      p, s := TheClientCloses(p, s, es);
    }
    p, s := TheRpcEnds(p, s, es, closes);
    p, s := TheDumpIsWritten(p, s, es);
    EveryRunIsSafe(p);
    assert WentThrough(p, es, closes);
  }

  lemma {:induction false} MessagesGoThrough(es: seq<Event>) returns (p: seq<Step>, s: State)
    requires forall i :: 0 <= i < |es| ==> es[i].origin in {ClientMessage, ServerMessage}
    ensures Quiet(p, s, es)
  {
    if es == [] {
      return [], INITIAL;
    }
    var n := |es| - 1;
    p, s := MessagesGoThrough(es[..n]);
    assert es == es[..n] + [es[n]] && es[n] == Event(es[n].origin, es[n].raw);
    if es[n].origin == ClientMessage {
      p, s := RequestGoesThrough(p, s, es[..n], es[n].raw);
    } else {
      p, s := ResponseGoesThrough(p, s, es[..n], es[n].raw);
    }
  }

  lemma RequestGoesThrough(p: seq<Step>, s: State, es: seq<Event>, m: Bytes) returns (q: seq<Step>, t: State)
    requires Quiet(p, s, es)
    ensures Quiet(q, t, es + [Event(ClientMessage, m)])
  {
    q, t := After(p, s, ByEndpoint(ClientEmits(m)));
    q, t := After(q, t, ByS2C(S2CRecv));
    q, t := After(q, t, ByS2C(S2CRecord));
    q, t := After(q, t, ByS2C(S2CSend));
    q, t := After(q, t, ByEndpoint(BackendReads));
  }

  lemma ResponseGoesThrough(p: seq<Step>, s: State, es: seq<Event>, m: Bytes) returns (q: seq<Step>, t: State)
    requires Quiet(p, s, es)
    ensures Quiet(q, t, es + [Event(ServerMessage, m)])
  {
    q, t := ResponseArrives(p, s, es, m);
    q, t := After(q, t, ByC2S(C2SRecord));
    q, t := After(q, t, ByC2S(C2SSend));
    q, t := After(q, t, ByEndpoint(ClientReads));
  }

  /** The first response takes the headers with it. */
  lemma ResponseArrives(p: seq<Step>, s: State, es: seq<Event>, m: Bytes) returns (q: seq<Step>, t: State)
    requires Quiet(p, s, es)
    ensures Run(q) == Some(t) && t.c2s == C2SRecording(m)
    ensures t.log == es && t.s2c == S2CReceiving && t.c2sErr == None && !t.sendClosed
    ensures t.toProxy == [] && t.toBackend == [] && t.fromBackend == [] && t.toClient == []
    ensures t.backendDone == None && !t.clientClosed && t.handler == Selecting(0) && t.dump == Waiting
  {
    q, t := After(p, s, ByEndpoint(BackendEmits(m)));
    q, t := After(q, t, ByC2S(C2SRecv));
    if s.c2sFirst {
      q, t := After(q, t, ByC2S(C2SHeader));
      q, t := After(q, t, ByC2S(C2SSendHeader));
    }
  }

  /** The end of the client's side is passed on. */
  lemma TheClientCloses(p: seq<Step>, s: State, es: seq<Event>) returns (q: seq<Step>, t: State)
    requires Quiet(p, s, es)
    ensures Idle(q, t, es) && t.s2c == S2CDone([]) && t.clientClosed && t.sendClosed && t.handler == Selecting(1)
  {
    EveryRunIsSafe(p);
    q, t := After(p, s, ByEndpoint(ClientCloses));
    q, t := After(q, t, ByS2C(S2CRecvFails(EOF)));
    q, t := After(q, t, ByS2C(S2CReport));
    q, t := After(q, t, ByHandler(SelectS2C));
  }

  /** If it did not close, the goroutine from the client stays where it is. */
  lemma TheRpcEnds(p: seq<Step>, s: State, es: seq<Event>, closes: bool) returns (q: seq<Step>, t: State)
    requires Idle(p, s, es) && s.clientClosed == s.sendClosed == closes && s.s2c in {S2CReceiving, S2CDone([])}
    requires s.handler.Selecting? && s.handler.round < 2
    ensures Run(q) == Some(t) && t.log == es && t.handler == Returned(ReturnedNil) && t.dump == Waiting
    ensures t.toProxy == [] && t.toBackend == [] && t.fromBackend == [] && t.toClient == []
    ensures t.s2c == s.s2c && t.c2s == C2SDone([], []) && t.clientClosed == t.sendClosed == closes
  {
    q, t := After(p, s, ByEndpoint(BackendEnds(StatusOK)));
    q, t := After(q, t, ByC2S(C2SRecvFails(EOF)));
    q, t := After(q, t, ByC2S(C2SReport));
    q, t := After(q, t, ByHandler(SelectC2S));
  }

  lemma TheDumpIsWritten(p: seq<Step>, s: State, es: seq<Event>) returns (q: seq<Step>, t: State)
    requires Run(p) == Some(s) && s.log == es && s.handler.Returned? && s.dump == Waiting
    ensures Run(q) == Some(t) && t == s.(dump := Written(es))
  {
    q, t := After(p, s, ByHandler(DumpLocks));
    while t.dump.decoded < |es|
      invariant Run(q) == Some(t) && t.dump.Holding? && t == s.(dump := Holding(es, t.dump.decoded))
      invariant t.dump.decoded <= |es|
    {
      q, t := After(q, t, ByHandler(DumpDecodes));
    }
    q, t := After(q, t, ByHandler(DumpWrites));
  }
}
