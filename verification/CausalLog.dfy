/** The event log of a proxied RPC is a linear extension of the causal order that the two
    endpoints observe: whatever a message may depend on is in the log before it. */
module CausalLog {
  import opened Messages
  import opened Forwarding
  import opened ForwardingSafety

  function Other(o: Origin): Origin {
    if o == ClientMessage then ServerMessage else ClientMessage
  }

  /** For each event of the origin, in order, how many events of the other side precede it. */
  function Stamps(log: seq<Event>, o: Origin): seq<nat> {
    if log == [] then []
    else
      var init := log[..|log| - 1];
      if log[|log| - 1].origin == o then Stamps(init, o) + [|Raws(init, Other(o))|] else Stamps(init, o)
  }

  lemma StampsSnoc(log: seq<Event>, e: Event, o: Origin)
    ensures Stamps(log + [e], o) == Stamps(log, o) + if e.origin == o then [|Raws(log, Other(o))|] else []
  {
    assert (log + [e])[..|log|] == log;
  }

  /** The sender had read nothing that is not in the log by now. */
  ghost predicate ReadsLogged(h: History, logged: nat) {
    |h.readBefore| == |h.emitted| && forall k :: 0 <= k < |h.readBefore| ==> h.readBefore[k] <= logged
  }

  /** Each logged message comes after everything its sender had read before emitting it. */
  ghost predicate CausesFirst(stamps: seq<nat>, h: History) {
    |stamps| <= |h.readBefore| && forall k :: 0 <= k < |stamps| ==> h.readBefore[k] <= stamps[k]
  }

  ghost predicate Causal(s: State) {
    && ReadsLogged(s.backend, |Raws(s.log, ClientMessage)|)
    && ReadsLogged(s.client, |Raws(s.log, ServerMessage)|)
    && |Stamps(s.log, ServerMessage)| == |Raws(s.log, ServerMessage)|
    && |Stamps(s.log, ClientMessage)| == |Raws(s.log, ClientMessage)|
    && CausesFirst(Stamps(s.log, ServerMessage), s.backend)
    && CausesFirst(Stamps(s.log, ClientMessage), s.client)
  }

  /** Recording happens after a receive and before a send, which is all it takes. */
  lemma StepIsCausal(s: State, a: Step)
    requires Flow(s) && Causal(s) && Enabled(s, a)
    ensures Causal(Next(s, a))
  {
    match a
    case ByEndpoint(e) => EndpointsAreCausal(s, e);
    case ByS2C(u) => S2CIsCausal(s, u);
    case ByC2S(d) => C2SIsCausal(s, d);
    case ByHandler(h) => HandlerIsCausal(s, h);
  }

  lemma EndpointsAreCausal(s: State, e: EndpointStep)
    requires Flow(s) && Causal(s) && EndpointEnabled(s, e)
    ensures Causal(EndpointNext(s, e))
  {
  }

  lemma HandlerIsCausal(s: State, h: HandlerStep)
    requires Causal(s) && HandlerEnabled(s, h)
    ensures Causal(HandlerNext(s, h))
  {
    HandlerIsAside(s, h);
  }

  lemma S2CIsCausal(s: State, u: S2CStep)
    requires Flow(s) && Causal(s) && S2CEnabled(s, u)
    ensures Causal(S2CNext(s, u))
  {
    if u == S2CRecord {
      Recorded(s.log, Event(ClientMessage, s.s2c.m), s.client, s.backend);
    }
  }

  lemma C2SIsCausal(s: State, d: C2SStep)
    requires Flow(s) && Causal(s) && C2SEnabled(s, d)
    ensures Causal(C2SNext(s, d))
  {
    if d == C2SRecord {
      Recorded(s.log, Event(ServerMessage, s.c2s.m), s.backend, s.client);
    }
  }

  /** One more event of the sender goes into the log. */
  lemma Recorded(log: seq<Event>, e: Event, sender: History, other: History)
    requires e.origin in {ClientMessage, ServerMessage}
    requires |Raws(log, e.origin)| < |sender.emitted|
    requires ReadsLogged(sender, |Raws(log, Other(e.origin))|) && ReadsLogged(other, |Raws(log, e.origin)|)
    requires |Stamps(log, e.origin)| == |Raws(log, e.origin)|
    requires |Stamps(log, Other(e.origin))| == |Raws(log, Other(e.origin))|
    requires CausesFirst(Stamps(log, e.origin), sender) && CausesFirst(Stamps(log, Other(e.origin)), other)
    ensures ReadsLogged(sender, |Raws(log + [e], Other(e.origin))|)
    ensures ReadsLogged(other, |Raws(log + [e], e.origin)|)
    ensures |Stamps(log + [e], e.origin)| == |Raws(log + [e], e.origin)|
    ensures |Stamps(log + [e], Other(e.origin))| == |Raws(log + [e], Other(e.origin))|
    ensures CausesFirst(Stamps(log + [e], e.origin), sender)
    ensures CausesFirst(Stamps(log + [e], Other(e.origin)), other)
  {
    RawsSnoc(log, e, e.origin);
    RawsSnoc(log, e, Other(e.origin));
    StampsSnoc(log, e, e.origin);
    StampsSnoc(log, e, Other(e.origin));
  }

  lemma {:induction false} EveryRunIsCausal(steps: seq<Step>)
    requires Run(steps).Some?
    ensures Causal(Run(steps).value)
  {
    if steps != [] {
      var n := |steps| - 1;
      EveryRunIsCausal(steps[..n]);
      EveryRunIsSafe(steps[..n]);
      StepIsCausal(Run(steps[..n]).value, steps[n]);
    }
  }

  // ---------- From counts to positions ----------

  /** A message of the RPC: the k-th one of its sender. */
  datatype Id = Id(origin: Origin, k: nat)

  predicate InLog(log: seq<Event>, m: Id) {
    m.origin in {ClientMessage, ServerMessage} && m.k < |Raws(log, m.origin)|
  }

  /** Where in the log a message stands. */
  function Position(log: seq<Event>, m: Id): nat
    requires InLog(log, m)
  {
    var init := log[..|log| - 1];
    if InLog(init, m) then Position(init, m) else |log| - 1
  }

  lemma {:induction false} PositionHoldsMessage(log: seq<Event>, m: Id)
    requires InLog(log, m)
    ensures Position(log, m) < |log|
    ensures log[Position(log, m)] == Event(m.origin, Raws(log, m.origin)[m.k])
  {
    var init := log[..|log| - 1];
    if InLog(init, m) {
      PositionHoldsMessage(init, m);
    }
  }

  lemma {:induction false} PositionsFollowEmission(log: seq<Event>, m: Id, n: Id)
    requires InLog(log, n) && m.origin == n.origin && m.k < n.k
    ensures InLog(log, m) && Position(log, m) < Position(log, n)
  {
    var init := log[..|log| - 1];
    if InLog(init, n) {
      PositionsFollowEmission(init, m, n);
    } else {
      PositionHoldsMessage(init, m);
    }
  }

  lemma {:induction false} StampsArePositions(log: seq<Event>, m: Id, n: Id)
    requires InLog(log, n) && m.origin == Other(n.origin)
    requires |Stamps(log, n.origin)| == |Raws(log, n.origin)|
    requires m.k < Stamps(log, n.origin)[n.k]
    ensures InLog(log, m) && Position(log, m) < Position(log, n)
  {
    var init := log[..|log| - 1];
    StampsMatch(init, n.origin);
    if InLog(init, n) {
      StampsArePositions(init, m, n);
    } else {
      PositionHoldsMessage(init, m);
    }
  }

  lemma {:induction false} StampsMatch(log: seq<Event>, o: Origin)
    ensures |Stamps(log, o)| == |Raws(log, o)|
  {
    if log != [] {
      StampsMatch(log[..|log| - 1], o);
    }
  }

  // ---------- The causal order ----------

  function Sender(s: State, o: Origin): History {
    if o == ClientMessage then s.client else s.backend
  }

  /** x directly precedes y: the same endpoint emitted x first, or the endpoint that
      emitted y had read x before. */
  predicate Precedes(s: State, x: Id, y: Id) {
    && x.origin in {ClientMessage, ServerMessage} && y.origin in {ClientMessage, ServerMessage}
    && y.k < |Sender(s, y.origin).readBefore|
    && if x.origin == y.origin then x.k < y.k else x.k < Sender(s, y.origin).readBefore[y.k]
  }

  /** A chain of direct steps from the first message to the last. */
  predicate Chain(s: State, ids: seq<Id>) {
    |ids| > 0 && forall i :: 0 <= i < |ids| - 1 ==> Precedes(s, ids[i], ids[i + 1])
  }

  lemma PrecedenceIsLogged(s: State, x: Id, y: Id)
    requires Causal(s) && Precedes(s, x, y) && InLog(s.log, y)
    ensures InLog(s.log, x) && Position(s.log, x) < Position(s.log, y)
  {
    if x.origin == y.origin {
      PositionsFollowEmission(s.log, x, y);
    } else {
      StampsArePositions(s.log, x, y);
    }
  }

  lemma {:induction false} ChainIsLogged(s: State, ids: seq<Id>)
    requires Causal(s) && Chain(s, ids) && |ids| > 1 && InLog(s.log, ids[|ids| - 1])
    ensures InLog(s.log, ids[0]) && Position(s.log, ids[0]) < Position(s.log, ids[|ids| - 1])
  {
    PrecedenceIsLogged(s, ids[|ids| - 2], ids[|ids| - 1]);
    if |ids| > 2 {
      ChainIsLogged(s, ids[..|ids| - 1]);
    }
  }

  /** Main result. In every run and at every moment: if a logged message depends, through
      any chain of sends and reads at the two endpoints, on another message, then that one
      is in the log, earlier. */
  lemma LogIsALinearExtension(steps: seq<Step>, ids: seq<Id>)
    requires Run(steps).Some?
    requires Chain(Run(steps).value, ids) && |ids| > 1
    requires InLog(Run(steps).value.log, ids[|ids| - 1])
    ensures var log := Run(steps).value.log;
            InLog(log, ids[0]) && Position(log, ids[0]) < Position(log, ids[|ids| - 1])
  {
    EveryRunIsCausal(steps);
    ChainIsLogged(Run(steps).value, ids);
  }

  /** The logged messages are the emitted ones: the k-th of each side stands where Position says. */
  lemma LogHoldsTheMessages(steps: seq<Step>, m: Id)
    requires Run(steps).Some? && InLog(Run(steps).value.log, m)
    ensures var s := Run(steps).value;
            var p := Position(s.log, m);
            p < |s.log| && m.k < |Sender(s, m.origin).emitted|
            && s.log[p] == Event(m.origin, Sender(s, m.origin).emitted[m.k])
  {
    EachSideSeesAPrefix(steps);
    PositionHoldsMessage(Run(steps).value.log, m);
  }

  /** The same for what the dump writes, even while a goroutine is still running: it is
      causally closed and ordered. */
  lemma DumpIsALinearExtension(steps: seq<Step>, ids: seq<Id>)
    requires Run(steps).Some? && Run(steps).value.dump.Written?
    requires Chain(Run(steps).value, ids) && |ids| > 1
    requires InLog(Run(steps).value.dump.messages, ids[|ids| - 1])
    ensures var dumped := Run(steps).value.dump.messages;
            InLog(dumped, ids[0]) && Position(dumped, ids[0]) < Position(dumped, ids[|ids| - 1])
  {
    var s := Run(steps).value;
    EveryRunIsSafe(steps);
    var last := ids[|ids| - 1];
    PositionInPrefix(s.dump.messages, s.log, last);
    LogIsALinearExtension(steps, ids);
    EarlierIsInPrefix(s.dump.messages, s.log, ids[0], Position(s.log, last));
  }

  lemma {:induction false} PositionInPrefix(part: seq<Event>, log: seq<Event>, m: Id)
    requires part <= log && InLog(part, m)
    ensures InLog(log, m) && Position(log, m) == Position(part, m) < |part|
    decreases |log|
  {
    PositionHoldsMessage(part, m);
    if part == log {
    } else {
      var init := log[..|log| - 1];
      assert part <= init;
      PositionInPrefix(part, init, m);
    }
  }

  lemma {:induction false} EarlierIsInPrefix(part: seq<Event>, log: seq<Event>, m: Id, before: nat)
    requires part <= log && InLog(log, m) && Position(log, m) < before <= |part|
    ensures InLog(part, m) && Position(part, m) == Position(log, m)
    decreases |log|
  {
    if part != log {
      var init := log[..|log| - 1];
      assert part <= init;
      EarlierIsInPrefix(part, init, m, before);
    }
  }
}
