/** grpc-fixture's server side: walking the tree of saved messages to answer a client. */
module Interceptor {
  import opened Messages
  import opened Recordings
  import opened FixtureTrie

  datatype Outcome = Completed | NoSavedResponses | NoMatchingResponse | SendFailed | RecvFailed

  /** The client's side of one stream as the interceptor sees it: what is still to be
      received, what was sent, and how many more sends will succeed. */
  class ServerStream {
    var inbox: seq<Bytes>
    var outbox: seq<Bytes>
    var sendable: nat

    constructor (inbox: seq<Bytes>, sendable: nat)
      ensures this.inbox == inbox && this.sendable == sendable && outbox == []
    {
      this.inbox, this.outbox, this.sendable := inbox, [], sendable;
    }

    method SendMsg(m: Bytes) returns (ok: bool)
      modifies this
      ensures inbox == old(inbox)
      ensures ok <==> old(sendable) > 0
      ensures ok ==> outbox == old(outbox) + [m] && sendable == old(sendable) - 1
      ensures !ok ==> outbox == old(outbox) && sendable == old(sendable)
    {
      ok := sendable > 0;
      if ok {
        outbox, sendable := outbox + [m], sendable - 1;
      }
    }

    method RecvMsg() returns (m: Option<Bytes>)
      modifies this
      ensures outbox == old(outbox) && sendable == old(sendable)
      ensures m.None? <==> old(inbox) == []
      ensures m.None? ==> inbox == []
      ensures m.Some? ==> old(inbox) == [m.value] + inbox
    {
      if inbox == [] {
        return None;
      }
      m, inbox := Some(inbox[0]), inbox[1..];
    }
  }

  /** The server goes first when there is something saved and all of it is the server's. */
  predicate ServerFirst(es: seq<Event>) {
    es != [] && forall i :: 0 <= i < |es| ==> es[i].origin == ServerMessage
  }

  /** What the interceptor does at a node: send, take the client's message, or give up. */
  datatype Move = Speak(message: Event) | Hear(message: Event) | Stop(outcome: Outcome)

  function Choose(es: seq<Event>, inbox: seq<Bytes>, sendable: nat): Move {
    if ServerFirst(es) then
      if sendable == 0 then Stop(SendFailed) else Speak(es[0])
    else if inbox == [] then Stop(RecvFailed)
    else if Event(ClientMessage, inbox[0]) in es then Hear(Event(ClientMessage, inbox[0]))
    else Stop(NoMatchingResponse)
  }

  /** The interceptor as a function of the recordings and of what the client sends:
      how it ends, and the messages exchanged so far. */
  function Serve(rs: seq<Recording>, name: string, path: seq<Event>, inbox: seq<Bytes>, sendable: nat)
    : (result: (Outcome, seq<Event>))
    requires |path| <= Longest(rs)
    decreases Longest(rs) - |path|
  {
    match Choose(Following(rs, name, path), inbox, sendable)
    case Stop(outcome) => (outcome, path)
    case Speak(e) => Proceed(rs, name, path, e, inbox, sendable - 1)
    case Hear(e) => Proceed(rs, name, path, e, inbox[1..], sendable)
  }

  function Proceed(rs: seq<Recording>, name: string, path: seq<Event>, e: Event, inbox: seq<Bytes>, sendable: nat)
    : (result: (Outcome, seq<Event>))
    requires |path| <= Longest(rs) && e in Following(rs, name, path)
    decreases Longest(rs) - |path|, 0
  {
    StepBounded(rs, name, path, e);
    if Following(rs, name, path + [e]) == [] then (Completed, path + [e])
    else Serve(rs, name, path + [e], inbox, sendable)
  }

  lemma StepBounded(rs: seq<Recording>, name: string, path: seq<Event>, e: Event)
    requires e in Following(rs, name, path)
    ensures Stored(rs, name, path + [e]) && |path| + 1 <= Longest(rs)
  {
    FollowingMember(rs, name, path, e);
    StoredBounded(rs, name, path + [e]);
  }

  /** A message at this point of the exchange is one the recordings dictate: a server
      message only where nothing but server messages is saved, and then the first of
      them; a client message only where the client may speak. */
  ghost predicate Legal(rs: seq<Recording>, name: string, path: seq<Event>) {
    forall k :: 0 <= k < |path| ==> LegalStep(rs, name, path[..k], path[k])
  }

  ghost predicate LegalStep(rs: seq<Recording>, name: string, path: seq<Event>, e: Event) {
    var es := Following(rs, name, path);
    e in es && if ServerFirst(es) then e == es[0] else e.origin == ClientMessage
  }

  lemma LegalSnoc(rs: seq<Recording>, name: string, path: seq<Event>, e: Event)
    requires Legal(rs, name, path) && LegalStep(rs, name, path, e)
    ensures Legal(rs, name, path + [e])
  {
    forall k | 0 <= k < |path| + 1 ensures LegalStep(rs, name, (path + [e])[..k], (path + [e])[k]) {
      assert (path + [e])[..k] == path[..k];
      if k == |path| { assert path[..k] == path; }
    }
  }

  /** Every exchange follows the recordings, whatever the client does. It completes if and
      only if something was exchanged and no recording goes on, and that is at the end of a
      recording. */
  lemma {:induction false} ServeFollowsRecordings(
      rs: seq<Recording>, name: string, path: seq<Event>, inbox: seq<Bytes>, sendable: nat)
    requires Stored(rs, name, path) && |path| <= Longest(rs) && Legal(rs, name, path)
    ensures var (outcome, trace) := Serve(rs, name, path, inbox, sendable);
            FollowsFrom(rs, name, path, outcome, trace)
            && (outcome == Completed <==>
                  path < trace && forall k :: 0 <= k < |rs| ==> !Continues(rs[k], name, trace))
    decreases Longest(rs) - |path|, 1
  {
    match Choose(Following(rs, name, path), inbox, sendable)
    case Stop(_) =>
    case Speak(e) =>
      LegalSnoc(rs, name, path, e);
      ProceedFollowsRecordings(rs, name, path, e, inbox, sendable - 1);
    case Hear(e) =>
      LegalSnoc(rs, name, path, e);
      ProceedFollowsRecordings(rs, name, path, e, inbox[1..], sendable);
  }

  ghost predicate FollowsFrom(rs: seq<Recording>, name: string, path: seq<Event>, outcome: Outcome, trace: seq<Event>) {
    && path <= trace && Stored(rs, name, trace) && Legal(rs, name, trace) && |trace| <= Longest(rs)
    && (outcome == Completed ==> exists k :: 0 <= k < |rs| && rs[k] == Recording(name, trace))
  }

  lemma {:induction false} ProceedFollowsRecordings(
      rs: seq<Recording>, name: string, path: seq<Event>, e: Event, inbox: seq<Bytes>, sendable: nat)
    requires |path| <= Longest(rs) && e in Following(rs, name, path) && Legal(rs, name, path + [e])
    ensures var (outcome, trace) := Proceed(rs, name, path, e, inbox, sendable);
            FollowsFrom(rs, name, path, outcome, trace) && path < trace
            && (outcome == Completed <==> forall k :: 0 <= k < |rs| ==> !Continues(rs[k], name, trace))
    decreases Longest(rs) - |path|, 0
  {
    StepBounded(rs, name, path, e);
    if Following(rs, name, path + [e]) == [] {
      LeafIsWhole(rs, name, path + [e]);
    } else {
      SavedMeansContinued(rs, name, path + [e]);
      ServeFollowsRecordings(rs, name, path + [e], inbox, sendable);
    }
  }

  /** Where something is saved, some recording goes on. */
  lemma SavedMeansContinued(rs: seq<Recording>, name: string, path: seq<Event>)
    requires Following(rs, name, path) != []
    ensures exists k :: 0 <= k < |rs| && Continues(rs[k], name, path)
  {
    var e := Following(rs, name, path)[0];
    FollowingMember(rs, name, path, e);
    var k :| 0 <= k < |rs| && StartsWith(rs[k], name, path + [e]);
    assert path <= path + [e] <= rs[k].events && Continues(rs[k], name, path);
  }

  lemma {:induction false} LeafIsWhole(rs: seq<Recording>, name: string, path: seq<Event>)
    requires Stored(rs, name, path) && Following(rs, name, path) == []
    ensures exists k :: 0 <= k < |rs| && rs[k] == Recording(name, path)
    ensures forall k :: 0 <= k < |rs| ==> !Continues(rs[k], name, path)
  {
    forall k | 0 <= k < |rs| ensures !Continues(rs[k], name, path) {
      if Continues(rs[k], name, path) {
        assert path + [rs[k].events[|path|]] <= rs[k].events;
        assert StartsWith(rs[k], name, path + [rs[k].events[|path|]]);
        FollowingMember(rs, name, path, rs[k].events[|path|]);
      }
    }
    var k :| 0 <= k < |rs| && StartsWith(rs[k], name, path);
    assert rs[k].events == path;
  }

  /** What the end of an exchange says about the client: its messages in the exchange are
      those it sent, in order; all of them are used up when the interceptor cannot
      receive, and the next one is the culprit when nothing matches. */
  ghost predicate Accounts(rs: seq<Recording>, name: string, outcome: Outcome, trace: seq<Event>,
                           exchanged: seq<Event>, inbox: seq<Bytes>, sendable: nat) {
    var sent := Raws(exchanged, ClientMessage);
    var answered := |Raws(exchanged, ServerMessage)|;
    var serverTurn := ServerFirst(Following(rs, name, trace));
    && sent <= inbox && answered <= sendable
    && match outcome
       case RecvFailed => sent == inbox && !serverTurn
       case SendFailed => answered == sendable && serverTurn
       case NoMatchingResponse =>
         && |sent| < |inbox| && !serverTurn
         && !Stored(rs, name, trace + [Event(ClientMessage, inbox[|sent|])])
       case Completed => Following(rs, name, trace) == []
       case NoSavedResponses => false
  }

  lemma {:induction false} ServeConsumesClient(
      rs: seq<Recording>, name: string, path: seq<Event>, inbox: seq<Bytes>, sendable: nat)
    requires |path| <= Longest(rs)
    ensures var (outcome, trace) := Serve(rs, name, path, inbox, sendable);
            path <= trace && Accounts(rs, name, outcome, trace, trace[|path|..], inbox, sendable)
    decreases Longest(rs) - |path|
  {
    var es := Following(rs, name, path);
    var (outcome, trace) := Serve(rs, name, path, inbox, sendable);
    if ServerFirst(es) && sendable > 0 {
      ConsumeStep(rs, name, path, es[0], inbox, sendable - 1);
      AccountsForOneMore(rs, name, outcome, trace, path, es[0], inbox, sendable - 1);
    } else if !ServerFirst(es) && inbox != [] && Event(ClientMessage, inbox[0]) in es {
      ConsumeStep(rs, name, path, Event(ClientMessage, inbox[0]), inbox[1..], sendable);
      AccountsForOneMore(rs, name, outcome, trace, path, Event(ClientMessage, inbox[0]), inbox[1..], sendable);
      assert [inbox[0]] + inbox[1..] == inbox;
    } else {
      assert trace[|path|..] == [];
      if inbox != [] { FollowingMember(rs, name, path, Event(ClientMessage, inbox[0])); }
    }
  }

  lemma {:induction false} ConsumeStep(
      rs: seq<Recording>, name: string, path: seq<Event>, e: Event, inbox: seq<Bytes>, sendable: nat)
    requires |path| <= Longest(rs) && e in Following(rs, name, path)
    ensures var (outcome, trace) := Proceed(rs, name, path, e, inbox, sendable);
            path + [e] <= trace && Accounts(rs, name, outcome, trace, trace[|path| + 1..], inbox, sendable)
    decreases Longest(rs) - |path|, 0
  {
    StepBounded(rs, name, path, e);
    if Following(rs, name, path + [e]) == [] {
      assert (path + [e])[|path| + 1..] == [];
    } else {
      ServeConsumesClient(rs, name, path + [e], inbox, sendable);
    }
  }

  lemma AccountsForOneMore(rs: seq<Recording>, name: string, outcome: Outcome, trace: seq<Event>,
                           path: seq<Event>, e: Event, inbox: seq<Bytes>, sendable: nat)
    requires path + [e] <= trace && e.origin in {ClientMessage, ServerMessage}
    requires Accounts(rs, name, outcome, trace, trace[|path| + 1..], inbox, sendable)
    ensures e.origin == ServerMessage ==>
      Accounts(rs, name, outcome, trace, trace[|path|..], inbox, sendable + 1)
    ensures e.origin == ClientMessage ==>
      Accounts(rs, name, outcome, trace, trace[|path|..], [e.raw] + inbox, sendable)
  {
    SplitFirst(trace, path, e, ClientMessage);
    SplitFirst(trace, path, e, ServerMessage);
  }

  lemma SplitFirst(trace: seq<Event>, path: seq<Event>, e: Event, o: Origin)
    requires path + [e] <= trace
    ensures Raws(trace[|path|..], o) == (if e.origin == o then [e.raw] else []) + Raws(trace[|path| + 1..], o)
  {
    assert trace[|path|..] == [e] + trace[|path| + 1..];
    RawsConcat([e], trace[|path| + 1..], o);
    RawsSnoc([], e, o);
    assert [] + [e] == [e];
  }

  /** A client that says more never gets a different beginning of the answer: the
      response is determined by the client's messages alone. */
  lemma {:induction false} ServeIsMonotone(
      rs: seq<Recording>, name: string, path: seq<Event>,
      inbox: seq<Bytes>, more: seq<Bytes>, sendable: nat, extra: nat)
    requires |path| <= Longest(rs)
    ensures Extends(Serve(rs, name, path, inbox, sendable), Serve(rs, name, path, inbox + more, sendable + extra))
    decreases Longest(rs) - |path|
  {
    var es := Following(rs, name, path);
    match Choose(es, inbox, sendable)
    case Stop(_) =>
      StopIsExtended(rs, name, path, inbox, sendable, inbox + more, sendable + extra);
    case Speak(e) =>
      assert Choose(es, inbox + more, sendable + extra) == Speak(e);
      ProceedIsMonotone(rs, name, path, e, inbox, more, sendable - 1, extra);
    case Hear(e) =>
      assert (inbox + more)[1..] == inbox[1..] + more;
      assert Choose(es, inbox + more, sendable + extra) == Hear(e);
      ProceedIsMonotone(rs, name, path, e, inbox[1..], more, sendable, extra);
  }

  lemma StopIsExtended(rs: seq<Recording>, name: string, path: seq<Event>, inbox: seq<Bytes>, sendable: nat,
                       inbox': seq<Bytes>, sendable': nat)
    requires |path| <= Longest(rs) && Choose(Following(rs, name, path), inbox, sendable).Stop?
    ensures Extends(Serve(rs, name, path, inbox, sendable), Serve(rs, name, path, inbox', sendable'))
  {
    ServeConsumesClient(rs, name, path, inbox', sendable');
  }

  ghost predicate Extends(short: (Outcome, seq<Event>), long: (Outcome, seq<Event>)) {
    short.1 <= long.1 && (short.0 == Completed ==> long == short)
  }

  lemma {:induction false} ProceedIsMonotone(
      rs: seq<Recording>, name: string, path: seq<Event>, e: Event,
      inbox: seq<Bytes>, more: seq<Bytes>, sendable: nat, extra: nat)
    requires |path| <= Longest(rs) && e in Following(rs, name, path)
    ensures Extends(Proceed(rs, name, path, e, inbox, sendable),
                    Proceed(rs, name, path, e, inbox + more, sendable + extra))
    decreases Longest(rs) - |path|, 0
  {
    StepBounded(rs, name, path, e);
    if Following(rs, name, path + [e]) != [] {
      ServeIsMonotone(rs, name, path + [e], inbox, more, sendable, extra);
    }
  }

  // ---------- Which recordings are served to their end ----------

  /** Where the RPC goes on with a server message, that message is all there is to say:
      everything saved at this point is the server's and this one was recorded first. */
  ghost predicate Determined(rs: seq<Recording>, rpc: Recording, k: nat)
    requires k < |rpc.events|
  {
    var es := Following(rs, rpc.name, rpc.events[..k]);
    rpc.events[k].origin == ServerMessage ==> ServerFirst(es) && es[0] == rpc.events[k]
  }

  ghost predicate AllDetermined(rs: seq<Recording>, rpc: Recording, n: nat)
    requires n <= |rpc.events|
  {
    forall k :: 0 <= k < n ==> Determined(rs, rpc, k)
  }

  predicate KnownOrigins(es: seq<Event>) {
    forall k :: 0 <= k < |es| ==> es[k].origin in {ClientMessage, ServerMessage}
  }

  /** What decides whether an RPC can be replayed; it is read off the dump alone. */
  ghost predicate Replayable(rs: seq<Recording>, rpc: Recording) {
    KnownOrigins(rpc.events) && AllDetermined(rs, rpc, |rpc.events|)
  }

  /** The RPC's own continuation is among the saved ones. */
  lemma OwnContinuation(rs: seq<Recording>, rpc: Recording, k: nat)
    requires Stored(rs, rpc.name, rpc.events) && k < |rpc.events|
    ensures rpc.events[k] in Following(rs, rpc.name, rpc.events[..k])
  {
    StoredPrefix(rs, rpc.name, rpc.events, k + 1);
    assert rpc.events[..k + 1] == rpc.events[..k] + [rpc.events[k]];
    FollowingMember(rs, rpc.name, rpc.events[..k], rpc.events[k]);
  }

  lemma StillGoing(rs: seq<Recording>, rpc: Recording, path: seq<Event>)
    requires Stored(rs, rpc.name, rpc.events) && path < rpc.events
    ensures Following(rs, rpc.name, path) != []
  {
    OwnContinuation(rs, rpc, |path|);
    assert path == rpc.events[..|path|];
  }

  /** Where the RPC goes on with a client message the fixture does not speak first. */
  lemma ClientTurn(rs: seq<Recording>, rpc: Recording, k: nat)
    requires Stored(rs, rpc.name, rpc.events) && k < |rpc.events|
    requires rpc.events[k].origin == ClientMessage
    ensures !ServerFirst(Following(rs, rpc.name, rpc.events[..k]))
  {
    OwnContinuation(rs, rpc, k);
  }

  /** No recording of the method goes on after this one. */
  ghost predicate Last(rs: seq<Recording>, rpc: Recording) {
    rpc.events != [] && forall k :: 0 <= k < |rs| ==> !Continues(rs[k], rpc.name, rpc.events)
  }

  /** The client sends what it sent in the recording, and takes all the answers. */
  predicate Plays(events: seq<Event>, inbox: seq<Bytes>, sendable: nat) {
    Raws(events, ClientMessage) <= inbox && |Raws(events, ServerMessage)| <= sendable
  }

  /** A client that plays a replayable recording that no other extends gets all of it, and
      the interceptor ends without an error. */
  lemma PlayedToTheEnd(rs: seq<Recording>, rpc: Recording, inbox: seq<Bytes>, sendable: nat)
    requires Stored(rs, rpc.name, rpc.events) && Replayable(rs, rpc) && Last(rs, rpc)
    requires Plays(rpc.events, inbox, sendable)
    ensures Serve(rs, rpc.name, [], inbox, sendable) == (Completed, rpc.events)
  {
    StoredBounded(rs, rpc.name, rpc.events);
    assert rpc.events[..0] == [] && rpc.events[0..] == rpc.events;
    PlayedFrom(rs, rpc, 0, inbox, sendable);
  }

  lemma {:induction false} PlayedFrom(rs: seq<Recording>, rpc: Recording, k: nat, inbox: seq<Bytes>, sendable: nat)
    requires Stored(rs, rpc.name, rpc.events) && Replayable(rs, rpc) && Last(rs, rpc) && k < |rpc.events| <= Longest(rs)
    requires Plays(rpc.events[k..], inbox, sendable)
    ensures Serve(rs, rpc.name, rpc.events[..k], inbox, sendable) == (Completed, rpc.events)
    decreases |rpc.events| - k, 1
  {
    var m := rpc.events[k];
    FirstIsPlayed(rpc.events, k, inbox, sendable);
    OwnContinuation(rs, rpc, k);
    if m.origin == ClientMessage {
      ClientTurn(rs, rpc, k);
      ProceedsFrom(rs, rpc, k, inbox[1..], sendable);
    } else {
      assert Determined(rs, rpc, k);
      ProceedsFrom(rs, rpc, k, inbox, sendable - 1);
    }
  }

  /** The next message is there to be received, or can be sent, and the rest still is after. */
  lemma FirstIsPlayed(events: seq<Event>, k: nat, inbox: seq<Bytes>, sendable: nat)
    requires k < |events| && Plays(events[k..], inbox, sendable)
    ensures events[k].origin == ClientMessage ==>
      inbox != [] && inbox[0] == events[k].raw && Plays(events[k + 1..], inbox[1..], sendable)
    ensures events[k].origin == ServerMessage ==> sendable > 0 && Plays(events[k + 1..], inbox, sendable - 1)
  {
    assert events[..k] + [events[k]] <= events;
    SplitFirst(events, events[..k], events[k], ClientMessage);
    SplitFirst(events, events[..k], events[k], ServerMessage);
  }

  lemma {:induction false} ProceedsFrom(rs: seq<Recording>, rpc: Recording, k: nat, inbox: seq<Bytes>, sendable: nat)
    requires Stored(rs, rpc.name, rpc.events) && Replayable(rs, rpc) && Last(rs, rpc) && k < |rpc.events| <= Longest(rs)
    requires Plays(rpc.events[k + 1..], inbox, sendable)
    requires rpc.events[k] in Following(rs, rpc.name, rpc.events[..k])
    ensures Proceed(rs, rpc.name, rpc.events[..k], rpc.events[k], inbox, sendable) == (Completed, rpc.events)
    decreases |rpc.events| - k, 0
  {
    assert rpc.events[..k] + [rpc.events[k]] == rpc.events[..k + 1];
    if k + 1 < |rpc.events| {
      StillGoing(rs, rpc, rpc.events[..k + 1]);
      PlayedFrom(rs, rpc, k + 1, inbox, sendable);
    } else {
      assert rpc.events[..k + 1] == rpc.events;
      NothingFollows(rs, rpc.name, rpc.events);
    }
  }

  ghost predicate PlayedOut(rs: seq<Recording>, rpc: Recording, name: string, inbox: seq<Bytes>, sendable: nat) {
    rpc.name == name && Replayable(rs, rpc) && Last(rs, rpc) && Plays(rpc.events, inbox, sendable)
  }

  lemma PlayedRecordings(rs: seq<Recording>, name: string, inbox: seq<Bytes>, sendable: nat)
    ensures forall k :: 0 <= k < |rs| && PlayedOut(rs, rs[k], name, inbox, sendable) ==>
      Stored(rs, name, []) && Serve(rs, name, [], inbox, sendable) == (Completed, rs[k].events)
  {
    forall k | 0 <= k < |rs| && PlayedOut(rs, rs[k], name, inbox, sendable)
      ensures Stored(rs, name, []) && Serve(rs, name, [], inbox, sendable) == (Completed, rs[k].events)
    {
      assert StartsWith(rs[k], name, rs[k].events) && StartsWith(rs[k], name, []);
      PlayedToTheEnd(rs, rs[k], inbox, sendable);
    }
  }

  /** The interceptor's scan of the saved continuations. */
  method AllFromServer(node: MessageTree) returns (serverFirst: bool)
    ensures serverFirst <==>
      && node.nextMessages != []
      && forall i :: 0 <= i < |node.nextMessages| ==> node.nextMessages[i].origin == ServerMessage
  {
    serverFirst := |node.nextMessages| > 0;
    for i := 0 to |node.nextMessages|
      invariant serverFirst <==>
        node.nextMessages != [] && forall j :: 0 <= j < i ==> node.nextMessages[j].origin == ServerMessage
    {
      serverFirst := serverFirst && node.nextMessages[i].origin == ServerMessage;
    }
  }

  /** The node reached by a move: it sits below the old one and has children exactly when
      the recordings go on. */
  ghost predicate Reached(f: Fixture, q: Place, e: Event, child: MessageTree?)
    reads f, f.nodes
  {
    && child != null && f.IsNode(child, Below(q, e)) && child in f.nodes
    && (child.nextMessages == [] <==> Following(f.recorded, Name(q), Path(q) + [e]) == [])
  }

  /** One round over the heap: it makes the move that Choose describes. */
  method Round(f: Fixture, ghost q: Place, node: MessageTree, ss: ServerStream)
    returns (child: MessageTree?, outcome: Outcome)
    requires f.Valid() && f.IsNode(node, q)
    modifies ss
    ensures match Choose(Following(f.recorded, Name(q), Path(q)), old(ss.inbox), old(ss.sendable))
            case Stop(o) =>
              child == null && outcome == o && ss.outbox == old(ss.outbox)
            case Speak(e) =>
              Reached(f, q, e, child) && ss.outbox == old(ss.outbox) + [e.raw] &&
              ss.inbox == old(ss.inbox) && ss.sendable == old(ss.sendable) - 1
            case Hear(e) =>
              Reached(f, q, e, child) && ss.outbox == old(ss.outbox) &&
              ss.inbox == old(ss.inbox)[1..] && ss.sendable == old(ss.sendable)
  {
    child, outcome := null, NoSavedResponses;
    f.ReadsRecordings(q);
    ghost var es := f.next[q];
    var serverFirst := AllFromServer(node);
    assert serverFirst == ServerFirst(es) by {
      assert forall i :: 0 <= i < |es| ==> node.nextMessages[i].origin == es[i].origin;
    }
    if serverFirst {
      var message := node.nextMessages[0];
      var ok := ss.SendMsg(message.raw);
      if !ok {
        return null, SendFailed;
      }
      child := message;
      f.ReadsRecordings(Below(q, es[0]));
    } else {
      var received := ss.RecvMsg();
      if received.None? {
        return null, RecvFailed;
      }
      child := f.FindChild(q, node, Event(ClientMessage, received.value));
      if child == null {
        return null, NoMatchingResponse;
      }
      f.ReadsRecordings(Below(q, Event(ClientMessage, received.value)));
    }
  }

  /** The interceptor over the heap. It sends exactly the server messages of the exchange
      that Serve describes, takes the client messages one by one, and changes no node. */
  method Intercept(f: Fixture, fullMethod: string, ss: ServerStream) returns (outcome: Outcome, ghost trace: seq<Event>)
    requires f.Valid()
    modifies ss
    ensures outcome == NoSavedResponses <==> !Stored(f.recorded, fullMethod, [])
    ensures outcome == NoSavedResponses ==> unchanged(ss) && trace == []
    ensures outcome != NoSavedResponses ==>
      && (outcome, trace) == Serve(f.recorded, fullMethod, [], old(ss.inbox), old(ss.sendable))
      && ss.outbox == old(ss.outbox) + Raws(trace, ServerMessage)
    ensures forall k ::
      0 <= k < |f.recorded| && PlayedOut(f.recorded, f.recorded[k], fullMethod, old(ss.inbox), old(ss.sendable)) ==>
      outcome == Completed && trace == f.recorded[k].events
  {
    assert Held(f.recorded, Root(fullMethod)) <==> Stored(f.recorded, fullMethod, []);
    if fullMethod !in f.trees {
      return NoSavedResponses, [];
    }
    ServeConsumesClient(f.recorded, fullMethod, [], ss.inbox, ss.sendable);
    PlayedRecordings(f.recorded, fullMethod, ss.inbox, ss.sendable);
    outcome, trace := Walk(f, fullMethod, f.trees[fullMethod], ss);
  }

  /** The interceptor's loop, from the root of the stream on. */
  method Walk(f: Fixture, fullMethod: string, root: MessageTree, ss: ServerStream)
    returns (outcome: Outcome, ghost trace: seq<Event>)
    requires f.Valid() && f.IsNode(root, Root(fullMethod))
    modifies ss
    ensures (outcome, trace) == Serve(f.recorded, fullMethod, [], old(ss.inbox), old(ss.sendable))
    ensures ss.outbox == old(ss.outbox) + Raws(trace, ServerMessage)
  {
    var messageTreeNode: MessageTree := root;
    ghost var q := Root(fullMethod);
    ghost var outbox := ss.outbox;
    ghost var result := Serve(f.recorded, fullMethod, [], ss.inbox, ss.sendable);
    trace := [];
    while true
      invariant f.Valid() && f.IsNode(messageTreeNode, q)
      invariant Name(q) == fullMethod && Path(q) == trace && |trace| <= Longest(f.recorded)
      invariant Serve(f.recorded, fullMethod, trace, ss.inbox, ss.sendable) == result
      invariant ss.outbox == outbox + Raws(trace, ServerMessage)
      decreases Longest(f.recorded) - |trace|
    {
      ghost var move := Choose(Following(f.recorded, fullMethod, trace), ss.inbox, ss.sendable);
      var child, failure := Round(f, q, messageTreeNode, ss);
      if child == null {
        return failure, trace;
      }
      messageTreeNode := child;
      StepBounded(f.recorded, fullMethod, trace, move.message);
      RawsSnoc(trace, move.message, ServerMessage);
      Regroup(outbox, Raws(trace, ServerMessage), if move.Speak? then [move.message.raw] else []);
      q, trace := Below(q, move.message), trace + [move.message];
      if |messageTreeNode.nextMessages| == 0 {
        return Completed, trace;
      }
    }
  }
}
