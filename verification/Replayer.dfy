/** grpc-replay's client side: sending the recorded requests of an RPC and checking the
    responses against the recorded ones. */
module Replayer {
  import opened Messages
  import opened Recordings
  import opened Encoder
  import opened FixtureTrie
  import opened Interceptor
  import opened ReplayProduct

  /** The server's side of one stream: the responses still to be received, then an error. */
  class ClientStream {
    var responses: seq<Bytes>
    var sent: seq<Bytes>
    var sendable: nat

    constructor (responses: seq<Bytes>, sendable: nat)
      ensures this.responses == responses && this.sendable == sendable && sent == []
    {
      this.responses, this.sendable, this.sent := responses, sendable, [];
    }

    method SendMsg(m: Bytes) returns (ok: bool)
      modifies this
      ensures responses == old(responses) && (ok <==> old(sendable) > 0)
      ensures sent == if ok then old(sent) + [m] else old(sent)
      ensures sendable == if ok then old(sendable) - 1 else old(sendable)
    {
      ok := sendable > 0;
      if ok {
        sent, sendable := sent + [m], sendable - 1;
      }
    }

    method RecvMsg() returns (m: Option<Bytes>)
      modifies this
      ensures sent == old(sent) && sendable == old(sendable)
      ensures m.None? ==> old(responses) == [] && responses == []
      ensures m.Some? ==> old(responses) == [m.value] + responses
    {
      if responses == [] {
        return None;
      }
      m, responses := Some(responses[0]), responses[1..];
    }
  }

  datatype ReplayResult = Verdict(verdict: Verdict) | EncodingFailed

  /** One recorded message: a request is sent, a response is received and compared.
      Replaying means that the replay goes on. */
  method Exchange(e: Event, str: ClientStream) returns (v: Verdict)
    modifies str
    ensures v == Replaying ==> old(str.sendable) == |Raws([e], ClientMessage)| + str.sendable
    ensures str.sent == if v == Replaying then old(str.sent) + Raws([e], ClientMessage) else old(str.sent)
    ensures v == Replaying ==>
      e.origin in {ClientMessage, ServerMessage} && old(str.responses) == Raws([e], ServerMessage) + str.responses
    ensures v != Replaying ==> Fails(e, old(str.responses), old(str.sendable), v)
  {
    RawsOne(e, ClientMessage);
    RawsOne(e, ServerMessage);
    match e.origin
    case ClientMessage =>
      var ok := str.SendMsg(e.raw);
      return if ok then Replaying else SendError;
    case ServerMessage =>
      var resp := str.RecvMsg();
      return if resp.None? then RecvError else if resp.value != e.raw then Mismatch else Replaying;
    case UnknownOrigin(_) =>
      return InvalidMessageType;
  }

  predicate Fails(e: Event, responses: seq<Bytes>, sendable: nat, v: Verdict) {
    match v
    case SendError => e.origin == ClientMessage && sendable == 0
    case RecvError => e.origin == ServerMessage && responses == []
    case Mismatch => e.origin == ServerMessage && responses != [] && responses[0] != e.raw
    case InvalidMessageType => e.origin.UnknownOrigin?
    case _ => false
  }

  /** Replays one RPC. The messages dealt with are the encodings of the recorded ones; the
      client's were all sent and the server's were all received, in order. It ends in OK
      when none is left, and otherwise at the first message that cannot be exchanged. */
  method ReplayRpc<D, Y>(p: Pipeline<D, Y>, rpc: Rpc, str: ClientStream)
    returns (result: ReplayResult, ghost done: seq<Event>, ghost rest: seq<Bytes>, ghost left: nat)
    modifies str
    ensures EncodesTo(p, StreamName(rpc), rpc.messages, done)
    ensures KnownOrigins(done) && str.sent == old(str.sent) + Raws(done, ClientMessage)
    ensures old(str.responses) == Raws(done, ServerMessage) + rest
    ensures old(str.sendable) == |Raws(done, ClientMessage)| + left
    ensures result == Verdict(OK) <==> |done| == |rpc.messages|
    ensures result != Verdict(OK) ==> StoppedBecause(p, StreamName(rpc), rpc.messages[|done|], rest, left, result)
  {
    done, rest, left := [], str.responses, str.sendable;
    ghost var sent, responses, sendable := str.sent, str.responses, str.sendable;
    var i := 0;
    while i < |rpc.messages|
      invariant 0 <= i <= |rpc.messages| && |done| == i
      invariant EncodesTo(p, StreamName(rpc), rpc.messages, done)
      invariant KnownOrigins(done) && str.sent == sent + Raws(done, ClientMessage)
      invariant responses == Raws(done, ServerMessage) + str.responses
      invariant sendable == |Raws(done, ClientMessage)| + left && left == str.sendable && rest == str.responses
    {
      var r := Encode(p, StreamName(rpc), rpc.messages[i]);
      if r.EncodeError? {
        return EncodingFailed, done, rest, left;
      }
      var e := Event(rpc.messages[i].origin, r.bytes);
      var v := Exchange(e, str);
      if v != Replaying {
        return Verdict(v), done, rest, left;
      }
      EncodesOneMore(p, StreamName(rpc), rpc.messages, done, e);
      RawsConcat(done, [e], ClientMessage);
      RawsConcat(done, [e], ServerMessage);
      Regroup(sent, Raws(done, ClientMessage), Raws([e], ClientMessage));
      Regroup(Raws(done, ServerMessage), Raws([e], ServerMessage), str.responses);
      done, rest, left := done + [e], str.responses, str.sendable;
      i := i + 1;
    }
    return Verdict(OK), done, rest, left;
  }

  /** Why the replay stopped at a message, with these responses still to come. */
  ghost predicate StoppedBecause<D, Y>(p: Pipeline<D, Y>, name: string, m: Message,
                                                   responses: seq<Bytes>, sendable: nat, result: ReplayResult) {
    match EncodingOf(p, name, m)
    case EncodeError => result == EncodingFailed
    case Encoded(raw) => result.Verdict? && Fails(Event(m.origin, raw), responses, sendable, result.verdict)
  }

  /** In the product with the fixture the replayer does what Exchange does: its queue to the
      server is what it sends, and its queue from the server what it receives. */
  lemma ProductReplaysLikeExchange(rpc: Recording, s: System)
    requires s.verdict == Replaying && s.pos < |rpc.events|
    requires rpc.events[s.pos].origin == ServerMessage ==> s.toClient != [] || s.served.Some?
    ensures LikeExchange(rpc.events[s.pos], s, ReplayerStep(rpc, s))
  {
    var e := rpc.events[s.pos];
    RawsOne(e, ClientMessage);
    RawsOne(e, ServerMessage);
    match e.origin
    case ClientMessage => assert [] + s.toClient == s.toClient;
    case ServerMessage =>
      assert s.toServer + [] == s.toServer;
      if s.toClient != [] {
        assert [s.toClient[0]] + s.toClient[1..] == s.toClient;
      }
    case UnknownOrigin(_) =>
  }

  ghost predicate LikeExchange(e: Event, s: System, t: System) {
    if t.verdict == Replaying then
      && e.origin in {ClientMessage, ServerMessage} && t.pos == s.pos + 1
      && t.toServer == s.toServer + Raws([e], ClientMessage)
      && Raws([e], ServerMessage) + t.toClient == s.toClient
    else Fails(e, s.toClient, 1, t.verdict)
  }

  /** The replayer works on exactly the events the loader stored for the same RPC. */
  lemma LoaderAndReplayerAgree<D, Y>(p: Pipeline<D, Y>, rpcs: seq<Rpc>, rs: seq<Recording>, k: nat, done: seq<Event>)
    requires LoadsTo(p, rpcs, rs) && k < |rpcs| && EncodesTo(p, StreamName(rpcs[k]), rpcs[k].messages, done)
    ensures done <= rs[k].events && Stored(rs, rs[k].name, rs[k].events)
  {
    StoredItself(rs, k);
    assert RecordedAs(p, rpcs[k], rs[k]);
    forall i | 0 <= i < |done| ensures done[i] == rs[k].events[i] {
      assert EncodesAs(p, rs[k].name, rpcs[k].messages[i], rs[k].events[i]);
    }
  }

  /** End to end: load a dump and replay any of its RPCs against the result. In every
      interleaving the replay reports nothing but OK and never gets stuck, whenever the
      server was determinate, which the dump itself shows. */
  lemma DumpReplaysAgainstItsFixture<D, Y>(p: Pipeline<D, Y>, rpcs: seq<Rpc>, rs: seq<Recording>,
                                                       k: nat, acts: seq<Action>)
    requires LoadsTo(p, rpcs, rs) && k < |rpcs|
    requires ServerIsDeterminate(rs) && KnownOrigins(rs[k].events)
    requires Run(rs, rs[k], acts).Some?
    ensures Run(rs, rs[k], acts).value.verdict in {Replaying, OK}
    ensures Run(rs, rs[k], acts).value.verdict == Replaying ==>
      exists a :: Enabled(rs, rs[k], Run(rs, rs[k], acts).value, a)
  {
    StoredItself(rs, k);
    forall j | 0 <= j < |rs[k].events| ensures Determined(rs, rs[k], j) {
      DeterminateMeansDetermined(rs, k, j);
    }
    ReplayIsAlwaysOK(rs, rs[k], acts);
  }
}
