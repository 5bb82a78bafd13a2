/** grpc-replay run against grpc-fixture: the product of the two state machines, with
    the messages of each direction in a FIFO queue. */
module ReplayProduct {
  import opened Messages
  import opened Recordings
  import opened Interceptor

  /** How the replay of one RPC stands. */
  datatype Verdict = Replaying | OK | Mismatch | SendError | RecvError | InvalidMessageType

  datatype System = System(
    path: seq<Event>,            // the fixture: the exchange so far
    served: Option<Outcome>,     // its return value, once it has returned
    pos: nat,                    // the replayer: how many messages of the RPC are done
    verdict: Verdict,
    toServer: seq<Bytes>,
    toClient: seq<Bytes>)

  /** ReplayerSendFails: a send may fail once the fixture has ended the stream.
      FixtureSendFails: a send may fail once the replayer is done with the stream. */
  datatype Action = ReplayerMoves | ReplayerSendFails | FixtureMoves | FixtureSendFails

  const START := System([], None, 0, Replaying, [], [])

  predicate Enabled(rs: seq<Recording>, rpc: Recording, s: System, a: Action) {
    match a
    case ReplayerMoves =>
      && s.verdict == Replaying
      && s.pos <= |rpc.events|
      && (s.pos < |rpc.events| && rpc.events[s.pos].origin == ServerMessage ==> s.toClient != [] || s.served.Some?)
    case ReplayerSendFails =>
      && s.verdict == Replaying && s.served.Some?
      && s.pos < |rpc.events| && rpc.events[s.pos].origin == ClientMessage
    case FixtureMoves =>
      s.served.None? && (ServerFirst(Following(rs, rpc.name, s.path)) || s.toServer != [])
    case FixtureSendFails =>
      s.served.None? && ServerFirst(Following(rs, rpc.name, s.path)) && s.verdict != Replaying
  }

  function Step(rs: seq<Recording>, rpc: Recording, s: System, a: Action): System
    requires Enabled(rs, rpc, s, a)
  {
    match a
    case ReplayerMoves => ReplayerStep(rpc, s)
    case ReplayerSendFails => s.(verdict := SendError)
    case FixtureMoves => FixtureStep(rs, rpc.name, s)
    case FixtureSendFails => s.(served := Some(SendFailed))
  }

  function ReplayerStep(rpc: Recording, s: System): System
    requires s.pos <= |rpc.events|
    requires s.pos < |rpc.events| && rpc.events[s.pos].origin == ServerMessage ==> s.toClient != [] || s.served.Some?
  {
    if s.pos == |rpc.events| then s.(verdict := OK)
    else
      var m := rpc.events[s.pos];
      match m.origin
      case ClientMessage => s.(pos := s.pos + 1, toServer := s.toServer + [m.raw])
      case ServerMessage =>
        if s.toClient == [] then s.(verdict := RecvError)
        else if s.toClient[0] != m.raw then s.(verdict := Mismatch, toClient := s.toClient[1..])
        else s.(pos := s.pos + 1, toClient := s.toClient[1..])
      case UnknownOrigin(_) => s.(verdict := InvalidMessageType)
  }

  function FixtureStep(rs: seq<Recording>, name: string, s: System): System
    requires ServerFirst(Following(rs, name, s.path)) || s.toServer != []
  {
    match Choose(Following(rs, name, s.path), s.toServer, 1)
    case Speak(e) => Arrive(rs, name, s.(toClient := s.toClient + [e.raw]), e)
    case Hear(e) => Arrive(rs, name, s.(toServer := s.toServer[1..]), e)
    case Stop(outcome) => s.(served := Some(outcome), toServer := s.toServer[1..])
  }

  function Arrive(rs: seq<Recording>, name: string, s: System, e: Event): System {
    s.(path := s.path + [e], served := if Following(rs, name, s.path + [e]) == [] then Some(Completed) else s.served)
  }

  /** The state after a sequence of steps, if every one of them was possible. */
  function Run(rs: seq<Recording>, rpc: Recording, acts: seq<Action>): Option<System> {
    if acts == [] then Some(START)
    else
      match Run(rs, rpc, acts[..|acts| - 1])
      case None => None
      case Some(s) =>
        var a := acts[|acts| - 1];
        if Enabled(rs, rpc, s, a) then Some(Step(rs, rpc, s, a)) else None
  }

  /** In the product the fixture does what the interceptor does: from the same point, with
      more of the client's messages to come, it ends the same way, and what it says goes to
      the replayer. */
  lemma FixtureStepsLikeInterceptor(rs: seq<Recording>, name: string, s: System, more: seq<Bytes>, extra: nat)
    requires s.served.None? && |s.path| <= Longest(rs)
    requires ServerFirst(Following(rs, name, s.path)) || s.toServer != []
    ensures s.path <= FixtureStep(rs, name, s).path && |FixtureStep(rs, name, s).path| <= Longest(rs)
    ensures var t := FixtureStep(rs, name, s);
            && t.toClient == s.toClient + Raws(t.path[|s.path|..], ServerMessage)
            && Serve(rs, name, s.path, s.toServer + more, extra + 1) ==
                 if t.served.Some? then (t.served.value, t.path)
                 else Serve(rs, name, t.path, t.toServer + more, if t.toClient == s.toClient then extra + 1 else extra)
  {
    var t := FixtureStep(rs, name, s);
    match Choose(Following(rs, name, s.path), s.toServer, 1)
    case Stop(_) =>
      assert t.path[|s.path|..] == [];
    case Speak(e) => FixtureArrives(rs, name, s, t, e);
    case Hear(e) =>
      FixtureArrives(rs, name, s, t, e);
      assert (s.toServer + more)[1..] == s.toServer[1..] + more;
  }

  lemma FixtureArrives(rs: seq<Recording>, name: string, s: System, t: System, e: Event)
    requires e in Following(rs, name, s.path) && t.path == s.path + [e]
    ensures |t.path| <= Longest(rs) && t.path[|s.path|..] == [e]
    ensures Raws([e], ServerMessage) == if e.origin == ServerMessage then [e.raw] else []
  {
    StepBounded(rs, name, s.path, e);
    RawsOne(e, ServerMessage);
  }

  /** What it takes from the queue is what it has heard, and the message that it cannot match. */
  lemma FixtureTakesWhatItHears(rs: seq<Recording>, name: string, s: System)
    requires s.served.None? && (ServerFirst(Following(rs, name, s.path)) || s.toServer != [])
    ensures var t := FixtureStep(rs, name, s);
            && s.path <= t.path
            && var heard := Raws(t.path[|s.path|..], ClientMessage);
               if t.served == Some(NoMatchingResponse) then heard == [] && t.toServer == s.toServer[1..]
               else s.toServer == heard + t.toServer
  {
    match Choose(Following(rs, name, s.path), s.toServer, 1)
    case Stop(_) => assert s.path[|s.path|..] == [];
    case Speak(e) =>
      assert (s.path + [e])[|s.path|..] == [e];
      RawsOne(e, ClientMessage);
    case Hear(e) =>
      assert (s.path + [e])[|s.path|..] == [e];
      RawsOne(e, ClientMessage);
  }

  /** The exchanges still agree: the fixture is behind the replayer by messages that are
      all the client's and are queued for it, or it is ahead by messages that are all the
      server's and are queued for the replayer. */
  ghost predicate InStep(rs: seq<Recording>, rpc: Recording, s: System) {
    && s.pos <= |rpc.events|
    && Stored(rs, rpc.name, s.path) && Legal(rs, rpc.name, s.path)
    && (s.served == None || s.served == Some(Completed) || (s.served == Some(SendFailed) && s.verdict != Replaying))
    && (s.served == Some(Completed) ==> Following(rs, rpc.name, s.path) == [])
    && (s.verdict == OK ==> s.pos == |rpc.events|)
    && s.verdict !in {SendError, RecvError}
    && (s.verdict == InvalidMessageType ==> s.pos < |rpc.events| && rpc.events[s.pos].origin.UnknownOrigin?)
    && (s.verdict == Mismatch ==> s.toServer == [])
    && (s.verdict != Mismatch ==> Behind(rpc, s) || Ahead(rpc, s))
    && AllDetermined(rs, rpc, s.pos) && KnownOrigins(rpc.events[..s.pos])
  }

  ghost predicate Behind(rpc: Recording, s: System)
    requires s.pos <= |rpc.events|
  {
    && s.path <= rpc.events[..s.pos] && s.toClient == []
    && Only(rpc.events[|s.path|..s.pos], ClientMessage, s.toServer)
  }

  ghost predicate Ahead(rpc: Recording, s: System)
    requires s.pos <= |rpc.events|
  {
    && rpc.events[..s.pos] <= s.path && s.toServer == []
    && Only(s.path[s.pos..], ServerMessage, s.toClient)
  }

  /** All events come from one origin, and these are their payloads. */
  ghost predicate Only(es: seq<Event>, origin: Origin, raws: seq<Bytes>) {
    |raws| == |es| && forall i :: 0 <= i < |es| ==> es[i] == Event(origin, raws[i])
  }

  /** A fixture that is strictly ahead has spoken, so the RPC's next message is not the client's. */
  lemma AheadMeansServerTurn(rs: seq<Recording>, rpc: Recording, s: System)
    requires Stored(rs, rpc.name, rpc.events)
    requires s.pos < |rpc.events| && Legal(rs, rpc.name, s.path) && Ahead(rpc, s) && s.pos < |s.path|
    ensures rpc.events[s.pos].origin != ClientMessage
    ensures s.path[..s.pos] == rpc.events[..s.pos] && s.toClient != []
    ensures s.path[s.pos] == Event(ServerMessage, s.toClient[0])
    ensures ServerFirst(Following(rs, rpc.name, rpc.events[..s.pos]))
    ensures s.path[s.pos] == Following(rs, rpc.name, rpc.events[..s.pos])[0]
  {
    assert s.path[..s.pos] == rpc.events[..s.pos];
    assert s.path[s.pos..][0] == s.path[s.pos];
    assert LegalStep(rs, rpc.name, s.path[..s.pos], s.path[s.pos]);
    if rpc.events[s.pos].origin == ClientMessage {
      ClientTurn(rs, rpc, s.pos);
    }
  }

  /** A fixture that has returned to a waiting replayer is past everything the RPC contains. */
  lemma ReturnedMeansAhead(rs: seq<Recording>, rpc: Recording, s: System)
    requires Stored(rs, rpc.name, rpc.events) && InStep(rs, rpc, s)
    requires s.served.Some? && s.verdict == Replaying && s.pos < |rpc.events|
    ensures Ahead(rpc, s) && s.pos < |s.path|
  {
    if s.path <= rpc.events[..s.pos] {
      StillGoing(rs, rpc, s.path);
    }
  }

  lemma BehindBySending(rpc: Recording, s: System)
    requires s.pos < |rpc.events| && rpc.events[s.pos].origin == ClientMessage && Behind(rpc, s)
    ensures Behind(rpc, s.(pos := s.pos + 1, toServer := s.toServer + [rpc.events[s.pos].raw]))
  {
    assert rpc.events[..s.pos + 1] == rpc.events[..s.pos] + [rpc.events[s.pos]];
    assert rpc.events[|s.path|..s.pos + 1] == rpc.events[|s.path|..s.pos] + [rpc.events[s.pos]];
  }

  lemma AheadByReceiving(rpc: Recording, s: System)
    requires s.pos < |rpc.events| && s.pos < |s.path| && Ahead(rpc, s) && s.path[s.pos] == rpc.events[s.pos]
    ensures s.toClient != [] && Ahead(rpc, s.(pos := s.pos + 1, toClient := s.toClient[1..]))
  {
    assert rpc.events[..s.pos + 1] == rpc.events[..s.pos] + [rpc.events[s.pos]];
    assert s.path[..s.pos + 1] == rpc.events[..s.pos + 1];
    assert s.path[s.pos + 1..] == s.path[s.pos..][1..];
  }

  lemma AheadBySpeaking(rpc: Recording, s: System, e: Event)
    requires s.pos <= |rpc.events| && Ahead(rpc, s) && e.origin == ServerMessage
    ensures Ahead(rpc, s.(path := s.path + [e], toClient := s.toClient + [e.raw]))
  {
    assert (s.path + [e])[s.pos..] == s.path[s.pos..] + [e];
  }

  lemma BehindByHearing(rpc: Recording, s: System)
    requires s.pos <= |rpc.events| && Behind(rpc, s) && s.toServer != []
    ensures |s.path| < s.pos && rpc.events[|s.path|] == Event(ClientMessage, s.toServer[0])
    ensures s.path == rpc.events[..|s.path|]
    ensures Behind(rpc, s.(path := s.path + [rpc.events[|s.path|]], toServer := s.toServer[1..]))
  {
    var n := |s.path|;
    assert rpc.events[n..s.pos][0] == rpc.events[n];
    assert s.path == rpc.events[..n];
    assert s.path + [rpc.events[n]] == rpc.events[..n + 1] == rpc.events[..s.pos][..n + 1];
    assert rpc.events[n + 1..s.pos] == rpc.events[n..s.pos][1..];
  }

  lemma ReplayerKeepsInStep(rs: seq<Recording>, rpc: Recording, s: System)
    requires Stored(rs, rpc.name, rpc.events) && InStep(rs, rpc, s) && Enabled(rs, rpc, s, ReplayerMoves)
    ensures InStep(rs, rpc, ReplayerStep(rpc, s))
    ensures AllDetermined(rs, rpc, |rpc.events|) ==> ReplayerStep(rpc, s).verdict != Mismatch
  {
    if s.pos < |rpc.events| {
      KnownSnoc(rpc.events, s.pos);
      if Ahead(rpc, s) && s.pos < |s.path| {
        ReplayerReads(rs, rpc, s);
      } else {
        LevelOrBehind(rpc, s);
        ReplayerAtTheFront(rs, rpc, s);
      }
    }
  }

  lemma KnownSnoc(es: seq<Event>, n: nat)
    requires n < |es| && KnownOrigins(es[..n])
    ensures es[n].origin.UnknownOrigin? || KnownOrigins(es[..n + 1])
  {
    assert es[..n + 1] == es[..n] + [es[n]];
  }

  /** There is something to read: it is the next message, or the RPC was not determined. */
  lemma ReplayerReads(rs: seq<Recording>, rpc: Recording, s: System)
    requires Stored(rs, rpc.name, rpc.events) && InStep(rs, rpc, s) && Enabled(rs, rpc, s, ReplayerMoves)
    requires Ahead(rpc, s) && s.pos < |s.path| && s.pos < |rpc.events|
    requires rpc.events[s.pos].origin.UnknownOrigin? || KnownOrigins(rpc.events[..s.pos + 1])
    ensures InStep(rs, rpc, ReplayerStep(rpc, s))
    ensures AllDetermined(rs, rpc, |rpc.events|) ==> ReplayerStep(rpc, s).verdict != Mismatch
  {
    AheadMeansServerTurn(rs, rpc, s);
    if rpc.events[s.pos] == s.path[s.pos] {
      ReplayerReadsNext(rs, rpc, s);
    } else if rpc.events[s.pos].origin == ServerMessage {
      assert !Determined(rs, rpc, s.pos);
    }
  }

  lemma ReplayerReadsNext(rs: seq<Recording>, rpc: Recording, s: System)
    requires InStep(rs, rpc, s) && Enabled(rs, rpc, s, ReplayerMoves) && Ahead(rpc, s)
    requires s.pos < |s.path| && s.pos < |rpc.events| && rpc.events[s.pos] == s.path[s.pos]
    requires KnownOrigins(rpc.events[..s.pos + 1]) && Determined(rs, rpc, s.pos)
    requires s.toClient != [] && rpc.events[s.pos] == Event(ServerMessage, s.toClient[0])
    ensures InStep(rs, rpc, ReplayerStep(rpc, s)) && ReplayerStep(rpc, s).verdict != Mismatch
  {
    AheadByReceiving(rpc, s);
    assert ReplayerStep(rpc, s) == s.(pos := s.pos + 1, toClient := s.toClient[1..]);
  }

  /** There is nothing to read yet: the replayer sends, or it would have to wait. */
  lemma ReplayerAtTheFront(rs: seq<Recording>, rpc: Recording, s: System)
    requires Stored(rs, rpc.name, rpc.events) && InStep(rs, rpc, s) && Enabled(rs, rpc, s, ReplayerMoves)
    requires Behind(rpc, s) && |s.path| <= s.pos < |rpc.events|
    requires rpc.events[s.pos].origin.UnknownOrigin? || KnownOrigins(rpc.events[..s.pos + 1])
    ensures InStep(rs, rpc, ReplayerStep(rpc, s)) && ReplayerStep(rpc, s).verdict != Mismatch
  {
    match rpc.events[s.pos].origin
    case ClientMessage => BehindBySending(rpc, s);
    case ServerMessage => ReturnedMeansAhead(rs, rpc, s);
    case UnknownOrigin(_) =>
  }

  lemma LevelOrBehind(rpc: Recording, s: System)
    requires s.pos <= |rpc.events|
    requires Behind(rpc, s) || (Ahead(rpc, s) && |s.path| <= s.pos)
    ensures Behind(rpc, s)
  {
    if Ahead(rpc, s) && |s.path| <= s.pos {
      assert s.path == rpc.events[..s.pos];
    }
  }

  lemma FixtureKeepsInStep(rs: seq<Recording>, rpc: Recording, s: System)
    requires Stored(rs, rpc.name, rpc.events) && InStep(rs, rpc, s) && Enabled(rs, rpc, s, FixtureMoves)
    ensures InStep(rs, rpc, FixtureStep(rs, rpc.name, s))
    ensures |FixtureStep(rs, rpc.name, s).path| == |s.path| + 1
  {
    var es := Following(rs, rpc.name, s.path);
    if ServerFirst(es) {
      FollowingMember(rs, rpc.name, s.path, es[0]);
      LegalSnoc(rs, rpc.name, s.path, es[0]);
      if s.verdict != Mismatch {
        SpokenWhenLevel(rs, rpc, s);
        AheadBySpeaking(rpc, s, es[0]);
      }
    } else {
      BehindByHearing(rpc, s);
      var m := rpc.events[|s.path|];
      OwnContinuation(rs, rpc, |s.path|);
      FollowingMember(rs, rpc.name, s.path, m);
      LegalSnoc(rs, rpc.name, s.path, m);
    }
  }

  /** The fixture only speaks when it has caught up with the replayer. */
  lemma SpokenWhenLevel(rs: seq<Recording>, rpc: Recording, s: System)
    requires Stored(rs, rpc.name, rpc.events) && InStep(rs, rpc, s) && s.verdict != Mismatch
    requires ServerFirst(Following(rs, rpc.name, s.path))
    ensures Ahead(rpc, s)
  {
    if Behind(rpc, s) {
      if |s.path| < s.pos {
        assert rpc.events[|s.path|..s.pos][0] == rpc.events[|s.path|];
        assert s.path == rpc.events[..|s.path|];
        ClientTurn(rs, rpc, |s.path|);
      } else {
        assert s.path == rpc.events[..s.pos];
      }
    }
  }

  /** Steps left at most: every step advances one of the two machines or ends one. */
  function Left(rs: seq<Recording>, rpc: Recording, s: System): int {
    |rpc.events| - s.pos + Longest(rs) - |s.path|
    + (if s.verdict == Replaying then 1 else 0) + (if s.served.None? then 1 else 0)
  }

  lemma StepKeepsInStep(rs: seq<Recording>, rpc: Recording, s: System, a: Action)
    requires Stored(rs, rpc.name, rpc.events) && InStep(rs, rpc, s) && Enabled(rs, rpc, s, a)
    ensures InStep(rs, rpc, Step(rs, rpc, s, a))
    ensures Left(rs, rpc, Step(rs, rpc, s, a)) < Left(rs, rpc, s)
    ensures AllDetermined(rs, rpc, |rpc.events|) && s.verdict != Mismatch ==> Step(rs, rpc, s, a).verdict != Mismatch
  {
    match a
    case ReplayerMoves => ReplayerKeepsInStep(rs, rpc, s);
    case FixtureMoves => FixtureKeepsInStep(rs, rpc, s);
    case ReplayerSendFails =>
      ReturnedMeansAhead(rs, rpc, s);
      AheadMeansServerTurn(rs, rpc, s);
    case FixtureSendFails =>
  }

  lemma {:induction false} RunsStayInStep(rs: seq<Recording>, rpc: Recording, acts: seq<Action>)
    requires Stored(rs, rpc.name, rpc.events) && Run(rs, rpc, acts).Some?
    ensures InStep(rs, rpc, Run(rs, rpc, acts).value)
    ensures |acts| + Left(rs, rpc, Run(rs, rpc, acts).value) <= |rpc.events| + Longest(rs) + 2
    ensures Left(rs, rpc, Run(rs, rpc, acts).value) >= 0
    ensures AllDetermined(rs, rpc, |rpc.events|) ==> Run(rs, rpc, acts).value.verdict != Mismatch
  {
    var s := Run(rs, rpc, acts).value;
    if acts == [] {
      StoredPrefix(rs, rpc.name, rpc.events, 0);
      assert rpc.events[..0] == [];
      assert InStep(rs, rpc, s) by { assert Behind(rpc, s); }
    } else {
      var n := |acts| - 1;
      RunsStayInStep(rs, rpc, acts[..n]);
      StepKeepsInStep(rs, rpc, Run(rs, rpc, acts[..n]).value, acts[n]);
    }
    StoredBounded(rs, rpc.name, s.path);
  }

  /** A replayer that still has work never waits forever for a server message. */
  lemma Progress(rs: seq<Recording>, rpc: Recording, s: System)
    requires Stored(rs, rpc.name, rpc.events) && Replayable(rs, rpc)
    requires InStep(rs, rpc, s) && s.verdict == Replaying
    ensures Enabled(rs, rpc, s, ReplayerMoves) || Enabled(rs, rpc, s, FixtureMoves)
  {
    if s.pos < |rpc.events| && rpc.events[s.pos].origin == ServerMessage && s.toClient == [] && s.served.None?
       && s.toServer == [] {
      assert s.path == rpc.events[..s.pos];
      assert Determined(rs, rpc, s.pos);
    }
  }

  /** Main result. A replayable RPC that starts some recording: in every run, whatever the
      interleaving, nothing is reported but OK, the replayer is never stuck before that,
      and the number of steps is bounded. */
  lemma ReplayIsAlwaysOK(rs: seq<Recording>, rpc: Recording, acts: seq<Action>)
    requires Stored(rs, rpc.name, rpc.events) && Replayable(rs, rpc)
    requires Run(rs, rpc, acts).Some?
    ensures var s := Run(rs, rpc, acts).value;
            && s.verdict in {Replaying, OK}
            && (s.verdict == Replaying ==> exists a :: Enabled(rs, rpc, s, a))
            && |acts| <= |rpc.events| + Longest(rs) + 2
  {
    RunsStayInStep(rs, rpc, acts);
    var s := Run(rs, rpc, acts).value;
    if s.verdict == Replaying {
      Progress(rs, rpc, s);
    }
  }

  /** The other direction: one run that ends in OK is enough to know the RPC is replayable. */
  lemma OKOnlyIfReplayable(rs: seq<Recording>, rpc: Recording, acts: seq<Action>)
    requires Stored(rs, rpc.name, rpc.events)
    requires Run(rs, rpc, acts).Some? && Run(rs, rpc, acts).value.verdict == OK
    ensures Replayable(rs, rpc)
  {
    RunsStayInStep(rs, rpc, acts);
    assert rpc.events[..|rpc.events|] == rpc.events;
  }

  ghost predicate CanEndOK(rs: seq<Recording>, rpc: Recording) {
    exists acts :: Run(rs, rpc, acts).Some? && Run(rs, rpc, acts).value.verdict == OK
  }

  lemma {:induction false} RunsOnToOK(rs: seq<Recording>, rpc: Recording, acts: seq<Action>)
    requires Stored(rs, rpc.name, rpc.events) && Replayable(rs, rpc) && Run(rs, rpc, acts).Some?
    ensures CanEndOK(rs, rpc)
    decreases |rpc.events| + Longest(rs) + 2 - |acts|
  {
    ReplayIsAlwaysOK(rs, rpc, acts);
    var s := Run(rs, rpc, acts).value;
    if s.verdict == Replaying {
      var a :| Enabled(rs, rpc, s, a);
      assert (acts + [a])[..|acts|] == acts;
      ReplayIsAlwaysOK(rs, rpc, acts + [a]);
      RunsOnToOK(rs, rpc, acts + [a]);
    }
  }

  /** Replaying an RPC against the fixture that saved it can end in OK exactly when the
      RPC is replayable, and then (ReplayIsAlwaysOK) it does so in every run. */
  lemma ReplayableIsExact(rs: seq<Recording>, rpc: Recording)
    requires Stored(rs, rpc.name, rpc.events)
    ensures CanEndOK(rs, rpc) <==> Replayable(rs, rpc)
  {
    if Replayable(rs, rpc) {
      assert Run(rs, rpc, []) == Some(START);
      RunsOnToOK(rs, rpc, []);
    }
    if CanEndOK(rs, rpc) {
      var acts :| Run(rs, rpc, acts).Some? && Run(rs, rpc, acts).value.verdict == OK;
      OKOnlyIfReplayable(rs, rpc, acts);
    }
  }

  /** Whenever two recordings of a method agree up to some point and one goes on with a
      server message, the other does not go on with anything else. */
  ghost predicate ServerIsDeterminate(rs: seq<Recording>) {
    forall i, j, k | 0 <= i < |rs| && 0 <= j < |rs| && rs[i].name == rs[j].name
      && 0 <= k < |rs[i].events| && k < |rs[j].events| && rs[i].events[..k] == rs[j].events[..k]
      && rs[i].events[k].origin == ServerMessage :: rs[j].events[k] == rs[i].events[k]
  }

  lemma StoredItself(rs: seq<Recording>, i: nat)
    requires i < |rs|
    ensures Stored(rs, rs[i].name, rs[i].events)
  {
    assert StartsWith(rs[i], rs[i].name, rs[i].events);
  }

  /** For a whole dump: every RPC in it replays to OK exactly when the server was
      determinate and every message has a known origin. */
  lemma WholeDumpReplaysExactlyWhenDeterminate(rs: seq<Recording>)
    ensures (forall i :: 0 <= i < |rs| ==> CanEndOK(rs, rs[i]))
       <==> ServerIsDeterminate(rs) && forall i :: 0 <= i < |rs| ==> KnownOrigins(rs[i].events)
  {
    forall i | 0 <= i < |rs| ensures CanEndOK(rs, rs[i]) <==> Replayable(rs, rs[i]) {
      StoredItself(rs, i);
      ReplayableIsExact(rs, rs[i]);
    }
    if ServerIsDeterminate(rs) {
      forall i, k | 0 <= i < |rs| && 0 <= k < |rs[i].events| ensures Determined(rs, rs[i], k) {
        DeterminateMeansDetermined(rs, i, k);
      }
    }
    if forall i :: 0 <= i < |rs| ==> Replayable(rs, rs[i]) {
      forall i, j, k | 0 <= i < |rs| && 0 <= j < |rs| && rs[i].name == rs[j].name
        && 0 <= k < |rs[i].events| && k < |rs[j].events| && rs[i].events[..k] == rs[j].events[..k]
        && rs[i].events[k].origin == ServerMessage
        ensures rs[j].events[k] == rs[i].events[k]
      {
        StoredItself(rs, j);
        OwnContinuation(rs, rs[j], k);
        assert Determined(rs, rs[i], k) && Determined(rs, rs[j], k);
      }
    }
  }

  lemma DeterminateMeansDetermined(rs: seq<Recording>, i: nat, k: nat)
    requires ServerIsDeterminate(rs) && i < |rs| && k < |rs[i].events|
    ensures Determined(rs, rs[i], k)
  {
    var path := rs[i].events[..k];
    var es := Following(rs, rs[i].name, path);
    StoredItself(rs, i);
    OwnContinuation(rs, rs[i], k);
    if rs[i].events[k].origin == ServerMessage {
      forall e | e in es ensures e == rs[i].events[k] {
        FollowingMember(rs, rs[i].name, path, e);
        var j :| 0 <= j < |rs| && StartsWith(rs[j], rs[i].name, path + [e]);
        assert rs[j].events[..k] == (path + [e])[..k] == path && rs[j].events[k] == e;
      }
      assert forall n :: 0 <= n < |es| ==> es[n] in es;
    }
  }
}
