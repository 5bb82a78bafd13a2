/** grpc-dump's recorder: a server stream that logs every message it passes on, and the
    interceptor that writes the log out after the RPC. Each method is one critical section
    of the source together with the call it makes on the wrapped stream. */
module Recorder {
  import opened Messages

  /** Header and trailer metadata. */
  type Metadata = map<string, seq<string>>

  function Join(a: Metadata, b: Metadata): (m: Metadata)
    ensures m.Keys == a.Keys + b.Keys
    ensures forall k :: k in m ==> m[k] == Values(a, k) + Values(b, k)
  {
    map k | k in a.Keys + b.Keys :: Values(a, k) + Values(b, k)
  }

  /** Headers can be joined as they come: in any grouping, and none change nothing. */
  lemma JoinIsAMonoid(a: Metadata, b: Metadata, c: Metadata)
    ensures Join(Join(a, b), c) == Join(a, Join(b, c))
    ensures Join(a, map[]) == a && Join(map[], a) == a
  {
    var left, right := Join(Join(a, b), c), Join(a, Join(b, c));
    forall k ensures Values(left, k) == Values(right, k) {
      ValuesOfJoin(a, b, k);
      ValuesOfJoin(b, c, k);
      ValuesOfJoin(Join(a, b), c, k);
      ValuesOfJoin(a, Join(b, c), k);
      Regroup(Values(a, k), Values(b, k), Values(c, k));
    }
    SameValues(left, right);
    forall k ensures Values(Join(a, map[]), k) == Values(a, k) == Values(Join(map[], a), k) {
      ValuesOfJoin(a, map[], k);
      ValuesOfJoin(map[], a, k);
    }
    SameValues(Join(a, map[]), a);
    SameValues(Join(map[], a), a);
  }

  lemma ValuesOfJoin(a: Metadata, b: Metadata, key: string)
    ensures Values(Join(a, b), key) == Values(a, key) + Values(b, key)
  {
  }

  lemma SameValues(a: Metadata, b: Metadata)
    requires a.Keys == b.Keys && forall k :: Values(a, k) == Values(b, k)
    ensures a == b
  {
    forall k | k in a ensures a[k] == b[k] {
      assert Values(a, k) == Values(b, k);
    }
  }

  function Values(m: Metadata, key: string): seq<string> {
    if key in m then m[key] else []
  }

  /** A logged message; the interceptor fills in the decoded form at the end. */
  class LoggedMessage {
    const event: Event
    var decoded: Option<string>

    constructor (event: Event)
      ensures this.event == event && decoded == None
    {
      this.event, this.decoded := event, None;
    }
  }

  /** The wrapped stream. A None in the outbox is a nil message. Sending can fail at any time. */
  class WrappedStream {
    var inbox: seq<Bytes>
    var outbox: seq<Option<Bytes>>
    var headersSet: seq<Metadata>
    var headersSent: seq<Metadata>
    var trailers: Metadata

    constructor (inbox: seq<Bytes>)
      ensures this.inbox == inbox && outbox == [] && headersSet == [] && headersSent == [] && trailers == map[]
    {
      this.inbox, this.outbox, this.headersSet, this.headersSent, this.trailers := inbox, [], [], [], map[];
    }

    method SetTrailer(md: Metadata)
      modifies this`trailers
      ensures trailers == md
    {
      trailers := md;
    }

    method SendMsg(m: Option<Bytes>) returns (ok: bool)
      modifies this`outbox
      ensures outbox == if ok then old(outbox) + [m] else old(outbox)
    {
      ok := *;
      if ok {
        outbox := outbox + [m];
      }
    }

    method RecvMsg() returns (m: Option<Bytes>)
      modifies this`inbox
      ensures m.None? ==> inbox == old(inbox)
      ensures m.Some? ==> old(inbox) == [m.value] + inbox
    {
      var fails: bool := *;
      if fails || inbox == [] {
        return None;
      }
      m, inbox := Some(inbox[0]), inbox[1..];
    }

    method SetHeader(md: Metadata) returns (ok: bool)
      modifies this`headersSet
      ensures headersSet == if ok then old(headersSet) + [md] else old(headersSet)
    {
      ok := *;
      if ok {
        headersSet := headersSet + [md];
      }
    }

    method SendHeader(md: Metadata) returns (ok: bool)
      modifies this`headersSent
      ensures headersSent == if ok then old(headersSent) + [md] else old(headersSent)
    {
      ok := *;
      if ok {
        headersSent := headersSent + [md];
      }
    }
  }

  function OrEmpty(m: Option<Bytes>): (b: Bytes)
    ensures m == Some(b) || (m == None && b == [])
  {
    if m.Some? then m.value else []
  }

  function EventsOf(messages: seq<LoggedMessage>): (log: seq<Event>)
    ensures |log| == |messages| && forall i :: 0 <= i < |log| ==> log[i] == messages[i].event
  {
    seq(|messages|, i requires 0 <= i < |messages| => messages[i].event)
  }

  class RecordedServerStream {
    const stream: WrappedStream
    var events: seq<LoggedMessage>
    var headers: Metadata
    var trailers: Metadata

    constructor (stream: WrappedStream)
      ensures this.stream == stream && Log() == [] && headers == map[] && trailers == map[]
    {
      this.stream, this.events, this.headers, this.trailers := stream, [], map[], map[];
    }

    ghost function Log(): (log: seq<Event>)
      reads this`events
    {
      EventsOf(events)
    }

    /** A message to the client is logged before it is sent, and stays logged when the send
        fails; a nil message is logged as the empty one but sent as it is. */
    method SendMsg(m: Option<Bytes>) returns (ok: bool)
      modifies this`events, stream`outbox
      ensures Log() == old(Log()) + [Event(ServerMessage, OrEmpty(m))]
      ensures old(events) <= events && fresh(events[|old(events)|])
      ensures stream.outbox == if ok then old(stream.outbox) + [m] else old(stream.outbox)
    {
      var logged := new LoggedMessage(Event(ServerMessage, OrEmpty(m)));
      events := events + [logged];
      ok := stream.SendMsg(m);
    }

    /** A message from the client is logged once it has been received, and only then. */
    method RecvMsg() returns (m: Option<Bytes>)
      modifies this`events, stream`inbox
      ensures m.None? ==> stream.inbox == old(stream.inbox) && events == old(events)
      ensures m.Some? ==> old(stream.inbox) == [m.value] + stream.inbox
      ensures m.Some? ==> Log() == old(Log()) + [Event(ClientMessage, m.value)]
      ensures old(events) <= events && forall i :: |old(events)| <= i < |events| ==> fresh(events[i])
    {
      m := stream.RecvMsg();
      if m.Some? {
        var logged := new LoggedMessage(Event(ClientMessage, m.value));
        events := events + [logged];
      }
    }

    method SendHeader(md: Metadata) returns (ok: bool)
      modifies this`headers, stream`headersSent
      ensures headers == Join(old(headers), md)
      ensures stream.headersSent == if ok then old(stream.headersSent) + [md] else old(stream.headersSent)
    {
      headers := Join(headers, md);
      ok := stream.SendHeader(md);
    }

    method SetHeader(md: Metadata) returns (ok: bool)
      modifies this`headers, stream`headersSet
      ensures headers == Join(old(headers), md)
      ensures stream.headersSet == if ok then old(stream.headersSet) + [md] else old(stream.headersSet)
    {
      headers := Join(headers, md);
      ok := stream.SetHeader(md);
    }

    method SetTrailer(md: Metadata)
      modifies this`trailers, stream`trailers
      ensures trailers == md && stream.trailers == md
    {
      trailers := md;
      stream.SetTrailer(md);
    }

    /** Under the lock, after the handler has returned: decode every message in place. The
        messages themselves and their order stay what they were, and a message that cannot
        be decoded is written without a decoded form. */
    method DumpMessages(decode: Event -> Option<string>) returns (rows: seq<(Event, Option<string>)>)
      modifies events
      ensures Log() == old(Log())
      ensures |rows| == |Log()|
      ensures forall i :: 0 <= i < |rows| ==>
        rows[i] == (Log()[i], decode(Log()[i])) && events[i].decoded == decode(Log()[i])
    {
      rows := [];
      var i := 0;
      while i < |events|
        invariant 0 <= i <= |events| && |rows| == i
        invariant forall j :: 0 <= j < i ==>
          rows[j] == (events[j].event, decode(events[j].event)) && events[j].decoded == decode(events[j].event)
        modifies events
      {
        events[i].decoded := decode(events[i].event);
        rows := rows + [(events[i].event, events[i].decoded)];
        i := i + 1;
      }
    }
  }

  // ---------- The name an RPC is recorded under ----------

  /** What is between the slashes. */
  function Split(s: string): (parts: seq<string>)
    ensures |parts| >= 1 && forall i :: 0 <= i < |parts| ==> '/' !in parts[i]
  {
    if s == [] then [""]
    else
      var rest := Split(s[1..]);
      if s[0] == '/' then [""] + rest else [[s[0]] + rest[0]] + rest[1..]
  }

  /** The service and the method that are recorded. With less than two slashes there are none,
      and the program fails. */
  function NamesOf(fullMethod: string): Option<(string, string)> {
    var parts := Split(fullMethod);
    if |parts| < 3 then None else Some((parts[1], parts[2]))
  }

  /** An RPC that was recorded is loaded and replayed under the name it was called by, if and
      only if that name is a service and a method, each of them after a slash. */
  lemma RecordedUnderItsName(fullMethod: string, messages: seq<Message>)
    ensures var names := NamesOf(fullMethod);
            (names.Some? && StreamName(Rpc(names.value.0, names.value.1, messages)) == fullMethod)
              <==> exists service: string, name: string ::
                     '/' !in service && '/' !in name && fullMethod == "/" + (service + ("/" + name))
    ensures forall service: string, name: string ::
      '/' !in service && '/' !in name && fullMethod == "/" + (service + ("/" + name)) ==>
        NamesOf(fullMethod) == Some((service, name))
  {
    var names := NamesOf(fullMethod);
    forall service: string, name: string
      | '/' !in service && '/' !in name && fullMethod == "/" + (service + ("/" + name))
      ensures names == Some((service, name))
      ensures StreamName(Rpc(service, name, messages)) == fullMethod
    {
      assert fullMethod[1..] == service + ("/" + name) && ("/" + name)[1..] == name;
      SplitAtSlash(service, "/" + name);
      NoSlash(name);
      Regroup("/" + service, "/", name);
      Regroup("/", service, "/" + name);
    }
    if names.Some? && StreamName(Rpc(names.value.0, names.value.1, messages)) == fullMethod {
      var service, name := names.value.0, names.value.1;
      Regroup("/" + service, "/", name);
      Regroup("/", service, "/" + name);
      assert fullMethod == "/" + (service + ("/" + name));
    }
  }

  lemma {:induction false} NoSlash(s: string)
    requires '/' !in s
    ensures Split(s) == [s]
  {
    if s != [] {
      NoSlash(s[1..]);
      assert s == [s[0]] + s[1..];
    }
  }

  lemma {:induction false} SplitAtSlash(s: string, rest: string)
    requires '/' !in s && rest != [] && rest[0] == '/'
    ensures Split(s + rest) == [s] + Split(rest[1..])
  {
    if s == [] {
      assert s + rest == rest;
    } else {
      assert (s + rest)[1..] == s[1..] + rest;
      SplitAtSlash(s[1..], rest);
      assert s == [s[0]] + s[1..];
      assert ([s[1..]] + Split(rest[1..]))[1..] == Split(rest[1..]);
    }
  }

  /** One call on the recorder, for stating what a whole sequence of calls leaves behind. */
  datatype Call = Send(m: Option<Bytes>) | Recv

  /** The calls, with what they got from the client and what they delivered to it. */
  method Apply(ss: RecordedServerStream, call: Call) returns (received: seq<Bytes>, delivered: seq<Bytes>)
    modifies ss`events, ss.stream
    ensures old(ss.stream.inbox) == received + ss.stream.inbox
    ensures PayloadsOf(ss.stream.outbox) == PayloadsOf(old(ss.stream.outbox)) + delivered
    ensures delivered == Attempt(call) || delivered == []
    ensures Raws(ss.Log(), ClientMessage) == Raws(old(ss.Log()), ClientMessage) + received
    ensures Raws(ss.Log(), ServerMessage) == Raws(old(ss.Log()), ServerMessage) + Attempt(call)
    ensures old(ss.Log()) <= ss.Log()
  {
    ghost var log := ss.Log();
    match call {
      case Send(m) =>
        var ok := ss.SendMsg(m);
        RawsSnoc(log, Event(ServerMessage, OrEmpty(m)), ClientMessage);
        RawsSnoc(log, Event(ServerMessage, OrEmpty(m)), ServerMessage);
        return [], if ok then [OrEmpty(m)] else [];
      case Recv =>
        var m := ss.RecvMsg();
        if m.None? {
          return [], [];
        }
        RawsSnoc(log, Event(ClientMessage, m.value), ClientMessage);
        RawsSnoc(log, Event(ClientMessage, m.value), ServerMessage);
        return [m.value], [];
    }
  }

  /** Any sequence of calls: the log is what was received from the client and what was
      attempted towards it, interleaved as it happened. What was delivered is part of that. */
  method UseRecorder(ss: RecordedServerStream, calls: seq<Call>) returns (received: seq<Bytes>, delivered: seq<Bytes>)
    modifies ss`events, ss.stream
    ensures old(ss.stream.inbox) == received + ss.stream.inbox
    ensures PayloadsOf(ss.stream.outbox) == PayloadsOf(old(ss.stream.outbox)) + delivered
    ensures Raws(ss.Log(), ClientMessage) == Raws(old(ss.Log()), ClientMessage) + received
    ensures Raws(ss.Log(), ServerMessage) == Raws(old(ss.Log()), ServerMessage) + Attempted(calls)
    ensures Subsequence(delivered, Attempted(calls))
    ensures old(ss.Log()) <= ss.Log()
  {
    received, delivered := [], [];
    ghost var attempted, inbox, outbox, log := [], ss.stream.inbox, PayloadsOf(ss.stream.outbox), ss.Log();
    assert calls[..0] == [];
    for i := 0 to |calls|
      invariant inbox == received + ss.stream.inbox && attempted == Attempted(calls[..i])
      invariant PayloadsOf(ss.stream.outbox) == outbox + delivered && Subsequence(delivered, attempted)
      invariant Raws(ss.Log(), ClientMessage) == Raws(log, ClientMessage) + received
      invariant Raws(ss.Log(), ServerMessage) == Raws(log, ServerMessage) + attempted
      invariant log <= ss.Log()
    {
      AttemptedSnoc(calls, i);
      var got, sent := Apply(ss, calls[i]);
      Regroup(Raws(log, ClientMessage), received, got);
      Regroup(received, got, ss.stream.inbox);
      Regroup(outbox, delivered, sent);
      Regroup(Raws(log, ServerMessage), attempted, Attempt(calls[i]));
      SubsequenceGrows(delivered, attempted, sent, Attempt(calls[i]));
      received, delivered, attempted := received + got, delivered + sent, attempted + Attempt(calls[i]);
    }
    assert calls[..|calls|] == calls;
  }

  function PayloadsOf(outbox: seq<Option<Bytes>>): (payloads: seq<Bytes>)
    ensures |payloads| == |outbox| && forall i :: 0 <= i < |outbox| ==> payloads[i] == OrEmpty(outbox[i])
  {
    seq(|outbox|, i requires 0 <= i < |outbox| => OrEmpty(outbox[i]))
  }

  /** a is b with some elements left out. */
  predicate Subsequence(a: seq<Bytes>, b: seq<Bytes>) {
    if b == [] then a == []
    else
      || Subsequence(a, b[..|b| - 1])
      || (a != [] && a[|a| - 1] == b[|b| - 1] && Subsequence(a[..|a| - 1], b[..|b| - 1]))
  }

  lemma SubsequenceGrows(a: seq<Bytes>, b: seq<Bytes>, sent: seq<Bytes>, attempt: seq<Bytes>)
    requires Subsequence(a, b) && |attempt| <= 1 && (sent == attempt || sent == [])
    ensures Subsequence(a + sent, b + attempt)
  {
    if attempt == [] {
      assert a + sent == a && b + attempt == b;
    } else {
      assert (b + attempt)[..|b|] == b;
      if sent == [] {
        assert a + sent == a;
      } else {
        assert (a + sent)[..|a|] == a;
      }
    }
  }

  /** What a call logs towards the client. */
  function Attempt(call: Call): seq<Bytes> {
    match call case Send(m) => [OrEmpty(m)] case Recv => []
  }

  function Attempted(calls: seq<Call>): seq<Bytes> {
    if calls == [] then [] else Attempted(calls[..|calls| - 1]) + Attempt(calls[|calls| - 1])
  }

  lemma AttemptedSnoc(calls: seq<Call>, i: nat)
    requires i < |calls|
    ensures Attempted(calls[..i + 1]) == Attempted(calls[..i]) + Attempt(calls[i])
  {
    assert calls[..i + 1][..i] == calls[..i];
  }
}
