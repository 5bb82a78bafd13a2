/** The values that flow between the tools: message payloads, who sent them,
    and the recorded RPCs of a dump. */
module Messages {

  type Byte = b: int | 0 <= b < 256

  type Bytes = seq<Byte>

  datatype Option<+T> = None | Some(value: T)

  /** The source keeps the origin as a string; anything but "client" and
      "server" survives loading and is only rejected by the replayer. */
  datatype Origin = ClientMessage | ServerMessage | UnknownOrigin(name: string)

  /** One message as it is stored and compared: its origin and its bytes. */
  datatype Event = Event(origin: Origin, raw: Bytes)

  /** One message of a dump: the raw bytes and the human readable JSON form,
      either of which may be missing. */
  datatype Message = Message(origin: Origin, raw: Option<Bytes>, human: Option<string>)

  datatype Rpc = Rpc(service: string, rpcMethod: string, messages: seq<Message>)

  function StreamName(rpc: Rpc): string {
    "/" + rpc.service + "/" + rpc.rpcMethod
  }

  /** The payloads of one origin, in order. */
  function Raws(events: seq<Event>, origin: Origin): seq<Bytes> {
    if events == [] then []
    else
      var last := events[|events| - 1];
      var before := Raws(events[..|events| - 1], origin);
      if last.origin == origin then before + [last.raw] else before
  }

  lemma RawsSnoc(events: seq<Event>, e: Event, origin: Origin)
    ensures Raws(events + [e], origin)
         == Raws(events, origin) + if e.origin == origin then [e.raw] else []
  {
    assert (events + [e])[..|events|] == events;
  }

  lemma RawsOne(e: Event, origin: Origin)
    ensures Raws([e], origin) == if e.origin == origin then [e.raw] else []
  {
    assert [e][..0] == [];
  }

  lemma {:induction false} RawsConcat(a: seq<Event>, b: seq<Event>, origin: Origin)
    ensures Raws(a + b, origin) == Raws(a, origin) + Raws(b, origin)
    decreases |b|
  {
    if b == [] {
      assert a + b == a;
    } else {
      var n := |b| - 1;
      assert (a + b)[..|a + b| - 1] == a + b[..n];
      RawsConcat(a, b[..n], origin);
    }
  }

  lemma Regroup<T>(a: seq<T>, b: seq<T>, c: seq<T>)
    ensures (a + b) + c == a + (b + c)
  {
  }

  /** Moving the head of a queue to what is in front of it. */
  lemma MoveHead<T>(front: seq<T>, queue: seq<T>)
    requires queue != []
    ensures (front + [queue[0]]) + queue[1..] == front + queue
  {
  }
}
