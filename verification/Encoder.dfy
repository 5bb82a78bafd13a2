/** Turning a dumped message back into bytes: a chain of resolvers with the raw
    bytes as the last resort. The protobuf and JSON libraries are parameters. */
module Encoder {
  import opened Messages

  /** The steps of one attempt; None stands for the library returning an error.
      D is a message descriptor and Y a dynamic protobuf message. */
  datatype Pipeline<!D, !Y> = Pipeline(
    resolvers: seq<(string, Message) -> Option<D>>,
    marshalJson: string -> Option<string>,
    unmarshalJson: (D, string) -> Option<Y>,
    marshalProto: Y -> Option<Bytes>)

  datatype EncodeResult = Encoded(bytes: Bytes) | EncodeError

  /** What one resolver alone would produce: every step has to succeed. */
  function Attempt<D, Y>(p: Pipeline<D, Y>, i: nat, fullMethod: string, message: Message): Option<Bytes>
    requires i < |p.resolvers| && message.human.Some?
  {
    match p.resolvers[i](fullMethod, message)
    case None => None
    case Some(descriptor) =>
      match p.marshalJson(message.human.value)
      case None => None
      case Some(json) =>
        match p.unmarshalJson(descriptor, json)
        case None => None
        case Some(dyn) => p.marshalProto(dyn)
  }

  /** The first resolver from number i on whose whole attempt succeeds. */
  function FirstSuccess<D, Y>(p: Pipeline<D, Y>, i: nat, fullMethod: string, message: Message): Option<Bytes>
    requires i <= |p.resolvers| && message.human.Some?
    decreases |p.resolvers| - i
  {
    if i == |p.resolvers| then None
    else
      var b := Attempt(p, i, fullMethod, message);
      if b.Some? then b else FirstSuccess(p, i + 1, fullMethod, message)
  }

  /** The bytes a message stands for: what the human readable form encodes to, or else
      the raw bytes, or else nothing. */
  function EncodingOf<D, Y>(p: Pipeline<D, Y>, fullMethod: string, message: Message): EncodeResult {
    var readable := if message.human.Some? then FirstSuccess(p, 0, fullMethod, message) else None;
    if readable.Some? then Encoded(readable.value)
    else if message.raw.Some? then Encoded(message.raw.value)
    else EncodeError
  }

  /** Resolver i leads to these bytes: it has a descriptor, the human readable form has a
      JSON form, that is a message of the descriptor, and the message has the bytes. */
  ghost predicate Produces<D, Y>(p: Pipeline<D, Y>, i: nat, fullMethod: string, message: Message, bytes: Bytes) {
    && message.human.Some? && i < |p.resolvers|
    && var d, json := p.resolvers[i](fullMethod, message), p.marshalJson(message.human.value);
       && d.Some? && json.Some?
       && var dyn := p.unmarshalJson(d.value, json.value);
          dyn.Some? && p.marshalProto(dyn.value) == Some(bytes)
  }

  /** Resolver i decides: it leads to these bytes and no earlier one leads to any. */
  ghost predicate Decides<D, Y>(p: Pipeline<D, Y>, i: nat, fullMethod: string, message: Message, bytes: Bytes) {
    && Produces(p, i, fullMethod, message, bytes)
    && forall j, c :: 0 <= j < i ==> !Produces(p, j, fullMethod, message, c)
  }

  /** The first resolver in order that leads to bytes decides; if none does, the raw bytes
      when present. */
  ghost predicate EncodingIs<D, Y>(p: Pipeline<D, Y>, fullMethod: string, message: Message, bytes: Bytes) {
    || (exists i :: Decides(p, i, fullMethod, message, bytes))
    || (message.raw == Some(bytes) && forall i, c :: !Decides(p, i, fullMethod, message, c))
  }

  lemma AttemptProduces<D, Y>(p: Pipeline<D, Y>, i: nat, fullMethod: string, message: Message)
    requires i < |p.resolvers| && message.human.Some?
    ensures forall b :: Attempt(p, i, fullMethod, message) == Some(b) <==> Produces(p, i, fullMethod, message, b)
  {
    var d := p.resolvers[i](fullMethod, message);
    var json := p.marshalJson(message.human.value);
    if d.Some? && json.Some? {
      var dyn := p.unmarshalJson(d.value, json.value);
      if dyn.Some? {
        assert Attempt(p, i, fullMethod, message) == p.marshalProto(dyn.value);
      }
    }
  }

  lemma {:induction false} FirstSuccessDecides<D, Y>(p: Pipeline<D, Y>, i: nat, fullMethod: string, message: Message)
    requires i <= |p.resolvers| && message.human.Some?
    requires forall j, c :: 0 <= j < i ==> !Produces(p, j, fullMethod, message, c)
    ensures forall b ::
      FirstSuccess(p, i, fullMethod, message) == Some(b) <==> exists n :: Decides(p, n, fullMethod, message, b)
    decreases |p.resolvers| - i
  {
    if i < |p.resolvers| {
      AttemptProduces(p, i, fullMethod, message);
      var b := Attempt(p, i, fullMethod, message);
      if b.Some? {
        assert Decides(p, i, fullMethod, message, b.value);
        forall n, c | Decides(p, n, fullMethod, message, c) ensures c == b.value {
          OneDecides(p, i, b.value, n, c, fullMethod, message);
        }
      } else {
        FirstSuccessDecides(p, i + 1, fullMethod, message);
      }
    }
  }

  lemma OneDecides<D, Y>(p: Pipeline<D, Y>, i: nat, b: Bytes, n: nat, c: Bytes, fullMethod: string, message: Message)
    requires Decides(p, i, fullMethod, message, b) && Decides(p, n, fullMethod, message, c)
    ensures i == n && b == c
  {
    AttemptProduces(p, i, fullMethod, message);
    AttemptProduces(p, n, fullMethod, message);
  }

  /** The specification function says what the pipeline says, and an error otherwise. */
  lemma EncodingIsDecided<D, Y>(p: Pipeline<D, Y>, fullMethod: string, message: Message)
    ensures forall b :: EncodingOf(p, fullMethod, message) == Encoded(b) <==> EncodingIs(p, fullMethod, message, b)
  {
    if message.human.Some? {
      FirstSuccessDecides(p, 0, fullMethod, message);
    }
  }

  method EncodeFromHumanReadable<D, Y>(p: Pipeline<D, Y>, fullMethod: string, message: Message)
    returns (r: EncodeResult)
    requires message.human.Some?
    ensures r == match FirstSuccess(p, 0, fullMethod, message) case Some(b) => Encoded(b) case None => EncodeError
    ensures forall b :: r == Encoded(b) <==> exists i :: Decides(p, i, fullMethod, message, b)
  {
    FirstSuccessDecides(p, 0, fullMethod, message);
    if |p.resolvers| == 0 {
      return EncodeError;
    }
    var i := 0;
    while i < |p.resolvers|
      invariant 0 <= i <= |p.resolvers|
      invariant FirstSuccess(p, 0, fullMethod, message) == FirstSuccess(p, i, fullMethod, message)
    {
      var descriptor := p.resolvers[i](fullMethod, message);
      if descriptor.Some? {
        var json := p.marshalJson(message.human.value);
        if json.Some? {
          var dyn := p.unmarshalJson(descriptor.value, json.value);
          if dyn.Some? {
            var b := p.marshalProto(dyn.value);
            if b.Some? {
              return Encoded(b.value);
            }
          }
        }
      }
      i := i + 1;
    }
    return EncodeError;
  }

  method Encode<D, Y>(p: Pipeline<D, Y>, fullMethod: string, message: Message) returns (r: EncodeResult)
    ensures r == EncodingOf(p, fullMethod, message)
    ensures forall b :: r == Encoded(b) <==> EncodingIs(p, fullMethod, message, b)
  {
    EncodingIsDecided(p, fullMethod, message);
    match (message.human, message.raw)
    case (None, Some(raw)) =>
      return Encoded(raw);
    case (Some(_), Some(raw)) =>
      r := EncodeFromHumanReadable(p, fullMethod, message);
      if r.EncodeError? {
        return Encoded(raw);
      }
    case (Some(_), None) =>
      r := EncodeFromHumanReadable(p, fullMethod, message);
    case (None, None) =>
      return EncodeError;
  }

  /** The events are the encodings of the first messages of an RPC. */
  ghost predicate EncodesTo<D, Y>(p: Pipeline<D, Y>, fullMethod: string, messages: seq<Message>, events: seq<Event>) {
    && |events| <= |messages|
    && forall i {:trigger events[i]} :: 0 <= i < |events| ==> EncodesAs(p, fullMethod, messages[i], events[i])
  }

  predicate EncodesAs<D, Y>(p: Pipeline<D, Y>, fullMethod: string, message: Message, e: Event) {
    EncodingOf(p, fullMethod, message) == Encoded(e.raw) && e.origin == message.origin
  }

  lemma EncodesOneMore<D, Y>(
      p: Pipeline<D, Y>, fullMethod: string, messages: seq<Message>, events: seq<Event>, e: Event)
    requires EncodesTo(p, fullMethod, messages, events) && |events| < |messages|
    requires EncodesAs(p, fullMethod, messages[|events|], e)
    ensures EncodesTo(p, fullMethod, messages, events + [e])
  {
  }
}
