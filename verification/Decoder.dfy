/** Decoding a dumped message: resolve a descriptor, enrich it if that works, decode. */
module Decoder {
  import opened Messages
  import opened Wire
  import opened WireTheorems
  import opened Enrichment
  import opened EnrichmentTheorems
  import opened EnrichmentExact
  import opened EnrichmentSuccess
  import Builder

  type Resolver = (string, Message) -> Option<Descriptor>

  function RawOf(message: Message): (raw: Bytes)
    ensures message.raw == Some(raw) || (message.raw == None && raw == [])
  {
    if message.raw.Some? then message.raw.value else []
  }

  /** What decoding bytes under a descriptor comes to: nothing if they are malformed or one
      of their records does not decode, and otherwise what each record decodes to. */
  ghost predicate Unmarshals(lib: Library, d: Descriptor, b: Bytes, result: Option<seq<Decoded>>) {
    match Parse(b)
    case None => result.None?
    case Some(rs) =>
      && (result.Some? <==> forall i :: 0 <= i < |rs| ==> DecodeOne(lib, d, rs[i]).Some?)
      && (result.Some? ==> DecodesEach(lib, d, rs, result.value))
  }

  function Unmarshal(lib: Library, d: Descriptor, b: Bytes): (result: Option<seq<Decoded>>)
    ensures Unmarshals(lib, d, b, result)
  {
    match Parse(b)
    case None => None
    case Some(rs) =>
      DecodeIsPointwise(lib, d, rs);
      Decode(lib, d, rs)
  }

  lemma UnmarshalsToOne(lib: Library, d: Descriptor, b: Bytes, m: Option<seq<Decoded>>, m': Option<seq<Decoded>>)
    requires Unmarshals(lib, d, b, m) && Unmarshals(lib, d, b, m')
    ensures m == m'
  {
    if m.Some? {
      var rs := Parse(b).value;
      forall i | 0 <= i < |rs| ensures m.value[i] == m'.value[i] {
        assert DecodeOne(lib, d, rs[i]) == Some(m.value[i]) == Some(m'.value[i]);
      }
      assert m.value == m'.value;
    }
  }

  // ---------- Resolving ----------

  function MessageName(fullMethod: string): (name: string)
    ensures |name| == |fullMethod|
    ensures forall i :: 0 <= i < |name| ==> name[i] == if fullMethod[i] in "/." then '_' else fullMethod[i]
  {
    if fullMethod == [] then []
    else [if fullMethod[0] in {'/', '.'} then '_' else fullMethod[0]] + MessageName(fullMethod[1..])
  }

  function OriginName(origin: Origin): string {
    match origin
    case ClientMessage => "client"
    case ServerMessage => "server"
    case UnknownOrigin(name) => name
  }

  function OriginOf(name: string): Origin {
    if name == "client" then ClientMessage else if name == "server" then ServerMessage else UnknownOrigin(name)
  }

  /** The names in which origins are stored come back. */
  lemma OriginNamesReturn(name: string)
    ensures OriginName(OriginOf(name)) == name
    ensures OriginOf(name) == ClientMessage <==> name == "client"
    ensures OriginOf(name) == ServerMessage <==> name == "server"
  {
  }

  /** A new message without fields, alone in its file. */
  function EmptyDescriptor(fullMethod: string, message: Message): Descriptor {
    var name := MessageName(fullMethod) + "_" + OriginName(message.origin);
    Descriptor(name, Some({name}), map[])
  }

  /** The resolver that ends every chain. It never fails. */
  function EmptyResolver(fullMethod: string, message: Message): Option<Descriptor> {
    Some(EmptyDescriptor(fullMethod, message))
  }

  /** The descriptor a message is decoded with: resolver i gave it and no earlier one gave
      any, or none of them did and the message is taken to be empty. */
  ghost predicate ResolvesTo(resolvers: seq<Resolver>, fullMethod: string, message: Message, d: Descriptor) {
    || (exists i :: 0 <= i < |resolvers| && resolvers[i](fullMethod, message) == Some(d)
          && forall j :: 0 <= j < i ==> resolvers[j](fullMethod, message) == None)
    || (d == EmptyDescriptor(fullMethod, message)
          && forall j :: 0 <= j < |resolvers| ==> resolvers[j](fullMethod, message) == None)
  }

  // ---------- Enriching and decoding ----------

  /** The fields of the descriptor a message is enriched to. */
  function Enriched(lib: Library, d: Descriptor, b: Bytes): Result<Descriptor> {
    match Unmarshal(lib, d, b)
    case None => Err
    case Some(m) => Enrich(d, m)
  }

  /** The descriptor of the second decode: the enriched one if there is one. */
  function Chosen(lib: Library, d: Descriptor, b: Bytes): Descriptor {
    if Enriched(lib, d, b).Ok? then Enriched(lib, d, b).value else d
  }

  method EnrichDecodeDescriptor(lib: Library, resolved: Descriptor, message: Message) returns (r: Result<Descriptor>)
    ensures Parse(RawOf(message)).None? ==> r.Err?
    ensures r.Ok? <==> Enriched(lib, resolved, RawOf(message)).Ok?
    ensures r.Ok? ==> r.value.fields == Enriched(lib, resolved, RawOf(message)).value.fields
    ensures forall m :: Unmarshals(lib, resolved, RawOf(message), Some(m)) ==>
      && (r.Ok? <==> CanEnrich(resolved, m))
      && (r.Ok? ==> Enrich(resolved, m).Ok? && r.value.fields == Enrich(resolved, m).value.fields)
  {
    forall m | Unmarshals(lib, resolved, RawOf(message), Some(m))
      ensures Unmarshal(lib, resolved, RawOf(message)) == Some(m)
      ensures Enrich(resolved, m).Ok? <==> CanEnrich(resolved, m)
    {
      var decoded := Unmarshal(lib, resolved, RawOf(message));
      UnmarshalsToOne(lib, resolved, RawOf(message), decoded, Some(m));
      DecodedIsTyped(lib, resolved, Parse(RawOf(message)).value);
      EnrichSucceedsExactly(resolved, m);
    }
    var decoded := Unmarshal(lib, resolved, RawOf(message));
    if decoded.None? {
      return Err;
    }
    var descriptor := new Builder.MessageBuilder.FromMessage(resolved);
    var ok := Builder.EnrichMessage(descriptor, decoded.value);
    return if ok then Ok(descriptor.Build()) else Err;
  }

  method DecodeMessage(lib: Library, resolvers: seq<Resolver>, fullMethod: string, message: Message)
    returns (decoded: Option<seq<Decoded>>)
    ensures Parse(RawOf(message)).None? ==> decoded.None?
    ensures exists d :: ResolvesTo(resolvers, fullMethod, message, d)
                        && Unmarshals(lib, Chosen(lib, d, RawOf(message)), RawOf(message), decoded)
  {
    var resolved := Resolve(resolvers, fullMethod, message);
    var enriched := EnrichDecodeDescriptor(lib, resolved, message);
    var descriptor := if enriched.Ok? then enriched.value else resolved;
    decoded := Unmarshal(lib, descriptor, RawOf(message));
    SameFieldsUnmarshal(lib, descriptor, Chosen(lib, resolved, RawOf(message)), RawOf(message));
  }

  /** The loop over the chain of resolvers. */
  method Resolve(resolvers: seq<Resolver>, fullMethod: string, message: Message) returns (d: Descriptor)
    ensures ResolvesTo(resolvers, fullMethod, message, d)
  {
    var chain: seq<Resolver> := resolvers + [EmptyResolver];
    assert chain[|resolvers|](fullMethod, message).Some?;
    var descriptor := None;
    for i := 0 to |chain|
      invariant descriptor == None
      invariant forall j :: 0 <= j < i ==> chain[j](fullMethod, message) == None
    {
      descriptor := chain[i](fullMethod, message);
      if descriptor.Some? {
        assert forall j :: 0 <= j < i ==> resolvers[j] == chain[j];
        break;
      }
    }
    return descriptor.value;
  }

  lemma SameFieldsUnmarshal(lib: Library, d: Descriptor, d': Descriptor, b: Bytes)
    requires d.fields == d'.fields
    ensures Unmarshal(lib, d, b) == Unmarshal(lib, d', b)
  {
    if Parse(b).Some? {
      OnlyFieldsMatter(lib, d, d', Parse(b).value);
    }
  }

  lemma {:induction false} OnlyFieldsMatter(lib: Library, d: Descriptor, d': Descriptor, rs: seq<Record>)
    requires d.fields == d'.fields
    ensures Decode(lib, d, rs) == Decode(lib, d', rs)
  {
    if rs != [] {
      OnlyFieldsMatter(lib, d, d', rs[1..]);
    }
  }

  lemma ResolvesToOne(resolvers: seq<Resolver>, fullMethod: string, message: Message, d: Descriptor, d': Descriptor)
    requires ResolvesTo(resolvers, fullMethod, message, d) && ResolvesTo(resolvers, fullMethod, message, d')
    ensures d == d'
  {
  }

  // ---------- What the enrichment does to the result ----------

  /** For every message: the decoder succeeds exactly if the plain decode does and either
      the enrichment fails or the message fits what is guessed from it. If the enrichment
      fails, the result is the plain decode; otherwise what was known before is the same,
      and no unknown field is left exactly if the message covers itself. */
  lemma DecodingIsDecided(lib: Library, d: Descriptor, b: Bytes)
    ensures var plain, decoded := Unmarshal(lib, d, b), Unmarshal(lib, Chosen(lib, d, b), b);
            && (decoded.Some? <==>
                  plain.Some? && (Enriched(lib, d, b).Err? || FitsIn(lib, d.fields, plain.value, plain.value)))
            && (Enriched(lib, d, b).Err? ==> decoded == plain)
            && (decoded.Some? && Enriched(lib, d, b).Ok? ==> Improves(d, plain.value, decoded.value))
  {
    if Enriched(lib, d, b).Ok? {
      EnrichmentIsDecided(lib, d, Parse(b).value);
    }
  }

  ghost predicate Improves(d: Descriptor, plain: seq<Decoded>, decoded: seq<Decoded>) {
    && |decoded| == |plain| && (forall i :: 0 <= i < |plain| ==> Keeps(plain[i], decoded[i]))
    && (Complete(decoded) <==> CoveredBy(d.fields, plain, plain))
  }

  /** The enrichment does no harm to a regular message, and makes it complete if it works. In
      particular this holds if no field number repeats at any level. */
  lemma EnrichmentIsHarmless(lib: Library, d: Descriptor, b: Bytes)
    requires Sound(lib)
    requires Unmarshal(lib, d, b).Some? ==> Regular(Unmarshal(lib, d, b).value)
    ensures var plain, decoded := Unmarshal(lib, d, b), Unmarshal(lib, Chosen(lib, d, b), b);
            && (decoded.Some? <==> plain.Some?)
            && (Enriched(lib, d, b).Ok? ==> Complete(decoded.value))
  {
    if Unmarshal(lib, d, b).Some? {
      RegularFits(lib, d.fields, Unmarshal(lib, d, b).value);
    }
    DecodingIsDecided(lib, d, b);
  }

  /** Otherwise it can turn a success into a failure: field 1 comes first as the string "A"
      and then as the number 1, so it is guessed to be a repeated string. */
  lemma RepeatsCanSpoilADecode(lib: Library, fullMethod: string, message: Message)
    requires !lib(BytesForm, Varint(1))
    requires message.raw == Some(Emit([Record(1, LengthDelimited([0x41])), Record(1, Varint(1))]))
    ensures var d, b := EmptyDescriptor(fullMethod, message), RawOf(message);
            Unmarshal(lib, d, b).Some? && Unmarshal(lib, Chosen(lib, d, b), b).None?
  {
    ParseIsExact([Record(1, LengthDelimited([0x41])), Record(1, Varint(1))]);
    var d := EmptyDescriptor(fullMethod, message);
    AStringIsGuessed(d.file, GeneratedName(d.name, 1));
    PairSpoils(lib, d, LengthDelimited([0x41]), Varint(1));
  }

  /** This also happens without a change of wire type: field 1 comes first with bytes that
      happen to be a message and then with the string "A", which is none. Any library fails. */
  lemma RepeatedMessagesCanSpoilADecode(lib: Library, fullMethod: string, message: Message)
    requires message.raw == Some(Emit([Record(1, LengthDelimited([0x08, 0x01])), Record(1, LengthDelimited([0x41]))]))
    ensures var d, b := EmptyDescriptor(fullMethod, message), RawOf(message);
            Unmarshal(lib, d, b).Some? && Unmarshal(lib, Chosen(lib, d, b), b).None?
  {
    ParseIsExact([Record(1, LengthDelimited([0x08, 0x01])), Record(1, LengthDelimited([0x41]))]);
    ANumberLooksNested();
    AStringDoesNotParse();
    var d := EmptyDescriptor(fullMethod, message);
    GuessedFromANumber(d.file, GeneratedName(d.name, 1));
    PairSpoils(lib, d, LengthDelimited([0x08, 0x01]), LengthDelimited([0x41]));
  }

  /** Two occurrences of field 1 of which the second does not fit the first. */
  lemma PairSpoils(lib: Library, d: Descriptor, first: Payload, second: Payload)
    requires d.fields == map[] && Detect(d.file, GeneratedName(d.name, 1), first).Ok?
    requires if LooksNested(first) then second.LengthDelimited? && Parse(second.bytes).None?
             else !first.Group? && !lib(FormOf(first), second)
    ensures var rs := [Record(1, first), Record(1, second)];
            var m := Decode(lib, d, rs);
            m.Some? && Enrich(d, m.value).Ok? && Decode(lib, Enrich(d, m.value).value, rs).None?
  {
    var rs := [Record(1, first), Record(1, second)];
    EmptyDecodesToUnknown(lib, d.name, rs);
    OnlyFieldsMatter(lib, d, Descriptor(d.name, None, map[]), rs);
    PairOfUnknowns(rs);
    var m := AllUnknown(rs);
    OneFieldIsAdded(d, m);
    assert !Fits(lib, d.fields, m, m[1]);
    EnrichmentIsDecided(lib, d, rs);
  }

  lemma AStringIsGuessed(file: Option<set<string>>, name: string)
    ensures Detect(file, name, LengthDelimited([0x41])) == Ok(Scalar(BytesForm, "string"))
    ensures !LooksNested(LengthDelimited([0x41])) && FormOf(LengthDelimited([0x41])) == BytesForm
  {
  }

  /** Two records of the same unknown number. */
  lemma {:induction false} PairOfUnknowns(rs: seq<Record>)
    requires |rs| == 2 && rs[0].num == rs[1].num
    ensures var m, n := AllUnknown(rs), rs[0].num;
            m == [Unknown(n, rs[0].payload), Unknown(n, rs[1].payload)]
            && UnknownNumbers(m) == [n] && NestedNumbers(m) == []
            && Contents(m, n) == [rs[0].payload, rs[1].payload]
  {
    var m, n := AllUnknown(rs), rs[0].num;
    assert m == [Unknown(n, rs[0].payload), Unknown(n, rs[1].payload)];
    assert m[1..] == [m[1]] && m[1..][1..] == [];
    assert UnknownNumbers(m[1..]) == [n] && NestedNumbers(m[1..]) == [];
    assert Contents(m[1..], n) == [m[1].payload];
  }

  lemma OneFieldIsAdded(d: Descriptor, m: seq<Decoded>)
    requires d.fields == map[] && UnknownNumbers(m) == [1] && NestedNumbers(m) == []
    requires Detect(d.file, GeneratedName(d.name, 1), Contents(m, 1)[0]).Ok?
    ensures Enrich(d, m).Ok?
  {
    assert AddUnknown(d, [1], m) == AddField(d, 1, m) by {
      assert AddField(d, 1, m).Ok? && [1][1..] == [];
      assert AddUnknown(AddField(d, 1, m).value, [], m) == AddField(d, 1, m);
    }
  }

  lemma ANumberLooksNested()
    ensures Parse([0x08, 0x01]) == Some([Record(1, Varint(1))]) && LooksNested(LengthDelimited([0x08, 0x01]))
  {
    ANumberIsEmitted();
    ParseIsExact([Record(1, Varint(1))]);
  }

  lemma ANumberIsEmitted()
    ensures Emit([Record(1, Varint(1))]) == [0x08, 0x01]
  {
    var r := Record(1, Varint(1));
    assert EmitRecord(r) == [0x08] + [0x01];
    assert [r][1..] == [] && Emit([]) == [];
    assert Emit([r]) == EmitRecord(r) + Emit([r][1..]);
  }

  lemma AStringDoesNotParse()
    ensures Parse([0x41]).None?
  {
    assert ScanVarint([0x41], 10) == Some(Scanned(0x41, 1));
  }

  lemma GuessedFromANumber(file: Option<set<string>>, name: string)
    requires file.None? || name !in file.value
    ensures Detect(file, name, LengthDelimited([0x08, 0x01])).Ok?
  {
    ANumberLooksNested();
    var base, m := Descriptor(name, None, map[]), AllUnknown([Record(1, Varint(1))]);
    assert m == [Unknown(1, Varint(1))] && m[1..] == [];
    assert UnknownNumbers(m) == [1] && NestedNumbers(m) == [] && Contents(m, 1) == [Varint(1)];
    OneFieldIsAdded(base, m);
  }
}
