/** Decoding under a message descriptor, and guessing types for the fields it does not
    have. A descriptor is a map from field numbers to named, typed fields. */
module Enrichment {
  import opened Messages
  import opened Wire

  datatype ScalarForm = VarintForm | Fixed32Form | Fixed64Form | BytesForm

  datatype Kind = Scalar(form: ScalarForm, typeName: string) | MessageOf(descriptor: Descriptor)

  datatype Field = Field(name: string, kind: Kind, repeated: bool)

  /** file holds the names of the messages declared in the same file, if there is a file. */
  datatype Descriptor = Descriptor(name: string, file: Option<set<string>>, fields: map<nat, Field>)

  /** A decoded field with the payload it came from. */
  datatype Decoded =
    | Unknown(num: nat, payload: Payload)
    | Known(num: nat, payload: Payload)
    | Nested(num: nat, payload: Payload, body: seq<Decoded>)

  /** Whether a scalar field takes a payload. The library is free to decide this where the
      wire type is not the field's own. */
  type Library = (ScalarForm, Payload) -> bool

  predicate OwnWireType(c: ScalarForm, p: Payload) {
    match c
    case VarintForm => p.Varint?
    case Fixed32Form => p.Fixed32?
    case Fixed64Form => p.Fixed64?
    case BytesForm => p.LengthDelimited?
  }

  ghost predicate Sound(lib: Library) {
    forall c, p :: OwnWireType(c, p) ==> lib(c, p)
  }

  // ---------- Decoding ----------

  function DecodeOne(lib: Library, d: Descriptor, r: Record): (result: Option<Decoded>)
    ensures result.Some? ==> result.value.num == r.num && result.value.payload == r.payload
    ensures result.Some? ==> DecodedWeight(result.value) <= Weight(r.payload)
    decreases Weight(r.payload), 0
  {
    if r.num !in d.fields then Some(Unknown(r.num, r.payload))
    else
      match d.fields[r.num].kind
      case Scalar(form, _) => if lib(form, r.payload) then Some(Known(r.num, r.payload)) else None
      case MessageOf(sub) =>
        if !r.payload.LengthDelimited? then None
        else
          match Parse(r.payload.bytes)
          case None => None
          case Some(records) =>
            match Decode(lib, sub, records)
            case None => None
            case Some(body) => Some(Nested(r.num, r.payload, body))
  }

  /** Every record lands in exactly one decoded field, in order; one bad record spoils all. */
  function Decode(lib: Library, d: Descriptor, rs: seq<Record>): (result: Option<seq<Decoded>>)
    ensures result.Some? ==> |result.value| == |rs| && MessageWeight(result.value) <= TotalWeight(rs)
    ensures result.Some? ==>
      forall i :: 0 <= i < |rs| ==> result.value[i].num == rs[i].num && result.value[i].payload == rs[i].payload
    decreases TotalWeight(rs), 1, |rs|
  {
    if rs == [] then Some([])
    else
      match (DecodeOne(lib, d, rs[0]), Decode(lib, d, rs[1..]))
      case (Some(first), Some(rest)) => Some([first] + rest)
      case _ => None
  }

  function DecodedWeight(f: Decoded): (w: nat)
    ensures w >= 1
  {
    if f.Nested? then 1 + MessageWeight(f.body) else Weight(f.payload)
  }

  function MessageWeight(m: seq<Decoded>): (w: nat)
    ensures forall i :: 0 <= i < |m| ==> DecodedWeight(m[i]) <= w
  {
    if m == [] then 0 else DecodedWeight(m[0]) + MessageWeight(m[1..])
  }

  // ---------- What a decoded message offers the enrichment ----------

  /** The distinct numbers of its unknown fields, and of its nested messages. The order does
      not matter: in the source it is that of a hash map. */
  function UnknownNumbers(m: seq<Decoded>): (nums: seq<nat>)
    ensures forall n :: n in nums <==> exists i :: 0 <= i < |m| && m[i].Unknown? && m[i].num == n
    ensures forall n :: n in nums ==> Contents(m, n) != []
    ensures forall i, j :: 0 <= i < j < |nums| ==> nums[i] != nums[j]
  {
    if m == [] then []
    else
      var rest := UnknownNumbers(m[1..]);
      if m[0].Unknown? && m[0].num !in rest then [m[0].num] + rest else rest
  }

  function NestedNumbers(m: seq<Decoded>): (nums: seq<nat>)
    ensures forall n :: n in nums <==> exists i :: 0 <= i < |m| && m[i].Nested? && m[i].num == n
    ensures forall i, j :: 0 <= i < j < |nums| ==> nums[i] != nums[j]
  {
    if m == [] then []
    else
      var rest := NestedNumbers(m[1..]);
      if m[0].Nested? && m[0].num !in rest then [m[0].num] + rest else rest
  }

  /** The payloads of an unknown field. */
  function Contents(m: seq<Decoded>, num: nat): (ps: seq<Payload>)
    ensures forall i :: 0 <= i < |ps| ==> Weight(ps[i]) <= MessageWeight(m)
  {
    if m == [] then []
    else
      var rest := Contents(m[1..], num);
      if m[0].Unknown? && m[0].num == num then [m[0].payload] + rest else rest
  }

  /** The value of a message field: the first element if it is repeated, and otherwise all
      occurrences merged, which for messages is concatenation. */
  function BodyOf(m: seq<Decoded>, num: nat, repeated: bool): (body: seq<Decoded>)
    ensures MessageWeight(body) <= MessageWeight(m)
    ensures (exists i :: 0 <= i < |m| && m[i].Nested? && m[i].num == num) ==> MessageWeight(body) < MessageWeight(m)
  {
    if m == [] then []
    else if m[0].Nested? && m[0].num == num then
      if repeated then m[0].body
      else
        var rest := BodyOf(m[1..], num, repeated);
        WeightConcat(m[0].body, rest);
        m[0].body + rest
    else BodyOf(m[1..], num, repeated)
  }

  lemma {:induction false} WeightConcat(a: seq<Decoded>, b: seq<Decoded>)
    ensures MessageWeight(a + b) == MessageWeight(a) + MessageWeight(b)
  {
    if a == [] {
      assert a + b == b;
    } else {
      assert (a + b)[1..] == a[1..] + b;
      WeightConcat(a[1..], b);
    }
  }

  // ---------- Enrichment ----------

  datatype Result<+T> = Ok(value: T) | Err

  function Digits(n: nat): string {
    if n < 10 then [Digit(n)] else Digits(n / 10) + [Digit(n % 10)]
  }

  function Digit(n: nat): char
    requires n < 10
  {
    '0' + n as char
  }

  function GeneratedName(base: string, num: nat): string {
    base + "_" + Digits(num)
  }

  /** Field numbers the descriptor builder accepts. */
  predicate Addable(num: nat) {
    1 <= num <= 0x1fff_ffff && !(19000 <= num <= 19999)
  }

  predicate NameTaken(d: Descriptor, name: string) {
    exists n :: n in d.fields && d.fields[n].name == name
  }

  predicate PrintableAscii(b: Bytes) {
    forall i :: 0 <= i < |b| ==> 0x20 <= b[i] <= 0x7e
  }

  /** The payload looks like a nested message. */
  predicate LooksNested(p: Payload) {
    p.LengthDelimited? && !PrintableAscii(p.bytes) && Parse(p.bytes).Some?
  }

  function AllUnknown(rs: seq<Record>): (m: seq<Decoded>)
    ensures |m| == |rs| && MessageWeight(m) <= TotalWeight(rs)
    ensures forall i :: 0 <= i < |rs| ==> m[i] == Unknown(rs[i].num, rs[i].payload)
  {
    if rs == [] then [] else [Unknown(rs[0].num, rs[0].payload)] + AllUnknown(rs[1..])
  }

  /** The type guessed for an unknown field from one of its payloads. */
  function Detect(file: Option<set<string>>, name: string, p: Payload): Result<Kind>
    decreases Weight(p), 0
  {
    match p
    case Varint(_) => Ok(Scalar(VarintForm, "int64"))
    case Fixed32(_) => Ok(Scalar(Fixed32Form, "float"))
    case Fixed64(_) => Ok(Scalar(Fixed64Form, "double"))
    case LengthDelimited(bytes) =>
      if !LooksNested(p) then Ok(Scalar(BytesForm, "string"))
      else
        (match Enrich(Descriptor(name, None, map[]), AllUnknown(Parse(bytes).value))
         case Err => Err
         case Ok(sub) => if file.Some? && name in file.value then Err else Ok(MessageOf(sub)))
    case Group(_) => Err
  }

  function Enrich(d: Descriptor, m: seq<Decoded>): Result<Descriptor>
    decreases MessageWeight(m), 3
  {
    match AddUnknown(d, UnknownNumbers(m), m)
    case Err => Err
    case Ok(added) => EnrichNested(added, NestedNumbers(m), m)
  }

  function AddUnknown(d: Descriptor, nums: seq<nat>, m: seq<Decoded>): Result<Descriptor>
    requires forall n :: n in nums ==> n in UnknownNumbers(m)
    decreases MessageWeight(m), 1, |nums|
  {
    if nums == [] then Ok(d)
    else
      match AddField(d, nums[0], m)
      case Err => Err
      case Ok(added) => AddUnknown(added, nums[1..], m)
  }

  function AddField(d: Descriptor, num: nat, m: seq<Decoded>): Result<Descriptor>
    requires num in UnknownNumbers(m)
    decreases MessageWeight(m), 1, 0
  {
    var name := GeneratedName(d.name, num);
    var contents := Contents(m, num);
    match Detect(d.file, name, contents[0])
    case Err => Err
    case Ok(kind) =>
      if !Addable(num) || num in d.fields || NameTaken(d, name) then Err
      else Ok(d.(fields := d.fields[num := Field(name, kind, |contents| > 1)]))
  }

  function EnrichNested(d: Descriptor, nums: seq<nat>, m: seq<Decoded>): Result<Descriptor>
    requires forall n :: n in nums ==> n in NestedNumbers(m)
    decreases MessageWeight(m), 1, |nums|
  {
    if nums == [] then Ok(d)
    else
      match EnrichField(d, nums[0], m)
      case Err => Err
      case Ok(enriched) => EnrichNested(enriched, nums[1..], m)
  }

  function EnrichField(d: Descriptor, num: nat, m: seq<Decoded>): Result<Descriptor>
    requires num in NestedNumbers(m)
    decreases MessageWeight(m), 1, 0
  {
    if num !in d.fields || !d.fields[num].kind.MessageOf? then Ok(d)
    else
      var field := d.fields[num];
      match Enrich(field.kind.descriptor, BodyOf(m, num, field.repeated))
      case Err => Err
      case Ok(sub) => Ok(d.(fields := d.fields[num := field.(kind := MessageOf(sub))]))
  }
}
