/** The protobuf wire format: the "Message Structure" section of the Protocol Buffers
    Encoding specification. A message is a sequence of records, each a field number, a
    wire type and a payload. */
module Wire {
  import opened Messages

  datatype Payload =
    | Varint(n: nat)
    | Fixed64(bytes: Bytes)
    | LengthDelimited(bytes: Bytes)
    | Group(bytes: Bytes)
    | Fixed32(bytes: Bytes)

  datatype Record = Record(num: nat, payload: Payload)

  /** The largest field number a tag can hold (31 bits). */
  const MAX_TAG: nat := 0x7fff_ffff

  /** Varints carry 64 bits. */
  const TWO_64: nat := 0x1_0000_0000_0000_0000

  /** A value and the number of bytes it took. */
  datatype Scanned<+T> = Scanned(value: T, used: nat)

  /** A base-128 varint of at most max bytes. */
  function ScanVarint(b: Bytes, max: nat): (r: Option<Scanned<nat>>)
    ensures r.Some? ==> 1 <= r.value.used <= |b|
  {
    if b == [] || max == 0 then None
    else if b[0] < 128 then Some(Scanned(b[0], 1))
    else
      match ScanVarint(b[1..], max - 1)
      case None => None
      case Some(rest) => Some(Scanned(b[0] - 128 + 128 * rest.value, rest.used + 1))
  }

  /** A 64-bit value. The tenth byte may carry more bits than fit; they are lost. */
  function ScanVarint64(b: Bytes): (r: Option<Scanned<nat>>)
    ensures r.Some? ==> 1 <= r.value.used <= |b| && r.value.value < TWO_64
  {
    match ScanVarint(b, 10)
    case None => None
    case Some(v) => Some(Scanned(v.value % TWO_64, v.used))
  }

  datatype Tag = Tag(num: nat, wireType: nat)

  function ScanTag(b: Bytes): (r: Option<Scanned<Tag>>)
    ensures r.Some? ==> 1 <= r.value.used <= |b| && 1 <= r.value.value.num <= MAX_TAG
  {
    match ScanVarint64(b)
    case None => None
    case Some(v) =>
      if 1 <= v.value / 8 <= MAX_TAG then Some(Scanned(Tag(v.value / 8, v.value % 8), v.used)) else None
  }

  /** One record. */
  function ScanRecord(b: Bytes): (r: Option<Scanned<Record>>)
    ensures r.Some? ==> 1 <= r.value.used && Weight(r.value.value.payload) <= r.value.used <= |b|
    decreases |b|, 0
  {
    match ScanTag(b)
    case None => None
    case Some(tag) =>
      match ScanPayload(b[tag.used..], tag.value)
      case None => None
      case Some(p) => Some(Scanned(Record(tag.value.num, p.value), tag.used + p.used))
  }

  /** What follows a tag. An end-group tag does not start a record, and wire types 6 and 7
      do not exist. */
  function ScanPayload(b: Bytes, tag: Tag): (r: Option<Scanned<Payload>>)
    ensures r.Some? ==> Weight(r.value.value) <= r.value.used + 1 && r.value.used <= |b|
    decreases |b|, 2
  {
    match tag.wireType
    case 0 =>
      (match ScanVarint64(b)
       case None => None
       case Some(v) => Some(Scanned(Varint(v.value), v.used)))
    case 1 => if |b| < 8 then None else Some(Scanned(Fixed64(b[..8]), 8))
    case 2 => ScanBytes(b)
    case 3 =>
      (match ScanGroup(b, tag.num)
       case None => None
       case Some(g) => Some(Scanned(Group(g.value), g.used)))
    case 5 => if |b| < 4 then None else Some(Scanned(Fixed32(b[..4]), 4))
    case _ => None
  }

  function ScanBytes(b: Bytes): (r: Option<Scanned<Payload>>)
    ensures r.Some? ==> r.value.value.LengthDelimited? && |r.value.value.bytes| < r.value.used <= |b|
  {
    match ScanVarint64(b)
    case None => None
    case Some(v) =>
      if |b| - v.used < v.value then None
      else Some(Scanned(LengthDelimited(b[v.used..v.used + v.value]), v.used + v.value))
  }

  /** The contents of a group, up to its matching end tag. */
  function ScanGroup(b: Bytes, num: nat): (r: Option<Scanned<Bytes>>)
    ensures r.Some? ==> |r.value.value| <= r.value.used <= |b|
    decreases |b|, 1
  {
    match ScanTag(b)
    case None => None
    case Some(tag) =>
      if tag.value.wireType == 4 then
        if tag.value.num == num then Some(Scanned([], tag.used)) else None
      else
        match ScanRecord(b)
        case None => None
        case Some(first) =>
          match ScanGroup(b[first.used..], num)
          case None => None
          case Some(rest) => Some(Scanned(b[..first.used] + rest.value, first.used + rest.used))
  }

  /** What a payload weighs: more than anything that may be nested in it. */
  function Weight(p: Payload): (w: nat)
    ensures w >= 1
  {
    if p.LengthDelimited? then 1 + |p.bytes| else 1
  }

  function TotalWeight(rs: seq<Record>): (w: nat)
    ensures forall i :: 0 <= i < |rs| ==> Weight(rs[i].payload) <= w
  {
    if rs == [] then 0 else Weight(rs[0].payload) + TotalWeight(rs[1..])
  }

  /** A whole message, or None if it is malformed. A nested payload is strictly smaller
      than the message it is nested in. */
  function Parse(b: Bytes): (r: Option<seq<Record>>)
    ensures r.Some? ==> TotalWeight(r.value) <= |b|
  {
    if b == [] then Some([])
    else
      match ScanRecord(b)
      case None => None
      case Some(first) =>
        match Parse(b[first.used..])
        case None => None
        case Some(rest) => Some([first.value] + rest)
  }

  lemma NestedIsSmaller(b: Bytes, i: nat)
    requires Parse(b).Some? && i < |Parse(b).value| && Parse(b).value[i].payload.LengthDelimited?
    ensures |Parse(b).value[i].payload.bytes| < |b|
  {
  }
}
