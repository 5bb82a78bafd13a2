/** Parsing undoes serialization, and yields nothing that cannot be serialized. */
module WireTheorems {
  import opened Messages
  import opened Wire

  // ---------- Serialization ----------

  function EmitVarint(n: nat): (b: Bytes)
    ensures |b| >= 1
  {
    if n < 128 then [n] else [128 + n % 128] + EmitVarint(n / 128)
  }

  function EmitTag(num: nat, wireType: nat): (b: Bytes)
    ensures |b| >= 1
  {
    EmitVarint(8 * num + wireType)
  }

  function WireType(p: Payload): (t: nat)
    ensures t < 8
  {
    match p
    case Varint(_) => 0
    case Fixed64(_) => 1
    case LengthDelimited(_) => 2
    case Group(_) => 3
    case Fixed32(_) => 5
  }

  function EmitPayload(r: Record): Bytes {
    match r.payload
    case Varint(n) => EmitVarint(n)
    case Fixed64(bytes) => bytes
    case LengthDelimited(bytes) => EmitVarint(|bytes|) + bytes
    case Group(bytes) => bytes + EmitTag(r.num, 4)
    case Fixed32(bytes) => bytes
  }

  function EmitRecord(r: Record): (b: Bytes)
    ensures |b| >= 1
  {
    EmitTag(r.num, WireType(r.payload)) + EmitPayload(r)
  }

  function Emit(rs: seq<Record>): Bytes {
    if rs == [] then [] else EmitRecord(rs[0]) + Emit(rs[1..])
  }

  /** What the wire format can hold. A group holds a message. */
  predicate Storable(r: Record) {
    1 <= r.num <= MAX_TAG && StorablePayload(r.payload)
  }

  predicate StorablePayload(p: Payload) {
    match p
    case Varint(n) => n < TWO_64
    case Fixed64(bytes) => |bytes| == 8
    case LengthDelimited(bytes) => |bytes| < TWO_64
    case Group(bytes) => Parse(bytes).Some?
    case Fixed32(bytes) => |bytes| == 4
  }

  // ---------- Scanning looks no further than it says ----------

  /** The first n bytes are the same. */
  predicate Agree(b: Bytes, c: Bytes, n: nat) {
    n <= |b| && n <= |c| && b[..n] == c[..n]
  }

  lemma AgreeFrom(b: Bytes, c: Bytes, n: nat, k: nat)
    requires Agree(b, c, n) && k <= n
    ensures Agree(b, c, k) && Agree(b[k..], c[k..], n - k)
    ensures k < n ==> b[k] == c[k]
    ensures b[k..n] == c[k..n]
  {
    assert b[..k] == b[..n][..k] && c[..k] == c[..n][..k];
    assert b[k..n] == b[..n][k..] && c[k..n] == c[..n][k..];
    assert b[k..][..n - k] == b[k..n] && c[k..][..n - k] == c[k..n];
  }

  lemma {:induction false} VarintIsLocal(b: Bytes, c: Bytes, max: nat)
    requires ScanVarint(b, max).Some? && Agree(b, c, ScanVarint(b, max).value.used)
    ensures ScanVarint(c, max) == ScanVarint(b, max)
  {
    var used := ScanVarint(b, max).value.used;
    AgreeFrom(b, c, used, 0);
    if b[0] >= 128 {
      AgreeFrom(b, c, used, 1);
      VarintIsLocal(b[1..], c[1..], max - 1);
    }
  }

  lemma TagIsLocal(b: Bytes, c: Bytes)
    requires ScanTag(b).Some? && Agree(b, c, ScanTag(b).value.used)
    ensures ScanTag(c) == ScanTag(b)
  {
    VarintIsLocal(b, c, 10);
  }

  lemma BytesIsLocal(b: Bytes, c: Bytes)
    requires ScanBytes(b).Some? && Agree(b, c, ScanBytes(b).value.used)
    ensures ScanBytes(c) == ScanBytes(b)
  {
    AgreeFrom(b, c, ScanBytes(b).value.used, ScanVarint64(b).value.used);
    VarintIsLocal(b, c, 10);
  }

  lemma {:induction false} PayloadIsLocal(b: Bytes, c: Bytes, tag: Tag)
    requires ScanPayload(b, tag).Some? && Agree(b, c, ScanPayload(b, tag).value.used)
    ensures ScanPayload(c, tag) == ScanPayload(b, tag)
    decreases |b|, 2
  {
    match tag.wireType {
      case 0 => VarintIsLocal(b, c, 10);
      case 2 => BytesIsLocal(b, c);
      case 3 => GroupIsLocal(b, c, tag.num);
      case _ =>
    }
  }

  lemma {:induction false} RecordIsLocal(b: Bytes, c: Bytes)
    requires ScanRecord(b).Some? && Agree(b, c, ScanRecord(b).value.used)
    ensures ScanRecord(c) == ScanRecord(b)
    decreases |b|, 0
  {
    var tag := ScanTag(b).value;
    AgreeFrom(b, c, ScanRecord(b).value.used, tag.used);
    TagIsLocal(b, c);
    PayloadIsLocal(b[tag.used..], c[tag.used..], tag.value);
  }

  lemma {:induction false} GroupIsLocal(b: Bytes, c: Bytes, num: nat)
    requires ScanGroup(b, num).Some? && Agree(b, c, ScanGroup(b, num).value.used)
    ensures ScanGroup(c, num) == ScanGroup(b, num)
    decreases |b|, 1
  {
    if ScanTag(b).value.value.wireType == 4 {
      TagIsLocal(b, c);
    } else {
      var first, rest := GroupSplits(b, num);
      AgreeFrom(b, c, ScanGroup(b, num).value.used, first.used);
      RecordIsLocal(b, c);
      GroupIsLocal(b[first.used..], c[first.used..], num);
      GroupJoins(b, num, first, rest);
      GroupJoins(c, num, first, rest);
    }
  }

  /** A group that does not end at once starts with a record. */
  lemma GroupSplits(b: Bytes, num: nat) returns (first: Scanned<Record>, rest: Scanned<Bytes>)
    requires ScanGroup(b, num).Some? && ScanTag(b).value.value.wireType != 4
    ensures ScanRecord(b) == Some(first) && ScanGroup(b[first.used..], num) == Some(rest)
    ensures ScanGroup(b, num).value.used - first.used == rest.used
  {
    first := ScanRecord(b).value;
    rest := ScanGroup(b[first.used..], num).value;
  }

  lemma GroupJoins(b: Bytes, num: nat, first: Scanned<Record>, rest: Scanned<Bytes>)
    requires ScanRecord(b) == Some(first) && ScanGroup(b[first.used..], num) == Some(rest)
    ensures ScanGroup(b, num) == Some(Scanned(b[..first.used] + rest.value, first.used + rest.used))
  {
    RecordUsesItsTag(b);
  }

  lemma RecordUsesItsTag(b: Bytes)
    requires ScanRecord(b).Some?
    ensures ScanTag(b).Some? && ScanTag(b).value.used <= ScanRecord(b).value.used
    ensures ScanTag(b).value.value.wireType != 4
  {
  }

  // ---------- Parsing undoes serialization ----------

  function Pow128(k: nat): (p: nat)
    ensures p >= 1
  {
    if k == 0 then 1 else 128 * Pow128(k - 1)
  }

  lemma {:induction false} VarintReturns(n: nat, x: Bytes, max: nat)
    requires max >= 1 && n < Pow128(max)
    ensures ScanVarint(EmitVarint(n) + x, max) == Some(Scanned(n, |EmitVarint(n)|))
  {
    if n >= 128 {
      assert (EmitVarint(n) + x)[1..] == EmitVarint(n / 128) + x;
      VarintReturns(n / 128, x, max - 1);
    }
  }

  lemma Varint64Returns(n: nat, x: Bytes)
    requires n < TWO_64
    ensures ScanVarint64(EmitVarint(n) + x) == Some(Scanned(n, |EmitVarint(n)|))
  {
    assert Pow128(5) == 128 * 128 * 128 * 128 * 128;
    assert Pow128(10) == 128 * 128 * 128 * 128 * 128 * Pow128(5);
    VarintReturns(n, x, 10);
  }

  lemma TagReturns(num: nat, wireType: nat, x: Bytes)
    requires 1 <= num <= MAX_TAG && wireType < 8
    ensures ScanTag(EmitTag(num, wireType) + x) == Some(Scanned(Tag(num, wireType), |EmitTag(num, wireType)|))
  {
    Varint64Returns(8 * num + wireType, x);
  }

  predicate GroupIs(b: Bytes, num: nat, g: Bytes, used: nat) {
    ScanGroup(b, num).Some? && ScanGroup(b, num).value.value == g && ScanGroup(b, num).value.used == used
  }

  lemma GroupEnds(num: nat, x: Bytes)
    requires 1 <= num <= MAX_TAG
    ensures GroupIs(EmitTag(num, 4) + x, num, [], |EmitTag(num, 4)|)
  {
    TagReturns(num, 4, x);
  }

  lemma ScannedAgain(b: Bytes, x: Bytes, first: Scanned<Record>)
    requires ScanRecord(b) == Some(first)
    ensures ScanRecord(b + x) == Some(first)
    ensures (b + x)[first.used..] == b[first.used..] + x
    ensures (b + x)[..first.used] + b[first.used..] == b
  {
    assert (b + x)[..first.used] == b[..first.used];
    RecordIsLocal(b, b + x);
  }

  lemma GroupGoesOn(g: Bytes, num: nat, end: Bytes, used: nat, first: Scanned<Record>)
    requires ScanRecord(g) == Some(first)
    requires GroupIs(g[first.used..] + end, num, g[first.used..], |g| - first.used + used)
    ensures GroupIs(g + end, num, g, |g| + used)
  {
    ScannedAgain(g, end, first);
    RecordUsesItsTag(g + end);
  }

  lemma ParseGoesOn(b: Bytes, first: Scanned<Record>, rest: seq<Record>)
    requires ScanRecord(b) == Some(first)
    requires Parse(b[first.used..]) == Some(rest)
    ensures Parse(b) == Some([first.value] + rest)
  {
  }

  /** A group ends at its end tag and not before. */
  lemma {:induction false} GroupReturns(g: Bytes, num: nat, end: Bytes, used: nat)
    requires Parse(g).Some? && GroupIs(end, num, [], used)
    ensures GroupIs(g + end, num, g, |g| + used)
    decreases |g|
  {
    if g == [] {
      assert g + end == end;
    } else {
      var first := ScanRecord(g).value;
      GroupReturns(g[first.used..], num, end, used);
      GroupGoesOn(g, num, end, used, first);
    }
  }

  lemma {:induction false} WholeGroupReturns(g: Bytes, num: nat, x: Bytes)
    requires Parse(g).Some? && 1 <= num <= MAX_TAG
    ensures GroupIs(g + EmitTag(num, 4) + x, num, g, |g| + |EmitTag(num, 4)|)
  {
    var end := EmitTag(num, 4) + x;
    GroupEnds(num, x);
    GroupReturns(g, num, end, |EmitTag(num, 4)|);
    assert g + EmitTag(num, 4) + x == g + end;
  }

  lemma PayloadReturns(r: Record, x: Bytes)
    requires Storable(r)
    ensures ScanPayload(EmitPayload(r) + x, Tag(r.num, WireType(r.payload)))
         == Some(Scanned(r.payload, |EmitPayload(r)|))
  {
    match r.payload {
      case Varint(n) =>
        Varint64Returns(n, x);
      case LengthDelimited(bytes) =>
        BytesReturn(bytes, x);
      case Group(bytes) =>
        WholeGroupReturns(bytes, r.num, x);
      case _ =>
    }
  }

  lemma BytesReturn(bytes: Bytes, x: Bytes)
    requires |bytes| < TWO_64
    ensures ScanBytes(EmitVarint(|bytes|) + bytes + x)
         == Some(Scanned(LengthDelimited(bytes), |EmitVarint(|bytes|)| + |bytes|))
  {
    assert EmitVarint(|bytes|) + bytes + x == EmitVarint(|bytes|) + (bytes + x);
    Varint64Returns(|bytes|, bytes + x);
  }

  lemma RecordReturns(r: Record, x: Bytes)
    requires Storable(r)
    ensures ScanRecord(EmitRecord(r) + x) == Some(Scanned(r, |EmitRecord(r)|))
  {
    var tag := EmitTag(r.num, WireType(r.payload));
    assert EmitRecord(r) + x == tag + (EmitPayload(r) + x);
    TagReturns(r.num, WireType(r.payload), EmitPayload(r) + x);
    assert (EmitRecord(r) + x)[|tag|..] == EmitPayload(r) + x;
    PayloadReturns(r, x);
  }

  /** Every sequence of storable records comes back from its bytes. */
  lemma {:induction false} ParseIsExact(rs: seq<Record>)
    requires forall i :: 0 <= i < |rs| ==> Storable(rs[i])
    ensures Parse(Emit(rs)) == Some(rs)
  {
    if rs != [] {
      var first, rest := EmitRecord(rs[0]), Emit(rs[1..]);
      RecordReturns(rs[0], rest);
      assert (first + rest)[|first|..] == rest;
      ParseIsExact(rs[1..]);
      ParseGoesOn(first + rest, Scanned(rs[0], |first|), rs[1..]);
      assert rs == [rs[0]] + rs[1..];
    }
  }

  // ---------- and yields nothing else ----------

  lemma {:induction false} GroupsAreMessages(b: Bytes, num: nat)
    requires ScanGroup(b, num).Some?
    ensures Parse(ScanGroup(b, num).value.value).Some?
    decreases |b|
  {
    if ScanTag(b).value.value.wireType != 4 {
      var first := ScanRecord(b).value;
      var rest := ScanGroup(b[first.used..], num).value.value;
      GroupsAreMessages(b[first.used..], num);
      var g := b[..first.used] + rest;
      assert g[..first.used] == b[..first.used] && g[first.used..] == rest;
      RecordIsLocal(b, g);
      ParseGoesOn(g, first, Parse(rest).value);
    }
  }

  lemma ScannedIsStorable(b: Bytes, tag: Tag)
    requires ScanPayload(b, tag).Some? && |b| < TWO_64
    ensures StorablePayload(ScanPayload(b, tag).value.value)
  {
    if tag.wireType == 3 {
      GroupsAreMessages(b, tag.num);
    }
  }

  lemma {:induction false} ParsedIsStorable(b: Bytes)
    requires Parse(b).Some? && |b| < TWO_64
    ensures forall i :: 0 <= i < |Parse(b).value| ==> Storable(Parse(b).value[i])
  {
    if b != [] {
      var tag := ScanTag(b).value;
      ScannedIsStorable(b[tag.used..], tag.value);
      ParsedIsStorable(b[ScanRecord(b).value.used..]);
    }
  }

  /** Messages are the same before and after a trip through the canonical bytes. */
  lemma ReserializingKeepsTheMessage(b: Bytes)
    requires Parse(b).Some? && |b| < TWO_64
    ensures Parse(Emit(Parse(b).value)) == Parse(b)
  {
    ParsedIsStorable(b);
    ParseIsExact(Parse(b).value);
  }
}
