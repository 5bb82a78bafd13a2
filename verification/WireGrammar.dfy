/** The wire format as a grammar, and that parsing accepts exactly its messages: the
    "Message Structure" and "Base 128 Varints" sections of the Protocol Buffers Encoding
    specification. A message need not be in the form a serializer gives it. */
module WireGrammar {
  import opened Messages
  import opened Wire
  import opened WireTheorems

  // ---------- The grammar ----------

  /** Up to ten bytes of which all but the last go on, with seven bits each, the lowest
      first. Only 64 bits count. */
  ghost predicate IsVarint(b: Bytes, v: nat) {
    && 1 <= |b| <= 10 && b[|b| - 1] < 128 && (forall i :: 0 <= i < |b| - 1 ==> b[i] >= 128)
    && v == Bits(b) % TWO_64
  }

  function Bits(b: Bytes): nat {
    if b == [] then 0 else b[0] % 128 + 128 * Bits(b[1..])
  }

  /** A message is one record after another, */
  ghost predicate IsMessage(b: Bytes, rs: seq<Record>)
    decreases |b|, 3
  {
    if rs == [] then b == []
    else exists k :: 0 < k <= |b| && IsRecord(b[..k], rs[0]) && IsMessage(b[k..], rs[1..])
  }

  /** a record is a tag with a number and a wire type, and then what the wire type says, */
  ghost predicate IsRecord(b: Bytes, r: Record)
    decreases |b|, 2
  {
    exists k :: 0 < k <= |b| && IsTag(b[..k], r.num, WireType(r.payload)) && IsPayload(b[k..], r)
  }

  ghost predicate IsTag(b: Bytes, num: nat, wireType: nat) {
    1 <= num <= MAX_TAG && wireType < 8 && IsVarint(b, 8 * num + wireType)
  }

  /** which may be a varint, fixed bytes, as many bytes as a varint says, or a group: */
  ghost predicate IsPayload(b: Bytes, r: Record)
    decreases |b|, 1
  {
    match r.payload
    case Varint(n) => IsVarint(b, n)
    case Fixed64(bytes) => b == bytes && |b| == 8
    case LengthDelimited(bytes) =>
      exists k :: 0 <= k <= |b| && IsVarint(b[..k], |bytes|) && b[k..] == bytes
    case Group(g) => exists rs :: IsGroup(b, r.num, g, rs)
    case Fixed32(bytes) => b == bytes && |b| == 4
  }

  /** a message, and after it an end tag with the number of the group. */
  ghost predicate IsGroup(b: Bytes, num: nat, g: Bytes, rs: seq<Record>)
    decreases |b|, 0
  {
    |g| < |b| && g <= b && IsMessage(g, rs) && IsTag(b[|g|..], num, 4)
  }

  // ---------- Varints and tags ----------

  lemma {:induction false} ScannedVarint(b: Bytes, max: nat, k: nat)
    requires 1 <= k <= |b|
    ensures ScanVarint(b, max) == Some(Scanned(Bits(b[..k]), k))
       <==> k <= max && b[k - 1] < 128 && forall i :: 0 <= i < k - 1 ==> b[i] >= 128
  {
    assert b[..k][0] == b[0] && b[..k][1..] == b[1..][..k - 1];
    if k == 1 {
      assert Bits([]) == 0;
    } else if b[0] >= 128 && max > 0 {
      ScannedVarint(b[1..], max - 1, k - 1);
      assert forall i :: 0 <= i < k - 2 ==> b[1..][i] == b[i + 1];
      assert forall i :: 1 <= i < k - 1 ==> b[i] == b[1..][i - 1];
    }
  }

  /** Scanning finds a varint at the front if and only if there is one, and how long it is. */
  lemma VarintIsScanned(b: Bytes, v: nat, k: nat)
    requires 1 <= k <= |b|
    ensures ScanVarint64(b) == Some(Scanned(v, k)) <==> IsVarint(b[..k], v)
  {
    ScannedVarint(b, 10, k);
    if ScanVarint(b, 10).Some? && ScanVarint(b, 10).value.used == k {
      ScannedBits(b, 10);
    }
  }

  lemma {:induction false} ScannedBits(b: Bytes, max: nat)
    requires ScanVarint(b, max).Some?
    ensures ScanVarint(b, max).value.value == Bits(b[..ScanVarint(b, max).value.used])
  {
    var k := ScanVarint(b, max).value.used;
    assert b[..k][0] == b[0] && b[..k][1..] == b[1..][..k - 1];
    if b[0] >= 128 {
      ScannedBits(b[1..], max - 1);
    } else {
      assert Bits([]) == 0;
    }
  }

  lemma TagIsScanned(b: Bytes, num: nat, wireType: nat, k: nat)
    requires 1 <= k <= |b|
    ensures ScanTag(b) == Some(Scanned(Tag(num, wireType), k)) <==> IsTag(b[..k], num, wireType)
  {
    VarintIsScanned(b, 8 * num + wireType, k);
    if ScanVarint64(b).Some? {
      var v := ScanVarint64(b).value.value;
      assert v == 8 * (v / 8) + v % 8;
    }
  }

  // ---------- Records ----------

  /** What scanning finds is in the grammar, */
  lemma {:induction false} ScannedRecordIsOne(b: Bytes)
    requires ScanRecord(b).Some?
    ensures IsRecord(b[..ScanRecord(b).value.used], ScanRecord(b).value.value)
    decreases |b|, 0
  {
    var tag, r := ScanTag(b).value, ScanRecord(b).value;
    var p := ScanPayload(b[tag.used..], tag.value).value;
    TagIsScanned(b, tag.value.num, tag.value.wireType, tag.used);
    ScannedPayloadIsOne(b[tag.used..], r.value);
    Splits(b, tag.used, r.used);
    assert b[tag.used..][..p.used] == b[..r.used][tag.used..];
  }

  lemma {:induction false} ScannedPayloadIsOne(b: Bytes, r: Record)
    requires 1 <= r.num <= MAX_TAG && ScanPayload(b, Tag(r.num, WireType(r.payload))).Some?
    requires ScanPayload(b, Tag(r.num, WireType(r.payload))).value.value == r.payload
    ensures IsPayload(b[..ScanPayload(b, Tag(r.num, WireType(r.payload))).value.used], r)
    decreases |b|, 2
  {
    var k := ScanPayload(b, Tag(r.num, WireType(r.payload))).value.used;
    match r.payload {
      case Varint(n) => VarintIsScanned(b, n, k);
      case LengthDelimited(bytes) => ScannedBytesAreSome(b, bytes, k);
      case Group(g) => var _ := ScannedGroupIsOne(b, r.num, g, k);
      case _ =>
    }
  }

  lemma ScannedBytesAreSome(b: Bytes, bytes: Bytes, k: nat)
    requires ScanBytes(b) == Some(Scanned(LengthDelimited(bytes), k))
    ensures exists j :: 0 <= j <= k && IsVarint(b[..k][..j], |bytes|) && b[..k][j..] == bytes
  {
    var v := ScanVarint64(b).value;
    VarintIsScanned(b, v.value, v.used);
    Splits(b, v.used, k);
    assert IsVarint(b[..k][..v.used], |bytes|) && b[..k][v.used..] == bytes;
  }

  lemma {:induction false} ScannedGroupIsOne(b: Bytes, num: nat, g: Bytes, k: nat) returns (rs: seq<Record>)
    requires 1 <= num <= MAX_TAG && GroupIs(b, num, g, k)
    ensures IsGroup(b[..k], num, g, rs)
    decreases |b|, 1
  {
    if ScanTag(b).value.value.wireType == 4 {
      TagIsScanned(b, num, 4, k);
      return [];
    }
    var first, rest := GroupSplits(b, num);
    GroupJoins(b, num, first, rest);
    var more := ScannedGroupIsOne(b[first.used..], num, rest.value, rest.used);
    ScannedRecordIsOne(b);
    Splits(b, first.used, k);
    GroupContinues(b[..k], first.used, rest.value, more, first.value, num);
    return [first.value] + more;
  }

  lemma GroupContinues(b: Bytes, used: nat, g: Bytes, rs: seq<Record>, r: Record, num: nat)
    requires 0 < used <= |b| && IsRecord(b[..used], r) && IsGroup(b[used..], num, g, rs)
    ensures IsGroup(b, num, b[..used] + g, [r] + rs)
  {
    var c := b[..used] + g;
    assert c[..used] == b[..used] && c[used..] == g && ([r] + rs)[1..] == rs;
    assert b[|c|..] == b[used..][|g|..];
  }

  /** The part of b up to k, split at j. */
  lemma Splits(b: Bytes, j: nat, k: nat)
    requires j <= k <= |b|
    ensures b[..k][..j] == b[..j] && b[..k][j..] == b[j..k] == b[j..][..k - j]
  {
  }

  /** and what is in the grammar is found. */
  lemma {:induction false} RecordIsFound(b: Bytes, r: Record, k: nat)
    requires 1 <= k <= |b| && IsRecord(b[..k], r)
    ensures ScanRecord(b) == Some(Scanned(r, k))
    decreases |b|, 0
  {
    var j := TagComesFirst(b, r, k);
    TagIsScanned(b, r.num, WireType(r.payload), j);
    PayloadIsFound(b[j..], r, k - j);
    RecordJoins(b, r, j, k - j);
  }

  lemma TagComesFirst(b: Bytes, r: Record, k: nat) returns (j: nat)
    requires 1 <= k <= |b| && IsRecord(b[..k], r)
    ensures 0 < j <= k && IsTag(b[..j], r.num, WireType(r.payload)) && IsPayload(b[j..][..k - j], r)
  {
    j :| 0 < j <= k && IsTag(b[..k][..j], r.num, WireType(r.payload)) && IsPayload(b[..k][j..], r);
    Splits(b, j, k);
  }

  lemma RecordJoins(b: Bytes, r: Record, j: nat, used: nat)
    requires j <= |b| && ScanTag(b) == Some(Scanned(Tag(r.num, WireType(r.payload)), j))
    requires ScanPayload(b[j..], Tag(r.num, WireType(r.payload))) == Some(Scanned(r.payload, used))
    ensures ScanRecord(b) == Some(Scanned(r, j + used))
  {
  }

  lemma {:induction false} PayloadIsFound(b: Bytes, r: Record, k: nat)
    requires 1 <= r.num <= MAX_TAG && k <= |b| && IsPayload(b[..k], r)
    ensures ScanPayload(b, Tag(r.num, WireType(r.payload))) == Some(Scanned(r.payload, k))
    decreases |b|, 2
  {
    match r.payload {
      case Varint(n) => VarintIsScanned(b, n, k);
      case LengthDelimited(bytes) => BytesAreFound(b, bytes, k);
      case Group(g) => GroupIsFound(b, r.num, g, k);
      case _ =>
    }
  }

  lemma BytesAreFound(b: Bytes, bytes: Bytes, k: nat)
    requires k <= |b| && exists j :: 0 <= j <= k && IsVarint(b[..k][..j], |bytes|) && b[..k][j..] == bytes
    ensures ScanBytes(b) == Some(Scanned(LengthDelimited(bytes), k))
  {
    var j :| 0 <= j <= k && IsVarint(b[..k][..j], |bytes|) && b[..k][j..] == bytes;
    Splits(b, j, k);
    VarintIsScanned(b, |bytes|, j);
  }

  lemma {:induction false} GroupIsFound(b: Bytes, num: nat, g: Bytes, k: nat)
    requires 1 <= num <= MAX_TAG && k <= |b| && exists rs :: IsGroup(b[..k], num, g, rs)
    ensures ScanGroup(b, num) == Some(Scanned(g, k))
    decreases |b|, 1
  {
    var rs := GroupComesFirst(b, num, g, k);
    MessageIsFound(g, rs);
    EndIsFound(b[|g|..], num, k - |g|);
    GroupReturns(g, num, b[|g|..], k - |g|);
    assert g + b[|g|..] == b;
    ScannedAs(b, num, g, k);
  }

  lemma GroupComesFirst(b: Bytes, num: nat, g: Bytes, k: nat) returns (rs: seq<Record>)
    requires k <= |b| && exists rs :: IsGroup(b[..k], num, g, rs)
    ensures |g| < k && g <= b && IsMessage(g, rs) && IsTag(b[|g|..][..k - |g|], num, 4)
  {
    rs :| IsGroup(b[..k], num, g, rs);
    Splits(b, |g|, k);
  }

  lemma EndIsFound(b: Bytes, num: nat, k: nat)
    requires 1 <= k <= |b| && IsTag(b[..k], num, 4)
    ensures GroupIs(b, num, [], k)
  {
    TagIsScanned(b, num, 4, k);
  }

  lemma ScannedAs(b: Bytes, num: nat, g: Bytes, k: nat)
    requires GroupIs(b, num, g, k)
    ensures ScanGroup(b, num) == Some(Scanned(g, k))
  {
  }

  // ---------- Messages ----------

  lemma {:induction false} MessageIsFound(b: Bytes, rs: seq<Record>)
    requires IsMessage(b, rs)
    ensures Parse(b) == Some(rs)
    decreases |b|, 1
  {
    if rs != [] {
      var k :| 0 < k <= |b| && IsRecord(b[..k], rs[0]) && IsMessage(b[k..], rs[1..]);
      RecordIsFound(b, rs[0], k);
      MessageIsFound(b[k..], rs[1..]);
      ParseGoesOn(b, Scanned(rs[0], k), rs[1..]);
      assert rs == [rs[0]] + rs[1..];
    }
  }

  lemma {:induction false} ParsedIsMessage(b: Bytes)
    requires Parse(b).Some?
    ensures IsMessage(b, Parse(b).value)
    decreases |b|
  {
    if b != [] {
      var first := ScanRecord(b).value;
      ScannedRecordIsOne(b);
      ParsedIsMessage(b[first.used..]);
    }
  }

  /** Parsing decides the grammar: it succeeds on its messages and no others, and with the
      records that they are made of. */
  lemma ParseDecidesTheGrammar(b: Bytes, rs: seq<Record>)
    ensures Parse(b) == Some(rs) <==> IsMessage(b, rs)
  {
    if Parse(b) == Some(rs) {
      ParsedIsMessage(b);
    }
    if IsMessage(b, rs) {
      MessageIsFound(b, rs);
    }
  }
}
