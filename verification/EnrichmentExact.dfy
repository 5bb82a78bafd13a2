/** When the second decode, under the enriched descriptor, succeeds and what it knows then:
    exact conditions for every message, and what follows for messages that repeat little. */
module EnrichmentExact {
  import opened Messages
  import opened Wire
  import opened Enrichment
  import opened EnrichmentTheorems

  /** The scalar form guessed from a payload. */
  function FormOf(p: Payload): ScalarForm {
    match p
    case Varint(_) => VarintForm
    case Fixed64(_) => Fixed64Form
    case Fixed32(_) => Fixed32Form
    case _ => BytesForm
  }

  // ---------- What fits a descriptor that was enriched from a sample ----------

  /** Every field of m fits the fields that enrichment adds and refines for the sample. */
  predicate FitsIn(lib: Library, fields: map<nat, Field>, sample: seq<Decoded>, m: seq<Decoded>)
    decreases MessageWeight(m), 1
  {
    forall i :: 0 <= i < |m| ==> Fits(lib, fields, sample, m[i])
  }

  /** A known field fits as before, a nested message fits what the sample has there, and an
      unknown field fits the type guessed from the first of its number in the sample. Nothing
      is guessed from a group. */
  predicate Fits(lib: Library, fields: map<nat, Field>, sample: seq<Decoded>, f: Decoded)
    decreases DecodedWeight(f), 0
  {
    match f
    case Known(_, _) => true
    case Nested(n, _, body) =>
      n in fields && fields[n].kind.MessageOf? ==>
        FitsIn(lib, fields[n].kind.descriptor.fields, BodyOf(sample, n, fields[n].repeated), body)
    case Unknown(n, p) =>
      n in UnknownNumbers(sample) ==>
        var first := Contents(sample, n)[0];
        if !LooksNested(first) then first.Group? || lib(FormOf(first), p)
        else
          && p.LengthDelimited? && Parse(p.bytes).Some?
          && FitsIn(lib, map[], AllUnknown(Parse(first.bytes).value), AllUnknown(Parse(p.bytes).value))
  }

  /** The sample has every field of m that is unknown, at every depth. */
  predicate CoveredBy(fields: map<nat, Field>, sample: seq<Decoded>, m: seq<Decoded>)
    decreases MessageWeight(m), 1
  {
    forall i :: 0 <= i < |m| ==> Covers(fields, sample, m[i])
  }

  predicate Covers(fields: map<nat, Field>, sample: seq<Decoded>, f: Decoded)
    decreases DecodedWeight(f), 0
  {
    match f
    case Known(_, _) => true
    case Nested(n, _, body) =>
      n in fields && fields[n].kind.MessageOf? ==>
        CoveredBy(fields[n].kind.descriptor.fields, BodyOf(sample, n, fields[n].repeated), body)
    case Unknown(n, p) =>
      && n in UnknownNumbers(sample)
      && var first := Contents(sample, n)[0];
         LooksNested(first) && p.LengthDelimited? && Parse(p.bytes).Some? ==>
           CoveredBy(map[], AllUnknown(Parse(first.bytes).value), AllUnknown(Parse(p.bytes).value))
  }

  /** No unknown field at any depth. */
  ghost predicate Complete(m: seq<Decoded>) {
    forall i :: 0 <= i < |m| ==> CompleteField(m[i])
  }

  ghost predicate CompleteField(f: Decoded) {
    !f.Unknown? && (f.Nested? ==> Complete(f.body))
  }

  /** What was known stays as it was, and nested messages stay nested. */
  predicate Keeps(f: Decoded, f': Decoded) {
    (f.Known? ==> f' == f) && (f.Nested? ==> f'.Nested?)
  }

  // ---------- Decoded messages match their descriptor ----------

  ghost predicate Typed(d: Descriptor, m: seq<Decoded>)
    decreases MessageWeight(m), 1
  {
    forall i :: 0 <= i < |m| ==> TypedField(d, m[i])
  }

  ghost predicate TypedField(d: Descriptor, f: Decoded)
    decreases DecodedWeight(f), 0
  {
    match f
    case Unknown(n, _) => n !in d.fields
    case Known(n, _) => n in d.fields && d.fields[n].kind.Scalar?
    case Nested(n, _, body) =>
      n in d.fields && d.fields[n].kind.MessageOf? && Typed(d.fields[n].kind.descriptor, body)
  }

  lemma {:induction false} DecodedIsTyped(lib: Library, d: Descriptor, rs: seq<Record>)
    requires Decode(lib, d, rs).Some?
    ensures Typed(d, Decode(lib, d, rs).value)
    decreases TotalWeight(rs), 1
  {
    DecodeIsPointwise(lib, d, rs);
    forall i | 0 <= i < |rs| ensures TypedField(d, Decode(lib, d, rs).value[i]) {
      DecodedFieldIsTyped(lib, d, rs[i]);
    }
  }

  lemma {:induction false} DecodedFieldIsTyped(lib: Library, d: Descriptor, r: Record)
    requires DecodeOne(lib, d, r).Some?
    ensures TypedField(d, DecodeOne(lib, d, r).value)
    decreases Weight(r.payload), 0
  {
    var f := DecodeOne(lib, d, r).value;
    if f.Nested? {
      DecodedIsTyped(lib, d.fields[r.num].kind.descriptor, Parse(r.payload.bytes).value);
    }
  }

  lemma {:induction false} BodyIsTyped(d: Descriptor, m: seq<Decoded>, n: nat, repeated: bool)
    requires Typed(d, m) && n in d.fields && d.fields[n].kind.MessageOf?
    ensures Typed(d.fields[n].kind.descriptor, BodyOf(m, n, repeated))
    decreases |m|
  {
    if m != [] {
      assert TypedField(d, m[0]);
      assert forall i :: 0 <= i < |m| - 1 ==> m[1..][i] == m[i + 1];
      BodyIsTyped(d, m[1..], n, repeated);
      if m[0].Nested? && m[0].num == n && !repeated {
        TypedConcat(d.fields[n].kind.descriptor, m[0].body, BodyOf(m[1..], n, repeated));
      }
    }
  }

  lemma TypedConcat(d: Descriptor, a: seq<Decoded>, b: seq<Decoded>)
    requires Typed(d, a) && Typed(d, b)
    ensures Typed(d, a + b)
  {
  }

  lemma {:induction false} NoBody(m: seq<Decoded>, n: nat, repeated: bool)
    requires n !in NestedNumbers(m)
    ensures BodyOf(m, n, repeated) == []
  {
    if m != [] {
      NoBody(m[1..], n, repeated);
    }
  }

  // ---------- The main result ----------

  /** Main result, for every message. If enrichment succeeds, decoding under the enriched
      descriptor succeeds if and only if the message fits itself as the sample; then every
      field lands where it was and what was known stays as it was. No unknown field is left
      if and only if the message covers itself as well, and in any case there is nothing
      left for the enrichment to add. */
  lemma EnrichmentIsDecided(lib: Library, d: Descriptor, rs: seq<Record>)
    requires Decode(lib, d, rs).Some? && Enrich(d, Decode(lib, d, rs).value).Ok?
    ensures var m := Decode(lib, d, rs).value;
            var d' := Enrich(d, m).value;
            && (Decode(lib, d', rs).Some? <==> FitsIn(lib, d.fields, m, m))
            && (Decode(lib, d', rs).Some? ==>
                  var m' := Decode(lib, d', rs).value;
                  && (forall i :: 0 <= i < |rs| ==> Keeps(m[i], m'[i]))
                  && (Complete(m') <==> CoveredBy(d.fields, m, m))
                  && Enrich(d', m') == Ok(d'))
  {
    DecodedIsTyped(lib, d, rs);
    EnrichedDecode(lib, d, Decode(lib, d, rs).value, rs);
    if Decode(lib, Enrich(d, Decode(lib, d, rs).value).value, rs).Some? {
      EnrichedIsFixed(lib, d, rs);
    }
  }

  /** The same for a message other than the sample. */
  lemma {:induction false} EnrichedDecode(lib: Library, d: Descriptor, sample: seq<Decoded>, rs: seq<Record>)
    requires Typed(d, sample) && Enrich(d, sample).Ok? && Decode(lib, d, rs).Some?
    ensures var m := Decode(lib, d, rs).value;
            var m' := Decode(lib, Enrich(d, sample).value, rs);
            && (m'.Some? <==> FitsIn(lib, d.fields, sample, m))
            && (m'.Some? ==>
                  && (forall i :: 0 <= i < |rs| ==> Keeps(m[i], m'.value[i]))
                  && (Complete(m'.value) <==> CoveredBy(d.fields, sample, m)))
    decreases TotalWeight(rs), 3
  {
    var m := Decode(lib, d, rs).value;
    var d' := Enrich(d, sample).value;
    DecodeIsPointwise(lib, d, rs);
    forall i | 0 <= i < |rs| ensures Decided(lib, d.fields, sample, m[i], DecodeOne(lib, d', rs[i])) {
      EnrichedField(lib, d, sample, rs[i]);
    }
    DecodeIsPointwise(lib, d', rs);
  }

  /** What decoding one field again comes to. */
  ghost predicate Decided(lib: Library, fields: map<nat, Field>, sample: seq<Decoded>,
                          f: Decoded, result: Option<Decoded>) {
    && (result.Some? <==> Fits(lib, fields, sample, f))
    && (result.Some? ==> Keeps(f, result.value) && (CompleteField(result.value) <==> Covers(fields, sample, f)))
  }

  lemma {:induction false} EnrichedField(lib: Library, d: Descriptor, sample: seq<Decoded>, r: Record)
    requires Typed(d, sample) && Enrich(d, sample).Ok? && DecodeOne(lib, d, r).Some?
    ensures Decided(lib, d.fields, sample, DecodeOne(lib, d, r).value, DecodeOne(lib, Enrich(d, sample).value, r))
    decreases Weight(r.payload), 2
  {
    var n := r.num;
    NumbersAreTyped(d, sample, n);
    FieldAfter(d, sample, n);
    match DecodeOne(lib, d, r).value {
      case Known(_, _) =>
      case Nested(_, _, _) => EnrichedNested(lib, d, sample, r);
      case Unknown(_, _) =>
        if n in UnknownNumbers(sample) {
          EnrichedUnknown(lib, d, sample, r);
        } else {
          EnrichedNumbers(d, sample);
        }
    }
  }

  /** Unknown numbers are not in the descriptor, and nested ones are messages there. */
  lemma NumbersAreTyped(d: Descriptor, m: seq<Decoded>, n: nat)
    requires Typed(d, m)
    ensures n in UnknownNumbers(m) ==> n !in d.fields
    ensures n in NestedNumbers(m) ==> n in d.fields && d.fields[n].kind.MessageOf?
  {
    if n in UnknownNumbers(m) {
      var i :| 0 <= i < |m| && m[i].Unknown? && m[i].num == n;
      assert TypedField(d, m[i]);
    }
    if n in NestedNumbers(m) {
      var i :| 0 <= i < |m| && m[i].Nested? && m[i].num == n;
      assert TypedField(d, m[i]);
    }
  }

  lemma {:induction false} EnrichedNested(lib: Library, d: Descriptor, sample: seq<Decoded>, r: Record)
    requires Typed(d, sample) && Enrich(d, sample).Ok?
    requires DecodeOne(lib, d, r).Some? && DecodeOne(lib, d, r).value.Nested?
    ensures Decided(lib, d.fields, sample, DecodeOne(lib, d, r).value, DecodeOne(lib, Enrich(d, sample).value, r))
    decreases Weight(r.payload), 1
  {
    var n := r.num;
    var sub, body := d.fields[n].kind.descriptor, BodyOf(sample, n, d.fields[n].repeated);
    NumbersAreTyped(d, sample, n);
    FieldAfter(d, sample, n);
    BodyIsTyped(d, sample, n, d.fields[n].repeated);
    if n !in NestedNumbers(sample) {
      NoBody(sample, n, d.fields[n].repeated);
      assert Enrich(sub, []) == Ok(sub);
    }
    EnrichedDecode(lib, sub, body, Parse(r.payload.bytes).value);
  }

  lemma {:induction false} EnrichedUnknown(lib: Library, d: Descriptor, sample: seq<Decoded>, r: Record)
    requires Enrich(d, sample).Ok? && r.num in UnknownNumbers(sample) && r.num !in NestedNumbers(sample)
    ensures Decided(lib, d.fields, sample, Unknown(r.num, r.payload), DecodeOne(lib, Enrich(d, sample).value, r))
    decreases Weight(r.payload), 1
  {
    FieldAfter(d, sample, r.num);
    var first, p := Contents(sample, r.num)[0], r.payload;
    if LooksNested(first) && p.LengthDelimited? && Parse(p.bytes).Some? {
      var guess := Descriptor(GeneratedName(d.name, r.num), None, map[]);
      var records := Parse(p.bytes).value;
      EmptyDecodesToUnknown(lib, guess.name, records);
      EnrichedDecode(lib, guess, AllUnknown(Parse(first.bytes).value), records);
    }
  }

  // ---------- Enriching once more ----------

  /** The records of a message field: those of its first occurrence if it is repeated, and
      otherwise those of all occurrences. */
  function BodyRecords(rs: seq<Record>, n: nat, repeated: bool): (body: seq<Record>)
    ensures TotalWeight(body) <= TotalWeight(rs)
    ensures (exists i :: 0 <= i < |rs| && IsMessage(rs[i], n)) ==> TotalWeight(body) < TotalWeight(rs)
  {
    if rs == [] then []
    else if IsMessage(rs[0], n) then
      var first := Parse(rs[0].payload.bytes).value;
      if repeated then first
      else
        var rest := BodyRecords(rs[1..], n, repeated);
        RecordsConcat(first, rest);
        first + rest
    else BodyRecords(rs[1..], n, repeated)
  }

  predicate IsMessage(r: Record, n: nat) {
    r.num == n && r.payload.LengthDelimited? && Parse(r.payload.bytes).Some?
  }

  lemma {:induction false} RecordsConcat(a: seq<Record>, b: seq<Record>)
    ensures TotalWeight(a + b) == TotalWeight(a) + TotalWeight(b)
  {
    if a == [] {
      assert a + b == b;
    } else {
      assert (a + b)[1..] == a[1..] + b;
      RecordsConcat(a[1..], b);
    }
  }

  lemma {:induction false} DecodeConcat(lib: Library, d: Descriptor, a: seq<Record>, b: seq<Record>)
    requires Decode(lib, d, a).Some? && Decode(lib, d, b).Some?
    ensures Decode(lib, d, a + b) == Some(Decode(lib, d, a).value + Decode(lib, d, b).value)
  {
    DecodeIsPointwise(lib, d, a);
    DecodeIsPointwise(lib, d, b);
    EachOfBoth(lib, d, a, b, Decode(lib, d, a).value, Decode(lib, d, b).value);
    DecodedEach(lib, d, a + b, Decode(lib, d, a).value + Decode(lib, d, b).value);
  }

  ghost predicate DecodesEach(lib: Library, d: Descriptor, rs: seq<Record>, m: seq<Decoded>) {
    |m| == |rs| && forall i :: 0 <= i < |rs| ==> DecodeOne(lib, d, rs[i]) == Some(m[i])
  }

  lemma {:induction false} EachOfBoth(
      lib: Library, d: Descriptor, a: seq<Record>, b: seq<Record>, m: seq<Decoded>, n: seq<Decoded>)
    requires DecodesEach(lib, d, a, m) && DecodesEach(lib, d, b, n)
    ensures DecodesEach(lib, d, a + b, m + n)
  {
  }

  lemma {:induction false} DecodedEach(lib: Library, d: Descriptor, rs: seq<Record>, m: seq<Decoded>)
    requires DecodesEach(lib, d, rs, m)
    ensures Decode(lib, d, rs) == Some(m)
  {
    DecodeIsPointwise(lib, d, rs);
    var decoded := Decode(lib, d, rs).value;
    forall i | 0 <= i < |rs| ensures decoded[i] == m[i] {
      assert DecodeOne(lib, d, rs[i]) == Some(decoded[i]) == Some(m[i]);
    }
    assert decoded == m;
  }

  /** The body of a message field is the decode of its records. */
  lemma {:induction false} BodyIsDecoded(lib: Library, d: Descriptor, rs: seq<Record>, n: nat, repeated: bool)
    requires Decode(lib, d, rs).Some? && n in d.fields && d.fields[n].kind.MessageOf?
    ensures Decode(lib, d.fields[n].kind.descriptor, BodyRecords(rs, n, repeated))
         == Some(BodyOf(Decode(lib, d, rs).value, n, repeated))
  {
    if rs != [] {
      BodyIsDecoded(lib, d, rs[1..], n, repeated);
      if rs[0].num == n && !repeated {
        var first, rest := Parse(rs[0].payload.bytes).value, BodyRecords(rs[1..], n, repeated);
        DecodeConcat(lib, d.fields[n].kind.descriptor, first, rest);
      }
    }
  }

  /** The records of a guessed message are those it was guessed from. */
  lemma {:induction false} GuessedRecords(lib: Library, d: Descriptor, rs: seq<Record>, n: nat, repeated: bool)
    requires Decode(lib, d, rs).Some? && n in UnknownNumbers(Decode(lib, d, rs).value) && n !in d.fields
    requires var contents := Contents(Decode(lib, d, rs).value, n);
             LooksNested(contents[0]) && (repeated || |contents| == 1)
    ensures BodyRecords(rs, n, repeated) == Parse(Contents(Decode(lib, d, rs).value, n)[0].bytes).value
  {
    var m := Decode(lib, d, rs).value;
    assert m[1..] == Decode(lib, d, rs[1..]).value && m[0] == DecodeOne(lib, d, rs[0]).value;
    if rs[0].num != n {
      GuessedRecords(lib, d, rs[1..], n, repeated);
    } else if !repeated {
      NoMoreRecords(lib, d, rs[1..], n);
    }
  }

  lemma {:induction false} NoMoreRecords(lib: Library, d: Descriptor, rs: seq<Record>, n: nat)
    requires Decode(lib, d, rs).Some? && n !in d.fields && Contents(Decode(lib, d, rs).value, n) == []
    ensures BodyRecords(rs, n, false) == []
  {
    if rs != [] {
      var m := Decode(lib, d, rs).value;
      assert m[1..] == Decode(lib, d, rs[1..]).value && m[0] == DecodeOne(lib, d, rs[0]).value;
      NoMoreRecords(lib, d, rs[1..], n);
    }
  }

  lemma {:induction false} EnrichedIsFixed(lib: Library, d: Descriptor, rs: seq<Record>)
    requires Decode(lib, d, rs).Some? && Enrich(d, Decode(lib, d, rs).value).Ok?
    requires Decode(lib, Enrich(d, Decode(lib, d, rs).value).value, rs).Some?
    ensures var d' := Enrich(d, Decode(lib, d, rs).value).value;
            Enrich(d', Decode(lib, d', rs).value) == Ok(d')
    decreases TotalWeight(rs), 1
  {
    var m := Decode(lib, d, rs).value;
    var d' := Enrich(d, m).value;
    var m' := Decode(lib, d', rs).value;
    forall i | 0 <= i < |m'| ensures !m'[i].Unknown? {
      NothingStaysUnknown(lib, d, rs, i);
    }
    NothingUnknown(m');
    forall n | n in NestedNumbers(m') ensures FixedAt(d', m', n) {
      BodyIsFixed(lib, d, rs, n);
    }
    EnrichNestedFixed(d', NestedNumbers(m'), m');
  }

  lemma NothingStaysUnknown(lib: Library, d: Descriptor, rs: seq<Record>, i: nat)
    requires Decode(lib, d, rs).Some? && Enrich(d, Decode(lib, d, rs).value).Ok? && i < |rs|
    requires Decode(lib, Enrich(d, Decode(lib, d, rs).value).value, rs).Some?
    ensures !Decode(lib, Enrich(d, Decode(lib, d, rs).value).value, rs).value[i].Unknown?
  {
    var m := Decode(lib, d, rs).value;
    DecodeIsPointwise(lib, d, rs);
    DecodeIsPointwise(lib, Enrich(d, m).value, rs);
    assert DecodeOne(lib, d, rs[i]) == Some(m[i]);
    EnrichedNumbers(d, m);
  }

  /** Enriching what m has at n once more changes nothing. */
  ghost predicate FixedAt(d: Descriptor, m: seq<Decoded>, n: nat) {
    n in d.fields && d.fields[n].kind.MessageOf? ==>
      Enrich(d.fields[n].kind.descriptor, BodyOf(m, n, d.fields[n].repeated)) == Ok(d.fields[n].kind.descriptor)
  }

  lemma {:induction false} EnrichNestedFixed(d: Descriptor, nums: seq<nat>, m: seq<Decoded>)
    requires forall n :: n in nums ==> n in NestedNumbers(m) && FixedAt(d, m, n)
    ensures EnrichNested(d, nums, m) == Ok(d)
  {
    if nums != [] {
      var n := nums[0];
      assert n in nums && FixedAt(d, m, n);
      assert n in d.fields ==> d.fields[n := d.fields[n]] == d.fields;
      assert EnrichField(d, n, m) == Ok(d);
      EnrichNestedFixed(d, nums[1..], m);
    }
  }

  lemma {:induction false} NothingUnknown(m: seq<Decoded>)
    requires forall i :: 0 <= i < |m| ==> !m[i].Unknown?
    ensures UnknownNumbers(m) == []
  {
    if m != [] {
      NothingUnknown(m[1..]);
    }
  }

  lemma {:induction false} BodyIsFixed(lib: Library, d: Descriptor, rs: seq<Record>, n: nat)
    requires Decode(lib, d, rs).Some? && Enrich(d, Decode(lib, d, rs).value).Ok?
    requires Decode(lib, Enrich(d, Decode(lib, d, rs).value).value, rs).Some?
    requires n in NestedNumbers(Decode(lib, Enrich(d, Decode(lib, d, rs).value).value, rs).value)
    ensures var d' := Enrich(d, Decode(lib, d, rs).value).value; FixedAt(d', Decode(lib, d', rs).value, n)
    decreases TotalWeight(rs), 0
  {
    var m := Decode(lib, d, rs).value;
    var d' := Enrich(d, m).value;
    DecodedIsTyped(lib, d', rs);
    NumbersAreTyped(d', Decode(lib, d', rs).value, n);
    var repeated := d'.fields[n].repeated;
    var records := BodyRecords(rs, n, repeated);
    MessageRecords(lib, d', rs, n);
    BodyIsDecoded(lib, d', rs, n, repeated);
    var sub := WasEnrichedFrom(lib, d, rs, n);
    EnrichedIsFixed(lib, sub, records);
  }

  /** The descriptor of a nested message was enriched from the records that are decoded for
      it: from the descriptor it had before, or from an empty one if it was guessed. */
  lemma WasEnrichedFrom(lib: Library, d: Descriptor, rs: seq<Record>, n: nat) returns (sub: Descriptor)
    requires Decode(lib, d, rs).Some? && Enrich(d, Decode(lib, d, rs).value).Ok?
    requires Decode(lib, Enrich(d, Decode(lib, d, rs).value).value, rs).Some?
    requires n in NestedNumbers(Decode(lib, Enrich(d, Decode(lib, d, rs).value).value, rs).value)
    ensures var d' := Enrich(d, Decode(lib, d, rs).value).value;
            && n in d'.fields && d'.fields[n].kind.MessageOf?
            && var m := Decode(lib, sub, BodyRecords(rs, n, d'.fields[n].repeated));
               m.Some? && Enrich(sub, m.value) == Ok(d'.fields[n].kind.descriptor)
  {
    var m := Decode(lib, d, rs).value;
    var d' := Enrich(d, m).value;
    DecodedIsTyped(lib, d', rs);
    NumbersAreTyped(d', Decode(lib, d', rs).value, n);
    DecodedIsTyped(lib, d, rs);
    NumbersAreTyped(d, m, n);
    FieldAfter(d, m, n);
    if n in UnknownNumbers(m) {
      sub := GuessWasEmpty(lib, d, rs, n);
    } else {
      SameNumbers(lib, d, rs, n);
      sub := d.fields[n].kind.descriptor;
      BodyIsDecoded(lib, d, rs, n, d.fields[n].repeated);
    }
  }

  lemma GuessWasEmpty(lib: Library, d: Descriptor, rs: seq<Record>, n: nat) returns (sub: Descriptor)
    requires Decode(lib, d, rs).Some? && n in UnknownNumbers(Decode(lib, d, rs).value) && n !in d.fields
    requires var m := Decode(lib, d, rs).value;
             && Enrich(d, m).Ok? && UnknownAdded(d, Enrich(d, m).value, m, n)
             && Enrich(d, m).value.fields[n].kind.MessageOf?
    ensures var d' := Enrich(d, Decode(lib, d, rs).value).value;
            var m := Decode(lib, sub, BodyRecords(rs, n, d'.fields[n].repeated));
            m.Some? && Enrich(sub, m.value) == Ok(d'.fields[n].kind.descriptor)
  {
    var repeated := |Contents(Decode(lib, d, rs).value, n)| > 1;
    sub := Descriptor(GeneratedName(d.name, n), None, map[]);
    GuessedRecords(lib, d, rs, n, repeated);
    EmptyDecodesToUnknown(lib, sub.name, BodyRecords(rs, n, repeated));
  }

  /** A nested field was decoded from a message. */
  lemma {:induction false} MessageRecords(lib: Library, d: Descriptor, rs: seq<Record>, n: nat)
    requires Decode(lib, d, rs).Some? && n in NestedNumbers(Decode(lib, d, rs).value)
    ensures exists i :: 0 <= i < |rs| && IsMessage(rs[i], n)
  {
    var m := Decode(lib, d, rs).value;
    DecodeIsPointwise(lib, d, rs);
    var i :| 0 <= i < |m| && m[i].Nested? && m[i].num == n;
    assert DecodeOne(lib, d, rs[i]) == Some(m[i]);
    assert IsMessage(rs[i], n);
  }

  /** A field that is nested under the enriched descriptor and was not unknown before was
      nested before. */
  lemma SameNumbers(lib: Library, d: Descriptor, rs: seq<Record>, n: nat)
    requires Decode(lib, d, rs).Some? && Enrich(d, Decode(lib, d, rs).value).Ok?
    requires Decode(lib, Enrich(d, Decode(lib, d, rs).value).value, rs).Some?
    requires n in NestedNumbers(Decode(lib, Enrich(d, Decode(lib, d, rs).value).value, rs).value)
    requires n !in UnknownNumbers(Decode(lib, d, rs).value)
    ensures n in NestedNumbers(Decode(lib, d, rs).value)
  {
    var m := Decode(lib, d, rs).value;
    var m' := Decode(lib, Enrich(d, m).value, rs).value;
    DecodedIsTyped(lib, d, rs);
    EnrichedDecode(lib, d, m, rs);
    var i :| 0 <= i < |m'| && m'[i].Nested? && m'[i].num == n;
    assert Keeps(m[i], m'[i]);
    DecodeIsPointwise(lib, d, rs);
    DecodeIsPointwise(lib, Enrich(d, m).value, rs);
    assert DecodeOne(lib, d, rs[i]) == Some(m[i]) && m[i].num == n;
  }

  // ---------- Messages that repeat little ----------

  /** No other field of the message has this one's number. */
  ghost predicate Once(m: seq<Decoded>, i: nat)
    requires i < |m|
  {
    forall j :: 0 <= j < |m| && m[j].num == m[i].num ==> j == i
  }

  predicate SameWireType(p: Payload, q: Payload) {
    match p
    case Varint(_) => q.Varint?
    case Fixed64(_) => q.Fixed64?
    case LengthDelimited(_) => q.LengthDelimited?
    case Group(_) => q.Group?
    case Fixed32(_) => q.Fixed32?
  }

  /** At every level, nested messages and unknown fields that look like one occur once, and
      other unknown fields do not change their wire type. */
  ghost predicate Regular(m: seq<Decoded>)
    decreases MessageWeight(m)
  {
    forall i :: 0 <= i < |m| ==>
      match m[i]
      case Known(_, _) => true
      case Nested(_, _, body) => Once(m, i) && Regular(body)
      case Unknown(n, p) =>
        if LooksNested(p) then Once(m, i) && Regular(AllUnknown(Parse(p.bytes).value))
        else forall j :: 0 <= j < |m| && m[j].num == n ==> SameWireType(p, m[j].payload)
  }

  lemma {:induction false} BodyOfSingle(m: seq<Decoded>, i: nat, repeated: bool)
    requires i < |m| && m[i].Nested? && Once(m, i)
    ensures BodyOf(m, m[i].num, repeated) == m[i].body
  {
    if i == 0 {
      assert forall j :: 0 <= j < |m| - 1 ==> m[1..][j] == m[j + 1];
      NoBody(m[1..], m[0].num, repeated);
    } else {
      assert m[0].num != m[i].num;
      assert forall j :: 0 <= j < |m| - 1 ==> m[1..][j] == m[j + 1];
      BodyOfSingle(m[1..], i - 1, repeated);
    }
  }

  /** Regular messages fit and cover themselves, whatever their descriptor. */
  lemma {:induction false} RegularFits(lib: Library, fields: map<nat, Field>, m: seq<Decoded>)
    requires Sound(lib) && Regular(m)
    ensures FitsIn(lib, fields, m, m) && CoveredBy(fields, m, m)
    decreases MessageWeight(m), 1
  {
    forall i | 0 <= i < |m| ensures Fits(lib, fields, m, m[i]) && Covers(fields, m, m[i]) {
      RegularFieldFits(lib, fields, m, i);
    }
  }

  lemma {:induction false} RegularFieldFits(lib: Library, fields: map<nat, Field>, m: seq<Decoded>, i: nat)
    requires Sound(lib) && Regular(m) && i < |m|
    ensures Fits(lib, fields, m, m[i]) && Covers(fields, m, m[i])
    decreases MessageWeight(m), 0
  {
    match m[i]
    case Known(_, _) =>
    case Nested(n, _, body) =>
      if n in fields && fields[n].kind.MessageOf? {
        BodyOfSingle(m, i, fields[n].repeated);
        RegularFits(lib, fields[n].kind.descriptor.fields, body);
      }
    case Unknown(n, p) =>
      FirstContent(m, n);
      var k :| 0 <= k < |m| && m[k] == Unknown(n, Contents(m, n)[0]);
      if LooksNested(p) || LooksNested(m[k].payload) {
        assert k == i;
        RegularFits(lib, map[], AllUnknown(Parse(p.bytes).value));
      } else {
        assert SameWireType(m[k].payload, p);
      }
  }

  /** Every field number occurs at most once, at every level that enrichment looks at. */
  ghost predicate AtMostOnce(m: seq<Decoded>)
    decreases MessageWeight(m)
  {
    forall i :: 0 <= i < |m| ==>
      && Once(m, i)
      && match m[i]
         case Known(_, _) => true
         case Nested(_, _, body) => AtMostOnce(body)
         case Unknown(n, p) => LooksNested(p) ==> AtMostOnce(AllUnknown(Parse(p.bytes).value))
  }

  lemma {:induction false} AtMostOnceIsRegular(m: seq<Decoded>)
    requires AtMostOnce(m)
    ensures Regular(m)
    decreases MessageWeight(m)
  {
    forall i | 0 <= i < |m| && m[i].Nested? ensures Regular(m[i].body) {
      AtMostOnceIsRegular(m[i].body);
    }
    forall i | 0 <= i < |m| && m[i].Unknown? && LooksNested(m[i].payload)
      ensures Regular(AllUnknown(Parse(m[i].payload.bytes).value))
    {
      AtMostOnceIsRegular(AllUnknown(Parse(m[i].payload.bytes).value));
    }
    forall i, j | 0 <= i < |m| && 0 <= j < |m| && m[j].num == m[i].num
      ensures SameWireType(m[i].payload, m[j].payload)
    {
      assert Once(m, i);
    }
  }
}
