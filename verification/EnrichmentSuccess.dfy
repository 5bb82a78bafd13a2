/** When the enrichment succeeds, and what exactly it adds, told by the fields of the message
    alone: not by lists of numbers, and not in the order of a loop. */
module EnrichmentSuccess {
  import opened Messages
  import opened Wire
  import opened WireTheorems
  import opened Enrichment
  import opened EnrichmentTheorems
  import opened EnrichmentExact

  /** The first unknown field of its number. */
  predicate IsFirst(m: seq<Decoded>, i: nat)
    requires i < |m|
  {
    m[i].Unknown? && forall j :: 0 <= j < i ==> !IsUnknown(m[j], m[i].num)
  }

  predicate IsUnknown(f: Decoded, n: nat) {
    f.Unknown? && f.num == n
  }

  /** The enrichment can add a field for every unknown number, and refine what is nested. */
  ghost predicate CanEnrich(d: Descriptor, m: seq<Decoded>)
    decreases MessageWeight(m), 2
  {
    && (forall i :: 0 <= i < |m| && IsFirst(m, i) ==> CanAdd(d, m[i].num, m[i].payload))
    && (forall i :: 0 <= i < |m| && m[i].Nested? ==> CanRefine(d, m, i))
  }

  /** The number is one that a message may have, the name is not in use, and a type can be
      guessed. */
  ghost predicate CanAdd(d: Descriptor, n: nat, first: Payload)
    decreases Weight(first), 1
  {
    && 1 <= n < 0x2000_0000 && !(19000 <= n < 20000)
    && (forall k :: k in d.fields ==> d.fields[k].name != GeneratedName(d.name, n))
    && CanGuess(d.file, GeneratedName(d.name, n), first)
  }

  /** A type can be guessed from anything but a group, or from a message whose name is not
      in use or that cannot be enriched itself. */
  ghost predicate CanGuess(file: Option<set<string>>, name: string, p: Payload)
    decreases Weight(p), 0
  {
    && !p.Group?
    && (LooksNested(p) ==>
          && (file.Some? ==> name !in file.value)
          && CanEnrich(Descriptor(name, None, map[]), AllUnknown(Parse(p.bytes).value)))
  }

  ghost predicate CanRefine(d: Descriptor, m: seq<Decoded>, i: nat)
    requires i < |m| && m[i].Nested?
    decreases MessageWeight(m), 0
  {
    var n := m[i].num;
    n in d.fields && d.fields[n].kind.MessageOf? ==>
      CanEnrich(d.fields[n].kind.descriptor, BodyOf(m, n, d.fields[n].repeated))
  }

  /** Main result, for every message and the descriptor it was decoded with: the enrichment
      succeeds if and only if it can do each of these things on its own. */
  lemma {:induction false} EnrichSucceedsExactly(d: Descriptor, m: seq<Decoded>)
    requires Typed(d, m)
    ensures Enrich(d, m).Ok? <==> CanEnrich(d, m)
    decreases MessageWeight(m), 2
  {
    var unknown, nested := UnknownNumbers(m), NestedNumbers(m);
    forall n | n in unknown ensures n !in d.fields {
      NumbersAreTyped(d, m, n);
    }
    forall n | n in nested ensures n !in unknown && n in d.fields {
      NumbersAreTyped(d, m, n);
    }
    AddUnknownSucceeds(d, unknown, m);
    EachIsAdded(d, m);
    EachIsRefined(d, m);
    if AddUnknown(d, unknown, m).Ok? {
      var added := AddUnknown(d, unknown, m).value;
      AddUnknownAddsEach(d, unknown, m);
      EnrichNestedSucceeds(added, nested, m);
      assert forall n :: n in nested ==> added.fields[n] == d.fields[n];
      assert forall n :: n in nested ==> (Refined(added, m, n) <==> Refined(d, m, n));
    }
  }

  /** Whether AddUnknown gets past this number, wherever it is in the list. */
  ghost predicate Added(d: Descriptor, m: seq<Decoded>, n: nat)
    requires n in UnknownNumbers(m)
  {
    && Addable(n) && !NameTaken(d, GeneratedName(d.name, n))
    && Detect(d.file, GeneratedName(d.name, n), Contents(m, n)[0]).Ok?
  }

  lemma {:induction false} AddUnknownSucceeds(d: Descriptor, nums: seq<nat>, m: seq<Decoded>)
    requires forall n :: n in nums ==> n in UnknownNumbers(m) && n !in d.fields
    requires forall i, j :: 0 <= i < j < |nums| ==> nums[i] != nums[j]
    ensures AddUnknown(d, nums, m).Ok? <==> forall n :: n in nums ==> Added(d, m, n)
    decreases |nums|
  {
    if nums != [] {
      var first := AddField(d, nums[0], m);
      assert first.Ok? <==> Added(d, m, nums[0]);
      assert forall n :: n in nums <==> n == nums[0] || n in nums[1..];
      if first.Ok? {
        AddUnknownSucceeds(first.value, nums[1..], m);
        forall n | n in nums[1..] ensures Added(first.value, m, n) <==> Added(d, m, n) {
          AnotherNameIsFree(d, first.value, nums[0], n);
        }
      }
    }
  }

  /** A field that was added does not take the name of another. */
  lemma AnotherNameIsFree(d: Descriptor, added: Descriptor, n: nat, other: nat)
    requires n != other && n !in d.fields && n in added.fields && added.fields[n].name == GeneratedName(d.name, n)
    requires added.fields == d.fields[n := added.fields[n]]
    ensures NameTaken(added, GeneratedName(d.name, other)) <==> NameTaken(d, GeneratedName(d.name, other))
  {
    NamesDiffer(d.name, n, other);
    if NameTaken(d, GeneratedName(d.name, other)) {
      var k :| k in d.fields && d.fields[k].name == GeneratedName(d.name, other);
      assert k in added.fields && added.fields[k].name == GeneratedName(d.name, other);
    }
  }

  lemma NamesDiffer(base: string, n: nat, other: nat)
    requires n != other
    ensures GeneratedName(base, n) != GeneratedName(base, other)
  {
    if GeneratedName(base, n) == GeneratedName(base, other) {
      assert Digits(n) == GeneratedName(base, n)[|base| + 1..];
      DigitsAreInjective(n, other);
    }
  }

  ghost predicate Refined(d: Descriptor, m: seq<Decoded>, n: nat) {
    n in d.fields && d.fields[n].kind.MessageOf? ==>
      Enrich(d.fields[n].kind.descriptor, BodyOf(m, n, d.fields[n].repeated)).Ok?
  }

  lemma {:induction false} EnrichNestedSucceeds(d: Descriptor, nums: seq<nat>, m: seq<Decoded>)
    requires forall n :: n in nums ==> n in NestedNumbers(m)
    requires forall i, j :: 0 <= i < j < |nums| ==> nums[i] != nums[j]
    ensures EnrichNested(d, nums, m).Ok? <==> forall n :: n in nums ==> Refined(d, m, n)
    decreases |nums|
  {
    if nums != [] {
      var first := EnrichField(d, nums[0], m);
      assert first.Ok? <==> Refined(d, m, nums[0]);
      assert forall n :: n in nums <==> n == nums[0] || n in nums[1..];
      if first.Ok? {
        EnrichNestedSucceeds(first.value, nums[1..], m);
        assert forall n :: n in nums[1..] ==> (Refined(first.value, m, n) <==> Refined(d, m, n));
      }
    }
  }

  lemma {:induction false} EachIsAdded(d: Descriptor, m: seq<Decoded>)
    ensures (forall n :: n in UnknownNumbers(m) ==> Added(d, m, n))
       <==> (forall i :: 0 <= i < |m| && IsFirst(m, i) ==> CanAdd(d, m[i].num, m[i].payload))
    decreases MessageWeight(m), 1
  {
    forall i | 0 <= i < |m| && IsFirst(m, i)
      ensures m[i].num in UnknownNumbers(m)
      ensures Added(d, m, m[i].num) <==> CanAdd(d, m[i].num, m[i].payload)
    {
      FirstOfItsNumber(m, m[i].num, i);
      GuessSucceedsExactly(d.file, GeneratedName(d.name, m[i].num), m[i].payload);
    }
    forall n | n in UnknownNumbers(m) ensures exists i :: 0 <= i < |m| && IsFirst(m, i) && m[i].num == n {
      var i := FirstExists(m, n);
    }
  }

  lemma FirstExists(m: seq<Decoded>, n: nat) returns (i: nat)
    requires n in UnknownNumbers(m)
    ensures i < |m| && IsFirst(m, i) && m[i].num == n
  {
    i := 0;
    while !IsUnknown(m[i], n)
      invariant i < |m| && (exists k :: i <= k < |m| && IsUnknown(m[k], n))
      invariant forall j :: 0 <= j < i ==> !IsUnknown(m[j], n)
      decreases |m| - i
    {
      i := i + 1;
    }
  }

  /** What the enrichment looks at is the first unknown field of a number. */
  lemma {:induction false} FirstOfItsNumber(m: seq<Decoded>, n: nat, i: nat)
    requires i < |m| && IsFirst(m, i) && m[i].num == n
    ensures n in UnknownNumbers(m) && Contents(m, n)[0] == m[i].payload
  {
    if i > 0 {
      assert !IsUnknown(m[0], n);
      assert forall j :: 0 <= j < |m| - 1 ==> m[1..][j] == m[j + 1];
      FirstOfItsNumber(m[1..], n, i - 1);
    }
  }

  lemma {:induction false} EachIsRefined(d: Descriptor, m: seq<Decoded>)
    requires Typed(d, m)
    ensures (forall n :: n in NestedNumbers(m) ==> Refined(d, m, n))
       <==> (forall i :: 0 <= i < |m| && m[i].Nested? ==> CanRefine(d, m, i))
    decreases MessageWeight(m), 1
  {
    forall i | 0 <= i < |m| && m[i].Nested?
      ensures m[i].num in NestedNumbers(m) && (Refined(d, m, m[i].num) <==> CanRefine(d, m, i))
    {
      var n := m[i].num;
      NumbersAreTyped(d, m, n);
      BodyIsTyped(d, m, n, d.fields[n].repeated);
      EnrichSucceedsExactly(d.fields[n].kind.descriptor, BodyOf(m, n, d.fields[n].repeated));
    }
  }

  lemma {:induction false} GuessSucceedsExactly(file: Option<set<string>>, name: string, p: Payload)
    ensures Detect(file, name, p).Ok? <==> CanGuess(file, name, p)
    decreases Weight(p), 0
  {
    if LooksNested(p) {
      EnrichSucceedsExactly(Descriptor(name, None, map[]), AllUnknown(Parse(p.bytes).value));
    }
  }

  // ---------- What is added ----------

  /** The wire type of a scalar type, from the table in the "Message Structure" section of
      the Protocol Buffers Encoding specification. */
  function WireTypeOf(typeName: string): Option<nat> {
    match typeName
    case "int64" => Some(0)
    case "double" => Some(1)
    case "string" => Some(2)
    case "float" => Some(5)
    case _ => None
  }

  /** A message is guessed from bytes that are one and that are not all printable. Anything
      else is guessed to be of a scalar type with the wire type that it came with. */
  lemma GuessesKeepTheWireType(file: Option<set<string>>, name: string, p: Payload)
    requires Detect(file, name, p).Ok?
    ensures var kind := Detect(file, name, p).value;
            && (kind.MessageOf? <==>
                  && p.LengthDelimited? && Parse(p.bytes).Some?
                  && exists i :: 0 <= i < |p.bytes| && !(' ' as int <= p.bytes[i] <= '~' as int))
            && (kind.Scalar? ==> WireTypeOf(kind.typeName) == Some(WireType(p)) && OwnWireType(kind.form, p))
  {
    assert Detect(file, name, p).value.MessageOf? <==> LooksNested(p);
  }

  /** The field that is added for an unknown number: named after it in decimal, repeated if
      and only if the number is, and guessed from its first occurrence. */
  lemma WhatIsAdded(d: Descriptor, m: seq<Decoded>, i: nat)
    requires Typed(d, m) && Enrich(d, m).Ok? && i < |m| && IsFirst(m, i)
    ensures var n := m[i].num;
            var d' := Enrich(d, m).value;
            && n in d'.fields && d'.fields[n].name == d.name + "_" + Digits(n)
            && (d'.fields[n].repeated <==> exists j :: i < j < |m| && IsUnknown(m[j], n))
            && Detect(d.file, d'.fields[n].name, m[i].payload) == Ok(d'.fields[n].kind)
  {
    var n := m[i].num;
    FirstOfItsNumber(m, n, i);
    NumbersAreTyped(d, m, n);
    FieldAfter(d, m, n);
    RepeatedIfMore(m, n, i);
  }

  lemma {:induction false} RepeatedIfMore(m: seq<Decoded>, n: nat, i: nat)
    requires i < |m| && IsFirst(m, i) && m[i].num == n
    ensures |Contents(m, n)| > 1 <==> exists j :: i < j < |m| && IsUnknown(m[j], n)
  {
    assert forall j :: 0 <= j < |m| - 1 ==> m[1..][j] == m[j + 1];
    if i > 0 {
      assert !IsUnknown(m[0], n);
      RepeatedIfMore(m[1..], n, i - 1);
      forall j | i < j < |m| && IsUnknown(m[j], n) ensures |Contents(m, n)| > 1 {
        assert IsUnknown(m[1..][j - 1], n);
      }
      if |Contents(m, n)| > 1 {
        var j :| i - 1 < j < |m[1..]| && IsUnknown(m[1..][j], n);
        assert IsUnknown(m[j + 1], n);
      }
    } else {
      SomeContents(m[1..], n);
      forall j | 0 < j < |m| && IsUnknown(m[j], n) ensures Contents(m[1..], n) != [] {
        assert IsUnknown(m[1..][j - 1], n);
      }
      if Contents(m[1..], n) != [] {
        var j :| 0 <= j < |m[1..]| && IsUnknown(m[1..][j], n);
        assert IsUnknown(m[j + 1], n);
      }
    }
  }

  lemma {:induction false} SomeContents(m: seq<Decoded>, n: nat)
    ensures Contents(m, n) != [] <==> exists j :: 0 <= j < |m| && IsUnknown(m[j], n)
  {
    if m != [] {
      SomeContents(m[1..], n);
      assert forall j :: 0 <= j < |m| - 1 ==> m[1..][j] == m[j + 1];
      forall j | 0 <= j < |m| && IsUnknown(m[j], n) ensures Contents(m, n) != [] {
        assert j > 0 ==> IsUnknown(m[1..][j - 1], n);
      }
      if Contents(m[1..], n) != [] {
        var j :| 0 <= j < |m[1..]| && IsUnknown(m[1..][j], n);
        assert IsUnknown(m[j + 1], n);
      } else if Contents(m, n) != [] {
        assert IsUnknown(m[0], n);
      }
    }
  }

  /** The decimal numeral that is read back from left to right. */
  function Number(digits: string): int {
    if digits == [] then 0 else 10 * Number(digits[..|digits| - 1]) + (digits[|digits| - 1] as int - '0' as int)
  }

  /** A number is written with the digits that it has, and without leading zeros. */
  lemma {:induction false} DigitsAreDecimal(n: nat)
    ensures Number(Digits(n)) == n && (forall i :: 0 <= i < |Digits(n)| ==> '0' <= Digits(n)[i] <= '9')
    ensures |Digits(n)| > 1 ==> Digits(n)[0] != '0'
  {
    if n >= 10 {
      DigitsAreDecimal(n / 10);
      assert Digits(n)[..|Digits(n)| - 1] == Digits(n / 10);
    } else {
      assert [Digit(n)][..0] == [];
    }
  }

  // ---------- What is refined ----------

  /** The body of a field that is not repeated is that of all its occurrences together. */
  lemma {:induction false} BodiesAreMerged(m: seq<Decoded>, more: seq<Decoded>, n: nat)
    ensures BodyOf(m + more, n, false) == BodyOf(m, n, false) + BodyOf(more, n, false)
    ensures forall f :: BodyOf([f], n, false) == if f.Nested? && f.num == n then f.body else []
  {
    assert forall f: Decoded :: [f][1..] == [];
    if m == [] {
      assert m + more == more;
    } else {
      assert (m + more)[1..] == m[1..] + more;
      BodiesAreMerged(m[1..], more, n);
    }
  }

  /** That of a repeated one is its first. */
  lemma {:induction false} TheFirstBodyCounts(m: seq<Decoded>, i: nat)
    requires i < |m| && m[i].Nested? && forall j :: 0 <= j < i ==> !(m[j].Nested? && m[j].num == m[i].num)
    ensures BodyOf(m, m[i].num, true) == m[i].body
  {
    if i > 0 {
      assert !(m[0].Nested? && m[0].num == m[i].num);
      assert forall j :: 0 <= j < |m| - 1 ==> m[1..][j] == m[j + 1];
      TheFirstBodyCounts(m[1..], i - 1);
    }
  }
}
