/** What the enrichment does to a descriptor, field number by field number: which it adds,
    which it refines, under which names, and how deep the guessed messages nest. */
module EnrichmentTheorems {
  import opened Messages
  import opened Wire
  import opened Enrichment

  // ---------- Decoding is field by field ----------

  lemma {:induction false} DecodeIsPointwise(lib: Library, d: Descriptor, rs: seq<Record>)
    ensures Decode(lib, d, rs).Some? <==> forall i :: 0 <= i < |rs| ==> DecodeOne(lib, d, rs[i]).Some?
    ensures Decode(lib, d, rs).Some? ==>
      forall i :: 0 <= i < |rs| ==> DecodeOne(lib, d, rs[i]) == Some(Decode(lib, d, rs).value[i])
  {
    if rs != [] {
      DecodeIsPointwise(lib, d, rs[1..]);
      assert forall i :: 1 <= i < |rs| ==> rs[i] == rs[1..][i - 1];
      assert forall i :: 0 <= i < |rs| - 1 ==> rs[1..][i] == rs[i + 1];
    }
  }

  lemma {:induction false} EmptyDecodesToUnknown(lib: Library, name: string, rs: seq<Record>)
    ensures Decode(lib, Descriptor(name, None, map[]), rs) == Some(AllUnknown(rs))
  {
    if rs != [] {
      EmptyDecodesToUnknown(lib, name, rs[1..]);
    }
  }

  // ---------- What the two loops of the enrichment leave behind ----------

  ghost predicate UnknownAdded(d: Descriptor, added: Descriptor, m: seq<Decoded>, n: nat)
    requires n in UnknownNumbers(m)
  {
    var name := GeneratedName(d.name, n);
    var contents := Contents(m, n);
    n in added.fields && added.fields[n].name == name && added.fields[n].repeated == (|contents| > 1)
    && Detect(d.file, name, contents[0]) == Ok(added.fields[n].kind) && Addable(n)
  }

  lemma {:induction false} AddUnknownAddsEach(d: Descriptor, nums: seq<nat>, m: seq<Decoded>)
    requires forall n :: n in nums ==> n in UnknownNumbers(m)
    requires forall i, j :: 0 <= i < j < |nums| ==> nums[i] != nums[j]
    requires AddUnknown(d, nums, m).Ok?
    ensures var added := AddUnknown(d, nums, m).value;
            && added.name == d.name && added.file == d.file
            && added.fields.Keys == d.fields.Keys + (set n | n in nums)
            && (forall n :: n in nums ==> UnknownAdded(d, added, m, n))
            && (forall n :: n in d.fields && n !in nums ==> added.fields[n] == d.fields[n])
    decreases |nums|
  {
    if nums != [] {
      var first := AddField(d, nums[0], m).value;
      assert UnknownAdded(d, first, m, nums[0]);
      AddUnknownAddsEach(first, nums[1..], m);
      assert forall n :: n in nums <==> n == nums[0] || n in nums[1..];
    }
  }

  ghost predicate NestedEnriched(d: Descriptor, enriched: Descriptor, m: seq<Decoded>, n: nat)
    requires n in d.fields && d.fields[n].kind.MessageOf?
  {
    var sub := Enrich(d.fields[n].kind.descriptor, BodyOf(m, n, d.fields[n].repeated));
    n in enriched.fields && sub.Ok? && enriched.fields[n] == d.fields[n].(kind := MessageOf(sub.value))
  }

  lemma {:induction false} EnrichNestedEnrichesEach(d: Descriptor, nums: seq<nat>, m: seq<Decoded>)
    requires forall n :: n in nums ==> n in NestedNumbers(m)
    requires forall i, j :: 0 <= i < j < |nums| ==> nums[i] != nums[j]
    requires EnrichNested(d, nums, m).Ok?
    ensures var enriched := EnrichNested(d, nums, m).value;
            && enriched.fields.Keys == d.fields.Keys
            && (forall n :: n in nums && n in d.fields && d.fields[n].kind.MessageOf? ==>
                  NestedEnriched(d, enriched, m, n))
            && (forall n :: n in d.fields && n !in nums ==> enriched.fields[n] == d.fields[n])
    decreases |nums|
  {
    if nums != [] {
      var first := EnrichField(d, nums[0], m).value;
      assert first.fields.Keys == d.fields.Keys;
      assert forall n :: n in d.fields && n != nums[0] ==> first.fields[n] == d.fields[n];
      assert nums[0] in d.fields && d.fields[nums[0]].kind.MessageOf? ==> NestedEnriched(d, first, m, nums[0]);
      EnrichNestedEnrichesEach(first, nums[1..], m);
      assert forall n :: n in nums <==> n == nums[0] || n in nums[1..];
      forall n | n in nums[1..] && n in d.fields && d.fields[n].kind.MessageOf?
        ensures NestedEnriched(d, EnrichNested(d, nums, m).value, m, n)
      {
        assert NestedEnriched(first, EnrichNested(d, nums, m).value, m, n);
      }
    }
  }

  lemma {:induction false} FirstContent(m: seq<Decoded>, n: nat)
    requires n in UnknownNumbers(m)
    ensures exists k :: 0 <= k < |m| && m[k] == Unknown(n, Contents(m, n)[0])
  {
    if m[0].Unknown? && m[0].num == n {
    } else {
      FirstContent(m[1..], n);
      var k :| 0 <= k < |m[1..]| && m[1..][k] == Unknown(n, Contents(m[1..], n)[0]);
      assert m[k + 1] == m[1..][k];
    }
  }

  /** What the whole enrichment does to a single field number. */
  lemma FieldAfter(d: Descriptor, m: seq<Decoded>, n: nat)
    requires Enrich(d, m).Ok?
    ensures var d' := Enrich(d, m).value;
            && (n in UnknownNumbers(m) && n !in NestedNumbers(m) ==> UnknownAdded(d, d', m, n))
            && (n in NestedNumbers(m) && n !in UnknownNumbers(m) && n in d.fields && d.fields[n].kind.MessageOf? ==>
                  NestedEnriched(d, d', m, n))
            && (n in d.fields && n !in UnknownNumbers(m) && n !in NestedNumbers(m) ==>
                  n in d'.fields && d'.fields[n] == d.fields[n])
  {
    AddUnknownAddsEach(d, UnknownNumbers(m), m);
    EnrichNestedEnrichesEach(AddUnknown(d, UnknownNumbers(m), m).value, NestedNumbers(m), m);
  }

  /** The enriched descriptor has the fields it had and the unknown ones, and no others. */
  lemma EnrichedNumbers(d: Descriptor, m: seq<Decoded>)
    requires Enrich(d, m).Ok?
    ensures forall n :: n in Enrich(d, m).value.fields <==> n in d.fields || n in UnknownNumbers(m)
  {
    AddUnknownAddsEach(d, UnknownNumbers(m), m);
    EnrichNestedEnrichesEach(AddUnknown(d, UnknownNumbers(m), m).value, NestedNumbers(m), m);
  }

  // ---------- Guessed messages do not nest deeper than their bytes ----------

  ghost predicate DepthWithin(d: Descriptor, n: nat)
    decreases n
  {
    forall k :: k in d.fields && d.fields[k].kind.MessageOf? ==>
      n > 0 && DepthWithin(d.fields[k].kind.descriptor, n - 1)
  }

  lemma {:induction false} DepthIsMonotone(d: Descriptor, n: nat, more: nat)
    requires DepthWithin(d, n) && n <= more
    ensures DepthWithin(d, more)
    decreases n
  {
    forall k | k in d.fields && d.fields[k].kind.MessageOf? ensures DepthWithin(d.fields[k].kind.descriptor, more - 1) {
      DepthIsMonotone(d.fields[k].kind.descriptor, n - 1, more - 1);
    }
  }

  /** A guessed message is never nested deeper than its bytes are long. */
  lemma {:induction false} GuessedDepthIsBounded(name: string, rs: seq<Record>)
    requires Enrich(Descriptor(name, None, map[]), AllUnknown(rs)).Ok?
    ensures DepthWithin(Enrich(Descriptor(name, None, map[]), AllUnknown(rs)).value, TotalWeight(rs))
    decreases TotalWeight(rs), 1
  {
    var d' := Enrich(Descriptor(name, None, map[]), AllUnknown(rs)).value;
    forall k | k in d'.fields && d'.fields[k].kind.MessageOf?
      ensures TotalWeight(rs) > 0 && DepthWithin(d'.fields[k].kind.descriptor, TotalWeight(rs) - 1)
    {
      FieldDepthIsBounded(name, rs, k);
    }
  }

  lemma {:induction false} FieldDepthIsBounded(name: string, rs: seq<Record>, k: nat)
    requires Enrich(Descriptor(name, None, map[]), AllUnknown(rs)).Ok?
    requires var d' := Enrich(Descriptor(name, None, map[]), AllUnknown(rs)).value;
             k in d'.fields && d'.fields[k].kind.MessageOf?
    ensures var d' := Enrich(Descriptor(name, None, map[]), AllUnknown(rs)).value;
            TotalWeight(rs) > 0 && DepthWithin(d'.fields[k].kind.descriptor, TotalWeight(rs) - 1)
    decreases TotalWeight(rs), 0
  {
    var m := AllUnknown(rs);
    var base := Descriptor(name, None, map[]);
    EnrichedNumbers(base, m);
    FieldAfter(base, m, k);
    FirstContent(m, k);
    var records := Parse(Contents(m, k)[0].bytes).value;
    GuessedDepthIsBounded(GeneratedName(name, k), records);
    DepthIsMonotone(Enrich(base, m).value.fields[k].kind.descriptor, TotalWeight(records), TotalWeight(rs) - 1);
  }

  // ---------- Generated names ----------

  /** The name of the field at a path of field numbers below a base message. */
  function NameAt(base: string, path: seq<nat>): string {
    if path == [] then base else GeneratedName(NameAt(base, path[..|path| - 1]), path[|path| - 1])
  }

  lemma {:induction false} DigitsAreDigits(n: nat)
    ensures |Digits(n)| > 0 && '_' !in Digits(n)
  {
    if n >= 10 {
      DigitsAreDigits(n / 10);
    }
  }

  lemma {:induction false} DigitsAreInjective(a: nat, b: nat)
    requires Digits(a) == Digits(b)
    ensures a == b
  {
    DigitsAreDigits(a / 10);
    DigitsAreDigits(b / 10);
    var x, y := Digits(a), Digits(b);
    assert x[|x| - 1] == y[|y| - 1];
    assert x[|x| - 1] == Digit(a % 10) && y[|y| - 1] == Digit(b % 10);
    if a >= 10 && b >= 10 {
      assert x[..|x| - 1] == Digits(a / 10) && y[..|y| - 1] == Digits(b / 10);
      DigitsAreInjective(a / 10, b / 10);
    }
  }

  lemma UnderscoreIsNotLater(a: string, x: string, b: string, y: string)
    requires a + "_" + x == b + "_" + y && '_' !in x
    ensures |b| <= |a|
  {
    var s := a + "_" + x;
    assert s[|b|] == '_';
    assert forall i :: |a| < i < |s| ==> s[i] == x[i - |a| - 1];
  }

  lemma LastUnderscore(a: string, x: string, b: string, y: string)
    requires a + "_" + x == b + "_" + y && '_' !in x && '_' !in y
    ensures a == b && x == y
  {
    UnderscoreIsNotLater(a, x, b, y);
    UnderscoreIsNotLater(b, y, a, x);
    var s := a + "_" + x;
    assert a == s[..|a|] && b == s[..|b|];
    assert x == s[|a| + 1..] && y == s[|b| + 1..];
  }

  /** Different paths never get the same generated name, however deep they are. */
  lemma {:induction false} GeneratedNamesAreDistinct(base: string, p: seq<nat>, q: seq<nat>)
    requires NameAt(base, p) == NameAt(base, q)
    ensures p == q
    decreases |p| + |q|
  {
    if p == [] || q == [] {
      NameGrows(base, p);
      NameGrows(base, q);
    } else {
      var i, j := |p| - 1, |q| - 1;
      DigitsAreDigits(p[i]);
      DigitsAreDigits(q[j]);
      LastUnderscore(NameAt(base, p[..i]), Digits(p[i]), NameAt(base, q[..j]), Digits(q[j]));
      DigitsAreInjective(p[i], q[j]);
      GeneratedNamesAreDistinct(base, p[..i], q[..j]);
      assert p == p[..i] + [p[i]] && q == q[..j] + [q[j]];
    }
  }

  lemma {:induction false} NameGrows(base: string, path: seq<nat>)
    ensures |NameAt(base, path)| >= |base| && (path != [] ==> |NameAt(base, path)| > |base|)
  {
    if path != [] {
      NameGrows(base, path[..|path| - 1]);
    }
  }
}
