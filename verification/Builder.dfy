/** The enrichment as it runs: message and file builders updated in place. */
module Builder {
  import opened Messages
  import opened Wire
  import opened Enrichment
  import opened EnrichmentTheorems

  class FileBuilder {
    var names: set<string>

    constructor (names: set<string>)
      ensures this.names == names
    {
      this.names := names;
    }
  }

  class MessageBuilder {
    const name: string
    const file: FileBuilder?
    var fields: map<nat, Field>

    /** A builder for a message that exists already. */
    constructor FromMessage(d: Descriptor)
      ensures file != null ==> fresh(file)
      ensures Build() == d
    {
      name := d.name;
      fields := d.fields;
      if d.file.Some? {
        file := new FileBuilder(d.file.value);
      } else {
        file := null;
      }
    }

    /** A builder for a new message, in no file. */
    constructor (name: string)
      ensures Build() == Descriptor(name, None, map[])
    {
      this.name := name;
      fields := map[];
      file := null;
    }

    function Build(): Descriptor
      reads this, file
    {
      Descriptor(name, NamesIn(file), fields)
    }
  }

  function NamesIn(file: FileBuilder?): Option<set<string>>
    reads file
  {
    if file == null then None else Some(file.names)
  }

  /** The names of the messages guessed for the fields nums. */
  ghost function Guessed(d: Descriptor, nums: seq<nat>, m: seq<Decoded>): set<string>
    requires forall n :: n in nums ==> n in UnknownNumbers(m)
  {
    set n | n in nums && IsNewMessage(GuessedKind(d, n, m)) :: GeneratedName(d.name, n)
  }

  ghost function GuessedKind(d: Descriptor, n: nat, m: seq<Decoded>): Result<Kind>
    requires n in UnknownNumbers(m)
  {
    Detect(d.file, GeneratedName(d.name, n), Contents(m, n)[0])
  }

  /** The names that field n brings into the file: its own if a new message is guessed. */
  ghost function NewNames(d: Descriptor, n: nat, m: seq<Decoded>): set<string>
    requires n in UnknownNumbers(m)
  {
    if IsNewMessage(GuessedKind(d, n, m)) then {GeneratedName(d.name, n)} else {}
  }

  predicate IsNewMessage(kind: Result<Kind>) {
    kind.Ok? && kind.value.MessageOf?
  }

  /** Adds the fields that Enrich adds, and puts each guessed message into the file. */
  method EnrichMessage(d: MessageBuilder, m: seq<Decoded>) returns (ok: bool)
    modifies d, d.file
    ensures ok <==> Enrich(old(d.Build()), m).Ok?
    ensures ok ==> d.fields == Enrich(old(d.Build()), m).value.fields
    ensures ok && d.file != null ==>
              d.file.names == old(d.file.names) + Guessed(old(d.Build()), UnknownNumbers(m), m)
    decreases MessageWeight(m), 3
  {
    ghost var d0 := d.Build();
    ok := AddUnknownFields(d, m);
    if ok {
      AddUnknownKeepsName(d0, m);
      ok := EnrichNestedFields(d, AddUnknown(d0, UnknownNumbers(m), m).value, m);
    }
  }

  /** The loop over the unknown fields. The file grows on the way, but never by a name
      that a later field will ask for. */
  method AddUnknownFields(d: MessageBuilder, m: seq<Decoded>) returns (ok: bool)
    modifies d, d.file
    ensures ok <==> AddUnknown(old(d.Build()), UnknownNumbers(m), m).Ok?
    ensures ok ==> d.fields == AddUnknown(old(d.Build()), UnknownNumbers(m), m).value.fields
    ensures ok && d.file != null ==>
              d.file.names == old(d.file.names) + Guessed(old(d.Build()), UnknownNumbers(m), m)
    decreases MessageWeight(m), 2
  {
    ghost var d0 := d.Build();
    var unknown := UnknownNumbers(m);
    for i := 0 to |unknown|
      invariant AddUnknown(d0, unknown, m) == AddUnknown(d0.(fields := d.fields), unknown[i..], m)
      invariant d.file != null ==> d.file.names == d0.file.value + Guessed(d0, unknown[..i], m)
    {
      ghost var fields := d.fields;
      OneMore(d0, fields, NamesIn(d.file), unknown, i, m);
      var added := AddUnknownField(d, unknown[i], m);
      if !added {
        return false;
      }
    }
    return true;
  }

  /** One unknown field. */
  method AddUnknownField(d: MessageBuilder, number: nat, m: seq<Decoded>) returns (ok: bool)
    requires number in UnknownNumbers(m)
    modifies d, d.file
    ensures ok <==> AddField(old(d.Build()), number, m).Ok?
    ensures ok ==> d.fields == AddField(old(d.Build()), number, m).value.fields
    ensures ok && d.file != null ==>
              d.file.names == old(d.file.names) + NewNames(old(d.Build()), number, m)
    decreases MessageWeight(m), 1
  {
    var name := GeneratedName(d.name, number);
    var contents := Contents(m, number);
    var kind := DetectUnknownFieldType(d.file, name, contents);
    if kind.Err? || !Addable(number) || number in d.fields
       || exists n | n in d.fields :: d.fields[n].name == name {
      return false;
    }
    d.fields := d.fields[number := Field(name, kind.value, |contents| > 1)];
    return true;
  }

  /** The loop over the known fields. It depends on the fields of the builder only. */
  method EnrichNestedFields(d: MessageBuilder, ghost d0: Descriptor, m: seq<Decoded>) returns (ok: bool)
    requires d.fields == d0.fields
    modifies d
    ensures ok <==> EnrichNested(d0, NestedNumbers(m), m).Ok?
    ensures ok ==> d.fields == EnrichNested(d0, NestedNumbers(m), m).value.fields
    decreases MessageWeight(m), 2
  {
    var nested := NestedNumbers(m);
    for i := 0 to |nested|
      invariant EnrichNested(d0, nested, m) == EnrichNested(d0.(fields := d.fields), nested[i..], m)
    {
      var number := nested[i];
      assert nested[i..] == [number] + nested[i + 1..];
      if number in d.fields && d.fields[number].kind.MessageOf? {
        var field := d.fields[number];
        var sub := new MessageBuilder.FromMessage(field.kind.descriptor);
        var body := BodyOf(m, number, field.repeated);
        var enriched := EnrichMessage(sub, body);
        if !enriched {
          return false;
        }
        EnrichKeepsName(field.kind.descriptor, body);
        d.fields := d.fields[number := field.(kind := MessageOf(field.kind.descriptor.(fields := sub.fields)))];
      }
    }
    return true;
  }

  method DetectUnknownFieldType(file: FileBuilder?, name: string, fields: seq<Payload>) returns (kind: Result<Kind>)
    requires fields != []
    modifies file
    ensures kind == Detect(old(NamesIn(file)), name, fields[0])
    ensures file != null ==> file.names == old(file.names) + if IsNewMessage(kind) then {name} else {}
    decreases Weight(fields[0]), 0
  {
    var field := fields[0];
    match field {
      case Varint(_) => return Ok(Scalar(VarintForm, "int64"));
      case Fixed32(_) => return Ok(Scalar(Fixed32Form, "float"));
      case Fixed64(_) => return Ok(Scalar(Fixed64Form, "double"));
      case Group(_) => return Err;
      case LengthDelimited(bytes) =>
        if PrintableAscii(bytes) {
          return Ok(Scalar(BytesForm, "string"));
        }
        var records := Parse(bytes);
        if records.None? {
          return Ok(Scalar(BytesForm, "string"));
        }
        var descriptor := new MessageBuilder(name);
        var enriched := EnrichMessage(descriptor, AllUnknown(records.value));
        if !enriched {
          return Err;
        }
        EnrichKeepsName(Descriptor(name, None, map[]), AllUnknown(records.value));
        if file != null {
          if name in file.names {
            return Err;
          }
          file.names := file.names + {name};
        }
        return Ok(MessageOf(descriptor.Build()));
    }
  }

  /** A name generated for one field is not among those generated for the others. */
  lemma FreshName(d: Descriptor, nums: seq<nat>, i: nat, m: seq<Decoded>)
    requires forall n :: n in nums ==> n in UnknownNumbers(m)
    requires forall j, k :: 0 <= j < k < |nums| ==> nums[j] != nums[k]
    requires i < |nums|
    ensures GeneratedName(d.name, nums[i]) !in Guessed(d, nums[..i], m)
    ensures Guessed(d, nums[..i + 1], m) == Guessed(d, nums[..i], m) + NewNames(d, nums[i], m)
  {
    assert nums[..i + 1] == nums[..i] + [nums[i]];
    forall n | n in nums[..i] ensures GeneratedName(d.name, n) != GeneratedName(d.name, nums[i]) {
      if GeneratedName(d.name, n) == GeneratedName(d.name, nums[i]) {
        assert Digits(n) == GeneratedName(d.name, n)[|d.name| + 1..];
        DigitsAreInjective(n, nums[i]);
      }
    }
  }

  /** One round of the loop over the unknown fields, when the builder has got as far as
      fields and file. */
  lemma OneMore(d: Descriptor, fields: map<nat, Field>, file: Option<set<string>>,
                nums: seq<nat>, i: nat, m: seq<Decoded>)
    requires forall n :: n in nums ==> n in UnknownNumbers(m)
    requires forall j, k :: 0 <= j < k < |nums| ==> nums[j] != nums[k]
    requires i < |nums| && (d.file.Some? <==> file.Some?)
    requires file.Some? ==> file.value == d.file.value + Guessed(d, nums[..i], m)
    ensures var one := AddField(Descriptor(d.name, file, fields), nums[i], m);
            var rest := AddUnknown(d.(fields := fields), nums[i..], m);
            && (one.Err? ==> rest.Err?)
            && (one.Ok? ==> rest == AddUnknown(d.(fields := one.value.fields), nums[i + 1..], m))
    ensures IsNewMessage(GuessedKind(Descriptor(d.name, file, fields), nums[i], m))
       <==> IsNewMessage(GuessedKind(d, nums[i], m))
    ensures Guessed(d, nums[..i + 1], m) == Guessed(d, nums[..i], m) + NewNames(d, nums[i], m)
  {
    FreshName(d, nums, i, m);
    OtherNamesDoNotMatter(d.(fields := fields), file, nums[i], m);
    assert nums[i..][1..] == nums[i + 1..];
  }

  /** Of the names in the file only the generated one can make a difference. */
  lemma OtherNamesDoNotMatter(d: Descriptor, file: Option<set<string>>, n: nat, m: seq<Decoded>)
    requires n in UnknownNumbers(m) && (d.file.Some? <==> file.Some?)
    requires file.Some? ==>
      (GeneratedName(d.name, n) in d.file.value <==> GeneratedName(d.name, n) in file.value)
    ensures GuessedKind(d.(file := file), n, m) == GuessedKind(d, n, m)
    ensures var one, other := AddField(d, n, m), AddField(d.(file := file), n, m);
            (one.Ok? <==> other.Ok?)
            && (one.Ok? ==> one.value.fields == other.value.fields && one.value == d.(fields := one.value.fields))
  {
    assert NameTaken(d, GeneratedName(d.name, n)) <==> NameTaken(d.(file := file), GeneratedName(d.name, n));
  }

  lemma AddUnknownKeepsName(d: Descriptor, m: seq<Decoded>)
    requires AddUnknown(d, UnknownNumbers(m), m).Ok?
    ensures AddUnknown(d, UnknownNumbers(m), m).value.name == d.name
    ensures AddUnknown(d, UnknownNumbers(m), m).value.file == d.file
  {
    AddUnknownAddsEach(d, UnknownNumbers(m), m);
  }

  lemma EnrichKeepsName(d: Descriptor, m: seq<Decoded>)
    requires Enrich(d, m).Ok?
    ensures Enrich(d, m).value.name == d.name && Enrich(d, m).value.file == d.file
  {
    AddUnknownKeepsName(d, m);
    EnrichNestedKeepsName(AddUnknown(d, UnknownNumbers(m), m).value, NestedNumbers(m), m);
  }

  lemma {:induction false} EnrichNestedKeepsName(d: Descriptor, nums: seq<nat>, m: seq<Decoded>)
    requires forall n :: n in nums ==> n in NestedNumbers(m)
    requires EnrichNested(d, nums, m).Ok?
    ensures EnrichNested(d, nums, m).value.name == d.name && EnrichNested(d, nums, m).value.file == d.file
    decreases |nums|
  {
    if nums != [] {
      EnrichNestedKeepsName(EnrichField(d, nums[0], m).value, nums[1..], m);
    }
  }
}
