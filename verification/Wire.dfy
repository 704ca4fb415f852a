/** Encoding under one contract and decoding under another of the same major version. */
module Wire {
  import opened Prelude
  import opened Numbering
  import opened Messages
  import opened Generator
  import opened Evolution
  import opened History

  /** A value: a scalar, or a message given by its fields in the order they are written. */
  datatype Value = Scalar(data: int) | Message(entries: seq<Entry>)
  datatype Entry = Entry(name: string, value: Value)

  /**
   What is on the wire. A payload is readable only as the type it was written
   as; a field is identified by its number alone.
   */
  datatype Encoded = Payload(typeName: string, data: int) | Records(records: seq<Record>)
  datatype Record = Record(number: nat, content: Encoded)

  /** The value fits the type under the descriptor. */
  predicate Typed(d: Descriptor, typeName: string, v: Value)
    decreases v, 1
  {
    if typeName in d.messages then v.Message? && TypedEntries(d, d.messages[typeName], v.entries) else v.Scalar?
  }

  predicate TypedEntries(d: Descriptor, m: PreviousMessage, entries: seq<Entry>)
    decreases entries, 0
  {
    entries == [] ||
    (entries[0].name in m.fields && Typed(d, m.fields[entries[0].name].sig.0, entries[0].value) && TypedEntries(d, m, entries[1..]))
  }

  function Encode(d: Descriptor, typeName: string, v: Value): Encoded
    requires Typed(d, typeName, v)
    decreases v, 1
  {
    match v
    case Scalar(data) => Payload(typeName, data)
    case Message(entries) => Records(EncodeEntries(d, d.messages[typeName], entries))
  }

  function EncodeEntries(d: Descriptor, m: PreviousMessage, entries: seq<Entry>): seq<Record>
    requires TypedEntries(d, m, entries)
    decreases entries, 0
  {
    if entries == [] then []
    else
      var field := m.fields[entries[0].name];
      [Record(field.number, Encode(d, field.sig.0, entries[0].value))] + EncodeEntries(d, m, entries[1..])
  }

  /** The field that a number denotes, if any. */
  ghost function FieldOf(m: PreviousMessage, number: nat): (r: Option<string>)
    ensures r.Some? ==> r.value in m.fields && m.fields[r.value].number == number
    ensures r.None? ==> forall f | f in m.fields :: m.fields[f].number != number
  {
    if f :| f in m.fields && m.fields[f].number == number then Some(f) else None
  }

  /** Decoding skips records whose number the message does not know. */
  ghost function Decode(d: Descriptor, typeName: string, e: Encoded): Option<Value>
    decreases e, 1
  {
    if typeName in d.messages then
      if e.Payload? then None
      else match DecodeRecords(d, d.messages[typeName], e.records)
        case None => None
        case Some(entries) => Some(Message(entries))
    else if e.Payload? && e.typeName == typeName then Some(Scalar(e.data))
    else None
  }

  ghost function DecodeRecords(d: Descriptor, m: PreviousMessage, records: seq<Record>): Option<seq<Entry>>
    decreases records, 0
  {
    if records == [] then Some([])
    else
      var first, rest := DecodeRecord(d, m, records[0]), DecodeRecords(d, m, records[1..]);
      if first.None? || rest.None? then None else Some(first.value + rest.value)
  }

  /** No entry when the number is unknown, otherwise one. */
  ghost function DecodeRecord(d: Descriptor, m: PreviousMessage, r: Record): Option<seq<Entry>>
    decreases r, 2
  {
    match FieldOf(m, r.number)
    case None => Some([])
    case Some(name) =>
      match Decode(d, m.fields[name].sig.0, r.content)
      case None => None
      case Some(v) => Some([Entry(name, v)])
  }

  /** The part of a value that a descriptor knows, at every depth. */
  function Known(d: Descriptor, typeName: string, v: Value): Value
    decreases v, 1
  {
    if typeName in d.messages && v.Message? then Message(KnownEntries(d, d.messages[typeName], v.entries)) else v
  }

  function KnownEntries(d: Descriptor, m: PreviousMessage, entries: seq<Entry>): seq<Entry>
    decreases entries, 0
  {
    if entries == [] then []
    else
      var rest := KnownEntries(d, m, entries[1..]);
      if entries[0].name in m.fields
      then [Entry(entries[0].name, Known(d, m.fields[entries[0].name].sig.0, entries[0].value))] + rest
      else rest
  }

  // ---------------------------------------------------------------- one extends the other

  /** What the two directions need of an older and a newer schema. */
  ghost predicate Related(a: Descriptor, b: Descriptor) {
    && DescriptorExtends(a, b)
    && (forall n | n in a.messages :: DistinctNumbers(a.messages[n]))
    && (forall n | n in b.messages :: DistinctNumbers(b.messages[n]))
    && (forall n, f | n in a.messages && f in a.messages[n].fields ::
         a.messages[n].fields[f].sig.0 in a.messages || a.messages[n].fields[f].sig.0 !in b.messages)
  }

  lemma CoherentAreRelated(a: Descriptor, b: Descriptor)
    requires DescriptorExtends(a, b) && WellFormed(a) && WellFormed(b) && Coherent(a) && Coherent(b)
    ensures Related(a, b)
  {
    hide UnderMethod, MethodCoherent, DistinctNumbers, MessageExtends;
    forall n | n in a.messages ensures DistinctNumbers(a.messages[n]) {
      assert WellNumbered(a.messages[n]);
    }
    forall n | n in b.messages ensures DistinctNumbers(b.messages[n]) {
      assert WellNumbered(b.messages[n]);
    }
    forall n, f | n in a.messages && f in a.messages[n].fields
      ensures a.messages[n].fields[f].sig.0 in a.messages || a.messages[n].fields[f].sig.0 !in b.messages
    {
      assert MessageCoherent(a, n);
      var t := a.messages[n].fields[f].sig.0;
      if t in b.messages { assert MessageCoherent(b, t); }
    }
  }

  /** A type that both schemas treat alike: a message of both or of neither. */
  predicate Alike(a: Descriptor, b: Descriptor, typeName: string) {
    typeName in a.messages <==> typeName in b.messages
  }

  lemma FieldTypesAlike(a: Descriptor, b: Descriptor, n: string, f: string)
    requires Related(a, b) && n in a.messages && f in a.messages[n].fields
    ensures Alike(a, b, a.messages[n].fields[f].sig.0)
    ensures n in b.messages && Keeps(a.messages[n], b.messages[n], f)
  {
    assert MessageExtends(a.messages[n], b.messages[n]);
  }

  /** The older schema reads what the newer one wrote, and gets all that it knows. */
  lemma {:induction false} OlderReadsNewer(a: Descriptor, b: Descriptor, typeName: string, v: Value)
    requires Related(a, b) && Alike(a, b, typeName) && Typed(b, typeName, v)
    ensures Decode(a, typeName, Encode(b, typeName, v)) == Some(Known(a, typeName, v))
    decreases v, 1
  {
    if typeName in a.messages {
      OlderReadsEntries(a, b, typeName, v.entries);
    }
  }

  lemma {:induction false} OlderReadsEntries(a: Descriptor, b: Descriptor, n: string, entries: seq<Entry>)
    requires Related(a, b) && n in a.messages && n in b.messages && TypedEntries(b, b.messages[n], entries)
    ensures DecodeRecords(a, a.messages[n], EncodeEntries(b, b.messages[n], entries))
      == Some(KnownEntries(a, a.messages[n], entries))
    decreases entries, 0
  {
    hide Related, DescriptorExtends;
    if entries != [] {
      OlderReadsEntries(a, b, n, entries[1..]);
      var e := entries[0];
      var records := EncodeEntries(b, b.messages[n], entries);
      assert records[1..] == EncodeEntries(b, b.messages[n], entries[1..]);
      NumberMeans(a, b, n, e.name);
      if e.name in a.messages[n].fields {
        FieldTypesAlike(a, b, n, e.name);
        OlderReadsNewer(a, b, a.messages[n].fields[e.name].sig.0, e.value);
      } else {
        var rest := KnownEntries(a, a.messages[n], entries[1..]);
        assert [] + rest == rest;
      }
    }
  }

  /** The older message reads a number of the newer one as the same field, or not at all. */
  lemma NumberMeans(a: Descriptor, b: Descriptor, n: string, f: string)
    requires Related(a, b) && n in a.messages && n in b.messages && f in b.messages[n].fields
    ensures FieldOf(a.messages[n], b.messages[n].fields[f].number)
      == if f in a.messages[n].fields then Some(f) else None
  {
    var r := FieldOf(a.messages[n], b.messages[n].fields[f].number);
    assert MessageExtends(a.messages[n], b.messages[n]);
    if f in a.messages[n].fields { assert Keeps(a.messages[n], b.messages[n], f); }
    if r.Some? { assert Keeps(a.messages[n], b.messages[n], r.value); }
  }

  /** The newer schema reads what the older one wrote without any loss. */
  lemma {:induction false} NewerReadsOlder(a: Descriptor, b: Descriptor, typeName: string, v: Value)
    requires Related(a, b) && Alike(a, b, typeName) && Typed(a, typeName, v)
    ensures Decode(b, typeName, Encode(a, typeName, v)) == Some(v)
    decreases v, 1
  {
    if typeName in a.messages {
      NewerReadsEntries(a, b, typeName, v.entries);
    }
  }

  lemma {:induction false} NewerReadsEntries(a: Descriptor, b: Descriptor, n: string, entries: seq<Entry>)
    requires Related(a, b) && n in a.messages && n in b.messages && TypedEntries(a, a.messages[n], entries)
    ensures DecodeRecords(b, b.messages[n], EncodeEntries(a, a.messages[n], entries)) == Some(entries)
    decreases entries, 0
  {
    hide Related, DescriptorExtends;
    if entries != [] {
      NewerReadsEntries(a, b, n, entries[1..]);
      var e := entries[0];
      var records := EncodeEntries(a, a.messages[n], entries);
      assert records[1..] == EncodeEntries(a, a.messages[n], entries[1..]);
      FieldTypesAlike(a, b, n, e.name);
      NumberKept(a, b, n, e.name);
      NewerReadsOlder(a, b, a.messages[n].fields[e.name].sig.0, e.value);
      assert entries == [e] + entries[1..];
    }
  }

  lemma NumberKept(a: Descriptor, b: Descriptor, n: string, f: string)
    requires Related(a, b) && n in a.messages && n in b.messages && f in a.messages[n].fields
    ensures f in b.messages[n].fields && b.messages[n].fields[f] == a.messages[n].fields[f]
    ensures FieldOf(b.messages[n], a.messages[n].fields[f].number) == Some(f)
  {
    assert MessageExtends(a.messages[n], b.messages[n]);
    assert Keeps(a.messages[n], b.messages[n], f);
    var r := FieldOf(b.messages[n], a.messages[n].fields[f].number);
    assert DistinctNumbers(b.messages[n]);
  }

  // ---------------------------------------------------------------- any two contracts of a run

  /**
   Any two contracts of a run with the same major version interoperate on every
   message that the older one has, in both directions.
   */
  lemma SameMajorInteroperates(id: Identity, requests: seq<seq<Endpoint>>, i: nat, j: nat, n: string, v: Value)
    requires ValidRequests(requests) && i <= j < |Run(id, requests)|
    requires Run(id, requests)[i].version.major == Run(id, requests)[j].version.major
    requires n in Run(id, requests)[i].descriptor.messages
    ensures var older, newer := Run(id, requests)[i].descriptor, Run(id, requests)[j].descriptor;
      && (Typed(newer, n, v) ==> Decode(older, n, Encode(newer, n, v)) == Some(Known(older, n, v)))
      && (Typed(older, n, v) ==> Decode(newer, n, Encode(older, n, v)) == Some(v))
  {
    hide Run, Coherent, WellFormed, Typed, MessageExtends;
    var h := Run(id, requests);
    RunIsLineage(id, requests);
    SoundAt(id, h, i);
    SoundAt(id, h, j);
    SameMajorExtends(id, h, i, j);
    var a, b := h[i].descriptor, h[j].descriptor;
    CoherentAreRelated(a, b);
    if Typed(b, n, v) { OlderReadsNewer(a, b, n, v); }
    if Typed(a, n, v) { NewerReadsOlder(a, b, n, v); }
  }
}
