/**
 A rendered snapshot as the hosted server reads it: the text of render/render.go meets the
 compilation of server/zone.go.
 */
module Snapshots {
  import opened Names
  import Render
  import Zones

  // ---------- names as text and as labels ----------

  function FirstDot(text: string): (i: nat)
    requires '.' in text
    ensures i < |text| && text[i] == '.' && '.' !in text[..i]
  {
    if text[0] == '.' then 0
    else
      assert text == [text[0]] + text[1..];
      assert text[..1 + FirstDot(text[1..])] == [text[0]] + text[1..][..FirstDot(text[1..])];
      1 + FirstDot(text[1..])
  }

  /** The labels between the dots of a text. */
  function Labels(text: string): (name: Name)
    ensures name.Sub?
  {
    if '.' !in text then Sub(text, Root)
    else Sub(text[..FirstDot(text)], Labels(text[FirstDot(text) + 1..]))
  }

  /** Reading labels loses nothing, so different texts are different names. */
  lemma {:induction false} TextOfLabels(text: string)
    ensures Text(Labels(text)) == text
  {
    if '.' in text {
      var i := FirstDot(text);
      TextOfLabels(text[i + 1..]);
      assert text == text[..i] + "." + text[i + 1..];
    }
  }

  lemma {:induction false} LabelsAreLower(text: string)
    requires Render.LowerText(text)
    ensures Lowercase(Labels(text))
  {
    if '.' in text {
      var i := FirstDot(text);
      Render.SliceIsLower(text, text[..i]);
      LowerTail(text, i + 1);
      LabelsAreLower(text[i + 1..]);
    }
  }

  lemma LowerTail(text: string, i: nat)
    requires Render.LowerText(text) && i <= |text|
    ensures Render.LowerText(text[i..])
  {
    assert forall k :: 0 <= k < |text[i..]| ==> LowerLabel(text[i..])[k] == LowerLabel(text)[i + k];
  }

  /** A whole domain name; a trailing dot is dropped and the empty text is the root. */
  function DomainName(text: string): Name {
    if Render.TrimDot(text) == "" then Root else Labels(Render.TrimDot(text))
  }

  // ---------- the snapshot as a specification ----------

  function KindOf(text: string): Zones.Kind {
    if text == "A" then Zones.A
    else if text == "AAAA" then Zones.AAAA
    else if text == "CNAME" then Zones.CNAME
    else if text == "TXT" then Zones.TXT
    else if text == "MX" then Zones.MX
    else if text == "CAA" then Zones.CAA
    else if text == "NS" then Zones.NS
    else Zones.Unsupported(text)
  }

  lemma KindsDiffer(left: string, right: string)
    requires left in Render.KINDS && right in Render.KINDS && KindOf(left) == KindOf(right)
    ensures left == right
  {
  }

  /** How the record parser reads the text of a value, and the address parser that of an address. */
  datatype Reading = Reading(value: (Zones.Kind, string) -> Zones.Value, address: string -> Zones.Value)

  function RecordOf(record: Render.RRset, reading: Reading): Zones.Record {
    var kind := KindOf(record.kind);
    Zones.Record(Labels(record.name), kind, record.ttl,
                 seq(|record.values|, i requires 0 <= i < |record.values| => reading.value(kind, record.values[i])))
  }

  function ServerOf(server: Render.Declared, reading: Reading): Zones.NameServer {
    Zones.NameServer(DomainName(server.name),
                     seq(|server.addresses|,
                         i requires 0 <= i < |server.addresses| => reading.address(server.addresses[i])))
  }

  /** What the hosted server compiles when it loads the snapshot. */
  function SpecOf(snapshot: Render.Snapshot, reading: Reading): Zones.Spec {
    var content := snapshot.content;
    Zones.Spec(DomainName(content.domain), snapshot.serial, content.soa.minimum,
               seq(|content.servers|, i requires 0 <= i < |content.servers| => ServerOf(content.servers[i], reading)),
               seq(|content.records|, i requires 0 <= i < |content.records| => RecordOf(content.records[i], reading)),
               snapshot.digest)
  }

  // ---------- owners ----------

  /** Records of different lower-case names are owned by different nodes. */
  lemma OwnersDiffer(apex: Name, left: Render.RRset, right: Render.RRset, reading: Reading)
    requires Render.LowerText(left.name) && Render.LowerText(right.name)
    requires Zones.Owner(apex, RecordOf(left, reading)) == Zones.Owner(apex, RecordOf(right, reading))
    ensures left.name == right.name
  {
    LabelsAreLower(left.name);
    LabelsAreLower(right.name);
    TextOfLabels(left.name);
    TextOfLabels(right.name);
    var l, r := Labels(left.name), Labels(right.name);
    RelativeOfGraft(l, apex);
    RelativeOfGraft(r, apex);
    assert Depth(Graft(l, apex)) > Depth(apex) && Depth(Graft(r, apex)) > Depth(apex);
  }

  // ---------- what compilation can meet ----------

  /** The parts of acceptance that rendering does not settle: the names, the parsing of values, and lone CNAMEs. */
  ghost predicate Readable(spec: Zones.Spec) {
    var apex := Zones.Apex(spec);
    && apex.Sub? && Zones.ValidDomain(apex)
    && (forall i :: 0 <= i < |spec.records| ==> ReadableRecord(apex, spec.records[i]))
    && Zones.CnamesExclusive(spec.records, apex)
    && (forall i :: 0 <= i < |spec.nameServers| ==> Zones.GoodServer(spec.nameServers[i]))
  }

  predicate ReadableRecord(apex: Name, record: Zones.Record) {
    Zones.ValidDomain(Zones.Owner(apex, record)) && forall v :: v in record.values ==> Zones.Parses(record.kind, v)
  }

  /** No duplicate and no empty RRset, known types only, and a serial. */
  ghost predicate Compilable(spec: Zones.Spec) {
    && Zones.Unique(spec.records, Zones.Apex(spec)) && spec.serial != 0
    && forall i :: 0 <= i < |spec.records| ==> spec.records[i].values != [] && Zones.Supported(spec.records[i].kind)
  }

  /** Distinct keys, values and known types carry over to what the server reads. */
  lemma ListIsUnique(records: seq<Render.RRset>, read: seq<Zones.Record>, apex: Name, reading: Reading)
    requires |read| == |records| && forall i :: 0 <= i < |records| ==> read[i] == RecordOf(records[i], reading)
    requires forall r :: r in records ==> Render.Publishable(r)
    requires forall i, j :: 0 <= i < j < |records| ==> Render.KeyOf(records[i]) != Render.KeyOf(records[j])
    ensures Zones.Unique(read, apex)
    ensures forall i :: 0 <= i < |read| ==> read[i].values != [] && Zones.Supported(read[i].kind)
  {
    forall i, j | 0 <= i < j < |read|
      ensures !(Zones.Owner(apex, read[i]) == Zones.Owner(apex, read[j]) && read[i].kind == read[j].kind)
    {
      assert records[i] in records && records[j] in records;
      assert Render.KeyOf(records[i]) != Render.KeyOf(records[j]);
      if Zones.Owner(apex, read[i]) == Zones.Owner(apex, read[j]) && read[i].kind == read[j].kind {
        OwnersDiffer(apex, records[i], records[j], reading);
        KindsDiffer(records[i].kind, records[j].kind);
      }
    }
    forall i | 0 <= i < |read|
      ensures read[i].values != [] && Zones.Supported(read[i].kind)
    {
      assert Render.Publishable(records[i]);
    }
  }

  /**
   However values are read, a rendered snapshot never shows the server a duplicate or an empty RRset, an unsupported
   type or a missing serial; so it compiles exactly when its names are valid, its values parse and its CNAMEs stand
   alone.
   */
  lemma RenderedCompiles(items: seq<Render.Item>, params: Render.Params, digest: Render.Content -> string,
                         previous: nat, previousDigest: string, now: nat, result: Option<Render.Snapshot>,
                         reading: Reading)
    requires Render.Rendered(items, params, digest, previous, previousDigest, now, result) && result.Some?
    ensures Compilable(SpecOf(result.value, reading))
    ensures Zones.Accepts(SpecOf(result.value, reading)) <==> Readable(SpecOf(result.value, reading))
  {
    Render.RecordsAreSortedAndUnique(items, params, digest, previous, previousDigest, now, result);
    Render.SerialIsPositive(items, params, digest, previous, previousDigest, now, result);
    ListedCompiles(result.value, reading);
  }

  lemma ListedCompiles(snapshot: Render.Snapshot, reading: Reading)
    requires snapshot.serial != 0 && forall r :: r in snapshot.content.records ==> Render.Publishable(r)
    requires forall i, j :: 0 <= i < j < |snapshot.content.records| ==>
      Render.KeyOf(snapshot.content.records[i]) != Render.KeyOf(snapshot.content.records[j])
    ensures Compilable(SpecOf(snapshot, reading))
    ensures Zones.Accepts(SpecOf(snapshot, reading)) <==> Readable(SpecOf(snapshot, reading))
  {
    var spec := SpecOf(snapshot, reading);
    ListIsUnique(snapshot.content.records, spec.records, Zones.Apex(spec), reading);
    AcceptedWhenReadable(spec);
  }

  lemma AcceptedWhenReadable(spec: Zones.Spec)
    requires Compilable(spec)
    ensures Zones.Accepts(spec) <==> Readable(spec)
  {
    var apex := Zones.Apex(spec);
    forall i | 0 <= i < |spec.records|
      ensures Zones.GoodRecord(apex, spec.records[i]) <==> ReadableRecord(apex, spec.records[i])
    {
    }
  }

  /**
   The compiled zone names exactly the configured servers at its apex, as the snapshot says and without adding any.
   */
  lemma ApexServesDeclared(items: seq<Render.Item>, params: Render.Params, digest: Render.Content -> string,
                           previous: nat, previousDigest: string, now: nat, result: Option<Render.Snapshot>,
                           reading: Reading, key: Zones.Key, uid: string)
    requires Render.Rendered(items, params, digest, previous, previousDigest, now, result) && result.Some?
    requires Zones.Accepts(SpecOf(result.value, reading))
    ensures var spec := SpecOf(result.value, reading);
      var node := Zones.Compiled(spec, key, uid).Lookup(Zones.Apex(spec));
      && node.Some? && Zones.NS in node.value
      && forall v :: v in node.value[Zones.NS].values <==>
           exists n :: n in Render.ServerNames(params.servers) && reading.value(Zones.NS, n) == v
  {
    var spec := SpecOf(result.value, reading);
    var record := Render.ApexNamesServers(items, params, digest, previous, previousDigest, now, result);
    var i :| 0 <= i < |result.value.content.records| && result.value.content.records[i] == record;
    ApexRecord(spec, i, RecordOf(record, reading), key, uid);
    ReadValues(record, Render.ServerNames(params.servers), reading);
  }

  lemma ApexRecord(spec: Zones.Spec, i: nat, record: Zones.Record, key: Zones.Key, uid: string)
    requires Zones.Accepts(spec) && i < |spec.records| && spec.records[i] == record
    requires record.name == Zones.APEX && record.kind == Zones.NS
    ensures var node := Zones.Compiled(spec, key, uid).Lookup(Zones.Apex(spec));
      node.Some? && Zones.NS in node.value && node.value[Zones.NS].values == record.values
  {
    Zones.RecordInNode(spec.records, Zones.Apex(spec), i);
    Zones.NodesAreExisting(spec.records, Zones.Apex(spec), Zones.Apex(spec));
  }

  lemma ReadValues(record: Render.RRset, names: seq<string>, reading: Reading)
    requires record.kind == "NS" && forall v :: v in record.values <==> v in names
    ensures forall v :: v in RecordOf(record, reading).values <==>
      exists n :: n in names && reading.value(Zones.NS, n) == v
  {
    var values := RecordOf(record, reading).values;
    forall v | v in values
      ensures exists n :: n in names && reading.value(Zones.NS, n) == v
    {
      var i :| 0 <= i < |values| && values[i] == v;
      assert record.values[i] in names;
    }
    forall n | n in names
      ensures reading.value(Zones.NS, n) in values
    {
      var i :| 0 <= i < |record.values| && record.values[i] == n;
      assert values[i] == reading.value(Zones.NS, n);
    }
  }
}
