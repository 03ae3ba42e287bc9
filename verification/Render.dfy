/**
 Rendering a zone's record sets into a serving snapshot (render/render.go).

 Values are in presentation form already; a value that does not parse is `None`. The content digest
 is an arbitrary function of the content.
 */
module Render {
  import opened Names
  import opened Order
  import opened Sequences

  datatype Item = Item(allowed: bool, deletionRequested: bool, name: string, kind: string, ttl: Option<int>,
                       values: seq<Option<string>>)

  datatype RRset = RRset(name: string, kind: string, ttl: nat, values: seq<string>)

  datatype Address = Address(text: string, is4: bool)

  /** A configured name server; an address that does not parse is `None`. */
  datatype Server = Server(name: string, addresses: seq<Option<Address>>)

  /** SOA parameters of the class; zero stands for the default. */
  datatype SOAParams = SOAParams(rname: string, refresh: nat, retry: nat, expire: nat, minimum: nat)

  datatype Params = Params(domain: string, soa: SOAParams, ttl: nat, servers: seq<Server>)

  datatype SOA = SOA(mname: string, rname: string, refresh: nat, retry: nat, expire: nat, minimum: nat)

  /** A name server as the snapshot declares it. */
  datatype Declared = Declared(name: string, addresses: seq<string>)

  datatype Content = Content(domain: string, soa: SOA, servers: seq<Declared>, records: seq<RRset>)

  datatype Snapshot = Snapshot(content: Content, digest: string, serial: nat)

  const MAX_VALUES := 64
  const MAX_RECORDS := 10000
  const MAX_SERIAL: nat := 0xFFFF_FFFF
  const KINDS: set<string> := {"A", "AAAA", "CNAME", "NS", "TXT", "MX", "CAA"}

  // ---------- parameters ----------

  const DEFAULT_TTL := 60
  const DEFAULT_REFRESH := 3600
  const DEFAULT_RETRY := 900
  const DEFAULT_EXPIRE := 1209600
  const DEFAULT_MINIMUM := 300

  function DefaultNumber(value: nat, fallback: nat): nat {
    if value == 0 then fallback else value
  }

  /** Lower case, and without one trailing dot. */
  function CanonicalName(text: string): string {
    TrimDot(LowerLabel(text))
  }

  function TrimDot(text: string): string {
    if text != "" && text[|text| - 1] == '.' then text[..|text| - 1] else text
  }

  function Fqdn(text: string): string {
    if text != "" && text[|text| - 1] == '.' then text else text + "."
  }

  function Domain(params: Params): string {
    CanonicalName(params.domain)
  }

  function TTL(params: Params): nat {
    DefaultNumber(params.ttl, DEFAULT_TTL)
  }

  function SOAOf(params: Params): SOA
    requires params.servers != []
  {
    var rname := CanonicalName(params.soa.rname);
    SOA(CanonicalName(params.servers[0].name), if rname == "" then "hostmaster." + Domain(params) else rname,
        DefaultNumber(params.soa.refresh, DEFAULT_REFRESH), DefaultNumber(params.soa.retry, DEFAULT_RETRY),
        DefaultNumber(params.soa.expire, DEFAULT_EXPIRE), DefaultNumber(params.soa.minimum, DEFAULT_MINIMUM))
  }

  // ---------- values ----------

  function Itself(text: string): string { text }

  /** Drop repeated neighbours. */
  function Compact(values: seq<string>): seq<string> {
    if |values| <= 1 then values
    else if values[0] == values[1] then Compact(values[1..])
    else [values[0]] + Compact(values[1..])
  }

  function Canon(values: seq<string>): seq<string> {
    Compact(Sort(values, Itself))
  }

  lemma {:induction false} CompactIsStrict(values: seq<string>)
    requires SortedBy(values, Itself)
    ensures StrictlySortedBy(Compact(values), Itself)
    ensures forall v :: v in Compact(values) <==> v in values
    ensures values != [] ==> Compact(values) != [] && Compact(values)[0] == values[0]
  {
    if |values| > 1 {
      var rest := values[1..];
      assert values == [values[0]] + rest;
      CompactIsStrict(rest);
      if values[0] != values[1] {
        forall i | 0 <= i < |Compact(rest)|
          ensures Le(values[0], Compact(rest)[i]) && values[0] != Compact(rest)[i]
        {
          FirstIsLess(values, Compact(rest)[i]);
        }
      }
    }
  }

  lemma FirstIsLess(values: seq<string>, value: string)
    requires SortedBy(values, Itself) && |values| > 1 && values[0] != values[1] && value in values[1..]
    ensures Le(values[0], value) && values[0] != value
  {
    var i :| 0 <= i < |values[1..]| && values[1..][i] == value;
    assert Le(Itself(values[0]), Itself(values[1])) && Le(Itself(values[0]), Itself(values[i + 1]));
    if values[0] == value {
      assert i > 0;
      assert Le(Itself(values[1]), Itself(values[i + 1]));
      LeAntisymmetric(values[0], values[1]);
    }
  }

  lemma CanonIsStrict(values: seq<string>)
    ensures StrictlySortedBy(Canon(values), Itself)
    ensures forall v :: v in Canon(values) <==> v in values
  {
    SortCorrect(values, Itself);
    SortMembers(values, Itself);
    CompactIsStrict(Sort(values, Itself));
  }

  // ---------- one record set ----------

  predicate Relevant(item: Item) {
    item.allowed && !item.deletionRequested
  }

  function Texts(values: seq<Option<string>>): Option<seq<string>> {
    if values == [] then Some([])
    else
      var rest := Texts(values[..|values| - 1]);
      if rest.None? || values[|values| - 1].None? then None else Some(rest.value + [values[|values| - 1].value])
  }

  function RenderRecord(item: Item, ttl: nat): Option<RRset> {
    if item.ttl.Some? && item.ttl.value < 1 then None
    else if item.kind !in KINDS then None
    else if Texts(item.values).None? || item.values == [] then None
    else Some(RRset(LowerLabel(item.name), item.kind, if item.ttl.Some? then item.ttl.value else ttl,
                    Texts(item.values).value))
  }

  /** The apex NS belongs to the declared name servers. */
  function RenderItem(item: Item, ttl: nat): Option<RRset> {
    if item.name == "@" && item.kind == "NS" then None else RenderRecord(item, ttl)
  }

  function RenderItems(items: seq<Item>, ttl: nat): Option<seq<RRset>> {
    if items == [] then Some([])
    else
      var rest, last := RenderItems(items[..|items| - 1], ttl), items[|items| - 1];
      if rest.None? then None
      else if !Relevant(last) then rest
      else if RenderItem(last, ttl).None? then None
      else Some(rest.value + [RenderItem(last, ttl).value])
  }

  // ---------- name servers ----------

  function InZone(domain: string, name: string): bool {
    name == domain || (|domain| < |name| && name[|name| - |domain| - 1..] == "." + domain)
  }

  function RelativeName(domain: string, name: string): string
    requires InZone(domain, name)
  {
    if name == domain then "@" else name[..|name| - |domain| - 1]
  }

  /** Glue for the addresses of an in-zone name server; `name` is canonical. */
  function Glue(params: Params, name: string, addresses: seq<Option<Address>>): Option<seq<RRset>> {
    if addresses == [] then Some([])
    else
      var rest, last := Glue(params, name, addresses[..|addresses| - 1]), addresses[|addresses| - 1];
      if rest.None? || last.None? then None
      else if !InZone(Domain(params), name) then rest
      else Some(rest.value + [GlueRecord(params, name, last.value)])
  }

  function GlueRecord(params: Params, name: string, address: Address): RRset
    requires InZone(Domain(params), name)
  {
    RRset(RelativeName(Domain(params), name), if address.is4 then "A" else "AAAA", TTL(params), [address.text])
  }

  function AllGlue(params: Params, servers: seq<Server>): Option<seq<RRset>> {
    if servers == [] then Some([])
    else
      var rest, last := AllGlue(params, servers[..|servers| - 1]), servers[|servers| - 1];
      var glue := Glue(params, CanonicalName(last.name), last.addresses);
      if rest.None? || glue.None? then None else Some(rest.value + glue.value)
  }

  function ServerNames(servers: seq<Server>): seq<string> {
    seq(|servers|, i requires 0 <= i < |servers| => Fqdn(CanonicalName(servers[i].name)))
  }

  function ApexNS(params: Params): RRset {
    RRset("@", "NS", TTL(params), ServerNames(params.servers))
  }

  function AddressTexts(addresses: seq<Option<Address>>): seq<string> {
    seq(|addresses|, i requires 0 <= i < |addresses| => if addresses[i].Some? then addresses[i].value.text else "")
  }

  /** Canonical name, and addresses sorted without repetition. */
  function Declare(server: Server): Declared {
    Declared(CanonicalName(server.name), Canon(AddressTexts(server.addresses)))
  }

  function Declarations(servers: seq<Server>): seq<Declared> {
    seq(|servers|, i requires 0 <= i < |servers| => Declare(servers[i]))
  }

  // ---------- merging ----------

  type Records = map<(string, string), RRset>

  function KeyOf(record: RRset): (string, string) {
    (record.name, record.kind)
  }

  function Add(records: Records, record: RRset): Option<Records> {
    var key := KeyOf(record);
    if key in records && records[key].ttl != record.ttl then None
    else
      var values := Canon(if key in records then records[key].values + record.values else record.values);
      if |values| > MAX_VALUES then None else Some(records[key := record.(values := values)])
  }

  function AddAll(rrsets: seq<RRset>): Option<Records> {
    if rrsets == [] then Some(map[])
    else
      var rest := AddAll(rrsets[..|rrsets| - 1]);
      if rest.None? then None else Add(rest.value, rrsets[|rrsets| - 1])
  }

  /** Everything that goes into a snapshot, in the order it is added. */
  function Parts(items: seq<Item>, params: Params): Option<seq<RRset>> {
    var rendered, glue := RenderItems(items, TTL(params)), AllGlue(params, params.servers);
    if rendered.None? || glue.None? then None else Some(rendered.value + glue.value + [ApexNS(params)])
  }

  method AddEach(records: Records, rrsets: seq<RRset>, ghost before: seq<RRset>) returns (result: Option<Records>)
    requires AddAll(before) == Some(records)
    ensures result == AddAll(before + rrsets)
  {
    var now := records;
    var i := 0;
    assert before + rrsets[..0] == before;
    while i < |rrsets|
      invariant 0 <= i <= |rrsets|
      invariant AddAll(before + rrsets[..i]) == Some(now)
    {
      AddNext(before, rrsets, i);
      var added := Add(now, rrsets[i]);
      if added.None? {
        return None;
      }
      now := added.value;
      i := i + 1;
    }
    assert before + rrsets[..i] == before + rrsets;
    result := Some(now);
  }

  lemma AddNext(before: seq<RRset>, rrsets: seq<RRset>, i: nat)
    requires i < |rrsets| && AddAll(before + rrsets[..i]).Some?
    ensures AddAll(before + rrsets[..i + 1]) == Add(AddAll(before + rrsets[..i]).value, rrsets[i])
    ensures AddAll(before + rrsets[..i + 1]).None? ==> AddAll(before + rrsets).None?
  {
    var all := before + rrsets[..i + 1];
    assert all[..|all| - 1] == before + rrsets[..i];
    assert all == (before + rrsets)[..|before| + i + 1];
    FailureStays(before + rrsets, |before| + i + 1);
  }

  lemma {:induction false} FailureStays(rrsets: seq<RRset>, i: nat)
    requires i <= |rrsets|
    ensures AddAll(rrsets[..i]).None? ==> AddAll(rrsets).None?
  {
    if i == |rrsets| {
      assert rrsets[..i] == rrsets;
    } else {
      assert rrsets[..|rrsets| - 1][..i] == rrsets[..i];
      FailureStays(rrsets[..|rrsets| - 1], i);
    }
  }

  // ---------- what the merged records are ----------

  function Union(rrsets: seq<RRset>, key: (string, string)): set<string> {
    set r, v | r in rrsets && KeyOf(r) == key && v in r.values :: v
  }

  /** One TTL for each owner and type, and not too many values. */
  ghost predicate Agree(rrsets: seq<RRset>) {
    && SameLifetimes(rrsets)
    && forall r :: r in rrsets ==> |Union(rrsets, KeyOf(r))| <= MAX_VALUES
  }

  /** The record of a key merges exactly the parts with that key. */
  ghost predicate Merges(record: RRset, rrsets: seq<RRset>, key: (string, string)) {
    && KeyOf(record) == key
    && (forall r :: r in rrsets && KeyOf(r) == key ==> r.ttl == record.ttl)
    && StrictlySortedBy(record.values, Itself)
    && (forall v :: v in record.values <==> v in Union(rrsets, key))
  }

  ghost predicate Means(records: Records, rrsets: seq<RRset>) {
    && (forall key :: key in records <==> exists r :: r in rrsets && KeyOf(r) == key)
    && forall key :: key in records ==> Merges(records[key], rrsets, key)
  }

  lemma {:induction false} StrictSize(values: seq<string>, members: set<string>)
    requires StrictlySortedBy(values, Itself) && forall v :: v in values <==> v in members
    ensures |values| == |members|
  {
    if values == [] {
      assert members == {};
    } else {
      var last := |values| - 1;
      assert values[last] in members;
      forall v
        ensures v in values[..last] <==> v in members - {values[last]}
      {
        assert v in values <==> v in values[..last] || v == values[last];
        if v in values[..last] {
          var i :| 0 <= i < last && values[i] == v;
          assert Itself(values[i]) != Itself(values[last]);
        }
      }
      StrictSize(values[..last], members - {values[last]});
    }
  }

  /** Merging succeeds exactly when the parts agree, and then means their union. */
  lemma {:induction false} AddAllMeans(rrsets: seq<RRset>)
    ensures AddAll(rrsets).Some? <==> Agree(rrsets)
    ensures AddAll(rrsets).Some? ==> Means(AddAll(rrsets).value, rrsets)
  {
    if rrsets != [] {
      var rest, last := rrsets[..|rrsets| - 1], rrsets[|rrsets| - 1];
      AddAllMeans(rest);
      assert rrsets == rest + [last];
      if AddAll(rest).None? {
        DisagreementStays(rest, last);
      } else {
        AddMeans(AddAll(rest).value, rest, last);
      }
    }
  }

  lemma DisagreementStays(rest: seq<RRset>, last: RRset)
    ensures Agree(rest + [last]) ==> Agree(rest)
  {
    var all := rest + [last];
    assert forall r :: r in rest ==> r in all;
    forall r | r in rest
      ensures |Union(rest, KeyOf(r))| <= |Union(all, KeyOf(r))|
    {
      SubsetSize(Union(rest, KeyOf(r)), Union(all, KeyOf(r)));
    }
  }

  lemma AddMeans(records: Records, rest: seq<RRset>, last: RRset)
    requires Means(records, rest) && Agree(rest)
    ensures Add(records, last).Some? <==> Agree(rest + [last])
    ensures Add(records, last).Some? ==> Means(Add(records, last).value, rest + [last])
  {
    var key := KeyOf(last);
    var joined := if key in records then records[key].values + last.values else last.values;
    var values := Canon(joined);
    CanonIsStrict(joined);
    assert forall v :: v in values <==> v in Union(rest + [last], key);
    StrictSize(values, Union(rest + [last], key));
    AgreeGrows(records, rest, last);
    if Add(records, last).Some? {
      MeansGrows(records, rest, last, last.(values := values));
    }
  }

  lemma AgreeGrows(records: Records, rest: seq<RRset>, last: RRset)
    requires Means(records, rest) && Agree(rest)
    ensures Agree(rest + [last]) <==>
      && (KeyOf(last) in records ==> records[KeyOf(last)].ttl == last.ttl)
      && |Union(rest + [last], KeyOf(last))| <= MAX_VALUES
  {
    var all := rest + [last];
    LifetimesGrow(records, rest, last);
    assert last in all;
    assert forall r :: r in all <==> r in rest || r == last;
    assert forall r :: r in rest && KeyOf(r) != KeyOf(last) ==> Union(all, KeyOf(r)) == Union(rest, KeyOf(r));
  }

  ghost predicate SameLifetimes(rrsets: seq<RRset>) {
    forall r, s :: r in rrsets && s in rrsets && KeyOf(r) == KeyOf(s) ==> r.ttl == s.ttl
  }

  lemma LifetimesGrow(records: Records, rest: seq<RRset>, last: RRset)
    requires Means(records, rest) && SameLifetimes(rest)
    ensures SameLifetimes(rest + [last]) <==> (KeyOf(last) in records ==> records[KeyOf(last)].ttl == last.ttl)
  {
    var all, key := rest + [last], KeyOf(last);
    assert last in all && forall r :: r in rest ==> r in all;
    assert forall r :: r in all ==> r in rest || r == last;
    if key in records {
      assert Merges(records[key], rest, key);
      var r :| r in rest && KeyOf(r) == key;
    }
  }

  lemma MeansGrows(records: Records, rest: seq<RRset>, last: RRset, merged: RRset)
    requires Means(records, rest) && KeyOf(merged) == KeyOf(last) && merged.ttl == last.ttl
    requires KeyOf(last) in records ==> records[KeyOf(last)].ttl == last.ttl
    requires StrictlySortedBy(merged.values, Itself)
    requires forall v :: v in merged.values <==> v in Union(rest + [last], KeyOf(last))
    ensures Means(records[KeyOf(last) := merged], rest + [last])
  {
    var all, after := rest + [last], records[KeyOf(last) := merged];
    assert last in all && forall r :: r in rest ==> r in all;
    assert forall r :: r in all ==> r in rest || r == last;
    forall key | key in after
      ensures Merges(after[key], all, key)
    {
      if key != KeyOf(last) {
        assert Merges(records[key], rest, key);
      } else if key in records {
        assert Merges(records[key], rest, key);
      }
    }
  }

  // ---------- the sorted list of records ----------

  function RecordKey(record: RRset): string {
    record.name + "\0" + record.kind
  }

  predicate PlainKind(kind: string) {
    '\0' !in kind
  }

  lemma RecordKeyIsInjective(left: RRset, right: RRset)
    requires PlainKind(left.kind) && PlainKind(right.kind) && RecordKey(left) == RecordKey(right)
    ensures KeyOf(left) == KeyOf(right)
  {
    var l, r := RecordKey(left), RecordKey(right);
    assert l[|left.name|] == '\0' && r[|right.name|] == '\0';
    assert |left.name| == |right.name|;
    assert left.name == l[..|left.name|] && right.name == r[..|left.name|];
    assert left.kind == l[|left.name| + 1..] && right.kind == r[|left.name| + 1..];
  }

  /** The records in order of owner and type. */
  ghost predicate Lists(list: seq<RRset>, records: Records) {
    StrictlySortedBy(list, RecordKey) && forall r :: r in list <==> KeyOf(r) in records && records[KeyOf(r)] == r
  }

  ghost predicate Keyed(records: Records) {
    forall key :: key in records ==> KeyOf(records[key]) == key && PlainKind(records[key].kind)
  }

  method ListRecords(records: Records) returns (list: seq<RRset>)
    requires Keyed(records)
    ensures Lists(list, records)
  {
    list := [];
    var todo := records.Keys;
    while todo != {}
      invariant todo <= records.Keys
      invariant forall r :: r in list <==> KeyOf(r) in records && KeyOf(r) !in todo && records[KeyOf(r)] == r
      invariant forall i, j :: 0 <= i < j < |list| ==> KeyOf(list[i]) != KeyOf(list[j])
      decreases todo
    {
      var key :| key in todo;
      assert forall i :: 0 <= i < |list| ==> list[i] in list;
      list := list + [records[key]];
      todo := todo - {key};
    }
    SortedList(list, records);
    list := Sort(list, RecordKey);
  }

  lemma SortedList(list: seq<RRset>, records: Records)
    requires Keyed(records) && forall r :: r in list <==> KeyOf(r) in records && records[KeyOf(r)] == r
    requires forall i, j :: 0 <= i < j < |list| ==> KeyOf(list[i]) != KeyOf(list[j])
    ensures Lists(Sort(list, RecordKey), records)
  {
    var sorted := Sort(list, RecordKey);
    SortCorrect(list, RecordKey);
    SortMembers(list, RecordKey);
    DistinctSorted(list, sorted);
    forall i, j | 0 <= i < j < |sorted|
      ensures RecordKey(sorted[i]) != RecordKey(sorted[j])
    {
      assert sorted[i] in sorted && sorted[j] in sorted;
      if RecordKey(sorted[i]) == RecordKey(sorted[j]) {
        RecordKeyIsInjective(sorted[i], sorted[j]);
      }
    }
  }

  lemma DistinctSorted(list: seq<RRset>, sorted: seq<RRset>)
    requires multiset(list) == multiset(sorted)
    requires forall i, j :: 0 <= i < j < |list| ==> KeyOf(list[i]) != KeyOf(list[j])
    ensures forall i, j :: 0 <= i < j < |sorted| ==> sorted[i] != sorted[j]
  {
    forall i, j | 0 <= i < j < |sorted|
      ensures sorted[i] != sorted[j]
    {
      if sorted[i] == sorted[j] {
        Twice(sorted, i, j);
        Once(list, sorted[j], KeyOf);
      }
    }
  }

  // ---------- the snapshot ----------

  /** An unchanged digest keeps the serial; otherwise the serial moves forward, with the clock if it can. */
  function SerialAfter(previous: nat, previousDigest: string, digest: string, now: nat): Option<nat> {
    if previous != 0 && previousDigest == digest then Some(previous)
    else if previous == MAX_SERIAL then None
    else
      var clock := now % (MAX_SERIAL + 1);
      Some(if clock < previous + 1 then previous + 1 else clock)
  }

  function Servers(params: Params): seq<Declared> {
    Sort(Declarations(params.servers), (s: Declared) => s.name)
  }

  /** The content of a snapshot with these merged records. */
  ghost predicate HasContent(content: Content, params: Params, records: Records)
    requires params.servers != []
  {
    && content.domain == Domain(params) && content.soa == SOAOf(params) && content.servers == Servers(params)
    && Lists(content.records, records)
  }

  /** `result` is what rendering gives; `digest` is empty for content that has no wire form. */
  ghost predicate Rendered(items: seq<Item>, params: Params, digest: Content -> string,
                           previous: nat, previousDigest: string, now: nat, result: Option<Snapshot>) {
    if params.servers == [] || Parts(items, params).None? || !Agree(Parts(items, params).value) then result.None?
    else
      exists content ::
        && HasContent(content, params, AddAllOf(Parts(items, params).value))
        && result == Finished(content, digest(content), previous, previousDigest, now)
  }

  ghost function AddAllOf(rrsets: seq<RRset>): (records: Records)
    requires Agree(rrsets)
    ensures Means(records, rrsets)
  {
    AddAllMeans(rrsets);
    AddAll(rrsets).value
  }

  function Finished(content: Content, digest: string, previous: nat, previousDigest: string,
                    now: nat): Option<Snapshot> {
    var serial := SerialAfter(previous, previousDigest, digest, now);
    if |content.records| > MAX_RECORDS || digest == "" || serial.None? then None
    else Some(Snapshot(content, digest, serial.value))
  }

  method RenderSnapshot(items: seq<Item>, params: Params, digest: Content -> string, previous: nat,
                        previousDigest: string, now: nat)
    returns (result: Option<Snapshot>)
    ensures Rendered(items, params, digest, previous, previousDigest, now, result)
  {
    if |params.servers| == 0 {
      return None;
    }
    var rendered := RenderEach(items, TTL(params));
    if rendered.None? {
      return None;
    }
    var glue, declared := ReadServers(params);
    if glue.None? {
      return None;
    }
    var merged := MergeParts(items, params, rendered.value + glue.value + [ApexNS(params)]);
    if merged.None? {
      return None;
    }
    result := Assemble(params, merged.value, declared, digest, previous, previousDigest, now);
  }

  method MergeParts(items: seq<Item>, params: Params, parts: seq<RRset>) returns (merged: Option<Records>)
    requires params.servers != [] && Parts(items, params) == Some(parts)
    ensures merged.Some? <==> Agree(parts)
    ensures merged.Some? ==> merged.value == AddAllOf(parts) && Keyed(merged.value)
  {
    AddAllMeans(parts);
    merged := AddEach(map[], parts, []);
    assert [] + parts == parts;
    if merged.Some? {
      PartsAreKeyed(items, params, merged.value);
    }
  }

  method Assemble(params: Params, records: Records, declared: seq<Declared>, digest: Content -> string, previous: nat,
                  previousDigest: string, now: nat)
    returns (result: Option<Snapshot>)
    requires params.servers != [] && Keyed(records) && declared == Declarations(params.servers)
    ensures exists content :: HasContent(content, params, records)
                              && result == Finished(content, digest(content), previous, previousDigest, now)
  {
    var list := ListRecords(records);
    var content := Content(Domain(params), SOAOf(params), Sort(declared, (s: Declared) => s.name), list);
    assert HasContent(content, params, records);
    result := Finished(content, digest(content), previous, previousDigest, now);
  }

  method RenderEach(items: seq<Item>, ttl: nat) returns (result: Option<seq<RRset>>)
    ensures result == RenderItems(items, ttl)
  {
    var out: seq<RRset> := [];
    var i := 0;
    while i < |items|
      invariant 0 <= i <= |items|
      invariant RenderItems(items[..i], ttl) == Some(out)
    {
      assert items[..i + 1][..i] == items[..i];
      var item := items[i];
      i := i + 1;
      if !item.allowed || item.deletionRequested {
        continue;
      }
      var record := RenderItem(item, ttl);
      if record.None? {
        RenderFailureStays(items, i, ttl);
        return None;
      }
      out := out + [record.value];
    }
    assert items[..i] == items;
    result := Some(out);
  }

  lemma {:induction false} RenderFailureStays(items: seq<Item>, i: nat, ttl: nat)
    requires i <= |items|
    ensures RenderItems(items[..i], ttl).None? ==> RenderItems(items, ttl).None?
  {
    if i == |items| {
      assert items[..i] == items;
    } else {
      assert items[..|items| - 1][..i] == items[..i];
      RenderFailureStays(items[..|items| - 1], i, ttl);
    }
  }

  /** The loop over the name servers. */
  method ReadServers(params: Params) returns (glue: Option<seq<RRset>>, declared: seq<Declared>)
    ensures glue == AllGlue(params, params.servers) && declared == Declarations(params.servers)
  {
    var servers := params.servers;
    glue, declared := Some([]), [];
    var i := 0;
    while i < |servers|
      invariant 0 <= i <= |servers|
      invariant glue == AllGlue(params, servers[..i]) && declared == Declarations(servers[..i])
    {
      assert servers[..i + 1] == servers[..i] + [servers[i]];
      var one := ReadAddresses(params, CanonicalName(servers[i].name), servers[i].addresses);
      glue := if glue.None? || one.None? then None else Some(glue.value + one.value);
      declared := declared + [Declare(servers[i])];
      i := i + 1;
    }
    assert servers[..i] == servers;
  }

  /** The loop over the addresses of one name server. */
  method ReadAddresses(params: Params, name: string, addresses: seq<Option<Address>>) returns (glue: Option<seq<RRset>>)
    ensures glue == Glue(params, name, addresses)
  {
    glue := Some([]);
    var i := 0;
    while i < |addresses|
      invariant 0 <= i <= |addresses|
      invariant glue == Glue(params, name, addresses[..i])
    {
      assert addresses[..i + 1][..i] == addresses[..i];
      if addresses[i].None? {
        glue := None;
      } else if glue.Some? && InZone(Domain(params), name) {
        glue := Some(glue.value + [GlueRecord(params, name, addresses[i].value)]);
      }
      i := i + 1;
    }
    assert addresses[..i] == addresses;
  }

  // ---------- every part is well formed ----------

  predicate LowerText(text: string) {
    LowerLabel(text) == text
  }

  predicate WellFormed(record: RRset) {
    record.kind in KINDS && record.values != [] && LowerText(record.name)
  }

  lemma LoweredIsLower(text: string)
    ensures LowerText(LowerLabel(text)) && LowerText(CanonicalName(text))
  {
    SliceIsLower(LowerLabel(text), TrimDot(LowerLabel(text)));
  }

  lemma SliceIsLower(text: string, start: string)
    requires LowerText(text) && start <= text
    ensures LowerText(start)
  {
    assert forall i :: 0 <= i < |start| ==> LowerLabel(start)[i] == LowerLabel(text)[i];
  }

  lemma RelativeIsLower(domain: string, name: string)
    requires LowerText(name) && InZone(domain, name)
    ensures LowerText(RelativeName(domain, name))
  {
    if name == domain {
      assert LowerLabel("@") == "@";
    } else {
      SliceIsLower(name, RelativeName(domain, name));
    }
  }

  lemma {:induction false} TextsKeepLength(values: seq<Option<string>>)
    ensures Texts(values).Some? ==> |Texts(values).value| == |values|
  {
    if values != [] {
      TextsKeepLength(values[..|values| - 1]);
    }
  }

  lemma {:induction false} ItemsAreWellFormed(items: seq<Item>, ttl: nat)
    requires RenderItems(items, ttl).Some?
    ensures forall r :: r in RenderItems(items, ttl).value ==> WellFormed(r)
  {
    if items != [] {
      var last := items[|items| - 1];
      ItemsAreWellFormed(items[..|items| - 1], ttl);
      TextsKeepLength(last.values);
      LoweredIsLower(last.name);
    }
  }

  lemma {:induction false} GlueIsWellFormed(params: Params, name: string, addresses: seq<Option<Address>>)
    requires Glue(params, name, addresses).Some? && LowerText(name)
    ensures forall r :: r in Glue(params, name, addresses).value ==> WellFormed(r)
  {
    if addresses != [] {
      GlueIsWellFormed(params, name, addresses[..|addresses| - 1]);
      if InZone(Domain(params), name) {
        RelativeIsLower(Domain(params), name);
      }
    }
  }

  lemma {:induction false} AllGlueIsWellFormed(params: Params, servers: seq<Server>)
    requires AllGlue(params, servers).Some?
    ensures forall r :: r in AllGlue(params, servers).value ==> WellFormed(r)
  {
    if servers != [] {
      var last := servers[|servers| - 1];
      AllGlueIsWellFormed(params, servers[..|servers| - 1]);
      LoweredIsLower(last.name);
      GlueIsWellFormed(params, CanonicalName(last.name), last.addresses);
    }
  }

  lemma PartsAreWellFormed(items: seq<Item>, params: Params)
    requires Parts(items, params).Some? && params.servers != []
    ensures forall r :: r in Parts(items, params).value ==> WellFormed(r)
  {
    ItemsAreWellFormed(items, TTL(params));
    AllGlueIsWellFormed(params, params.servers);
    assert LowerLabel("@") == "@";
    assert WellFormed(ApexNS(params));
  }

  lemma PartsAreKeyed(items: seq<Item>, params: Params, records: Records)
    requires Parts(items, params).Some? && params.servers != [] && Means(records, Parts(items, params).value)
    ensures Keyed(records)
  {
    PartsAreWellFormed(items, params);
    forall key | key in records
      ensures KeyOf(records[key]) == key && PlainKind(records[key].kind)
    {
      assert Merges(records[key], Parts(items, params).value, key);
    }
  }

  // ---------- the order and repetition of items do not matter ----------

  lemma {:induction false} RenderedParts(items: seq<Item>, ttl: nat)
    ensures RenderItems(items, ttl).Some? <==>
      forall item :: item in items && Relevant(item) ==> RenderItem(item, ttl).Some?
    ensures RenderItems(items, ttl).Some? ==>
      forall r :: r in RenderItems(items, ttl).value <==>
        exists item :: item in items && Relevant(item) && RenderItem(item, ttl) == Some(r)
  {
    if items != [] {
      var rest, last := items[..|items| - 1], items[|items| - 1];
      RenderedParts(rest, ttl);
      assert items == rest + [last];
      assert forall item :: item in items <==> item in rest || item == last;
    }
  }

  lemma SameAgreement(left: seq<RRset>, right: seq<RRset>)
    requires forall r :: r in left <==> r in right
    ensures Agree(left) ==> Agree(right)
  {
    assert forall r :: r in right ==> Union(left, KeyOf(r)) == Union(right, KeyOf(r));
  }

  /** Two record maps that mean the same parts are equal. */
  lemma SameMeaning(left: seq<RRset>, right: seq<RRset>, records: Records, others: Records)
    requires forall r :: r in left <==> r in right
    requires Means(records, left) && Means(others, right)
    ensures records == others
  {
    forall key | key in records
      ensures key in others && records[key] == others[key]
    {
      assert Merges(records[key], left, key) && Merges(others[key], right, key);
      SameStrictlySorted(records[key].values, others[key].values, Itself);
      var r :| r in left && KeyOf(r) == key;
    }
    assert forall key :: key in others ==> key in records;
  }

  /** Any order and any repetition of the same items render alike: to the same snapshot, or to none. */
  lemma RenderIgnoresOrder(items: seq<Item>, others: seq<Item>, params: Params, digest: Content -> string,
                           previous: nat, previousDigest: string, now: nat, result: Option<Snapshot>,
                           other: Option<Snapshot>)
    requires forall item :: item in items <==> item in others
    requires Rendered(items, params, digest, previous, previousDigest, now, result)
    requires Rendered(others, params, digest, previous, previousDigest, now, other)
    ensures result == other
  {
    RenderedParts(items, TTL(params));
    RenderedParts(others, TTL(params));
    if params.servers != [] && Parts(items, params).Some? {
      var left, right := Parts(items, params).value, Parts(others, params).value;
      assert forall r :: r in left <==> r in right;
      SameAgreement(left, right);
      SameAgreement(right, left);
      if Agree(left) {
        SameMeaning(left, right, AddAllOf(left), AddAllOf(right));
        SameResult(params, AddAllOf(left), digest, previous, previousDigest, now, result, other);
      }
    }
  }

  lemma SameResult(params: Params, records: Records, digest: Content -> string, previous: nat, previousDigest: string,
                   now: nat, result: Option<Snapshot>, other: Option<Snapshot>)
    requires params.servers != []
    requires exists c :: HasContent(c, params, records)
                    && result == Finished(c, digest(c), previous, previousDigest, now)
    requires exists c :: HasContent(c, params, records)
                    && other == Finished(c, digest(c), previous, previousDigest, now)
    ensures result == other
  {
    var c :| HasContent(c, params, records) && result == Finished(c, digest(c), previous, previousDigest, now);
    var d :| HasContent(d, params, records) && other == Finished(d, digest(d), previous, previousDigest, now);
    SameStrictlySorted(c.records, d.records, RecordKey);
  }

  /** At least one value and at most 64, sorted and distinct, of a known type at a lower-case owner. */
  ghost predicate Publishable(record: RRset) {
    && StrictlySortedBy(record.values, Itself) && 1 <= |record.values| <= MAX_VALUES && record.kind in KINDS
    && LowerText(record.name)
  }

  /**
   A rendered snapshot lists each owner and type once, in order, with distinct values, at least one and at most 64.
   */
  lemma RecordsAreSortedAndUnique(items: seq<Item>, params: Params, digest: Content -> string,
                                  previous: nat, previousDigest: string, now: nat, result: Option<Snapshot>)
    requires Rendered(items, params, digest, previous, previousDigest, now, result) && result.Some?
    ensures var records := result.value.content.records;
      && |records| <= MAX_RECORDS
      && StrictlySortedBy(records, RecordKey)
      && (forall i, j :: 0 <= i < j < |records| ==> KeyOf(records[i]) != KeyOf(records[j]))
      && forall r :: r in records ==> Publishable(r)
  {
    var parts := Parts(items, params).value;
    var merged := AddAllOf(parts);
    var content :| HasContent(content, params, merged) && result == Finished(content, digest(content), previous,
        previousDigest, now);
    PartsAreWellFormed(items, params);
    forall r | r in content.records
      ensures Publishable(r)
    {
      MergedIsFull(merged, parts, r);
    }
    assert forall i, j :: 0 <= i < j < |content.records| ==>
      RecordKey(content.records[i]) != RecordKey(content.records[j]);
  }

  lemma MergedIsFull(records: Records, parts: seq<RRset>, record: RRset)
    requires Means(records, parts) && Agree(parts) && forall r :: r in parts ==> WellFormed(r)
    requires KeyOf(record) in records && records[KeyOf(record)] == record
    ensures Publishable(record)
  {
    assert Merges(record, parts, KeyOf(record));
    var r :| r in parts && KeyOf(r) == KeyOf(record);
    StrictSize(record.values, Union(parts, KeyOf(record)));
    assert r.values[0] in r.values;
    assert r.values[0] in Union(parts, KeyOf(record));
    assert r.values[0] in record.values;
  }

  /** A rendered snapshot always has a serial. */
  lemma SerialIsPositive(items: seq<Item>, params: Params, digest: Content -> string,
                         previous: nat, previousDigest: string, now: nat, result: Option<Snapshot>)
    requires Rendered(items, params, digest, previous, previousDigest, now, result) && result.Some?
    ensures result.value.serial > 0
  {
    var content :| HasContent(content, params, AddAllOf(Parts(items, params).value))
                   && result == Finished(content, digest(content), previous, previousDigest, now);
    FinishedSerial(content, digest(content), previous, previousDigest, now);
  }

  lemma FinishedSerial(content: Content, digest: string, previous: nat, previousDigest: string, now: nat)
    requires Finished(content, digest, previous, previousDigest, now).Some?
    ensures Finished(content, digest, previous, previousDigest, now).value.serial > 0
  {
  }

  // ---------- the name servers of the zone ----------

  lemma LowerAt(text: string)
    ensures LowerLabel(text) == "@" <==> text == "@"
  {
    if LowerLabel(text) == "@" {
      assert LowerChar(text[0]) == LowerLabel(text)[0];
    }
  }

  lemma {:induction false} ItemsLeaveApexNS(items: seq<Item>, ttl: nat)
    requires RenderItems(items, ttl).Some?
    ensures forall r :: r in RenderItems(items, ttl).value ==> KeyOf(r) != ("@", "NS")
  {
    if items != [] {
      ItemsLeaveApexNS(items[..|items| - 1], ttl);
      LowerAt(items[|items| - 1].name);
    }
  }

  lemma {:induction false} GlueIsAddresses(params: Params, name: string, addresses: seq<Option<Address>>)
    requires Glue(params, name, addresses).Some?
    ensures forall r :: r in Glue(params, name, addresses).value ==> r.kind in {"A", "AAAA"}
  {
    if addresses != [] {
      GlueIsAddresses(params, name, addresses[..|addresses| - 1]);
    }
  }

  lemma {:induction false} AllGlueIsAddresses(params: Params, servers: seq<Server>)
    requires AllGlue(params, servers).Some?
    ensures forall r :: r in AllGlue(params, servers).value ==> r.kind in {"A", "AAAA"}
  {
    if servers != [] {
      AllGlueIsAddresses(params, servers[..|servers| - 1]);
      GlueIsAddresses(params, CanonicalName(servers[|servers| - 1].name), servers[|servers| - 1].addresses);
    }
  }

  /** The only part at the apex of type NS is the one that names the servers. */
  lemma OnlyApexNS(items: seq<Item>, params: Params)
    requires Parts(items, params).Some?
    ensures forall r :: r in Parts(items, params).value && KeyOf(r) == ("@", "NS") ==> r == ApexNS(params)
    ensures ApexNS(params) in Parts(items, params).value
  {
    ItemsLeaveApexNS(items, TTL(params));
    AllGlueIsAddresses(params, params.servers);
  }

  /** Every rendered snapshot has one NS record at the apex, and its values are exactly the declared name servers. */
  lemma ApexNamesServers(items: seq<Item>, params: Params, digest: Content -> string, previous: nat,
                         previousDigest: string, now: nat, result: Option<Snapshot>) returns (record: RRset)
    requires Rendered(items, params, digest, previous, previousDigest, now, result) && result.Some?
    ensures record in result.value.content.records && KeyOf(record) == ("@", "NS") && record.ttl == TTL(params)
    ensures forall v :: v in record.values <==> v in ServerNames(params.servers)
  {
    var parts := Parts(items, params).value;
    var merged := AddAllOf(parts);
    var content :| HasContent(content, params, merged)
                   && result == Finished(content, digest(content), previous, previousDigest, now);
    OnlyApexNS(items, params);
    assert KeyOf(ApexNS(params)) in merged;
    record := merged[("@", "NS")];
    assert Merges(record, parts, ("@", "NS"));
    assert record in content.records;
    UnionOfOne(parts, ApexNS(params));
  }

  lemma UnionOfOne(parts: seq<RRset>, only: RRset)
    requires only in parts && forall r :: r in parts && KeyOf(r) == KeyOf(only) ==> r == only
    ensures forall v :: v in Union(parts, KeyOf(only)) <==> v in only.values
  {
  }

  // ---------- serials ----------

  /** One rendering after another, each told the serial and digest of the one before. */
  datatype Step = Step(digest: string, now: nat)

  datatype Version = Version(serial: nat, digest: string)

  function Versions(steps: seq<Step>): Option<Version> {
    if steps == [] then Some(Version(0, ""))
    else
      var before, last := Versions(steps[..|steps| - 1]), steps[|steps| - 1];
      if before.None? then None
      else
        var serial := SerialAfter(before.value.serial, before.value.digest, last.digest, last.now);
        if serial.None? then None else Some(Version(serial.value, last.digest))
  }

  /** Along a run serials never decrease, and two renderings share a serial only if they share the digest. */
  lemma {:induction false} SerialsAdvance(steps: seq<Step>, i: nat)
    requires 0 < i <= |steps| && Versions(steps).Some?
    ensures Versions(steps[..i]).Some?
    ensures 0 < Versions(steps[..i]).value.serial <= Versions(steps).value.serial <= MAX_SERIAL
    ensures Versions(steps[..i]).value.serial == Versions(steps).value.serial ==>
      Versions(steps[..i]).value.digest == Versions(steps).value.digest
  {
    if i == |steps| {
      assert steps[..i] == steps;
      if i > 1 {
        SerialsAdvance(steps[..i - 1], i - 1);
        assert steps[..i - 1][..i - 1] == steps[..i - 1];
      } else {
        assert steps[..0] == [];
      }
    } else {
      SerialsAdvance(steps[..|steps| - 1], i);
      assert steps[..|steps| - 1][..i] == steps[..i];
    }
  }

  /** The serial stays equal exactly when the digest is unchanged since a previous snapshot. */
  lemma SerialTracksDigest(previous: nat, previousDigest: string, digest: string, now: nat)
    requires SerialAfter(previous, previousDigest, digest, now).Some?
    ensures var serial := SerialAfter(previous, previousDigest, digest, now).value;
      previous <= serial && (serial == previous <==> previous != 0 && previousDigest == digest)
  {
  }
}
