/**
 The compiled zone of the hosted server (server/zone.go).

 `CompileZone` builds, record by record, an index of owners in which empty non-terminals exist
 and a second index of wildcards by their parent; `Compiled` says what those two maps are
 without any order of insertion. `Zone.Lookup` is the indexed lookup.
 */
module Zones {
  import opened Names
  import opened Sequences

  datatype Kind = A | AAAA | CNAME | TXT | MX | CAA | NS | SOA | Unsupported(text: string)

  /** One presentation value of a record, as the parser of its type reads it. */
  datatype Value =
    | Address(addr: Addr)
    | Host(target: Name)
    | Opaque(text: string, wellFormed: bool)

  /** A relative owner is "@" for the apex, otherwise the labels left of the domain name. */
  datatype Record = Record(name: Name, kind: Kind, ttl: nat, values: seq<Value>)

  datatype NameServer = NameServer(name: Name, addresses: seq<Value>)

  datatype Spec = Spec(domain: Name, serial: nat, soaMinimum: nat, nameServers: seq<NameServer>,
                       records: seq<Record>, digest: string)

  datatype Key = Key(namespace: string, name: string)

  datatype RRset = RRset(ttl: nat, values: seq<Value>)

  type Node = map<Kind, RRset>

  const DEFAULT_TTL: nat := 60
  const APEX: Name := Sub("@", Root)

  function Star(parent: Name): Name {
    Sub("*", parent)
  }

  /** An immutable compiled snapshot. */
  datatype Zone = Zone(key: Key, uid: string, apex: Name, serial: nat, digest: string, soaMinimum: nat,
                       owners: map<Name, Node>, wildcards: map<Name, Node>)
  {
    /** Exact owner first; otherwise the wildcard below the closest existing ancestor. */
    function Lookup(name: Name): Option<Node> {
      if name in owners then Some(owners[name])
      else if name.Root? then None
      else LookupAbove(name.parent)
    }

    function LookupAbove(ancestor: Name): Option<Node> {
      if !Under(apex, ancestor) then None
      else if ancestor in owners then
        if ancestor in wildcards then Some(wildcards[ancestor]) else None
      else if ancestor.Root? then None
      else LookupAbove(ancestor.parent)
    }

    /** `Lookup` as the server runs it. */
    method Find(name: Name) returns (node: Option<Node>)
      ensures node == Lookup(name)
    {
      if name in owners {
        return Some(owners[name]);
      }
      if name.Root? {
        return None;
      }
      var ancestor := name.parent;
      while Under(apex, ancestor)
        invariant Lookup(name) == LookupAbove(ancestor)
        decreases ancestor
      {
        if ancestor in owners {
          return if ancestor in wildcards then Some(wildcards[ancestor]) else None;
        }
        if ancestor.Root? {
          break;
        }
        ancestor := ancestor.parent;
      }
      return None;
    }
  }

  // ---------- what a snapshot means ----------

  function Apex(spec: Spec): Name {
    Canonical(spec.domain)
  }

  function Owner(apex: Name, record: Record): (owner: Name)
    ensures Under(apex, owner)
  {
    if record.name == APEX then apex else Graft(Canonical(record.name), apex)
  }

  /** The RRsets at one owner; a later record of the same type would replace an earlier one. */
  function NodeAt(records: seq<Record>, apex: Name, name: Name): Node {
    if records == [] then map[]
    else
      var last := records[|records| - 1];
      var node := NodeAt(records[..|records| - 1], apex, name);
      if Owner(apex, last) == name then node[last.kind := RRset(last.ttl, last.values)] else node
  }

  /** A node exists when a record sits at it or below it; the apex always exists. */
  ghost predicate Exists(records: seq<Record>, apex: Name, name: Name) {
    && Under(apex, name)
    && (name == apex || exists i :: 0 <= i < |records| && Under(name, Owner(apex, records[i])))
  }

  ghost predicate HasRecord(records: seq<Record>, apex: Name, name: Name) {
    exists i :: 0 <= i < |records| && Owner(apex, records[i]) == name
  }

  function Ancestors(apex: Name, owner: Name): set<Name> {
    {owner} + if owner == apex || owner.Root? then {} else Ancestors(apex, owner.parent)
  }

  function Nodes(records: seq<Record>, apex: Name): set<Name> {
    if records == [] then {apex}
    else Nodes(records[..|records| - 1], apex) + Ancestors(apex, Owner(apex, records[|records| - 1]))
  }

  predicate Wild(owner: Name) {
    owner.Sub? && owner.first == "*"
  }

  function WildParents(records: seq<Record>, apex: Name): set<Name> {
    if records == [] then {}
    else
      var owner := Owner(apex, records[|records| - 1]);
      WildParents(records[..|records| - 1], apex) + if Wild(owner) then {owner.parent} else {}
  }

  // ---------- acceptance ----------

  predicate Supported(kind: Kind) {
    kind.A? || kind.AAAA? || kind.CNAME? || kind.TXT? || kind.MX? || kind.CAA? || kind.NS?
  }

  predicate Parses(kind: Kind, value: Value) {
    match kind
    case A => value.Address? && value.addr.V4?
    case AAAA => value.Address? && !value.addr.V4? && value.addr.zone == ""
    case CNAME => value.Host?
    case NS => value.Host?
    case _ => value.Opaque? && value.wellFormed
  }

  function WireLength(name: Name): nat {
    if name.Root? then 1 else |name.first| + 1 + WireLength(name.parent)
  }

  predicate ValidDomain(name: Name) {
    AllLabels(name, (l: Label) => 1 <= |l| <= 63) && WireLength(name) <= 255
  }

  predicate GoodRecord(apex: Name, record: Record) {
    && ValidDomain(Owner(apex, record))
    && Supported(record.kind)
    && record.values != []
    && forall v :: v in record.values ==> Parses(record.kind, v)
  }

  predicate GoodServer(server: NameServer) {
    && ValidDomain(Canonical(server.name))
    && server.name.Sub?
    && forall a :: a in server.addresses ==> a.Address? && a.addr.Zone() == ""
  }

  ghost predicate Unique(records: seq<Record>, apex: Name) {
    forall i, j :: 0 <= i < j < |records| ==>
      !(Owner(apex, records[i]) == Owner(apex, records[j]) && records[i].kind == records[j].kind)
  }

  /** A CNAME is alone at its owner, has one value and is not at the apex. */
  ghost predicate CnamesExclusive(records: seq<Record>, apex: Name) {
    forall i :: 0 <= i < |records| && records[i].kind.CNAME? ==>
      && |records[i].values| == 1
      && Owner(apex, records[i]) != apex
      && forall j :: 0 <= j < |records| && Owner(apex, records[j]) == Owner(apex, records[i]) ==> j == i
  }

  ghost predicate Accepts(spec: Spec) {
    var apex := Apex(spec);
    && apex.Sub?
    && ValidDomain(apex)
    && spec.serial != 0
    && (forall i :: 0 <= i < |spec.records| ==> GoodRecord(apex, spec.records[i]))
    && Unique(spec.records, apex)
    && CnamesExclusive(spec.records, apex)
    && forall i :: 0 <= i < |spec.nameServers| ==> GoodServer(spec.nameServers[i])
  }

  // ---------- the compiled result ----------

  function ServerHosts(servers: seq<NameServer>): seq<Value> {
    seq(|servers|, i requires 0 <= i < |servers| => Host(Canonical(servers[i].name)))
  }

  /** The apex gains the SOA, and the declared name servers when no NS record is given. */
  function ApexExtras(spec: Spec): Node {
    var node := NodeAt(spec.records, Apex(spec), Apex(spec));
    var soa := map[SOA := RRset(spec.soaMinimum, [Opaque("SOA", true)])];
    if NS in node || spec.nameServers == [] then soa
    else soa[NS := RRset(DEFAULT_TTL, ServerHosts(spec.nameServers))]
  }

  function FullNode(spec: Spec, name: Name): Node {
    NodeAt(spec.records, Apex(spec), name) + if name == Apex(spec) then ApexExtras(spec) else map[]
  }

  function Compiled(spec: Spec, key: Key, uid: string): Zone {
    var apex := Apex(spec);
    Zone(key, uid, apex, spec.serial, spec.digest, spec.soaMinimum,
         map n | n in Nodes(spec.records, apex) :: FullNode(spec, n),
         map p | p in WildParents(spec.records, apex) :: NodeAt(spec.records, apex, Star(p)))
  }

  // ---------- facts about the folds ----------

  lemma {:induction false} AncestorsAreBetween(apex: Name, owner: Name, name: Name)
    requires Under(apex, owner)
    ensures name in Ancestors(apex, owner) <==> Under(apex, name) && Under(name, owner)
  {
    if owner == apex {
      if Under(apex, name) && Under(name, owner) {
        UnderDepth(apex, name);
        UnderDepth(name, owner);
      }
    } else {
      AncestorsAreBetween(apex, owner.parent, name);
    }
  }

  lemma {:induction false} NodesAreExisting(records: seq<Record>, apex: Name, name: Name)
    ensures name in Nodes(records, apex) <==> Exists(records, apex, name)
  {
    if records != [] {
      var rest, last := records[..|records| - 1], |records| - 1;
      NodesAreExisting(rest, apex, name);
      AncestorsAreBetween(apex, Owner(apex, records[last]), name);
      assert forall i :: 0 <= i < |rest| ==> rest[i] == records[i];
      assert Under(name, Owner(apex, records[last])) && Under(apex, name) ==> Exists(records, apex, name);
    }
  }

  lemma {:induction false} WildParentsHaveRecords(records: seq<Record>, apex: Name, parent: Name)
    ensures parent in WildParents(records, apex) <==> HasRecord(records, apex, Star(parent))
  {
    if records != [] {
      var rest, last := records[..|records| - 1], |records| - 1;
      WildParentsHaveRecords(rest, apex, parent);
      assert forall i :: 0 <= i < |rest| ==> rest[i] == records[i];
      assert Owner(apex, records[last]) == Star(parent) ==> HasRecord(records, apex, Star(parent));
    }
  }

  lemma {:induction false} NodeFromRecord(records: seq<Record>, apex: Name, name: Name, kind: Kind)
    returns (i: int)
    requires kind in NodeAt(records, apex, name)
    ensures 0 <= i < |records| && Owner(apex, records[i]) == name && records[i].kind == kind
    ensures NodeAt(records, apex, name)[kind] == RRset(records[i].ttl, records[i].values)
  {
    var last := records[|records| - 1];
    if Owner(apex, last) == name && last.kind == kind {
      i := |records| - 1;
    } else {
      i := NodeFromRecord(records[..|records| - 1], apex, name, kind);
    }
  }

  lemma {:induction false} RecordInNode(records: seq<Record>, apex: Name, i: int)
    requires 0 <= i < |records|
    requires Unique(records, apex)
    ensures var node := NodeAt(records, apex, Owner(apex, records[i]));
      records[i].kind in node && node[records[i].kind] == RRset(records[i].ttl, records[i].values)
  {
    var rest := records[..|records| - 1];
    if i < |rest| {
      assert rest[i] == records[i];
      RecordInNode(rest, apex, i);
    }
  }

  lemma {:induction false} EmptyWithoutRecord(records: seq<Record>, apex: Name, name: Name)
    ensures NodeAt(records, apex, name) == map[] <==> !HasRecord(records, apex, name)
  {
    if records != [] {
      var rest, last := records[..|records| - 1], |records| - 1;
      EmptyWithoutRecord(rest, apex, name);
      assert forall i :: 0 <= i < |rest| ==> rest[i] == records[i];
      if Owner(apex, records[last]) == name {
        assert records[last].kind in NodeAt(records, apex, name);
      }
    }
  }

  // ---------- the compile loop ----------

  /** The two maps built so far say what the records read so far mean. */
  ghost predicate Indexed(records: seq<Record>, apex: Name, owners: map<Name, Node>, wildcards: map<Name, Node>) {
    && owners.Keys == Nodes(records, apex)
    && (forall n :: n in owners ==> owners[n] == NodeAt(records, apex, n))
    && wildcards.Keys == WildParents(records, apex)
    && (forall p :: p in wildcards ==> wildcards[p] == NodeAt(records, apex, Star(p)))
  }

  /** Every ancestor up to the apex exists, empty unless a record sits at it. */
  method AddAncestors(apex: Name, owner: Name, owners: map<Name, Node>) returns (owners': map<Name, Node>)
    requires Under(apex, owner) && owner in owners
    ensures owners'.Keys == owners.Keys + Ancestors(apex, owner)
    ensures forall n :: n in owners ==> owners'[n] == owners[n]
    ensures forall n :: n in owners' && n !in owners ==> owners'[n] == map[]
  {
    owners' := owners;
    var ancestor := owner;
    ghost var added := {owner};
    while ancestor != apex
      invariant Under(apex, ancestor)
      invariant owners'.Keys == owners.Keys + added
      invariant Ancestors(apex, owner) == added + Ancestors(apex, ancestor)
      invariant ancestor in added
      invariant forall n :: n in owners ==> owners'[n] == owners[n]
      invariant forall n :: n in owners' && n !in owners ==> owners'[n] == map[]
      decreases ancestor
    {
      ancestor := ancestor.parent;
      added := added + {ancestor};
      if ancestor !in owners' {
        owners' := owners'[ancestor := map[]];
      }
    }
  }

  method AddRecord(apex: Name, ghost before: seq<Record>, record: Record, owners: map<Name, Node>,
                   wildcards: map<Name, Node>)
    returns (owners': map<Name, Node>, wildcards': map<Name, Node>)
    requires Indexed(before, apex, owners, wildcards)
    ensures Indexed(before + [record], apex, owners', wildcards')
  {
    var owner := Owner(apex, record);
    var node := if owner in owners then owners[owner] else map[];
    AbsentIsEmpty(before, apex, owner);
    node := node[record.kind := RRset(record.ttl, record.values)];
    wildcards' := if Wild(owner) then wildcards[owner.parent := node] else wildcards;
    owners' := AddAncestors(apex, owner, owners[owner := node]);
    StepIndex(before, apex, record, owners, wildcards, owners', wildcards');
  }

  lemma StepIndex(before: seq<Record>, apex: Name, record: Record, owners: map<Name, Node>, wildcards: map<Name, Node>,
                  owners': map<Name, Node>, wildcards': map<Name, Node>)
    requires Indexed(before, apex, owners, wildcards)
    requires owners'.Keys == owners.Keys + Ancestors(apex, Owner(apex, record))
    requires forall n :: n in owners' ==>
      (owners'[n] == if n == Owner(apex, record)
                     then NodeAt(before, apex, n)[record.kind := RRset(record.ttl, record.values)]
                     else if n in owners then owners[n] else map[])
    requires wildcards' == if Wild(Owner(apex, record))
                           then wildcards[Owner(apex, record).parent := owners'[Owner(apex, record)]] else wildcards
    ensures Indexed(before + [record], apex, owners', wildcards')
  {
    StepNodes(before, apex, record);
    forall n | n in owners'
      ensures owners'[n] == NodeAt(before + [record], apex, n)
    {
      StepNode(before, apex, record, n);
      AbsentIsEmpty(before, apex, n);
    }
    forall p | p in wildcards'
      ensures wildcards'[p] == NodeAt(before + [record], apex, Star(p))
    {
      StepNode(before, apex, record, Star(p));
    }
  }

  lemma StepNode(before: seq<Record>, apex: Name, record: Record, name: Name)
    ensures NodeAt(before + [record], apex, name) ==
      if Owner(apex, record) == name then NodeAt(before, apex, name)[record.kind := RRset(record.ttl, record.values)]
      else NodeAt(before, apex, name)
  {
    var after := before + [record];
    assert after[..|after| - 1] == before;
  }

  lemma StepNodes(before: seq<Record>, apex: Name, record: Record)
    ensures Nodes(before + [record], apex) == Nodes(before, apex) + Ancestors(apex, Owner(apex, record))
    ensures WildParents(before + [record], apex) ==
      WildParents(before, apex) + if Wild(Owner(apex, record)) then {Owner(apex, record).parent} else {}
  {
    var after := before + [record];
    assert after[..|after| - 1] == before;
  }

  lemma AbsentIsEmpty(records: seq<Record>, apex: Name, name: Name)
    ensures name !in Nodes(records, apex) ==> NodeAt(records, apex, name) == map[]
  {
    if name !in Nodes(records, apex) {
      NodesAreExisting(records, apex, name);
      EmptyWithoutRecord(records, apex, name);
    }
  }

  method CompileZone(spec: Spec, key: Key, uid: string) returns (result: Result<Zone>)
    ensures result.Ok? <==> Accepts(spec)
    ensures result.Ok? ==> result.value == Compiled(spec, key, uid)
  {
    var apex := Apex(spec);
    if !ValidDomain(apex) || apex.Root? || spec.serial == 0 {
      return Err("invalid zone apex or serial");
    }
    var indexed, owners, wildcards := CompileRecords(spec.records, apex);
    if !indexed {
      return Err("invalid record");
    }
    var exclusive := CheckCnames(spec, owners);
    if !exclusive {
      return Err("CNAME must be exclusive");
    }
    var named := CheckServers(spec.nameServers);
    if !named {
      return Err("invalid nameserver");
    }
    NodesAreExisting(spec.records, apex, apex);
    var node := owners[apex];
    if NS !in node && spec.nameServers != [] {
      node := node[NS := RRset(DEFAULT_TTL, ServerHosts(spec.nameServers))];
    }
    node := node[SOA := RRset(spec.soaMinimum, [Opaque("SOA", true)])];
    ApexNode(spec, owners[apex], node);
    CompiledFromIndex(spec, key, uid, owners, wildcards, node);
    result := Ok(Zone(key, uid, apex, spec.serial, spec.digest, spec.soaMinimum, owners[apex := node], wildcards));
  }

  method CheckServers(servers: seq<NameServer>) returns (ok: bool)
    ensures ok <==> forall i :: 0 <= i < |servers| ==> GoodServer(servers[i])
  {
    var i := 0;
    while i < |servers|
      invariant 0 <= i <= |servers|
      invariant forall j :: 0 <= j < i ==> GoodServer(servers[j])
    {
      if !GoodServer(servers[i]) {
        return false;
      }
      i := i + 1;
    }
    ok := true;
  }

  lemma ApexNode(spec: Spec, before: Node, after: Node)
    requires before == NodeAt(spec.records, Apex(spec), Apex(spec))
    requires after == (if NS !in before && spec.nameServers != []
                       then before[NS := RRset(DEFAULT_TTL, ServerHosts(spec.nameServers))] else before)
                      [SOA := RRset(spec.soaMinimum, [Opaque("SOA", true)])]
    ensures after == FullNode(spec, Apex(spec))
  {
  }

  lemma CompiledFromIndex(spec: Spec, key: Key, uid: string, owners: map<Name, Node>, wildcards: map<Name, Node>,
                          node: Node)
    requires Indexed(spec.records, Apex(spec), owners, wildcards)
    requires node == FullNode(spec, Apex(spec))
    ensures owners[Apex(spec) := node] == Compiled(spec, key, uid).owners
    ensures wildcards == Compiled(spec, key, uid).wildcards
  {
    NodesAreExisting(spec.records, Apex(spec), Apex(spec));
    BelowApex(spec);
  }

  lemma BelowApex(spec: Spec)
    ensures forall n :: n != Apex(spec) ==> FullNode(spec, n) == NodeAt(spec.records, Apex(spec), n)
  {
    forall n | n != Apex(spec)
      ensures FullNode(spec, n) == NodeAt(spec.records, Apex(spec), n)
    {
      assert NodeAt(spec.records, Apex(spec), n) + map[] == NodeAt(spec.records, Apex(spec), n);
    }
  }

  ghost predicate GoodRecords(records: seq<Record>, apex: Name) {
    (forall i :: 0 <= i < |records| ==> GoodRecord(apex, records[i])) && Unique(records, apex)
  }

  /** The loop over the records: everything that can be wrong with one record or a pair of them. */
  method CompileRecords(records: seq<Record>, apex: Name)
    returns (ok: bool, owners: map<Name, Node>, wildcards: map<Name, Node>)
    ensures ok <==> GoodRecords(records, apex)
    ensures ok ==> Indexed(records, apex, owners, wildcards)
  {
    owners, wildcards := map[apex := map[]], map[];
    var i := 0;
    while i < |records|
      invariant 0 <= i <= |records|
      invariant Indexed(records[..i], apex, owners, wildcards)
      invariant GoodRecords(records[..i], apex)
    {
      ok := CheckRecord(records, i, apex, owners);
      if !ok {
        return;
      }
      assert records[..i + 1] == records[..i] + [records[i]];
      owners, wildcards := AddRecord(apex, records[..i], records[i], owners, wildcards);
      i := i + 1;
    }
    assert records[..i] == records;
    ok := true;
  }

  method CheckRecord(records: seq<Record>, i: nat, apex: Name, owners: map<Name, Node>) returns (ok: bool)
    requires i < |records| && GoodRecords(records[..i], apex)
    requires owners.Keys == Nodes(records[..i], apex)
    requires forall n :: n in owners ==> owners[n] == NodeAt(records[..i], apex, n)
    ensures if ok then GoodRecords(records[..i + 1], apex) else !GoodRecords(records, apex)
  {
    var record := records[i];
    var owner := Owner(apex, record);
    if !GoodRecord(apex, record) {
      assert !GoodRecord(apex, records[i]);
      return false;
    }
    AbsentIsEmpty(records[..i], apex, owner);
    if owner in owners && record.kind in owners[owner] {
      Repeated(records, apex, i);
      return false;
    }
    UniqueExtends(records, apex, i);
    assert forall j :: 0 <= j < i ==> records[..i + 1][j] == records[..i][j];
    ok := true;
  }

  lemma Repeated(records: seq<Record>, apex: Name, i: nat)
    requires i < |records| && records[i].kind in NodeAt(records[..i], apex, Owner(apex, records[i]))
    ensures !Unique(records, apex)
  {
    var j := NodeFromRecord(records[..i], apex, Owner(apex, records[i]), records[i].kind);
    assert records[j] == records[..i][j];
  }

  lemma UniqueExtends(records: seq<Record>, apex: Name, i: nat)
    requires i < |records|
    requires Unique(records[..i], apex)
    requires records[i].kind !in NodeAt(records[..i], apex, Owner(apex, records[i]))
    ensures Unique(records[..i + 1], apex)
  {
    forall j | 0 <= j < i
      ensures !(Owner(apex, records[j]) == Owner(apex, records[i]) && records[j].kind == records[i].kind)
    {
      RecordInNode(records[..i], apex, j);
    }
  }

  /** The pass over all owners that keeps a CNAME alone. */
  method CheckCnames(spec: Spec, owners: map<Name, Node>) returns (ok: bool)
    requires owners.Keys == Nodes(spec.records, Apex(spec))
    requires forall n :: n in owners ==> owners[n] == NodeAt(spec.records, Apex(spec), n)
    requires Unique(spec.records, Apex(spec))
    requires forall i :: 0 <= i < |spec.records| ==> GoodRecord(Apex(spec), spec.records[i])
    ensures ok <==> CnamesExclusive(spec.records, Apex(spec))
  {
    var apex := Apex(spec);
    var todo := owners.Keys;
    while todo != {}
      invariant todo <= owners.Keys
      invariant forall n :: n in owners && n !in todo ==> CnameAlone(owners[n], n, apex)
      decreases todo
    {
      var owner :| owner in todo;
      if !CnameAlone(owners[owner], owner, apex) {
        NotExclusive(spec.records, apex, owner);
        return false;
      }
      todo := todo - {owner};
    }
    forall i, j | 0 <= i < |spec.records| && spec.records[i].kind.CNAME?
                  && 0 <= j < |spec.records| && Owner(apex, spec.records[j]) == Owner(apex, spec.records[i])
      ensures |spec.records[i].values| == 1 && Owner(apex, spec.records[i]) != apex && j == i
    {
      RecordInNode(spec.records, apex, i);
      RecordInNode(spec.records, apex, j);
      AbsentIsEmpty(spec.records, apex, Owner(apex, spec.records[i]));
      OneKey(owners[Owner(apex, spec.records[i])], spec.records[i].kind, spec.records[j].kind);
    }
    return true;
  }

  predicate CnameAlone(node: Node, owner: Name, apex: Name) {
    CNAME in node && node[CNAME].values != [] ==> |node[CNAME].values| == 1 && |node| == 1 && owner != apex
  }

  lemma OneKey(node: Node, left: Kind, right: Kind)
    requires left in node && right in node && |node| == 1
    ensures left == right
  {
    assert |node.Keys - {left}| == 0;
    assert right !in node.Keys - {left};
  }

  lemma OnlyKey(node: Node, kind: Kind)
    requires kind in node && node.Keys <= {kind}
    ensures |node| == 1
  {
    assert node.Keys == {kind};
    assert |node| == |node.Keys|;
  }

  lemma NotExclusive(records: seq<Record>, apex: Name, owner: Name)
    requires Unique(records, apex)
    requires !CnameAlone(NodeAt(records, apex, owner), owner, apex)
    ensures !CnamesExclusive(records, apex)
  {
    var node := NodeAt(records, apex, owner);
    var i := NodeFromRecord(records, apex, owner, CNAME);
    if |records[i].values| == 1 && owner != apex {
      if node.Keys <= {CNAME} {
        OnlyKey(node, CNAME);
      }
      var other :| other in node && other !in {CNAME};
      var j := NodeFromRecord(records, apex, owner, other);
    }
  }

  // ---------- the order of the records does not matter ----------

  lemma {:induction false} Twofold(records: seq<Record>, record: Record) returns (i: nat, j: nat)
    requires multiset(records)[record] >= 2
    ensures i < j < |records| && records[i] == records[j] == record
  {
    var rest, last := records[..|records| - 1], records[|records| - 1];
    assert records == rest + [last];
    if last == record {
      assert record in multiset(rest);
      i :| 0 <= i < |rest| && rest[i] == record;
      j := |records| - 1;
    } else {
      i, j := Twofold(rest, record);
    }
  }

  /** A pair of positions in one order corresponds to a pair of positions in the other. */
  lemma MovedPair(left: seq<Record>, right: seq<Record>, i: nat, j: nat) returns (p: nat, q: nat)
    requires multiset(left) == multiset(right) && i < |left| && j < |left| && i != j
    ensures p < |right| && q < |right| && p != q && right[p] == left[i] && right[q] == left[j]
  {
    assert left[i] in multiset(right) && left[j] in multiset(right);
    if left[i] == left[j] {
      Twice(left, if i < j then i else j, if i < j then j else i);
      p, q := Twofold(right, left[i]);
    } else {
      p :| 0 <= p < |right| && right[p] == left[i];
      q :| 0 <= q < |right| && right[q] == left[j];
    }
  }

  lemma UniqueIgnoresOrder(left: seq<Record>, right: seq<Record>, apex: Name)
    requires multiset(left) == multiset(right) && Unique(left, apex)
    ensures Unique(right, apex)
  {
    forall i, j | 0 <= i < j < |right|
      ensures !(Owner(apex, right[i]) == Owner(apex, right[j]) && right[i].kind == right[j].kind)
    {
      var p, q := MovedPair(right, left, i, j);
      assert p < q || q < p;
    }
  }

  lemma CnamesIgnoreOrder(left: seq<Record>, right: seq<Record>, apex: Name)
    requires multiset(left) == multiset(right) && CnamesExclusive(left, apex)
    ensures CnamesExclusive(right, apex)
  {
    forall i | 0 <= i < |right| && right[i].kind.CNAME?
      ensures |right[i].values| == 1 && Owner(apex, right[i]) != apex
      ensures forall j :: 0 <= j < |right| && Owner(apex, right[j]) == Owner(apex, right[i]) ==> j == i
    {
      assert right[i] in multiset(left);
      var k :| 0 <= k < |left| && left[k] == right[i];
      forall j | 0 <= j < |right| && Owner(apex, right[j]) == Owner(apex, right[i])
        ensures j == i
      {
        if i != j {
          var p, q := MovedPair(right, left, i, j);
        }
      }
    }
  }

  lemma SameRecords(left: seq<Record>, right: seq<Record>)
    requires multiset(left) == multiset(right)
    ensures forall i :: 0 <= i < |left| ==> left[i] in right
  {
    forall i | 0 <= i < |left|
      ensures left[i] in right
    {
      assert left[i] in multiset(left);
    }
  }

  lemma NodeIgnoresOrder(left: seq<Record>, right: seq<Record>, apex: Name, name: Name)
    requires multiset(left) == multiset(right) && Unique(left, apex) && Unique(right, apex)
    ensures NodeAt(left, apex, name) == NodeAt(right, apex, name)
  {
    NodeContained(left, right, apex, name);
    NodeContained(right, left, apex, name);
  }

  lemma NodeContained(left: seq<Record>, right: seq<Record>, apex: Name, name: Name)
    requires multiset(left) == multiset(right) && Unique(right, apex)
    ensures forall kind :: kind in NodeAt(left, apex, name) ==>
      kind in NodeAt(right, apex, name) && NodeAt(left, apex, name)[kind] == NodeAt(right, apex, name)[kind]
  {
    SameRecords(left, right);
    forall kind | kind in NodeAt(left, apex, name)
      ensures kind in NodeAt(right, apex, name) && NodeAt(left, apex, name)[kind] == NodeAt(right, apex, name)[kind]
    {
      var i := NodeFromRecord(left, apex, name, kind);
      var j :| 0 <= j < |right| && right[j] == left[i];
      RecordInNode(right, apex, j);
    }
  }

  lemma ExistenceIgnoresOrder(left: seq<Record>, right: seq<Record>, apex: Name)
    requires multiset(left) == multiset(right)
    ensures Nodes(left, apex) == Nodes(right, apex) && WildParents(left, apex) == WildParents(right, apex)
  {
    SameRecords(left, right);
    SameRecords(right, left);
    forall name
      ensures name in Nodes(left, apex) <==> name in Nodes(right, apex)
      ensures name in WildParents(left, apex) <==> name in WildParents(right, apex)
    {
      NodesAreExisting(left, apex, name);
      NodesAreExisting(right, apex, name);
      WildParentsHaveRecords(left, apex, name);
      WildParentsHaveRecords(right, apex, name);
    }
  }

  /** Any order of the same records is accepted alike and compiles to the same zone. */
  lemma CompileIgnoresOrder(spec: Spec, reordered: seq<Record>, key: Key, uid: string)
    requires multiset(reordered) == multiset(spec.records) && Accepts(spec)
    ensures Accepts(spec.(records := reordered))
    ensures Compiled(spec.(records := reordered), key, uid) == Compiled(spec, key, uid)
  {
    AcceptsIgnoresOrder(spec, reordered);
    SameCompiled(spec, spec.(records := reordered), key, uid);
  }

  lemma AcceptsIgnoresOrder(spec: Spec, reordered: seq<Record>)
    requires multiset(reordered) == multiset(spec.records) && Accepts(spec)
    ensures Accepts(spec.(records := reordered))
  {
    UniqueIgnoresOrder(spec.records, reordered, Apex(spec));
    CnamesIgnoreOrder(spec.records, reordered, Apex(spec));
    SameRecords(reordered, spec.records);
  }

  lemma SameCompiled(spec: Spec, other: Spec, key: Key, uid: string)
    requires other == spec.(records := other.records) && multiset(other.records) == multiset(spec.records)
    requires Accepts(spec) && Accepts(other)
    ensures Compiled(other, key, uid) == Compiled(spec, key, uid)
  {
    ExistenceIgnoresOrder(spec.records, other.records, Apex(spec));
    forall name
      ensures NodeAt(other.records, Apex(spec), name) == NodeAt(spec.records, Apex(spec), name)
      ensures FullNode(other, name) == FullNode(spec, name)
    {
      NodeIgnoresOrder(spec.records, other.records, Apex(spec), name);
    }
  }
}
