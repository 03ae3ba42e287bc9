/**
 Local exclusion and the server it speaks about.

 `SnapshotExclusion` (withdrawal/evaluator.go) follows the links of one snapshot by linear scans.
 `Answer` (server/handler.go) follows them through the compiled zone and the zone index.
 `ExclusionIsSound` connects the two.
 */
module Exclusion {
  import opened Names
  import opened Zones
  import opened Owners
  import Probe

  // ---------- the evaluator's scan ----------

  predicate BadValue(kind: Kind, value: Value) {
    || !value.Address?
    || value.addr.Zone() != ""
    || (kind == A && !value.addr.Is4())
    || (kind == AAAA && !value.addr.Is6())
  }

  predicate Carries(value: Value, address: Addr) {
    value.Address? && value.addr.Unmap() == address
  }

  function KindText(kind: Kind): string {
    if kind == A then "A" else "AAAA"
  }

  function Hits(record: Record, values: seq<Value>, address: Addr, name: Name, ttl: nat): seq<Probe.CacheEvidence> {
    if values == [] then []
    else
      Hits(record, values[..|values| - 1], address, name, ttl)
      + if Carries(values[|values| - 1], address)
        then [Probe.CacheEvidence(name, "snapshot", KindText(record.kind), Some(Max(ttl, record.ttl)), None)] else []
  }

  /** One pass over the records for one owner. */
  datatype NodeScan = Broken | Scanned(cname: Option<Record>, cache: seq<Probe.CacheEvidence>)

  function ScanRecord(sofar: NodeScan, record: Record, owner: Name, address: Addr, name: Name, ttl: nat): NodeScan {
    if sofar.Broken? || record.name != owner then sofar
    else if record.kind == CNAME then sofar.(cname := Some(record))
    else if record.kind != A && record.kind != AAAA then sofar
    else if exists v :: v in record.values && BadValue(record.kind, v) then Broken
    else sofar.(cache := sofar.cache + Hits(record, record.values, address, name, ttl))
  }

  function ScanAll(records: seq<Record>, owner: Name, address: Addr, name: Name, ttl: nat): NodeScan {
    if records == [] then Scanned(None, [])
    else ScanRecord(ScanAll(records[..|records| - 1], owner, address, name, ttl), records[|records| - 1], owner,
                    address, name, ttl)
  }

  method ScanOwnerRecords(records: seq<Record>, owner: Name, address: Addr, name: Name, ttl: nat)
    returns (scan: NodeScan)
    ensures scan == ScanAll(records, owner, address, name, ttl)
  {
    scan := Scanned(None, []);
    var i := 0;
    while i < |records|
      invariant 0 <= i <= |records|
      invariant scan.Scanned? && scan == ScanAll(records[..i], owner, address, name, ttl)
    {
      assert records[..i + 1][..i] == records[..i];
      scan := ScanValues(scan, records[i], owner, address, name, ttl);
      if scan.Broken? {
        BrokenStays(records, i + 1, owner, address, name, ttl);
        return;
      }
      i := i + 1;
    }
    assert records[..i] == records;
  }

  method ScanValues(sofar: NodeScan, record: Record, owner: Name, address: Addr, name: Name, ttl: nat)
    returns (scan: NodeScan)
    ensures scan == ScanRecord(sofar, record, owner, address, name, ttl)
  {
    scan := sofar;
    if scan.Broken? || record.name != owner {
      return;
    }
    if record.kind == CNAME {
      scan := scan.(cname := Some(record));
      return;
    }
    if record.kind != A && record.kind != AAAA {
      return;
    }
    var hits := ScanHits(record, address, name, ttl);
    if hits.None? {
      return Broken;
    }
    scan := scan.(cache := scan.cache + hits.value);
  }

  method ScanHits(record: Record, address: Addr, name: Name, ttl: nat) returns (hits: Option<seq<Probe.CacheEvidence>>)
    ensures hits.None? <==> exists v :: v in record.values && BadValue(record.kind, v)
    ensures hits.Some? ==> hits.value == Hits(record, record.values, address, name, ttl)
  {
    var cache := [];
    var j := 0;
    while j < |record.values|
      invariant 0 <= j <= |record.values|
      invariant forall k :: 0 <= k < j ==> !BadValue(record.kind, record.values[k])
      invariant cache == Hits(record, record.values[..j], address, name, ttl)
    {
      assert record.values[..j + 1][..j] == record.values[..j];
      var value := record.values[j];
      if BadValue(record.kind, value) {
        return None;
      }
      if Carries(value, address) {
        cache := cache + [Probe.CacheEvidence(name, "snapshot", KindText(record.kind), Some(Max(ttl, record.ttl)),
                                              None)];
      }
      j := j + 1;
    }
    assert record.values[..j] == record.values;
    hits := Some(cache);
  }

  lemma {:induction false} BrokenStays(records: seq<Record>, i: nat, owner: Name, address: Addr, name: Name, ttl: nat)
    requires i <= |records| && ScanAll(records[..i], owner, address, name, ttl).Broken?
    ensures ScanAll(records, owner, address, name, ttl).Broken?
  {
    if i == |records| {
      assert records[..i] == records;
    } else {
      assert records[..|records| - 1][..i] == records[..i];
      BrokenStays(records[..|records| - 1], i, owner, address, name, ttl);
    }
  }

  function Found(cache: seq<Probe.CacheEvidence>): Probe.WithdrawalDecision {
    if cache == [] then Probe.WithdrawalDecision(Probe.VERIFIED, [])
    else Probe.WithdrawalDecision(Probe.VERIFIED.(status := Probe.False, reason := "DNSStillResolves",
                                                  detail := "snapshot"), cache)
  }

  /** Follow the links of the snapshot from `name`; `visited` are the names already scanned. */
  function ExclusionFrom(spec: Spec, address: Addr, name: Name, ttl: nat, visited: seq<Name>): Probe.WithdrawalDecision
    decreases Probe.MAX_CNAMES + 1 - |visited|
  {
    if |visited| > Probe.MAX_CNAMES then Probe.WithdrawalFailed("chain-limit")
    else if !Under(spec.domain, name) then Found([])
    else if name in visited then Probe.WithdrawalFailed("chain-limit")
    else
      match ScanAll(spec.records, SnapshotOwner(spec, name), address, name, ttl)
      case Broken => Probe.WithdrawalFailed("invalid-response")
      case Scanned(cname, cache) =>
        if cname.None? || cache != [] then Found(cache)
        else if !FollowableLink(cname.value) then Probe.WithdrawalFailed("invalid-response")
        else ExclusionFrom(spec, address, Canonical(cname.value.values[0].target), Max(ttl, cname.value.ttl),
                           visited + [name])
  }

  predicate FollowableLink(record: Record) {
    |record.values| == 1 && record.values[0].Host? && ValidName(Canonical(record.values[0].target))
  }

  function ExclusionSpec(spec: Spec, checked: Name, address: Addr): Probe.WithdrawalDecision {
    ExclusionFrom(spec, address, checked, 0, [])
  }

  method SnapshotExclusion(spec: Spec, checked: Name, address: Addr) returns (decision: Probe.WithdrawalDecision)
    ensures decision == ExclusionSpec(spec, checked, address)
  {
    var name, ttl := checked, 0;
    var visited: seq<Name> := [];
    while |visited| <= Probe.MAX_CNAMES
      invariant ExclusionSpec(spec, checked, address) == ExclusionFrom(spec, address, name, ttl, visited)
      decreases Probe.MAX_CNAMES + 1 - |visited|
    {
      if !Under(spec.domain, name) {
        return Found([]);
      }
      if name in visited {
        return Probe.WithdrawalFailed("chain-limit");
      }
      var owner := ScanOwner(spec, name);
      var scan := ScanOwnerRecords(spec.records, owner, address, name, ttl);
      if scan.Broken? {
        return Probe.WithdrawalFailed("invalid-response");
      }
      if scan.cname.None? || scan.cache != [] {
        return Found(scan.cache);
      }
      if !FollowableLink(scan.cname.value) {
        return Probe.WithdrawalFailed("invalid-response");
      }
      visited := visited + [name];
      ttl := Max(ttl, scan.cname.value.ttl);
      name := Canonical(scan.cname.value.values[0].target);
    }
    return Probe.WithdrawalFailed("chain-limit");
  }

  // ---------- the server's answer ----------

  /** The serving index: compiled zones by apex, and apexes that must not fall through to a parent. */
  datatype Index = Index(zones: map<Name, Zone>, blocked: set<Name>) {
    function Lookup(name: Name): Option<Zone> {
      if name in blocked then None
      else if name in zones then Some(zones[name])
      else if name.Root? then None
      else Lookup(name.parent)
    }
  }

  datatype QType = Of(kind: Kind) | Transfer | Any

  datatype Question = Question(name: Name, qtype: QType, internet: bool)

  /**
   A request: the version of its EDNS option if it has one, whether its opcode is that of a query, and its questions.
   */
  datatype Message = Message(edns: Option<nat>, query: bool, questions: seq<Question>)

  datatype RR = RR(owner: Name, kind: Kind, ttl: nat, value: Value)

  /** `negative` says that the SOA of a negative answer is in the authority section. */
  datatype Reply = Reply(rcode: int, answer: seq<RR>, negative: bool)

  const MAX_LINKS: nat := 8
  const FORMERR := 1
  const NOTIMP := 4
  const BADVERS := 16

  function RRs(owner: Name, kind: Kind, rrset: RRset): seq<RR> {
    seq(|rrset.values|, i requires 0 <= i < |rrset.values| => RR(owner, kind, rrset.ttl, rrset.values[i]))
  }

  predicate Filled(node: Node, kind: Kind) {
    kind in node && node[kind].values != []
  }

  predicate LinkNode(node: Node) {
    Filled(node, CNAME) ==> node[CNAME].values[0].Host?
  }

  /** Every link of the zone is a parsed host name. */
  ghost predicate Chasable(zone: Zone) {
    && (forall n :: n in zone.owners ==> LinkNode(zone.owners[n]))
    && (forall n :: n in zone.wildcards ==> LinkNode(zone.wildcards[n]))
  }

  lemma {:induction false} LookupAboveIsLinkNode(zone: Zone, ancestor: Name)
    requires Chasable(zone) && zone.LookupAbove(ancestor).Some?
    ensures LinkNode(zone.LookupAbove(ancestor).value)
  {
    if ancestor !in zone.owners && ancestor.Sub? {
      LookupAboveIsLinkNode(zone, ancestor.parent);
    }
  }

  lemma LookupIsLinkNode(zone: Zone, name: Name)
    requires Chasable(zone) && zone.Lookup(name).Some?
    ensures LinkNode(zone.Lookup(name).value)
  {
    if name !in zone.owners && name.Sub? {
      LookupAboveIsLinkNode(zone, name.parent);
    }
  }

  function Chase(zone: Zone, index: Index, kind: Kind, name: Name, owner: Name, seen: seq<Name>, answer: seq<RR>): Reply
    requires Chasable(zone)
    decreases MAX_LINKS - |seen|
  {
    var node := zone.Lookup(name);
    if node.None? then Reply(Probe.NXDOMAIN, answer, true)
    else if Filled(node.value, kind) then Reply(Probe.NOERROR, answer + RRs(owner, kind, node.value[kind]), false)
    else if !Filled(node.value, CNAME) then Reply(Probe.NOERROR, answer, true)
    else if |seen| >= MAX_LINKS || name in seen then Reply(Probe.SERVFAIL, [], false)
    else
      LookupIsLinkNode(zone, name);
      var target := node.value[CNAME].values[0].target;
      var linked := answer + RRs(owner, CNAME, node.value[CNAME]);
      var next := Canonical(target);
      if !Under(zone.apex, next) then Reply(Probe.NOERROR, linked, false)
      else
        var authority := index.Lookup(next);
        if authority.None? || authority.value.apex != zone.apex then Reply(Probe.NOERROR, linked, false)
        else Chase(zone, index, kind, next, target, seen + [name], linked)
  }

  ghost predicate Servable(index: Index) {
    forall n :: n in index.zones ==> Chasable(index.zones[n])
  }

  lemma {:induction false} LookupIsChasable(index: Index, name: Name)
    requires Servable(index) && index.Lookup(name).Some?
    ensures Chasable(index.Lookup(name).value)
  {
    if name !in index.blocked && name !in index.zones && name.Sub? {
      LookupIsChasable(index, name.parent);
    }
  }

  function AnswerSpec(index: Index, question: Question): Reply
    requires Servable(index)
  {
    var name := Canonical(question.name);
    var zone := index.Lookup(name);
    if zone.None? || !question.internet then Reply(Probe.REFUSED, [], false)
    else if question.qtype.Transfer? then Reply(Probe.REFUSED, [], false)
    else if question.qtype.Any? then
      Reply(Probe.NOERROR,
            [RR(question.name, Unsupported("HINFO"), zone.value.soaMinimum, Opaque("RFC8482", true))], false)
    else
      LookupIsChasable(index, name);
      Chase(zone.value, index, question.qtype.kind, name, question.name, [], [])
  }

  /** The reply to a whole request: only a well-formed query with one question is looked up. */
  function Response(index: Index, message: Message): Reply
    requires Servable(index)
  {
    if message.edns.Some? && message.edns.value != 0 then Reply(BADVERS, [], false)
    else if !message.query then Reply(NOTIMP, [], false)
    else if |message.questions| != 1 then Reply(FORMERR, [], false)
    else AnswerSpec(index, message.questions[0])
  }

  method Answer(index: Index, message: Message) returns (reply: Reply)
    requires Servable(index)
    ensures reply == Response(index, message)
  {
    if message.edns.Some? && message.edns.value != 0 {
      return Reply(BADVERS, [], false);
    }
    if !message.query {
      return Reply(NOTIMP, [], false);
    }
    if |message.questions| != 1 {
      return Reply(FORMERR, [], false);
    }
    reply := AnswerQuestion(index, message.questions[0]);
  }

  method AnswerQuestion(index: Index, question: Question) returns (reply: Reply)
    requires Servable(index)
    ensures reply == AnswerSpec(index, question)
  {
    var name := Canonical(question.name);
    var found := index.Lookup(name);
    if found.None? || !question.internet {
      return Reply(Probe.REFUSED, [], false);
    }
    var zone := found.value;
    if question.qtype.Transfer? {
      return Reply(Probe.REFUSED, [], false);
    }
    if question.qtype.Any? {
      return Reply(Probe.NOERROR, [RR(question.name, Unsupported("HINFO"), zone.soaMinimum, Opaque("RFC8482", true))],
                   false);
    }
    LookupIsChasable(index, name);
    reply := FollowLinks(zone, index, question.qtype.kind, name, question.name);
  }

  method FollowLinks(zone: Zone, index: Index, kind: Kind, start: Name, startOwner: Name) returns (reply: Reply)
    requires Chasable(zone)
    ensures reply == Chase(zone, index, kind, start, startOwner, [], [])
  {
    var name, owner := start, startOwner;
    var seen: seq<Name> := [];
    var answer: seq<RR> := [];
    while true
      invariant Chase(zone, index, kind, start, startOwner, [], []) 
                == Chase(zone, index, kind, name, owner, seen, answer)
      decreases MAX_LINKS - |seen|
    {
      var node := zone.Find(name);
      if node.None? {
        return Reply(Probe.NXDOMAIN, answer, true);
      }
      if Filled(node.value, kind) {
        return Reply(Probe.NOERROR, answer + RRs(owner, kind, node.value[kind]), false);
      }
      if !Filled(node.value, CNAME) {
        return Reply(Probe.NOERROR, answer, true);
      }
      if |seen| >= MAX_LINKS || name in seen {
        return Reply(Probe.SERVFAIL, [], false);
      }
      LookupIsLinkNode(zone, name);
      answer := answer + RRs(owner, CNAME, node.value[CNAME]);
      seen := seen + [name];
      owner := node.value[CNAME].values[0].target;
      name := Canonical(owner);
      if !Under(zone.apex, name) {
        return Reply(Probe.NOERROR, answer, false);
      }
      var authority := index.Lookup(name);
      if authority.None? || authority.value.apex != zone.apex {
        return Reply(Probe.NOERROR, answer, false);
      }
    }
  }

  // ---------- soundness ----------

  lemma {:induction false} HitsEmpty(record: Record, values: seq<Value>, address: Addr, name: Name, ttl: nat)
    requires Hits(record, values, address, name, ttl) == []
    ensures forall v :: v in values ==> !Carries(v, address)
  {
    if values != [] {
      var rest := values[..|values| - 1];
      HitsEmpty(record, rest, address, name, ttl);
      assert values == rest + [values[|values| - 1]];
    }
  }

  /** A pass that found nothing saw every address record of the owner, and kept its link. */
  lemma {:induction false} CleanScan(records: seq<Record>, owner: Name, address: Addr, name: Name, ttl: nat, i: nat)
    requires ScanAll(records, owner, address, name, ttl).Scanned?
    requires i < |records| && records[i].name == owner
    ensures var scan := ScanAll(records, owner, address, name, ttl);
      && (scan.cache == [] && (records[i].kind == A || records[i].kind == AAAA) ==>
            forall v :: v in records[i].values ==> !Carries(v, address))
      && (records[i].kind == CNAME ==> scan.cname.Some?)
  {
    var rest, last := records[..|records| - 1], records[|records| - 1];
    if i < |rest| {
      CleanScan(rest, owner, address, name, ttl, i);
    } else if (last.kind == A || last.kind == AAAA) && ScanAll(records, owner, address, name, ttl).cache == [] {
      HitsEmpty(last, last.values, address, name, ttl);
    }
  }

  lemma {:induction false} ScannedLink(records: seq<Record>, owner: Name, address: Addr, name: Name, ttl: nat)
    requires ScanAll(records, owner, address, name, ttl).Scanned?
    requires ScanAll(records, owner, address, name, ttl).cname.Some?
    ensures var link := ScanAll(records, owner, address, name, ttl).cname.value;
      link.kind == CNAME && exists i :: 0 <= i < |records| && records[i] == link && link.name == owner
  {
    var rest, last := records[..|records| - 1], records[|records| - 1];
    if last.name != owner || last.kind != CNAME {
      ScannedLink(rest, owner, address, name, ttl);
    }
  }

  lemma {:induction false} ScanNodeRecord(records: seq<Record>, owner: Name, kind: Kind) returns (i: nat)
    requires kind in ScanNode(records, owner)
    ensures i < |records| && records[i].name == owner && records[i].kind == kind
    ensures ScanNode(records, owner)[kind] == RRset(records[i].ttl, records[i].values)
  {
    var last := records[|records| - 1];
    if last.name == owner && last.kind == kind {
      i := |records| - 1;
    } else {
      i := ScanNodeRecord(records[..|records| - 1], owner, kind);
    }
  }

  ghost predicate FreeOf(answer: seq<RR>, address: Addr) {
    forall i :: 0 <= i < |answer| ==> !Carries(answer[i].value, address)
  }

  /** What the server finds at a name is a record the scan read, when it is an address or a link. */
  lemma ServedRecord(spec: Spec, zone: Zone, name: Name, kind: Kind) returns (i: nat)
    requires Accepts(spec) && WellNamed(spec) && zone == Compiled(spec, zone.key, zone.uid)
    requires Under(spec.domain, name) && name != Sub("@", spec.domain)
    requires zone.Lookup(name).Some? && Filled(zone.Lookup(name).value, kind)
    requires kind == A || kind == AAAA || kind == CNAME
    ensures i < |spec.records| && spec.records[i].name == SnapshotOwner(spec, name) && spec.records[i].kind == kind
    ensures zone.Lookup(name).value[kind] == RRset(spec.records[i].ttl, spec.records[i].values)
  {
    LookupRefinesScan(spec, zone, name);
    i := ScanNodeRecord(spec.records, SnapshotOwner(spec, name), kind);
  }

  lemma CompiledIsChasable(spec: Spec, key: Key, uid: string)
    requires Accepts(spec)
    ensures Chasable(Compiled(spec, key, uid))
  {
    var zone := Compiled(spec, key, uid);
    forall n | n in zone.owners
      ensures LinkNode(zone.owners[n])
    {
      LinksAreHosts(spec, n);
      assert CNAME in FullNode(spec, n) ==> FullNode(spec, n)[CNAME] == NodeAt(spec.records, Apex(spec), n)[CNAME];
    }
    forall n | n in zone.wildcards
      ensures LinkNode(zone.wildcards[n])
    {
      LinksAreHosts(spec, Star(n));
    }
  }

  lemma LinksAreHosts(spec: Spec, name: Name)
    requires Accepts(spec)
    ensures LinkNode(NodeAt(spec.records, Apex(spec), name))
  {
    if CNAME in NodeAt(spec.records, Apex(spec), name) {
      var i := NodeFromRecord(spec.records, Apex(spec), name, CNAME);
      assert GoodRecord(Apex(spec), spec.records[i]);
      assert spec.records[i].values[0] in spec.records[i].values;
    }
  }

  lemma RRsFree(owner: Name, kind: Kind, rrset: RRset, address: Addr)
    requires forall v :: v in rrset.values ==> !Carries(v, address)
    ensures FreeOf(RRs(owner, kind, rrset), address)
  {
  }

  /** The link the server follows is the one the scan follows. */
  lemma FollowedLink(spec: Spec, zone: Zone, name: Name, address: Addr, ttl: nat)
    requires Accepts(spec) && WellNamed(spec) && zone == Compiled(spec, zone.key, zone.uid)
    requires Under(spec.domain, name) && name != Sub("@", spec.domain)
    requires zone.Lookup(name).Some? && Filled(zone.Lookup(name).value, CNAME)
    requires ScanAll(spec.records, SnapshotOwner(spec, name), address, name, ttl).Scanned?
    ensures var link := ScanAll(spec.records, SnapshotOwner(spec, name), address, name, ttl).cname;
      link.Some? && zone.Lookup(name).value[CNAME] == RRset(link.value.ttl, link.value.values)
  {
    var i := ServedRecord(spec, zone, name, CNAME);
    CleanScan(spec.records, SnapshotOwner(spec, name), address, name, ttl, i);
    ScannedLink(spec.records, SnapshotOwner(spec, name), address, name, ttl);
    var scan := ScanAll(spec.records, SnapshotOwner(spec, name), address, name, ttl);
    var j :| 0 <= j < |spec.records| && spec.records[j] == scan.cname.value
             && spec.records[j].name == SnapshotOwner(spec, name);
  }

  predicate Askable(spec: Spec, name: Name) {
    Under(spec.domain, name) && name != Sub("@", spec.domain)
  }

  /** What the server finds at a name the scan found clean holds no copy of the address, and its link is the scan's. */
  ghost predicate StepAgrees(spec: Spec, zone: Zone, address: Addr, name: Name, ttl: nat)
    requires Askable(spec, name)
  {
    var scan := ScanAll(spec.records, SnapshotOwner(spec, name), address, name, ttl);
    scan.Scanned? && scan.cache == [] && zone.Lookup(name).Some? ==>
      var node := zone.Lookup(name).value;
      && (forall kind, v :: (kind == A || kind == AAAA) && Filled(node, kind) && v in node[kind].values ==>
            !Carries(v, address))
      && (Filled(node, CNAME) ==>
            scan.cname.Some? && node[CNAME] == RRset(scan.cname.value.ttl, scan.cname.value.values))
  }

  lemma ServerAgrees(spec: Spec, zone: Zone, address: Addr, name: Name, ttl: nat)
    requires Accepts(spec) && WellNamed(spec) && zone == Compiled(spec, zone.key, zone.uid)
    requires Askable(spec, name)
    ensures StepAgrees(spec, zone, address, name, ttl)
  {
    var scan := ScanAll(spec.records, SnapshotOwner(spec, name), address, name, ttl);
    if scan.Scanned? && scan.cache == [] && zone.Lookup(name).Some? {
      var node := zone.Lookup(name).value;
      forall kind, v | (kind == A || kind == AAAA) && Filled(node, kind) && v in node[kind].values
        ensures !Carries(v, address)
      {
        var i := ServedRecord(spec, zone, name, kind);
        CleanScan(spec.records, SnapshotOwner(spec, name), address, name, ttl, i);
      }
      if Filled(node, CNAME) {
        FollowedLink(spec, zone, name, address, ttl);
      }
    }
  }

  lemma {:induction false} ChaseIsSound(spec: Spec, zone: Zone, index: Index, address: Addr, kind: Kind,
                                        name: Name, owner: Name, seen: seq<Name>, answer: seq<RR>, ttl: nat)
    requires forall n, t :: Askable(spec, n) ==> StepAgrees(spec, zone, address, n, t)
    requires Chasable(zone) && zone.apex == spec.domain
    requires kind == A || kind == AAAA
    requires Askable(spec, name)
    requires ExclusionFrom(spec, address, name, ttl, seen).decision.status == Probe.True
    requires FreeOf(answer, address)
    ensures FreeOf(Chase(zone, index, kind, name, owner, seen, answer).answer, address)
    decreases MAX_LINKS - |seen|
  {
    var node := zone.Lookup(name);
    assert StepAgrees(spec, zone, address, name, ttl);
    if node.Some? && Filled(node.value, kind) {
      RRsFree(owner, kind, node.value[kind], address);
    } else if node.Some? && Filled(node.value, CNAME) && |seen| < MAX_LINKS && name !in seen {
      var target := CleanLink(spec, zone, address, name, ttl, seen);
      RRsFree(owner, CNAME, node.value[CNAME], address);
      if Under(zone.apex, Canonical(target)) {
        ChaseIsSound(spec, zone, index, address, kind, Canonical(target), target, seen + [name],
                     answer + RRs(owner, CNAME, node.value[CNAME]), Max(ttl, node.value[CNAME].ttl));
      }
    }
  }

  /** A clean name holds no copy, and its link leads to a clean name. */
  lemma CleanStep(spec: Spec, address: Addr, name: Name, ttl: nat, seen: seq<Name>)
    requires Askable(spec, name) && ExclusionFrom(spec, address, name, ttl, seen).decision.status == Probe.True
    ensures var scan := ScanAll(spec.records, SnapshotOwner(spec, name), address, name, ttl);
      && scan.Scanned? && scan.cache == []
      && (scan.cname.Some? ==>
            && FollowableLink(scan.cname.value)
            && ExclusionFrom(spec, address, Canonical(scan.cname.value.values[0].target),
                             Max(ttl, scan.cname.value.ttl), seen + [name]).decision.status == Probe.True)
  {
  }

  /** Behind a link of a clean name the scan goes on, at a host name, and finds it clean. */
  lemma CleanLink(spec: Spec, zone: Zone, address: Addr, name: Name, ttl: nat, seen: seq<Name>) returns (target: Name)
    requires Chasable(zone) && Askable(spec, name) && StepAgrees(spec, zone, address, name, ttl)
    requires ExclusionFrom(spec, address, name, ttl, seen).decision.status == Probe.True
    requires zone.Lookup(name).Some? && Filled(zone.Lookup(name).value, CNAME)
    ensures var link := zone.Lookup(name).value[CNAME];
      && link.values[0] == Host(target)
      && (forall v :: v in link.values ==> !Carries(v, address))
      && Canonical(target) != Sub("@", spec.domain)
      && ExclusionFrom(spec, address, Canonical(target), Max(ttl, link.ttl), seen + [name]).decision.status
         == Probe.True
  {
    LookupIsLinkNode(zone, name);
    CleanStep(spec, address, name, ttl, seen);
    target := zone.Lookup(name).value[CNAME].values[0].target;
    assert Canonical(target).Sub? && HostLabel(Canonical(target).first);
  }

  /**
   If the snapshot excludes an address at a name, the server that serves this snapshot for that name
   never puts the address into an answer to an A or AAAA question, through any chain of links and
   wildcards and whatever other zones are indexed. The name must not be the label "@" below the apex.
   */
  lemma ExclusionIsSound(spec: Spec, zone: Zone, index: Index, name: Name, address: Addr, message: Message)
    requires Accepts(spec) && WellNamed(spec) && zone == Compiled(spec, zone.key, zone.uid)
    requires Servable(index) && Askable(spec, name) && AsksAddress(message, name)
    requires index.Lookup(name).Some? ==> index.Lookup(name).value == zone
    requires ExclusionSpec(spec, name, address).decision.status == Probe.True
    ensures FreeOf(Response(index, message).answer, address)
  {
    if |message.questions| == 1 {
      QuestionIsSound(spec, zone, index, name, address, message.questions[0]);
    }
  }

  /** Every question of the request is for an address of the name. */
  predicate AsksAddress(message: Message, name: Name) {
    forall q :: q in message.questions ==> Canonical(q.name) == name && q.qtype in {Of(A), Of(AAAA)}
  }

  lemma QuestionIsSound(spec: Spec, zone: Zone, index: Index, name: Name, address: Addr, question: Question)
    requires Accepts(spec) && WellNamed(spec) && zone == Compiled(spec, zone.key, zone.uid)
    requires Servable(index) && Askable(spec, name) && Canonical(question.name) == name
    requires question.qtype == Of(A) || question.qtype == Of(AAAA)
    requires index.Lookup(name).Some? ==> index.Lookup(name).value == zone
    requires ExclusionSpec(spec, name, address).decision.status == Probe.True
    ensures FreeOf(AnswerSpec(index, question).answer, address)
  {
    if index.Lookup(name).Some? && question.internet {
      CompiledIsChasable(spec, zone.key, zone.uid);
      forall n, t | Askable(spec, n)
        ensures StepAgrees(spec, zone, address, n, t)
      {
        ServerAgrees(spec, zone, address, n, t);
      }
      ChaseIsSound(spec, zone, index, address, question.qtype.kind, name, question.name, [], [], 0);
    }
  }

  /** An index that servers can hold: every zone is the compiled form of an accepted snapshot. */
  ghost predicate Loadable(index: Index) {
    forall n :: n in index.zones ==> FromSnapshot(index.zones[n], n)
  }

  ghost predicate FromSnapshot(zone: Zone, apex: Name) {
    exists spec :: Accepts(spec) && WellNamed(spec) && Apex(spec) == apex && zone == Compiled(spec, zone.key, zone.uid)
  }

  /**
   The condition on the index is needed: when another indexed snapshot encloses the name more closely, its
   records answer instead, and they may hold the address the snapshot excludes.
   */
  lemma ChildZoneAnswersInstead() returns (spec: Spec, zone: Zone, index: Index, address: Addr, question: Question)
    ensures Accepts(spec) && WellNamed(spec) && zone == Compiled(spec, zone.key, zone.uid)
    ensures Loadable(index) && Servable(index) && index.zones.Values >= {zone} && Under(spec.domain, question.name)
    ensures Lowercase(question.name) && question.name != Sub("@", spec.domain) && question.qtype == Of(A)
    ensures ExclusionSpec(spec, question.name, address).decision.status == Probe.True
    ensures !FreeOf(AnswerSpec(index, question).answer, address)
  {
    var parent := Sub("z", Root);
    var name := Sub("w", parent);
    assert LowerLabel("z") == "z" && LowerLabel("w") == "w";
    address := V4(1);
    spec := Spec(parent, 1, 60, [], [], "p");
    var below := Spec(name, 1, 60, [], [Record(APEX, A, 60, [Address(address)])], "c");
    SmallSpecs(parent, name, spec, below, address);
    zone, index, question := Shadowed(spec, below, address);
  }

  /** An empty snapshot, and one below it that serves the address at its apex. */
  lemma Shadowed(spec: Spec, below: Spec, address: Addr) returns (zone: Zone, index: Index, question: Question)
    requires Accepts(spec) && WellNamed(spec) && Accepts(below) && WellNamed(below) && address.V4?
    requires spec.records == [] && below.records == [Record(APEX, A, 60, [Address(address)])]
    requires below.domain == Sub("w", spec.domain) && Lowercase(below.domain) && Lowercase(spec.domain)
    ensures zone == Compiled(spec, zone.key, zone.uid) && question == Question(below.domain, Of(A), true)
    ensures Loadable(index) && Servable(index) && index.zones.Values >= {zone}
    ensures ExclusionSpec(spec, below.domain, address).decision.status == Probe.True
    ensures !FreeOf(AnswerSpec(index, question).answer, address)
  {
    zone := Compiled(spec, Key("d", "p"), "p");
    var child := Compiled(below, Key("d", "c"), "c");
    var parent, name := spec.domain, below.domain;
    index := Index(map[parent := zone, name := child], {});
    question := Question(name, Of(A), true);
    CompiledIsLoadable(spec, zone);
    CompiledIsLoadable(below, child);
    Nested(parent, zone, name, child, index);
    NothingScanned(spec, name, address);
    BelowAnswers(below, child, index, question, address);
  }

  lemma CompiledIsLoadable(spec: Spec, zone: Zone)
    requires Accepts(spec) && WellNamed(spec) && zone == Compiled(spec, zone.key, zone.uid)
    ensures FromSnapshot(zone, Apex(spec)) && Chasable(zone)
  {
    CompiledIsChasable(spec, zone.key, zone.uid);
  }

  /** Two snapshots of different apexes can be loaded together, and each answers at its own apex. */
  lemma Nested(parent: Name, zone: Zone, name: Name, child: Zone, index: Index)
    requires index == Index(map[parent := zone, name := child], {}) && parent != name
    requires FromSnapshot(zone, parent) && Chasable(zone) && FromSnapshot(child, name) && Chasable(child)
    ensures Loadable(index) && Servable(index)
    ensures zone in index.zones.Values && index.Lookup(name) == Some(child)
  {
    assert index.zones[parent] == zone;
    forall n | n in index.zones
      ensures FromSnapshot(index.zones[n], n) && Chasable(index.zones[n])
    {
      assert n == parent || n == name;
    }
  }

  lemma BelowAnswers(below: Spec, child: Zone, index: Index, question: Question, address: Addr)
    requires below.records == [Record(APEX, A, 60, [Address(address)])] && Lowercase(below.domain) && address.V4?
    requires child == Compiled(below, child.key, child.uid) && index.Lookup(below.domain) == Some(child)
    requires Servable(index) && question == Question(below.domain, Of(A), true)
    ensures !FreeOf(AnswerSpec(index, question).answer, address)
  {
    ChildHolds(below, child, below.domain, address);
    ServedHere(index, child, below.domain, question, address);
  }

  lemma SmallSpecs(parent: Name, name: Name, spec: Spec, below: Spec, address: Addr)
    requires parent == Sub("z", Root) && name == Sub("w", parent) && Lowercase(name) && Lowercase(parent)
    requires address == V4(1) && spec == Spec(parent, 1, 60, [], [], "p")
    requires below == Spec(name, 1, 60, [], [Record(APEX, A, 60, [Address(address)])], "c")
    ensures Accepts(spec) && WellNamed(spec) && Accepts(below) && WellNamed(below)
  {
    assert GoodRecord(name, below.records[0]);
  }

  lemma NothingScanned(spec: Spec, name: Name, address: Addr)
    requires spec.records == []
    ensures ExclusionSpec(spec, name, address).decision.status == Probe.True
  {
  }

  lemma ChildHolds(spec: Spec, zone: Zone, name: Name, address: Addr)
    requires spec.domain == name && Lowercase(name) && zone == Compiled(spec, zone.key, zone.uid)
    requires spec.records == [Record(APEX, A, 60, [Address(address)])]
    ensures zone.Lookup(name).Some? && A in zone.Lookup(name).value
    ensures zone.Lookup(name).value[A] == RRset(60, [Address(address)])
  {
    assert spec.records[..0] == [];
    assert Owner(name, spec.records[0]) == name;
    assert NodeAt(spec.records, name, name) == map[A := RRset(60, [Address(address)])];
  }

  lemma ServedHere(index: Index, zone: Zone, name: Name, question: Question, address: Addr)
    requires Servable(index) && index.Lookup(name) == Some(zone)
    requires zone.Lookup(name).Some? && A in zone.Lookup(name).value
    requires zone.Lookup(name).value[A] == RRset(60, [Address(address)]) && address.V4?
    requires Lowercase(name) && question == Question(name, Of(A), true)
    ensures !FreeOf(AnswerSpec(index, question).answer, address)
  {
    var reply := AnswerSpec(index, question);
    assert reply.answer == [] + RRs(name, A, zone.Lookup(name).value[A]);
    assert reply.answer[0].value == Address(address);
  }
}
