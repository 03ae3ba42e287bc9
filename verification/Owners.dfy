/**
 Which owner answers for a name: three definitions and their agreement.

 - `Answering`, the declarative rule of sections 2.2.2 and 3.3.1 of RFC 4592;
 - `SnapshotOwner`, the linear scan of the withdrawal evaluator (withdrawal/evaluator.go);
 - `Zone.Lookup`, the indexed lookup of the server (server/zone.go).
 */
module Owners {
  import opened Names
  import opened Zones

  // ---------- the admitted shape of record names ----------

  predicate PlainLabel(text: Label) {
    text != "@" && text != "*" && LowerLabel(text) == text
  }

  /** "@", or lower-case labels in which a wildcard may only come first. */
  predicate NamePattern(name: Name) {
    || name == APEX
    || (name.Sub? && name.first != "@" && LowerLabel(name.first) == name.first && AllLabels(name.parent, PlainLabel))
  }

  predicate WellNamed(spec: Spec) {
    Lowercase(spec.domain) && forall i :: 0 <= i < |spec.records| ==> NamePattern(spec.records[i].name)
  }

  // ---------- the reference rule ----------

  /** `encloser` is the longest existing proper ancestor of `name`. */
  ghost predicate ClosestEncloser(spec: Spec, encloser: Name, name: Name) {
    && encloser != name && Under(encloser, name) && Exists(spec.records, Apex(spec), encloser)
    && forall other :: Under(other, name) && other != name && Exists(spec.records, Apex(spec), other) ==>
         Under(other, encloser)
  }

  /** The owner whose records answer for `name`: itself if it exists, else the wildcard below the closest encloser. */
  ghost predicate Answering(spec: Spec, name: Name, owner: Name) {
    if Exists(spec.records, Apex(spec), name) then owner == name
    else owner.Sub? && owner.first == "*" && ClosestEncloser(spec, owner.parent, name)
  }

  lemma {:induction false} AnsweringIsUnique(spec: Spec, name: Name, left: Name, right: Name)
    requires Answering(spec, name, left) && Answering(spec, name, right)
    ensures left == right
  {
    if !Exists(spec.records, Apex(spec), name) {
      UnderDepth(left.parent, right.parent);
      UnderDepth(right.parent, left.parent);
    }
  }

  // ---------- the linear scan ----------

  /** snapshotNodeExists: a record at the relative name or below it. */
  predicate NodeExists(records: seq<Record>, relative: Name) {
    relative == APEX || exists i :: 0 <= i < |records| && Under(relative, records[i].name)
  }

  method ScanNodeExists(records: seq<Record>, relative: Name) returns (found: bool)
    ensures found == NodeExists(records, relative)
  {
    if relative == APEX {
      return true;
    }
    var i := 0;
    while i < |records|
      invariant 0 <= i <= |records|
      invariant forall j :: 0 <= j < i ==> !Under(relative, records[j].name)
    {
      if Under(relative, records[i].name) {
        return true;
      }
      i := i + 1;
    }
    found := false;
  }

  /** The part after the first dot; a single label is followed by "@". */
  function Above(relative: Name): Name
    requires relative.Sub?
  {
    if relative.parent.Root? then APEX else relative.parent
  }

  function OwnerAbove(records: seq<Record>, relative: Name): Name
    requires relative.Sub?
  {
    if relative == APEX then APEX
    else
      var parent := Above(relative);
      if NodeExists(records, parent) then
        if parent == APEX then Star(Root) else Star(parent)
      else OwnerAbove(records, parent)
  }

  function RelativeOwner(spec: Spec, name: Name): (relative: Name)
    requires Under(spec.domain, name)
    ensures relative.Sub?
  {
    if name == spec.domain then APEX else Relative(name, spec.domain)
  }

  function SnapshotOwner(spec: Spec, name: Name): Name
    requires Under(spec.domain, name)
  {
    var relative := RelativeOwner(spec, name);
    if NodeExists(spec.records, relative) then relative else OwnerAbove(spec.records, relative)
  }

  method ScanOwner(spec: Spec, name: Name) returns (owner: Name)
    requires Under(spec.domain, name)
    ensures owner == SnapshotOwner(spec, name)
  {
    var relative := RelativeOwner(spec, name);
    var found := ScanNodeExists(spec.records, relative);
    if found {
      return relative;
    }
    while relative != APEX
      invariant relative.Sub?
      invariant SnapshotOwner(spec, name) == OwnerAbove(spec.records, relative)
      decreases relative != APEX, relative
    {
      var parent := Above(relative);
      found := ScanNodeExists(spec.records, parent);
      if found {
        return if parent == APEX then Star(Root) else Star(parent);
      }
      relative := parent;
    }
    return APEX;
  }

  /** The absolute owner a relative owner text stands for. */
  function Absolute(apex: Name, relative: Name): Name {
    if relative == APEX then apex else Graft(relative, apex)
  }

  /** The RRsets the scan finds by comparing owner texts. */
  function ScanNode(records: seq<Record>, relative: Name): Node {
    if records == [] then map[]
    else
      var last := records[|records| - 1];
      var node := ScanNode(records[..|records| - 1], relative);
      if last.name == relative then node[last.kind := RRset(last.ttl, last.values)] else node
  }

  // ---------- agreement ----------

  lemma {:induction false} PlainIsLowercase(name: Name)
    requires AllLabels(name, PlainLabel)
    ensures Lowercase(name)
  {
    if name.Sub? {
      PlainIsLowercase(name.parent);
    }
  }

  lemma OwnerOfPattern(apex: Name, record: Record)
    requires NamePattern(record.name)
    ensures Owner(apex, record) == Absolute(apex, record.name)
  {
    if record.name != APEX {
      PlainIsLowercase(record.name.parent);
    }
  }

  /** Relative texts other than "@" name distinct nodes below the apex. */
  lemma AbsoluteInjective(apex: Name, left: Name, right: Name)
    requires left.Sub? && right.Sub?
    ensures Absolute(apex, left) == Absolute(apex, right) <==> left == right
  {
    RelativeOfGraft(left, apex);
    RelativeOfGraft(right, apex);
  }

  /** The scan's existence test is existence in the tree. */
  lemma ScanExistence(spec: Spec, relative: Name)
    requires WellNamed(spec) && relative.Sub? && relative != APEX
    ensures NodeExists(spec.records, relative) <==> Exists(spec.records, Apex(spec), Graft(relative, Apex(spec)))
  {
    var apex := Apex(spec);
    forall i | 0 <= i < |spec.records|
      ensures Under(relative, spec.records[i].name) <==> Under(Graft(relative, apex), Owner(apex, spec.records[i]))
    {
      OwnerOfPattern(apex, spec.records[i]);
      if spec.records[i].name == APEX {
        if Under(Graft(relative, apex), apex) {
          UnderDepth(Graft(relative, apex), apex);
        }
      } else {
        UnderGraft(relative, spec.records[i].name, apex);
      }
    }
  }

  /** Below a missing node the closest encloser does not change. */
  lemma EncloserAbove(spec: Spec, encloser: Name, name: Name)
    requires name.Sub? && !Exists(spec.records, Apex(spec), name.parent)
    requires ClosestEncloser(spec, encloser, name.parent)
    ensures ClosestEncloser(spec, encloser, name)
  {
    UnderDepth(encloser, name.parent);
    UnderDepth(name.parent, name);
    assert Under(encloser, name);
  }

  lemma {:induction false} ScanAbove(spec: Spec, relative: Name)
    requires WellNamed(spec) && relative.Sub? && relative != APEX
    requires !NodeExists(spec.records, relative)
    ensures var owner := OwnerAbove(spec.records, relative);
      && owner.Sub? && owner.first == "*"
      && ClosestEncloser(spec, Graft(owner, Apex(spec)).parent, Graft(relative, Apex(spec)))
    decreases relative
  {
    var apex := Apex(spec);
    var name := Graft(relative, apex);
    ScanExistence(spec, relative);
    if relative.parent.Root? {
    } else if relative.parent == APEX {
      // The text "@" is read as the apex although the label "@" is no node.
      assert !Exists(spec.records, apex, Graft(APEX, apex)) by {
        NoAtNode(spec, APEX);
      }
      assert name.parent == Graft(APEX, apex) == Sub("@", Graft(Root, apex));
      EncloserAbove(spec, apex, name);
    } else {
      ScanExistence(spec, relative.parent);
      if !NodeExists(spec.records, relative.parent) {
        ScanAbove(spec, relative.parent);
        EncloserAbove(spec, Graft(OwnerAbove(spec.records, relative), apex).parent, name);
      }
    }
  }

  lemma {:induction false} PlainBelow(upper: Name, lower: Name)
    requires AllLabels(lower, PlainLabel) && Under(upper, lower)
    ensures AllLabels(upper, PlainLabel)
  {
    if upper != lower {
      PlainBelow(upper, lower.parent);
    }
  }

  /** No record sits at or below a node labelled "@". */
  lemma NoAtNode(spec: Spec, relative: Name)
    requires WellNamed(spec) && relative.Sub? && relative.first == "@"
    ensures !Exists(spec.records, Apex(spec), Graft(relative, Apex(spec)))
  {
    var apex := Apex(spec);
    forall i | 0 <= i < |spec.records|
      ensures !Under(Graft(relative, apex), Owner(apex, spec.records[i]))
    {
      var owner := spec.records[i].name;
      OwnerOfPattern(apex, spec.records[i]);
      if owner == APEX {
        if Under(Graft(relative, apex), apex) {
          UnderDepth(Graft(relative, apex), apex);
        }
      } else {
        UnderGraft(relative, owner, apex);
        if Under(relative, owner) {
          PlainBelow(relative, owner.parent);
        }
      }
    }
  }

  /** A wildcard node exists only where a record sits at it, because "*" may only come first. */
  lemma WildcardNodeHasRecord(spec: Spec, parent: Name)
    requires WellNamed(spec) && Under(Apex(spec), parent)
    ensures Exists(spec.records, Apex(spec), Star(parent)) <==> HasRecord(spec.records, Apex(spec), Star(parent))
  {
    var apex := Apex(spec);
    var relative := Star(Relative(parent, apex));
    assert Graft(relative, apex) == Star(parent);
    UnderDepth(apex, parent);
    if Exists(spec.records, apex, Star(parent)) {
      var i :| 0 <= i < |spec.records| && Under(Star(parent), Owner(apex, spec.records[i]));
      var owner := spec.records[i].name;
      OwnerOfPattern(apex, spec.records[i]);
      if owner == APEX {
        UnderDepth(Star(parent), apex);
      } else {
        UnderGraft(relative, owner, apex);
        if relative != owner {
          PlainBelow(relative, owner.parent);
        }
      }
    }
  }

  /** The linear scan picks the owner RFC 4592 prescribes. */
  lemma ScanFollowsRule(spec: Spec, name: Name)
    requires WellNamed(spec) && Under(spec.domain, name) && name != Sub("@", spec.domain)
    ensures SnapshotOwner(spec, name).Sub?
    ensures Answering(spec, name, Absolute(Apex(spec), SnapshotOwner(spec, name)))
  {
    var relative := RelativeOwner(spec, name);
    if name != spec.domain {
      ScanExistence(spec, relative);
      if !NodeExists(spec.records, relative) {
        ScanAbove(spec, relative);
      }
    }
  }

  /** What the compiled zone gives for the owner that answers. */
  function NodeOf(spec: Spec, owner: Name): Option<Node> {
    if owner in Nodes(spec.records, Apex(spec)) then Some(FullNode(spec, owner)) else None
  }

  lemma {:induction false} LookupAboveFollowsRule(spec: Spec, zone: Zone, ancestor: Name, encloser: Name)
    requires WellNamed(spec) && zone == Compiled(spec, zone.key, zone.uid)
    requires Under(encloser, ancestor) && Exists(spec.records, Apex(spec), encloser)
    requires forall other :: Under(other, ancestor) && Exists(spec.records, Apex(spec), other) ==>
      Under(other, encloser)
    ensures zone.LookupAbove(ancestor) == NodeOf(spec, Star(encloser))
    decreases ancestor
  {
    var apex := Apex(spec);
    UnderTransitive(apex, encloser, ancestor);
    NodesAreExisting(spec.records, apex, ancestor);
    if ancestor == encloser {
      WildParentsHaveRecords(spec.records, apex, encloser);
      NodesAreExisting(spec.records, apex, Star(encloser));
      WildcardNodeHasRecord(spec, encloser);
      UnderDepth(apex, encloser);
      assert Star(encloser) != apex;
      assert FullNode(spec, Star(encloser)) == NodeAt(spec.records, apex, Star(encloser));
      assert encloser in zone.wildcards <==> Star(encloser) in Nodes(spec.records, apex);
    } else {
      assert ancestor !in zone.owners by {
        if Exists(spec.records, apex, ancestor) {
          UnderDepth(ancestor, encloser);
          UnderDepth(encloser, ancestor);
        }
      }
      LookupAboveFollowsRule(spec, zone, ancestor.parent, encloser);
    }
  }

  /** The indexed lookup gives the records of the owner RFC 4592 prescribes. */
  lemma LookupFollowsRule(spec: Spec, zone: Zone, name: Name, owner: Name)
    requires WellNamed(spec) && zone == Compiled(spec, zone.key, zone.uid)
    requires Under(Apex(spec), name) && Answering(spec, name, owner)
    ensures zone.Lookup(name) == NodeOf(spec, owner)
  {
    NodesAreExisting(spec.records, Apex(spec), name);
    if !Exists(spec.records, Apex(spec), name) {
      forall other | Under(other, name.parent) && Exists(spec.records, Apex(spec), other)
        ensures Under(other, owner.parent)
      {
        UnderDepth(other, name.parent);
      }
      LookupAboveFollowsRule(spec, zone, name.parent, owner.parent);
    }
  }

  /** What the evaluator's scan takes the snapshot to say about a relative owner. */
  function ScanAnswer(spec: Spec, relative: Name): Option<Node> {
    if NodeExists(spec.records, relative) then
      Some(ScanNode(spec.records, relative) + if relative == APEX then ApexExtras(spec) else map[])
    else None
  }

  lemma {:induction false} ScanNodeIsNodeAt(records: seq<Record>, apex: Name, relative: Name)
    requires relative.Sub? && forall i :: 0 <= i < |records| ==> NamePattern(records[i].name)
    ensures ScanNode(records, relative) == NodeAt(records, apex, Absolute(apex, relative))
  {
    if records != [] {
      ScanNodeIsNodeAt(records[..|records| - 1], apex, relative);
      OwnerOfPattern(apex, records[|records| - 1]);
      AbsoluteInjective(apex, records[|records| - 1].name, relative);
    }
  }

  lemma ScanAnswerIsNode(spec: Spec, relative: Name)
    requires WellNamed(spec) && relative.Sub?
    ensures ScanAnswer(spec, relative) == NodeOf(spec, Absolute(Apex(spec), relative))
  {
    var apex := Apex(spec);
    ScanNodeIsNodeAt(spec.records, apex, relative);
    NodesAreExisting(spec.records, apex, Absolute(apex, relative));
    if relative != APEX {
      ScanExistence(spec, relative);
      RelativeOfGraft(relative, apex);
    }
  }

  lemma {:induction false} KindsAreSupported(records: seq<Record>, apex: Name, name: Name)
    requires forall i :: 0 <= i < |records| ==> GoodRecord(apex, records[i])
    ensures SOA !in NodeAt(records, apex, name)
  {
    if records != [] {
      KindsAreSupported(records[..|records| - 1], apex, name);
    }
  }

  /** The one exception: the scan answers "@" below the apex with the apex, the server with a wildcard or not at all. */
  lemma AtLabelIsNotApex(spec: Spec, zone: Zone)
    requires Accepts(spec) && WellNamed(spec) && zone == Compiled(spec, zone.key, zone.uid)
    ensures var name := Sub("@", spec.domain); zone.Lookup(name) != ScanAnswer(spec, SnapshotOwner(spec, name))
  {
    var apex := Apex(spec);
    var name := Sub("@", spec.domain);
    assert Graft(APEX, apex) == Sub("@", Graft(Root, apex)) == name;
    NoAtNode(spec, APEX);
    NodesAreExisting(spec.records, apex, name);
    NodesAreExisting(spec.records, apex, apex);
    assert RelativeOwner(spec, name) == APEX by {
      UnderDepth(spec.domain, spec.domain);
      assert Relative(name, spec.domain) == Sub("@", Relative(spec.domain, spec.domain));
    }
    assert SOA in ScanAnswer(spec, APEX).value;
    assert zone.Lookup(name) == zone.LookupAbove(apex);
    KindsAreSupported(spec.records, apex, Star(apex));
  }

  /**
   The indexed lookup refines the linear scan for every name of the zone but one: the scan
   takes the one-label name "@" for the apex itself, which the server does not.
   */
  lemma LookupRefinesScan(spec: Spec, zone: Zone, name: Name)
    requires Accepts(spec) && WellNamed(spec) && zone == Compiled(spec, zone.key, zone.uid)
    requires Under(spec.domain, name)
    ensures zone.Lookup(name) == ScanAnswer(spec, SnapshotOwner(spec, name)) <==> name != Sub("@", spec.domain)
  {
    var apex := Apex(spec);
    if name != Sub("@", spec.domain) {
      ScanFollowsRule(spec, name);
      LookupFollowsRule(spec, zone, name, Absolute(apex, SnapshotOwner(spec, name)));
      ScanAnswerIsNode(spec, SnapshotOwner(spec, name));
    } else {
      AtLabelIsNotApex(spec, zone);
    }
  }
}
