/**
 Current exclusion of one address from every required view (core/dnsprobe/withdrawal.go).

 Loops are methods proved against the functions beside them. The results that matter to callers
 are `TrueMeansAbsent` (what a True decision certifies) and `SightingsAreKept` (no decision,
 failed or not, drops an observed copy of the retired address).
 */
module Probe {
  import opened Names
  import opened Order
  import opened Sequences

  datatype Status = True | False | Unknown

  datatype Decision = Decision(status: Status, reason: string, detail: string, views: seq<string>,
                               negativeTTL: Option<nat>)

  /** Root stands for "no CNAME". */
  datatype Answer = Answer(name: Name, qtype: string, rcode: int, addresses: seq<AddressText>, cname: Name,
                           positiveTTL: Option<nat>, negativeTTL: Option<nat>, failure: string)

  /** `ttl` and `negativeTTL` are the least lifetimes among the positive and the negative replies. */
  datatype View = View(id: string, rcode: int, a: seq<AddressText>, aaaa: seq<AddressText>, chain: seq<Name>,
                       authoritative: bool, failure: string, mismatch: bool, answers: seq<Answer>,
                       ttl: Option<nat>, negativeTTL: Option<nat>)

  datatype CacheEvidence = CacheEvidence(name: Name, view: string, qtype: string,
                                         positiveTTL: Option<nat>, negativeTTL: Option<nat>)

  datatype WithdrawalDecision = WithdrawalDecision(decision: Decision, cache: seq<CacheEvidence>)

  datatype Policy = Policy(mode: string, servers: seq<string>, expectedNameservers: seq<string>)

  /** `verified` is the outcome of the zone evaluation; a fingerprint identifies its policy. */
  datatype ZoneEvidence = ZoneEvidence(zone: Name, policy: Policy, verified: bool, authorities: seq<string>)

  datatype Request = Request(name: Name, zone: Name, policy: Policy, evidence: Option<ZoneEvidence>,
                             withdrawalAddress: AddressText)

  const NOERROR := 0
  const SERVFAIL := 2
  const NXDOMAIN := 3
  const REFUSED := 5
  const MAX_CNAMES: nat := 8

  const FAMILIES: seq<string> := ["A", "AAAA"]

  const VERIFIED := Decision(True, "WithdrawalVerified", "", [], None)

  function FailureCode(code: string): string {
    if code in {"timeout", "SERVFAIL", "REFUSED", "transport", "invalid-response", "resolver-config", "chain-limit",
                "probe-limit", "negative-soa-missing"}
    then code else "transport"
  }

  function WithdrawalFailed(code: string): WithdrawalDecision {
    WithdrawalDecision(Decision(Unknown, "DNSProbeFailed", FailureCode(code), [], None), [])
  }

  function MaxTTL(current: Option<nat>, next: Option<nat>): Option<nat> {
    if next.Some? && (current.None? || next.value > current.value) then next else current
  }

  // ---------- one view ----------

  function CanonicalAll(names: seq<Name>): (out: seq<Name>)
    ensures |out| == |names|
  {
    seq(|names|, i requires 0 <= i < |names| => Canonical(names[i]))
  }

  function OwnersOf(name: Name, view: View): seq<Name> {
    [Canonical(name)] + CanonicalAll(view.chain)
  }

  ghost predicate DistinctValid(owners: seq<Name>) {
    && (forall i :: 0 <= i < |owners| ==> ValidName(owners[i]))
    && forall i, j :: 0 <= i < j < |owners| ==> owners[i] != owners[j]
  }

  method CheckOwners(owners: seq<Name>) returns (ok: bool)
    ensures ok <==> DistinctValid(owners)
  {
    var seen: set<Name> := {};
    var i := 0;
    while i < |owners|
      invariant 0 <= i <= |owners|
      invariant forall n :: n in seen <==> n in owners[..i]
      invariant DistinctValid(owners[..i])
    {
      if owners[i] in seen || !ValidName(owners[i]) {
        assert owners[i] in seen ==> exists j :: 0 <= j < i && owners[..i][j] == owners[i];
        return false;
      }
      assert owners[..i + 1] == owners[..i] + [owners[i]];
      seen := seen + {owners[i]};
      i := i + 1;
    }
    assert owners[..i] == owners;
    ok := true;
  }

  function AnswerKey(answer: Answer): string {
    Text(answer.name) + "\0" + answer.qtype
  }

  predicate WrongFamily(qtype: string, text: AddressText) {
    || text.Malformed?
    || text.addr.Zone() != ""
    || (qtype == "A" && !text.addr.Is4())
    || (qtype == "AAAA" && !text.addr.Is6())
  }

  predicate Holds(answer: Answer, address: Addr) {
    exists v :: v in answer.addresses && v.Is(address)
  }

  predicate Unreadable(answer: Answer) {
    exists v :: v in answer.addresses && WrongFamily(answer.qtype, v)
  }

  /** Where the address was seen among a view's answers: the last type, and each family. */
  datatype Presence = Presence(qtype: string, inA: bool, inAAAA: bool)

  function Seen(answers: seq<Answer>, address: Addr): Presence {
    if answers == [] then Presence("", false, false)
    else
      var last := answers[|answers| - 1];
      var before := Seen(answers[..|answers| - 1], address);
      if Holds(last, address) then
        Presence(last.qtype, before.inA || last.qtype == "A", before.inAAAA || last.qtype == "AAAA")
      else before
  }

  method ScanAddresses(answers: seq<Answer>, address: Addr) returns (presence: Option<Presence>)
    ensures presence.None? <==> exists i :: 0 <= i < |answers| && Unreadable(answers[i])
    ensures presence.Some? ==> presence.value == Seen(answers, address)
  {
    var seen := Presence("", false, false);
    var i := 0;
    while i < |answers|
      invariant 0 <= i <= |answers|
      invariant seen == Seen(answers[..i], address)
      invariant forall j :: 0 <= j < i ==> !Unreadable(answers[j])
    {
      var answer := answers[i];
      ghost var before := seen;
      var j := 0;
      while j < |answer.addresses|
        invariant 0 <= j <= |answer.addresses|
        invariant forall k :: 0 <= k < j ==> !WrongFamily(answer.qtype, answer.addresses[k])
        invariant seen == if exists k :: 0 <= k < j && answer.addresses[k].Is(address)
                          then Presence(answer.qtype, before.inA || answer.qtype == "A",
                                        before.inAAAA || answer.qtype == "AAAA")
                          else before
      {
        var value := answer.addresses[j];
        if WrongFamily(answer.qtype, value) {
          assert Unreadable(answers[i]);
          return None;
        }
        if value.Is(address) {
          seen := Presence(answer.qtype, seen.inA || answer.qtype == "A", seen.inAAAA || answer.qtype == "AAAA");
        }
        j := j + 1;
      }
      assert answers[..i + 1][..i] == answers[..i];
      i := i + 1;
    }
    assert answers[..i] == answers;
    presence := Some(seen);
  }

  predicate Matches(answer: Answer, owner: Name, family: string) {
    Canonical(answer.name) == owner && answer.qtype == family
  }

  /** The index of the only answer for an owner and family; none when it is missing or repeated. */
  ghost predicate Lone(answers: seq<Answer>, owner: Name, family: string, j: int) {
    && 0 <= j < |answers| && Matches(answers[j], owner, family)
    && forall k :: 0 <= k < |answers| && Matches(answers[k], owner, family) ==> k == j
  }

  function Matching(answers: seq<Answer>, owner: Name, family: string): seq<Answer> {
    if answers == [] then []
    else
      var last := answers[|answers| - 1];
      Matching(answers[..|answers| - 1], owner, family) + if Matches(last, owner, family) then [last] else []
  }

  method FindAnswer(answers: seq<Answer>, owner: Name, family: string) returns (found: Option<Answer>)
    ensures found.Some? <==> |Matching(answers, owner, family)| == 1
    ensures found.Some? ==> Matching(answers, owner, family) == [found.value]
  {
    found := None;
    var j := 0;
    while j < |answers|
      invariant 0 <= j <= |answers|
      invariant found.None? ==> Matching(answers[..j], owner, family) == []
      invariant found.Some? ==> Matching(answers[..j], owner, family) == [found.value]
    {
      assert answers[..j + 1][..j] == answers[..j];
      if Matches(answers[j], owner, family) {
        if found.Some? {
          MatchingGrows(answers, owner, family, j + 1);
          return None;
        }
        found := Some(answers[j]);
      }
      j := j + 1;
    }
    assert answers[..j] == answers;
  }

  lemma {:induction false} MatchingGrows(answers: seq<Answer>, owner: Name, family: string, j: nat)
    requires j <= |answers|
    ensures |Matching(answers, owner, family)| >= |Matching(answers[..j], owner, family)|
  {
    if j < |answers| {
      var rest := answers[..|answers| - 1];
      MatchingGrows(rest, owner, family, j);
      assert rest[..j] == answers[..j];
    } else {
      assert answers[..j] == answers;
    }
  }

  function Normalized(values: seq<AddressText>): set<AddressText> {
    set v | v in values :: if v.Parsed? then Parsed(v.addr.Unmap()) else v
  }

  /** The evidence of one owner and family, or the failure code of the first broken requirement. */
  function SlotEvidence(view: View, presence: Presence, owners: seq<Name>, answers: seq<Answer>, i: nat,
                        family: string): (item: Result<CacheEvidence>)
    requires i < |owners|
    ensures item.Err? ==> item.error != ""
  {
    var matching := Matching(answers, owners[i], family);
    if |matching| != 1 then Err("invalid-response")
    else
      var found := matching[0];
      if found.failure != "" then Err(found.failure)
      else if found.rcode != NOERROR && found.rcode != NXDOMAIN then Err("invalid-response")
      else
        var terminal := i == |owners| - 1;
        var expected := if family == "AAAA" then view.aaaa else view.a;
        if !terminal && (found.rcode != NOERROR || Canonical(found.cname) != owners[i + 1] || found.addresses != []
                         || found.positiveTTL.None?) then
          Err("invalid-response")
        else if terminal && (found.rcode != view.rcode || Normalized(found.addresses) != Normalized(expected)) then
          Err("invalid-response")
        else if terminal && (found.cname != Root || (found.rcode == NXDOMAIN && found.addresses != [])) then
          Err("invalid-response")
        else if terminal && found.addresses == [] && found.negativeTTL.None? then Err("negative-soa-missing")
        else if terminal && found.addresses != [] && found.positiveTTL.None? then Err("invalid-response")
        else
          var keep := presence.qtype != "" && (found.cname != Root || (family == "A" && presence.inA)
                                               || (family == "AAAA" && presence.inAAAA));
          Ok(CacheEvidence(owners[i], view.id, family,
                           if keep then found.positiveTTL else None,
                           if terminal && found.addresses == [] then found.negativeTTL else None))
  }

  datatype Evidence = Evidence(cache: seq<CacheEvidence>, qtype: string, failure: string)

  /** The judgement of the answer for owner i and a family. */
  function Slots(view: View, presence: Presence, owners: seq<Name>, answers: seq<Answer>)
    : (nat, string) -> Result<CacheEvidence>
  {
    (i: nat, family: string) =>
      if i < |owners| then SlotEvidence(view, presence, owners, answers, i, family) else Err("invalid-response")
  }

  /** From owner i and family f on, collect the evidence of each slot up to the first that fails. */
  function SlotsFrom(check: (nat, string) -> Result<CacheEvidence>, qtype: string, count: nat, i: nat, f: nat,
                     cache: seq<CacheEvidence>): Evidence
    requires i <= count && f <= 2
    decreases count - i, 2 - f
  {
    if i == count then Evidence(Sort(cache, CacheKey), qtype, "")
    else if f == 2 then SlotsFrom(check, qtype, count, i + 1, 0, cache)
    else
      match check(i, FAMILIES[f])
      case Err(code) => Evidence(cache, qtype, code)
      case Ok(item) => SlotsFrom(check, qtype, count, i, f + 1, cache + [item])
  }

  function CacheKey(item: CacheEvidence): string {
    Text(item.name) + "\0" + item.qtype
  }

  ghost function ViewEvidence(name: Name, address: Addr, view: View): Evidence {
    var owners := OwnersOf(name, view);
    var answers := Sort(view.answers, AnswerKey);
    if view.failure != "" then Evidence([], "", view.failure)
    else if view.rcode != NOERROR && view.rcode != NXDOMAIN then
      Evidence([], "", if view.rcode == REFUSED then "REFUSED"
                       else if view.rcode == SERVFAIL then "SERVFAIL" else "invalid-response")
    else if view.mismatch || |view.chain| > MAX_CNAMES then Evidence([], "", "chain-limit")
    else if !DistinctValid(owners) || |view.answers| != 2 * |owners| then Evidence([], "", "invalid-response")
    else if exists i :: 0 <= i < |answers| && Unreadable(answers[i]) then Evidence([], "", "invalid-response")
    else
      var presence := Seen(answers, address);
      SlotsFrom(Slots(view, presence, owners, answers), presence.qtype, |owners|, 0, 0, [])
  }

  method WithdrawalViewEvidence(name: Name, address: Addr, view: View) returns (evidence: Evidence)
    ensures evidence == ViewEvidence(name, address, view)
  {
    if view.failure != "" {
      return Evidence([], "", view.failure);
    }
    if view.rcode != NOERROR && view.rcode != NXDOMAIN {
      var code := "invalid-response";
      if view.rcode == SERVFAIL {
        code := "SERVFAIL";
      }
      if view.rcode == REFUSED {
        code := "REFUSED";
      }
      return Evidence([], "", code);
    }
    if view.mismatch || |view.chain| > MAX_CNAMES {
      return Evidence([], "", "chain-limit");
    }
    var owners := OwnersOf(name, view);
    var distinct := CheckOwners(owners);
    if !distinct || |view.answers| != 2 * |owners| {
      return Evidence([], "", "invalid-response");
    }
    var answers := Sort(view.answers, AnswerKey);
    var presence := ScanAddresses(answers, address);
    if presence.None? {
      return Evidence([], "", "invalid-response");
    }
    evidence := CollectSlots(view, presence.value, owners, answers);
  }

  method CollectSlots(view: View, presence: Presence, owners: seq<Name>, answers: seq<Answer>)
    returns (evidence: Evidence)
    ensures evidence == SlotsFrom(Slots(view, presence, owners, answers), presence.qtype, |owners|, 0, 0, [])
  {
    ghost var check := Slots(view, presence, owners, answers);
    var cache := [];
    var i := 0;
    while i < |owners|
      invariant 0 <= i <= |owners|
      invariant SlotsFrom(check, presence.qtype, |owners|, 0, 0, [])
                == SlotsFrom(check, presence.qtype, |owners|, i, 0, cache)
    {
      var failure: Option<string>;
      cache, failure := CollectFamilies(check, view, presence, owners, answers, i, cache);
      if failure.Some? {
        return Evidence(cache, presence.qtype, failure.value);
      }
      i := i + 1;
    }
    evidence := Evidence(Sort(cache, CacheKey), presence.qtype, "");
  }

  method CollectFamilies(ghost check: (nat, string) -> Result<CacheEvidence>, view: View, presence: Presence,
                         owners: seq<Name>, answers: seq<Answer>, i: nat, before: seq<CacheEvidence>)
    returns (cache: seq<CacheEvidence>, failure: Option<string>)
    requires i < |owners|
    requires forall family :: check(i, family) == SlotEvidence(view, presence, owners, answers, i, family)
    ensures SlotsFrom(check, presence.qtype, |owners|, i, 0, before) ==
      if failure.None? then SlotsFrom(check, presence.qtype, |owners|, i + 1, 0, cache)
      else Evidence(cache, presence.qtype, failure.value)
  {
    cache := before;
    var f := 0;
    while f < 2
      invariant 0 <= f <= 2
      invariant SlotsFrom(check, presence.qtype, |owners|, i, 0, before)
                == SlotsFrom(check, presence.qtype, |owners|, i, f, cache)
    {
      var item := CheckSlot(view, presence, owners, answers, i, FAMILIES[f]);
      assert item == check(i, FAMILIES[f]);
      if item.Err? {
        return cache, Some(item.error);
      }
      cache := cache + [item.value];
      f := f + 1;
    }
    failure := None;
  }

  method CheckSlot(view: View, presence: Presence, owners: seq<Name>, answers: seq<Answer>, i: nat, family: string)
    returns (result: Result<CacheEvidence>)
    requires i < |owners|
    ensures result == SlotEvidence(view, presence, owners, answers, i, family)
  {
    var answer := FindAnswer(answers, owners[i], family);
    if answer.None? {
      return Err("invalid-response");
    }
    var found := answer.value;
    if found.failure != "" {
      return Err(found.failure);
    }
    if found.rcode != NOERROR && found.rcode != NXDOMAIN {
      return Err("invalid-response");
    }
    var item := CacheEvidence(owners[i], view.id, family, None, None);
    if i < |owners| - 1 {
      if found.rcode != NOERROR || Canonical(found.cname) != owners[i + 1] || |found.addresses| != 0
         || found.positiveTTL.None? {
        return Err("invalid-response");
      }
    } else {
      var terminal := view.a;
      if family == "AAAA" {
        terminal := view.aaaa;
      }
      if found.rcode != view.rcode || Normalized(found.addresses) != Normalized(terminal) {
        return Err("invalid-response");
      }
      if found.cname != Root || (found.rcode == NXDOMAIN && |found.addresses| != 0) {
        return Err("invalid-response");
      }
      if |found.addresses| == 0 {
        if found.negativeTTL.None? {
          return Err("negative-soa-missing");
        }
        item := item.(negativeTTL := found.negativeTTL);
      } else if found.positiveTTL.None? {
        return Err("invalid-response");
      }
    }
    if presence.qtype != "" && (found.cname != Root || (family == "A" && presence.inA)
                                || (family == "AAAA" && presence.inAAAA)) {
      item := item.(positiveTTL := found.positiveTTL);
    }
    result := Ok(item);
  }

  // ---------- all views ----------

  function ViewKey(view: View): string {
    view.id
  }

  ghost predicate HasView(views: seq<View>, id: string) {
    exists i :: 0 <= i < |views| && views[i].id == id
  }

  ghost predicate HasAuthority(views: seq<View>, id: string) {
    exists i :: 0 <= i < |views| && views[i].id == id && views[i].authoritative
  }

  function RecursiveID(server: string): string {
    "recursive/" + server
  }

  function AuthorityID(authority: string, server: string): string {
    "authority/" + authority + "/via/" + server
  }

  /** Every configured view answered, and every authority through every server when authorities are expected. */
  ghost predicate RequiredPresent(request: Request, views: seq<View>) {
    && request.policy.servers != [] && views != []
    && (forall s :: s in request.policy.servers ==> HasView(views, RecursiveID(s)))
    && (request.policy.expectedNameservers != [] ==>
          && request.evidence.Some?
          && request.evidence.value.zone == request.zone
          && request.evidence.value.policy == request.policy
          && request.evidence.value.verified
          && forall a, s :: a in request.evidence.value.authorities && s in request.policy.servers ==>
               HasAuthority(views, AuthorityID(a, s)))
  }

  method CheckView(views: seq<View>, id: string, authoritative: bool) returns (found: bool)
    ensures found <==> if authoritative then HasAuthority(views, id) else HasView(views, id)
  {
    var i := 0;
    while i < |views|
      invariant 0 <= i <= |views|
      invariant forall j :: 0 <= j < i ==> !(views[j].id == id && (authoritative ==> views[j].authoritative))
    {
      if views[i].id == id && (!authoritative || views[i].authoritative) {
        return true;
      }
      i := i + 1;
    }
    found := false;
  }

  method CheckRequired(request: Request, views: seq<View>) returns (ok: bool)
    ensures ok <==> RequiredPresent(request, views)
  {
    var servers := request.policy.servers;
    if |servers| == 0 || |views| == 0 {
      return false;
    }
    var i := 0;
    while i < |servers|
      invariant 0 <= i <= |servers|
      invariant forall s :: s in servers[..i] ==> HasView(views, RecursiveID(s))
    {
      var found := CheckView(views, RecursiveID(servers[i]), false);
      if !found {
        return false;
      }
      i := i + 1;
    }
    if |request.policy.expectedNameservers| != 0 {
      if request.evidence.None? || request.evidence.value.zone != request.zone
         || request.evidence.value.policy != request.policy || !request.evidence.value.verified {
        return false;
      }
      ok := CheckAuthorities(views, request.evidence.value.authorities, servers);
      return;
    }
    ok := true;
  }

  method CheckAuthorities(views: seq<View>, authorities: seq<string>, servers: seq<string>) returns (ok: bool)
    ensures ok <==> forall a, s :: a in authorities && s in servers ==> HasAuthority(views, AuthorityID(a, s))
  {
    var i := 0;
    while i < |authorities|
      invariant 0 <= i <= |authorities|
      invariant forall a, s :: a in authorities[..i] && s in servers ==> HasAuthority(views, AuthorityID(a, s))
    {
      var j := 0;
      while j < |servers|
        invariant 0 <= j <= |servers|
        invariant forall s :: s in servers[..j] ==> HasAuthority(views, AuthorityID(authorities[i], s))
      {
        var found := CheckView(views, AuthorityID(authorities[i], servers[j]), true);
        if !found {
          assert authorities[i] in authorities && servers[j] in servers;
          return false;
        }
        j := j + 1;
      }
      i := i + 1;
    }
    ok := true;
  }

  /** Positive evidence of one view that holds the address: its copies, and the links leading to them. */
  predicate KeptPositive(answer: Answer, inA: bool, inAAAA: bool) {
    && answer.positiveTTL.Some?
    && (answer.cname != Root || (answer.qtype == "A" && inA) || (answer.qtype == "AAAA" && inAAAA))
  }

  predicate PresentIn(view: View, address: Addr, family: string) {
    exists i :: 0 <= i < |view.answers| && view.answers[i].qtype == family && Holds(view.answers[i], address)
  }

  function Positives(view: View, answers: seq<Answer>, inA: bool, inAAAA: bool): seq<CacheEvidence> {
    if answers == [] then []
    else
      var last := answers[|answers| - 1];
      Positives(view, answers[..|answers| - 1], inA, inAAAA)
      + if KeptPositive(last, inA, inAAAA)
        then [CacheEvidence(last.name, view.id, last.qtype, last.positiveTTL, None)] else []
  }

  function ViewPositives(view: View, address: Addr): seq<CacheEvidence> {
    var inA, inAAAA := PresentIn(view, address, "A"), PresentIn(view, address, "AAAA");
    if !inA && !inAAAA then [] else Positives(view, view.answers, inA, inAAAA)
  }

  function AllPositives(views: seq<View>, address: Addr): seq<CacheEvidence> {
    if views == [] then []
    else AllPositives(views[..|views| - 1], address) + ViewPositives(views[|views| - 1], address)
  }

  function PositiveKey(item: CacheEvidence): string {
    item.view + "\0" + Text(item.name) + "\0" + item.qtype
  }

  function PositiveEvidence(views: seq<View>, address: Addr): seq<CacheEvidence> {
    Sort(AllPositives(views, address), PositiveKey)
  }

  method PositiveWithdrawalEvidence(views: seq<View>, address: Addr) returns (cache: seq<CacheEvidence>)
    ensures cache == PositiveEvidence(views, address)
  {
    cache := [];
    var i := 0;
    while i < |views|
      invariant 0 <= i <= |views|
      invariant cache == AllPositives(views[..i], address)
    {
      var view := views[i];
      var inA, inAAAA := FindPresence(view, address);
      assert views[..i + 1][..i] == views[..i];
      if inA || inAAAA {
        var found := CollectPositives(view, inA, inAAAA);
        cache := cache + found;
      }
      i := i + 1;
    }
    assert views[..i] == views;
    cache := Sort(cache, PositiveKey);
  }

  method FindPresence(view: View, address: Addr) returns (inA: bool, inAAAA: bool)
    ensures inA == PresentIn(view, address, "A") && inAAAA == PresentIn(view, address, "AAAA")
  {
    inA, inAAAA := false, false;
    var j := 0;
    while j < |view.answers|
      invariant 0 <= j <= |view.answers|
      invariant inA <==> exists k :: 0 <= k < j && view.answers[k].qtype == "A" && Holds(view.answers[k], address)
      invariant inAAAA <==> exists k :: 0 <= k < j && view.answers[k].qtype == "AAAA" && Holds(view.answers[k], address)
    {
      if Holds(view.answers[j], address) {
        inA := inA || view.answers[j].qtype == "A";
        inAAAA := inAAAA || view.answers[j].qtype == "AAAA";
      }
      j := j + 1;
    }
  }

  method CollectPositives(view: View, inA: bool, inAAAA: bool) returns (cache: seq<CacheEvidence>)
    ensures cache == Positives(view, view.answers, inA, inAAAA)
  {
    cache := [];
    var j := 0;
    while j < |view.answers|
      invariant 0 <= j <= |view.answers|
      invariant cache == Positives(view, view.answers[..j], inA, inAAAA)
    {
      assert view.answers[..j + 1][..j] == view.answers[..j];
      var answer := view.answers[j];
      if KeptPositive(answer, inA, inAAAA) {
        cache := cache + [CacheEvidence(answer.name, view.id, answer.qtype, answer.positiveTTL, None)];
      }
      j := j + 1;
    }
    assert view.answers[..j] == view.answers;
  }

  function MaxNegative(current: Option<nat>, cache: seq<CacheEvidence>): Option<nat> {
    if cache == [] then current else MaxTTL(MaxNegative(current, cache[..|cache| - 1]), cache[|cache| - 1].negativeTTL)
  }

  ghost function Failed(code: string, views: seq<View>, address: Addr): WithdrawalDecision {
    WithdrawalFailed(code).(cache := PositiveEvidence(views, address))
  }

  /** The pass over the sorted views from index i; `check` judges one view, `failed` ends the pass. */
  ghost function FoldViews(check: View -> Evidence, failed: string -> WithdrawalDecision, views: seq<View>, i: nat,
                           sofar: WithdrawalDecision): WithdrawalDecision
    requires i <= |views|
    decreases |views| - i
  {
    if i == |views| then sofar
    else if i > 0 && views[i - 1].id == views[i].id then failed("invalid-response")
    else
      var evidence := check(views[i]);
      if evidence.failure != "" then failed(evidence.failure)
      else FoldViews(check, failed, views, i + 1, Absorb(sofar, views[i].id, evidence))
  }

  function Absorb(sofar: WithdrawalDecision, id: string, evidence: Evidence): WithdrawalDecision {
    var decision := sofar.decision.(views := sofar.decision.views + [id],
                                    negativeTTL := MaxNegative(sofar.decision.negativeTTL, evidence.cache));
    WithdrawalDecision(
      if evidence.qtype != "" && decision.status == True
      then decision.(status := False, reason := "DNSStillResolves", detail := evidence.qtype)
      else decision,
      sofar.cache + evidence.cache)
  }

  ghost function EvaluateSpec(request: Request, views: seq<View>): WithdrawalDecision {
    if request.withdrawalAddress.Malformed? || request.withdrawalAddress.addr.Zone() != "" then
      WithdrawalFailed("invalid-response")
    else
      var address := request.withdrawalAddress.addr.Unmap();
      if !RequiredPresent(request, views) then Failed("invalid-response", views, address)
      else Pass(request.name, address, views)
  }

  ghost function Pass(name: Name, address: Addr, views: seq<View>): WithdrawalDecision {
    FoldViews((view: View) => ViewEvidence(name, address, view), (code: string) => Failed(code, views, address),
              Sort(views, ViewKey), 0, WithdrawalDecision(VERIFIED, []))
  }

  method EvaluateWithdrawal(request: Request, views: seq<View>) returns (result: WithdrawalDecision)
    ensures result == EvaluateSpec(request, views)
  {
    if request.withdrawalAddress.Malformed? || request.withdrawalAddress.addr.Zone() != "" {
      return WithdrawalFailed("invalid-response");
    }
    var address := request.withdrawalAddress.addr.Unmap();
    var present := CheckRequired(request, views);
    if !present {
      result := Fail("invalid-response", views, address);
      return;
    }
    result := CheckViews(request.name, address, views);
  }

  method CheckViews(name: Name, address: Addr, views: seq<View>) returns (result: WithdrawalDecision)
    ensures result == Pass(name, address, views)
  {
    ghost var check := (view: View) => ViewEvidence(name, address, view);
    ghost var failed := (code: string) => Failed(code, views, address);
    var sorted := Sort(views, ViewKey);
    var decision := WithdrawalDecision(VERIFIED, []);
    var i := 0;
    while i < |sorted|
      invariant 0 <= i <= |sorted|
      invariant Pass(name, address, views) == FoldViews(check, failed, sorted, i, decision)
    {
      if i > 0 && sorted[i - 1].id == sorted[i].id {
        result := Fail("invalid-response", views, address);
        return;
      }
      var evidence := WithdrawalViewEvidence(name, address, sorted[i]);
      if evidence.failure != "" {
        result := Fail(evidence.failure, views, address);
        return;
      }
      decision := Absorb(decision, sorted[i].id, evidence);
      i := i + 1;
    }
    result := decision;
  }

  method Fail(code: string, views: seq<View>, address: Addr) returns (result: WithdrawalDecision)
    ensures result == Failed(code, views, address)
  {
    var cache := PositiveWithdrawalEvidence(views, address);
    result := WithdrawalFailed(code).(cache := cache);
  }

  // ---------- what one clean view certifies ----------

  /** The answers of a view are exactly one per owner and family, and the links form its chain. */
  ghost predicate Complete(name: Name, view: View) {
    CompleteFor(OwnersOf(name, view), view)
  }

  ghost predicate CompleteFor(owners: seq<Name>, view: View)
    requires owners != []
  {
    && DistinctValid(owners)
    && |view.answers| == 2 * |owners|
    && (forall i, f :: 0 <= i < |owners| && f in FAMILIES ==> AnsweredOnce(view.answers, owners[i], f))
    && (forall j :: 0 <= j < |view.answers| ==> InSomeSlot(view.answers[j], owners))
    && forall i, a :: 0 <= i < |owners| && a in view.answers && Canonical(a.name) == owners[i] ==> Linked(owners, i, a)
  }

  /** An answer links to the next owner of the chain, or ends it. */
  predicate Linked(owners: seq<Name>, i: nat, answer: Answer)
    requires i < |owners|
  {
    if i < |owners| - 1 then Canonical(answer.cname) == owners[i + 1] && answer.addresses == []
    else answer.cname == Root
  }

  ghost predicate AnsweredOnce(answers: seq<Answer>, owner: Name, family: string) {
    exists j :: Lone(answers, owner, family, j)
  }

  ghost predicate AbsentFrom(address: Addr, view: View) {
    forall j :: 0 <= j < |view.answers| ==> !Holds(view.answers[j], address)
  }

  lemma {:induction false} MatchingCounts(answers: seq<Answer>, owner: Name, family: string, answer: Answer)
    ensures multiset(Matching(answers, owner, family))[answer]
            == if Matches(answer, owner, family) then multiset(answers)[answer] else 0
  {
    if answers != [] {
      var rest, last := answers[..|answers| - 1], answers[|answers| - 1];
      MatchingCounts(rest, owner, family, answer);
      assert answers == rest + [last];
    }
  }

  lemma MatchingIgnoresOrder(left: seq<Answer>, right: seq<Answer>, owner: Name, family: string)
    requires multiset(left) == multiset(right)
    ensures multiset(Matching(left, owner, family)) == multiset(Matching(right, owner, family))
    ensures |Matching(left, owner, family)| == |Matching(right, owner, family)|
  {
    forall answer
      ensures multiset(Matching(left, owner, family))[answer] == multiset(Matching(right, owner, family))[answer]
    {
      MatchingCounts(left, owner, family, answer);
      MatchingCounts(right, owner, family, answer);
    }
    assert multiset(Matching(left, owner, family)) == multiset(Matching(right, owner, family));
    assert |multiset(Matching(left, owner, family))| == |Matching(left, owner, family)|;
  }

  lemma {:induction false} NoMatch(answers: seq<Answer>, owner: Name, family: string)
    requires Matching(answers, owner, family) == []
    ensures forall k :: 0 <= k < |answers| ==> !Matches(answers[k], owner, family)
  {
    if answers != [] {
      var rest := answers[..|answers| - 1];
      NoMatch(rest, owner, family);
      assert forall k :: 0 <= k < |rest| ==> rest[k] == answers[k];
    }
  }

  lemma {:induction false} LoneIndex(answers: seq<Answer>, owner: Name, family: string) returns (j: int)
    requires |Matching(answers, owner, family)| == 1
    ensures Lone(answers, owner, family, j) && Matching(answers, owner, family) == [answers[j]]
  {
    var rest, last := answers[..|answers| - 1], answers[|answers| - 1];
    assert forall k :: 0 <= k < |rest| ==> rest[k] == answers[k];
    if Matches(last, owner, family) {
      j := |answers| - 1;
      NoMatch(rest, owner, family);
    } else {
      j := LoneIndex(rest, owner, family);
    }
  }

  lemma {:induction false} DistinctSize(indices: seq<int>)
    requires forall s, t :: 0 <= s < t < |indices| ==> indices[s] != indices[t]
    ensures |(set x | x in indices)| == |indices|
  {
    if indices != [] {
      var rest, last := indices[..|indices| - 1], indices[|indices| - 1];
      DistinctSize(rest);
      assert (set x | x in indices) == (set x | x in rest) + {last};
    }
  }

  ghost function Below(bound: nat): (range: set<int>)
    ensures |range| == bound
    ensures forall k :: k in range <==> 0 <= k < bound
  {
    if bound == 0 then {} else Below(bound - 1) + {bound - 1}
  }

  /** n distinct indices below n leave none out. */
  lemma Pigeonhole(indices: seq<int>)
    requires forall s :: 0 <= s < |indices| ==> 0 <= indices[s] < |indices|
    requires forall s, t :: 0 <= s < t < |indices| ==> indices[s] != indices[t]
    ensures forall j :: 0 <= j < |indices| ==> j in indices
  {
    var used := set x | x in indices;
    var all := Below(|indices|);
    DistinctSize(indices);
    assert used <= all;
    assert |all - used| == |all| - |used|;
    forall j | 0 <= j < |indices|
      ensures j in indices
    {
      assert j in all && j !in all - used;
    }
  }

  /** No failure means no slot failed, and every slot's evidence is in the cache. */
  lemma {:induction false} SlotsSucceed(check: (nat, string) -> Result<CacheEvidence>, qtype: string, count: nat,
                                        i: nat, f: nat, cache: seq<CacheEvidence>)
    requires i <= count && f <= 2
    requires Coded(check) && SlotsFrom(check, qtype, count, i, f, cache).failure == ""
    ensures var result := SlotsFrom(check, qtype, count, i, f, cache);
      && result.qtype == qtype
      && (forall item :: item in cache ==> item in result.cache)
      && forall j, g :: i <= j < count && 0 <= g < 2 && (i < j || f <= g) ==>
           check(j, FAMILIES[g]).Ok? && check(j, FAMILIES[g]).value in result.cache
    decreases count - i, 2 - f
  {
    if i == count {
      SortMembers(cache, CacheKey);
    } else if f == 2 {
      SlotsSucceed(check, qtype, count, i + 1, 0, cache);
    } else {
      var item := check(i, FAMILIES[f]).value;
      SlotsSucceed(check, qtype, count, i, f + 1, cache + [item]);
      assert item in cache + [item];
    }
  }

  /** Every slot of a view has its one acceptable answer; `answers` is the view's answers in some order. */
  ghost predicate SlotsPass(view: View, presence: Presence, owners: seq<Name>, answers: seq<Answer>) {
    && multiset(answers) == multiset(view.answers)
    && DistinctValid(owners) && |answers| == 2 * |owners|
    && forall i, f :: 0 <= i < |owners| && f in FAMILIES ==> SlotEvidence(view, presence, owners, answers, i, f).Ok?
  }

  /** What the address scan reports about the answers. */
  ghost predicate Reports(presence: Presence, answers: seq<Answer>, address: Addr) {
    && (forall a :: a in answers && Holds(a, address) && a.qtype == "A" ==> presence.inA)
    && (forall a :: a in answers && Holds(a, address) && a.qtype == "AAAA" ==> presence.inAAAA)
    && ((forall a :: a in answers ==> a.qtype != "") ==>
          (presence.qtype == "" <==> forall a :: a in answers ==> !Holds(a, address)))
  }

  lemma {:induction false} SeenReports(answers: seq<Answer>, address: Addr)
    ensures Reports(Seen(answers, address), answers, address)
  {
    if answers != [] {
      var rest, last := answers[..|answers| - 1], answers[|answers| - 1];
      SeenReports(rest, address);
      assert answers == rest + [last];
      assert forall a :: a in answers <==> a in rest || a == last;
    }
  }

  /** The facts behind a view that passed, free of how they were computed. */
  /** A passing view passed every check before its slots, and its evidence is that of the slots. */
  lemma PassingHead(name: Name, address: Addr, view: View)
    requires ViewEvidence(name, address, view).failure == ""
    ensures var owners, answers := OwnersOf(name, view), Sort(view.answers, AnswerKey);
      && view.failure == "" && DistinctValid(owners) && |view.answers| == 2 * |owners|
      && ViewEvidence(name, address, view)
         == SlotsFrom(Slots(view, Seen(answers, address), owners, answers), Seen(answers, address).qtype, |owners|, 0,
                      0, [])
  {
  }

  lemma PassingView(name: Name, address: Addr, view: View) returns (presence: Presence, answers: seq<Answer>)
    requires ViewEvidence(name, address, view).failure == ""
    ensures view.failure == ""
    ensures SlotsPass(view, presence, OwnersOf(name, view), answers)
    ensures Reports(presence, answers, address)
    ensures ViewEvidence(name, address, view).qtype == presence.qtype
    ensures forall i, f :: 0 <= i < |OwnersOf(name, view)| && f in FAMILIES ==>
      SlotEvidence(view, presence, OwnersOf(name, view), answers, i, f).value in ViewEvidence(name, address, view).cache
  {
    PassingHead(name, address, view);
    answers := Sort(view.answers, AnswerKey);
    presence := Seen(answers, address);
    SortCorrect(view.answers, AnswerKey);
    SeenReports(answers, address);
    PassingSlots(view, presence, OwnersOf(name, view), answers, ViewEvidence(name, address, view));
  }

  /** Every failing slot names a failure code. */
  ghost predicate Coded(check: (nat, string) -> Result<CacheEvidence>) {
    forall j, family :: check(j, family).Err? ==> check(j, family).error != ""
  }

  lemma SlotsAreCoded(view: View, presence: Presence, owners: seq<Name>, answers: seq<Answer>)
    ensures Coded(Slots(view, presence, owners, answers))
  {
    var check := Slots(view, presence, owners, answers);
    forall j: nat, family | check(j, family).Err?
      ensures check(j, family).error != ""
    {
      assert j < |owners| ==> check(j, family) == SlotEvidence(view, presence, owners, answers, j, family);
    }
  }

  lemma AllSlotsPass(check: (nat, string) -> Result<CacheEvidence>, qtype: string, count: nat, evidence: Evidence)
    requires Coded(check) && evidence == SlotsFrom(check, qtype, count, 0, 0, []) && evidence.failure == ""
    ensures evidence.qtype == qtype
    ensures forall i, f :: 0 <= i < count && f in FAMILIES ==> check(i, f).Ok? && check(i, f).value in evidence.cache
  {
    SlotsSucceed(check, qtype, count, 0, 0, []);
    forall i, f | 0 <= i < count && f in FAMILIES
      ensures check(i, f).Ok? && check(i, f).value in evidence.cache
    {
      assert f == FAMILIES[0] || f == FAMILIES[1];
    }
  }

  lemma PassingSlots(view: View, presence: Presence, owners: seq<Name>, answers: seq<Answer>, evidence: Evidence)
    requires evidence == SlotsFrom(Slots(view, presence, owners, answers), presence.qtype, |owners|, 0, 0, [])
    requires evidence.failure == ""
    ensures evidence.qtype == presence.qtype
    ensures forall i, f :: 0 <= i < |owners| && f in FAMILIES ==>
      SlotEvidence(view, presence, owners, answers, i, f).Ok?
      && SlotEvidence(view, presence, owners, answers, i, f).value in evidence.cache
  {
    var check := Slots(view, presence, owners, answers);
    SlotsAreCoded(view, presence, owners, answers);
    AllSlotsPass(check, presence.qtype, |owners|, evidence);
    forall i, f | 0 <= i < |owners| && f in FAMILIES
      ensures SlotEvidence(view, presence, owners, answers, i, f).Ok?
      ensures SlotEvidence(view, presence, owners, answers, i, f).value in evidence.cache
    {
      assert check(i, f).Ok? && check(i, f).value in evidence.cache;
    }
  }

  lemma SlotAnswer(view: View, presence: Presence, owners: seq<Name>, answers: seq<Answer>, i: nat, family: string)
    returns (j: int)
    requires SlotsPass(view, presence, owners, answers)
    requires i < |owners| && family in FAMILIES
    ensures Lone(view.answers, owners[i], family, j)
    ensures Matching(answers, owners[i], family) == [view.answers[j]]
  {
    assert SlotEvidence(view, presence, owners, answers, i, family).Ok?;
    MatchingIgnoresOrder(view.answers, answers, owners[i], family);
    j := LoneIndex(view.answers, owners[i], family);
    var k := LoneIndex(answers, owners[i], family);
    assert multiset{answers[k]} == multiset{view.answers[j]};
    assert answers[k] in multiset{view.answers[j]};
  }

  /** Every answer belongs to a slot, by counting. */
  lemma AnswersFillSlots(answers: seq<Answer>, owners: seq<Name>, indices: seq<int>)
    requires forall i, j :: 0 <= i < j < |owners| ==> owners[i] != owners[j]
    requires |answers| == |indices| == 2 * |owners|
    requires forall s :: 0 <= s < |indices| ==> Lone(answers, owners[s / 2], FAMILIES[s % 2], indices[s])
    ensures forall j :: 0 <= j < |answers| ==> InSomeSlot(answers[j], owners)
  {
    forall s, t | 0 <= s < t < |indices|
      ensures indices[s] != indices[t]
    {
      assert 0 <= s / 2 <= t / 2 < |owners|;
      assert Matches(answers[indices[s]], owners[s / 2], FAMILIES[s % 2]);
      assert Matches(answers[indices[t]], owners[t / 2], FAMILIES[t % 2]);
      if s / 2 == t / 2 {
        assert s % 2 != t % 2;
      }
    }
    Pigeonhole(indices);
    forall j | 0 <= j < |answers|
      ensures InSomeSlot(answers[j], owners)
    {
      assert j in indices;
      var s :| 0 <= s < |indices| && indices[s] == j;
      assert 0 <= s / 2 < |owners| && Matches(answers[j], owners[s / 2], FAMILIES[s % 2]);
    }
  }

  ghost predicate InSomeSlot(answer: Answer, owners: seq<Name>) {
    answer.qtype in FAMILIES && exists i :: 0 <= i < |owners| && Canonical(answer.name) == owners[i]
  }

  lemma SlotsCoverAnswers(view: View, presence: Presence, owners: seq<Name>, answers: seq<Answer>)
    requires SlotsPass(view, presence, owners, answers)
    ensures |view.answers| == 2 * |owners|
    ensures forall j :: 0 <= j < |view.answers| ==> InSomeSlot(view.answers[j], owners)
  {
    assert |multiset(answers)| == |multiset(view.answers)|;
    var indices: seq<int> := [];
    while |indices| < 2 * |owners|
      invariant |indices| <= 2 * |owners|
      invariant forall s :: 0 <= s < |indices| ==> Lone(view.answers, owners[s / 2], FAMILIES[s % 2], indices[s])
    {
      var j := SlotAnswer(view, presence, owners, answers, |indices| / 2, FAMILIES[|indices| % 2]);
      indices := indices + [j];
    }
    AnswersFillSlots(view.answers, owners, indices);
  }

  lemma AnswerIsLinked(view: View, presence: Presence, owners: seq<Name>, answers: seq<Answer>, i: nat, answer: Answer)
    requires SlotsPass(view, presence, owners, answers)
    requires i < |owners| && answer in view.answers && Canonical(answer.name) == owners[i] && answer.qtype in FAMILIES
    ensures Linked(owners, i, answer)
  {
    var j :| 0 <= j < |view.answers| && view.answers[j] == answer;
    var k := SlotAnswer(view, presence, owners, answers, i, answer.qtype);
    assert Matches(view.answers[j], owners[i], answer.qtype);
    assert SlotEvidence(view, presence, owners, answers, i, answer.qtype).Ok?;
  }

  lemma LinksFormChain(view: View, presence: Presence, owners: seq<Name>, answers: seq<Answer>)
    requires SlotsPass(view, presence, owners, answers)
    requires forall j :: 0 <= j < |view.answers| ==> InSomeSlot(view.answers[j], owners)
    ensures forall i, a :: 0 <= i < |owners| && a in view.answers && Canonical(a.name) == owners[i] ==>
      Linked(owners, i, a)
  {
    forall i, a | 0 <= i < |owners| && a in view.answers && Canonical(a.name) == owners[i]
      ensures Linked(owners, i, a)
    {
      AnswerIsLinked(view, presence, owners, answers, i, a);
    }
  }

  lemma SlotsAnswered(view: View, presence: Presence, owners: seq<Name>, answers: seq<Answer>)
    requires SlotsPass(view, presence, owners, answers)
    ensures forall i, f :: 0 <= i < |owners| && f in FAMILIES ==> AnsweredOnce(view.answers, owners[i], f)
  {
    forall i, f | 0 <= i < |owners| && f in FAMILIES
      ensures AnsweredOnce(view.answers, owners[i], f)
    {
      var j := SlotAnswer(view, presence, owners, answers, i, f);
    }
  }

  lemma ViewIsComplete(owners: seq<Name>, view: View, presence: Presence, answers: seq<Answer>)
    requires owners != [] && SlotsPass(view, presence, owners, answers)
    ensures CompleteFor(owners, view)
  {
    SlotsAnswered(view, presence, owners, answers);
    SlotsCoverAnswers(view, presence, owners, answers);
    LinksFormChain(view, presence, owners, answers);
  }

  lemma AbsenceFromReport(address: Addr, view: View, presence: Presence, answers: seq<Answer>)
    requires forall a :: a in view.answers ==> a.qtype in FAMILIES
    requires multiset(answers) == multiset(view.answers) && Reports(presence, answers, address)
    ensures presence.qtype == "" <==> AbsentFrom(address, view)
  {
    forall a
      ensures a in answers <==> a in view.answers
    {
      assert a in answers <==> a in multiset(answers);
      assert a in view.answers <==> a in multiset(view.answers);
    }
    assert forall j :: 0 <= j < |view.answers| ==> view.answers[j] in answers;
  }

  lemma CleanView(name: Name, address: Addr, view: View)
    requires ViewEvidence(name, address, view).failure == ""
    ensures view.failure == "" && Complete(name, view)
    ensures ViewEvidence(name, address, view).qtype == "" <==> AbsentFrom(address, view)
  {
    var presence, answers := PassingView(name, address, view);
    ViewIsComplete(OwnersOf(name, view), view, presence, answers);
    AbsenceFromReport(address, view, presence, answers);
  }

  // ---------- what a decision certifies ----------

  /** A pass that ends without failing checked every view, and no two neighbours share an ID. */
  lemma {:induction false} FoldCertifies(check: View -> Evidence, failed: string -> WithdrawalDecision,
                                         views: seq<View>, i: nat, sofar: WithdrawalDecision)
    requires i <= |views| && sofar.decision.status != Unknown
    requires forall code :: failed(code).decision.status == Unknown
    requires FoldViews(check, failed, views, i, sofar).decision.status != Unknown
    ensures var result := FoldViews(check, failed, views, i, sofar);
      && (forall j :: i <= j < |views| ==> check(views[j]).failure == "")
      && (forall j :: i <= j < |views| && j > 0 ==> views[j - 1].id != views[j].id)
      && (result.decision.status == True <==>
            sofar.decision.status == True && forall j :: i <= j < |views| ==> check(views[j]).qtype == "")
      && (forall item :: item in sofar.cache ==> item in result.cache)
      && (forall j, item :: i <= j < |views| && item in check(views[j]).cache ==> item in result.cache)
    decreases |views| - i
  {
    if i < |views| {
      var next := Absorb(sofar, views[i].id, check(views[i]));
      FoldCertifies(check, failed, views, i + 1, next);
      assert forall item :: item in check(views[i]).cache ==> item in next.cache;
    }
  }

  /** A pass whose views all check out, with no two neighbours of one ID, does not fail. */
  lemma {:induction false} FoldPasses(check: View -> Evidence, failed: string -> WithdrawalDecision, views: seq<View>,
                                      i: nat, sofar: WithdrawalDecision)
    requires i <= |views| && sofar.decision.status != Unknown
    requires forall j :: i <= j < |views| ==> check(views[j]).failure == ""
    requires forall j :: i <= j < |views| && j > 0 ==> views[j - 1].id != views[j].id
    ensures FoldViews(check, failed, views, i, sofar).decision.status != Unknown
    decreases |views| - i
  {
    if i < |views| {
      FoldPasses(check, failed, views, i + 1, Absorb(sofar, views[i].id, check(views[i])));
    }
  }

  /** A pass that ends Unknown ended through `failed`. */
  lemma {:induction false} FoldUnknown(check: View -> Evidence, failed: string -> WithdrawalDecision,
                                       views: seq<View>, i: nat, sofar: WithdrawalDecision)
    returns (code: string)
    requires i <= |views| && sofar.decision.status != Unknown
    requires FoldViews(check, failed, views, i, sofar).decision.status == Unknown
    ensures FoldViews(check, failed, views, i, sofar) == failed(code)
    decreases |views| - i
  {
    if i > 0 && views[i - 1].id == views[i].id {
      code := "invalid-response";
    } else if check(views[i]).failure != "" {
      code := check(views[i]).failure;
    } else {
      code := FoldUnknown(check, failed, views, i + 1, Absorb(sofar, views[i].id, check(views[i])));
    }
  }

  ghost predicate DistinctIDs(views: seq<View>) {
    forall i, j :: 0 <= i < j < |views| ==> views[i].id != views[j].id
  }

  lemma {:induction false} DistinctIgnoresOrder(sorted: seq<View>, views: seq<View>)
    requires multiset(sorted) == multiset(views)
    requires DistinctIDs(sorted)
    ensures DistinctIDs(views)
  {
    forall i, j | 0 <= i < j < |views|
      ensures views[i].id != views[j].id
    {
      if views[i].id == views[j].id {
        assert views[i] in multiset(views) && views[j] in multiset(views);
        assert views[i] in sorted && views[j] in sorted;
        if views[i] == views[j] {
          Twice(views, i, j);
          Once(sorted, views[i], ViewKey);
        }
      }
    }
  }

  /** Everything a decision other than Unknown has established about the observation. */
  ghost predicate Certified(request: Request, views: seq<View>) {
    && RequiredPresent(request, views)
    && DistinctIDs(views)
    && forall i :: 0 <= i < |views| ==> views[i].failure == "" && Complete(request.name, views[i])
  }

  /**
   A True decision certifies that every required view is present exactly once, that each view holds
   exactly one answer per chain owner and family, and that no answer anywhere holds the address.
   A False decision certifies the same completeness and that some answer holds it.
   */
  lemma TrueMeansAbsent(request: Request, views: seq<View>)
    requires EvaluateSpec(request, views).decision.status != Unknown
    ensures request.withdrawalAddress.Parsed? && Certified(request, views)
    ensures EvaluateSpec(request, views).decision.status == True <==>
      forall i :: 0 <= i < |views| ==> AbsentFrom(request.withdrawalAddress.addr.Unmap(), views[i])
  {
    PassCertifies(request.name, request.withdrawalAddress.addr.Unmap(), views);
  }

  lemma PassCertifies(name: Name, address: Addr, views: seq<View>)
    requires Pass(name, address, views).decision.status != Unknown
    ensures DistinctIDs(views)
    ensures forall i :: 0 <= i < |views| ==> views[i].failure == "" && Complete(name, views[i])
    ensures Pass(name, address, views).decision.status == True <==>
      forall i :: 0 <= i < |views| ==> AbsentFrom(address, views[i])
    ensures forall v, item :: v in views && item in ViewEvidence(name, address, v).cache ==>
      item in Pass(name, address, views).cache
    ensures forall v :: v in views ==> ViewEvidence(name, address, v).failure == ""
  {
    var check := (view: View) => ViewEvidence(name, address, view);
    PassChecks(check, (code: string) => Failed(code, views, address), views);
    forall v | v in views
      ensures ViewEvidence(name, address, v).failure == "" && v.failure == "" && Complete(name, v)
      ensures check(v).qtype == "" <==> AbsentFrom(address, v)
    {
      assert check(v).failure == "";
      CleanView(name, address, v);
    }
    assert forall i :: 0 <= i < |views| ==> views[i] in views;
  }

  /** The same as FoldCertifies, for the unsorted views. */
  lemma PassChecks(check: View -> Evidence, failed: string -> WithdrawalDecision, views: seq<View>)
    requires forall code :: failed(code).decision.status == Unknown
    requires FoldViews(check, failed, Sort(views, ViewKey), 0,
                       WithdrawalDecision(VERIFIED, [])).decision.status != Unknown
    ensures var result := FoldViews(check, failed, Sort(views, ViewKey), 0, WithdrawalDecision(VERIFIED, []));
      && DistinctIDs(views)
      && (forall v :: v in views ==> check(v).failure == "")
      && (result.decision.status == True <==> forall v :: v in views ==> check(v).qtype == "")
      && (forall v, item :: v in views && item in check(v).cache ==> item in result.cache)
  {
    var sorted := Sort(views, ViewKey);
    SortCorrect(views, ViewKey);
    SortMembers(views, ViewKey);
    FoldCertifies(check, failed, sorted, 0, WithdrawalDecision(VERIFIED, []));
    DistinctNeighbours(sorted, ViewKey);
    DistinctIgnoresOrder(sorted, views);
    assert forall j :: 0 <= j < |sorted| ==> sorted[j] in views;
    forall v | v in views
      ensures exists j :: 0 <= j < |sorted| && sorted[j] == v
    {
      assert v in sorted;
    }
  }

  /** The evaluation decides exactly when every required view is there, once, and each view passes its own checks. */
  lemma DecidedExactly(request: Request, views: seq<View>)
    requires request.withdrawalAddress.Parsed? && request.withdrawalAddress.addr.Zone() == ""
    ensures EvaluateSpec(request, views).decision.status != Unknown <==>
      && RequiredPresent(request, views) && DistinctIDs(views)
      && forall v :: v in views ==> ViewEvidence(request.name, request.withdrawalAddress.addr.Unmap(), v).failure == ""
  {
    var name, address := request.name, request.withdrawalAddress.addr.Unmap();
    if EvaluateSpec(request, views).decision.status != Unknown {
      PassCertifies(name, address, views);
    } else if RequiredPresent(request, views) && DistinctIDs(views)
              && forall v :: v in views ==> ViewEvidence(name, address, v).failure == "" {
      PassPasses((view: View) => ViewEvidence(name, address, view), (code: string) => Failed(code, views, address),
                 views);
    }
  }

  lemma PassPasses(check: View -> Evidence, failed: string -> WithdrawalDecision, views: seq<View>)
    requires DistinctIDs(views) && forall v :: v in views ==> check(v).failure == ""
    ensures FoldViews(check, failed, Sort(views, ViewKey), 0,
                      WithdrawalDecision(VERIFIED, [])).decision.status != Unknown
  {
    var sorted := Sort(views, ViewKey);
    SortCorrect(views, ViewKey);
    SortMembers(views, ViewKey);
    DistinctIgnoresOrder(views, sorted);
    assert forall j :: 0 <= j < |sorted| ==> sorted[j] in sorted;
    FoldPasses(check, failed, sorted, 0, WithdrawalDecision(VERIFIED, []));
  }

  // ---------- no sighting is lost ----------

  ghost predicate Sighting(views: seq<View>, view: View, answer: Answer, address: Addr) {
    view in views && answer in view.answers && Holds(answer, address) && answer.positiveTTL.Some?
  }

  ghost predicate Kept(cache: seq<CacheEvidence>, view: View, answer: Answer) {
    exists item :: item in cache && item.view == view.id && item.qtype == answer.qtype
                   && item.positiveTTL == answer.positiveTTL
  }

  lemma {:induction false} PositivesAre(view: View, answers: seq<Answer>, inA: bool, inAAAA: bool, item: CacheEvidence)
    ensures item in Positives(view, answers, inA, inAAAA) <==>
      exists a :: a in answers && KeptPositive(a, inA, inAAAA)
                  && item == CacheEvidence(a.name, view.id, a.qtype, a.positiveTTL, None)
  {
    if answers != [] {
      var rest, last := answers[..|answers| - 1], answers[|answers| - 1];
      PositivesAre(view, rest, inA, inAAAA, item);
      assert answers == rest + [last];
    }
  }

  lemma {:induction false} AllPositivesAre(views: seq<View>, address: Addr, item: CacheEvidence)
    ensures item in AllPositives(views, address) <==> exists v :: v in views && item in ViewPositives(v, address)
  {
    if views != [] {
      var rest, last := views[..|views| - 1], views[|views| - 1];
      AllPositivesAre(rest, address, item);
      OneMoreView(rest, last, address, item);
      assert views == rest + [last];
    }
  }

  lemma OneMoreView(rest: seq<View>, last: View, address: Addr, item: CacheEvidence)
    ensures (exists v :: v in rest + [last] && item in ViewPositives(v, address))
            <==> (exists v :: v in rest && item in ViewPositives(v, address)) || item in ViewPositives(last, address)
  {
    assert forall v :: v in rest + [last] <==> v in rest || v == last;
  }

  /** The failure path keeps every sighting of type A or AAAA. */
  lemma FailureKeeps(views: seq<View>, view: View, answer: Answer, address: Addr)
    requires Sighting(views, view, answer, address) && answer.qtype in FAMILIES
    ensures Kept(PositiveEvidence(views, address), view, answer)
  {
    var item := CacheEvidence(answer.name, view.id, answer.qtype, answer.positiveTTL, None);
    var k :| 0 <= k < |view.answers| && view.answers[k] == answer;
    assert PresentIn(view, address, answer.qtype);
    PositivesAre(view, view.answers, PresentIn(view, address, "A"), PresentIn(view, address, "AAAA"), item);
    AllPositivesAre(views, address, item);
    SortMembers(AllPositives(views, address), PositiveKey);
  }

  /** A passing view keeps every sighting it holds. */
  lemma PassKeeps(name: Name, address: Addr, view: View, answer: Answer)
    requires ViewEvidence(name, address, view).failure == ""
    requires answer in view.answers && Holds(answer, address) && answer.positiveTTL.Some?
    ensures Kept(ViewEvidence(name, address, view).cache, view, answer)
  {
    var presence, answers := PassingView(name, address, view);
    var i := SlotKeeps(view, address, presence, OwnersOf(name, view), answers, answer);
    assert SlotEvidence(view, presence, OwnersOf(name, view), answers, i,
                        answer.qtype).value in ViewEvidence(name, address, view).cache;
  }

  lemma SlotKeeps(view: View, address: Addr, presence: Presence, owners: seq<Name>, answers: seq<Answer>,
                  answer: Answer) returns (i: nat)
    requires SlotsPass(view, presence, owners, answers) && Reports(presence, answers, address)
    requires answer in view.answers && Holds(answer, address) && answer.positiveTTL.Some?
    ensures i < |owners| && answer.qtype in FAMILIES
    ensures SlotEvidence(view, presence, owners, answers, i, answer.qtype).Ok?
    ensures SlotEvidence(view, presence, owners, answers, i, answer.qtype).value.view == view.id
    ensures SlotEvidence(view, presence, owners, answers, i, answer.qtype).value.qtype == answer.qtype
    ensures SlotEvidence(view, presence, owners, answers, i, answer.qtype).value.positiveTTL == answer.positiveTTL
  {
    SlotsCoverAnswers(view, presence, owners, answers);
    var j :| 0 <= j < |view.answers| && view.answers[j] == answer;
    assert InSomeSlot(view.answers[j], owners);
    i :| 0 <= i < |owners| && Canonical(answer.name) == owners[i];
    var k := SlotAnswer(view, presence, owners, answers, i, answer.qtype);
    assert Matches(view.answers[j], owners[i], answer.qtype);
    assert answer in answers by {
      assert answer in multiset(view.answers);
    }
    AnswersAreNamed(view, owners, answers);
  }

  lemma AnswersAreNamed(view: View, owners: seq<Name>, answers: seq<Answer>)
    requires multiset(answers) == multiset(view.answers)
    requires forall j :: 0 <= j < |view.answers| ==> InSomeSlot(view.answers[j], owners)
    ensures forall a :: a in answers ==> a.qtype != ""
  {
    forall a | a in answers
      ensures a.qtype != ""
    {
      assert a in multiset(answers);
      assert a in multiset(view.answers);
      var m :| 0 <= m < |view.answers| && view.answers[m] == a;
      assert InSomeSlot(view.answers[m], owners);
    }
  }

  /**
   Whatever the outcome, each observed copy of the retired address in an A or AAAA answer leaves
   its view, type and lifetime in the decision's cache evidence.
   */
  lemma SightingsAreKept(request: Request, views: seq<View>, view: View, answer: Answer)
    requires request.withdrawalAddress.Parsed? && request.withdrawalAddress.addr.Zone() == ""
    requires Sighting(views, view, answer, request.withdrawalAddress.addr.Unmap()) && answer.qtype in FAMILIES
    ensures Kept(EvaluateSpec(request, views).cache, view, answer)
  {
    var address := request.withdrawalAddress.addr.Unmap();
    if EvaluateSpec(request, views).decision.status == Unknown {
      UnknownIsFailed(request, views);
      FailureKeeps(views, view, answer, address);
    } else {
      PassCertifies(request.name, address, views);
      PassKeeps(request.name, address, view, answer);
    }
  }

  lemma UnknownIsFailed(request: Request, views: seq<View>)
    requires request.withdrawalAddress.Parsed? && request.withdrawalAddress.addr.Zone() == ""
    requires EvaluateSpec(request, views).decision.status == Unknown
    ensures EvaluateSpec(request, views).cache == PositiveEvidence(views, request.withdrawalAddress.addr.Unmap())
  {
    var name, address := request.name, request.withdrawalAddress.addr.Unmap();
    if RequiredPresent(request, views) {
      var code := FoldUnknown((view: View) => ViewEvidence(name, address, view),
                              (code: string) => Failed(code, views, address),
                              Sort(views, ViewKey), 0, WithdrawalDecision(VERIFIED, []));
    }
  }

  /** A link of the same type and lifetime in a view of the same ID that saw the address in an A or AAAA answer. */
  ghost predicate ByLink(views: seq<View>, view: View, answer: Answer, address: Addr) {
    exists v, a :: v in views && a in v.answers && v.id == view.id && LinkBeside(v, a, answer, address)
  }

  predicate LinkBeside(view: View, link: Answer, answer: Answer, address: Addr) {
    && link.cname != Root && link.qtype == answer.qtype && link.positiveTTL == answer.positiveTTL
    && (PresentIn(view, address, "A") || PresentIn(view, address, "AAAA"))
  }

  /**
   Exactly when a sighting leaves evidence, for answers of any type: when its type is A or AAAA, or when a link with
   the same type and lifetime, in a view of the same ID, leaves the same evidence in its place.
   */
  lemma SightingKeptExactly(request: Request, views: seq<View>, view: View, answer: Answer)
    requires request.withdrawalAddress.Parsed? && request.withdrawalAddress.addr.Zone() == ""
    requires Sighting(views, view, answer, request.withdrawalAddress.addr.Unmap())
    ensures Kept(EvaluateSpec(request, views).cache, view, answer) <==>
      answer.qtype in FAMILIES || ByLink(views, view, answer, request.withdrawalAddress.addr.Unmap())
  {
    var address := request.withdrawalAddress.addr.Unmap();
    if answer.qtype in FAMILIES {
      SightingsAreKept(request, views, view, answer);
    } else {
      if EvaluateSpec(request, views).decision.status != Unknown {
        DecidedFamilies(request, views, view, answer);
        assert false;
      }
      UnknownIsFailed(request, views);
      if ByLink(views, view, answer, address) {
        LinkIsKept(views, view, answer, address);
      }
      if Kept(PositiveEvidence(views, address), view, answer) {
        KeptIsLinked(views, view, answer, address);
      }
    }
  }

  /** Where the evaluation decides, the views hold answers of type A and AAAA only. */
  lemma DecidedFamilies(request: Request, views: seq<View>, view: View, answer: Answer)
    requires request.withdrawalAddress.Parsed? && request.withdrawalAddress.addr.Zone() == ""
    requires EvaluateSpec(request, views).decision.status != Unknown && view in views && answer in view.answers
    ensures answer.qtype in FAMILIES
  {
    PassCertifies(request.name, request.withdrawalAddress.addr.Unmap(), views);
    var i :| 0 <= i < |views| && views[i] == view;
    var j :| 0 <= j < |view.answers| && view.answers[j] == answer;
    assert InSomeSlot(view.answers[j], OwnersOf(request.name, view));
  }

  lemma LinkIsKept(views: seq<View>, view: View, answer: Answer, address: Addr)
    requires ByLink(views, view, answer, address) && answer.positiveTTL.Some?
    ensures Kept(PositiveEvidence(views, address), view, answer)
  {
    var v, a :| v in views && a in v.answers && v.id == view.id && LinkBeside(v, a, answer, address);
    var item := CacheEvidence(a.name, v.id, a.qtype, a.positiveTTL, None);
    PositivesAre(v, v.answers, PresentIn(v, address, "A"), PresentIn(v, address, "AAAA"), item);
    AllPositivesAre(views, address, item);
    SortMembers(AllPositives(views, address), PositiveKey);
  }

  lemma KeptIsLinked(views: seq<View>, view: View, answer: Answer, address: Addr)
    requires Kept(PositiveEvidence(views, address), view, answer) && answer.qtype !in FAMILIES
    ensures ByLink(views, view, answer, address)
  {
    SortMembers(AllPositives(views, address), PositiveKey);
    var item :| item in PositiveEvidence(views, address) && item.view == view.id && item.qtype == answer.qtype
                && item.positiveTTL == answer.positiveTTL;
    AllPositivesAre(views, address, item);
    var v :| v in views && item in ViewPositives(v, address);
    var inA, inAAAA := PresentIn(v, address, "A"), PresentIn(v, address, "AAAA");
    PositivesAre(v, v.answers, inA, inAAAA, item);
    var a :| a in v.answers && KeptPositive(a, inA, inAAAA)
             && item == CacheEvidence(a.name, v.id, a.qtype, a.positiveTTL, None);
    assert LinkBeside(v, a, answer, address);
  }
}
