/**
 Following one name through one view against an arbitrary DNS server (core/dnsprobe/wire.go).

 A server is any function from questions to replies; `Resolve` is the chain-following loop.
 */
module Wire {
  import opened Names
  import opened Order
  import opened Sequences
  import opened Probe

  datatype Data = CnameData(target: Name) | AData(address: AddressText) | AAAAData(address: AddressText) | OtherData

  datatype Record = Record(owner: Name, internet: bool, ttl: nat, data: Data)

  /** An authority-section SOA; `wellFormed` says its two names are valid host names. */
  datatype Authority = Authority(owner: Name, internet: bool, wellFormed: bool, ttl: nat, minimum: nat)

  /** What one exchange yields after transport, truncation and header checks. */
  datatype Exchange =
    | NoReply(timeout: bool)
    | Garbled
    | Reply(rcode: int, authoritative: bool, answer: seq<Record>, soas: seq<Authority>)

  datatype Question = Question(server: string, name: Name, qtype: string, recursive: bool)

  type Server = Question -> Exchange

  function ExchangeFailure(exchange: Exchange): string {
    match exchange
    case NoReply(timeout) => if timeout then "timeout" else "transport"
    case Garbled => "invalid-response"
    case Reply(rcode, _, _, _) =>
      if rcode == NOERROR || rcode == NXDOMAIN then ""
      else if rcode == SERVFAIL then "SERVFAIL"
      else if rcode == REFUSED then "REFUSED"
      else "invalid-response"
  }

  // ---------- evidence of one reply ----------

  function AddRecord(answer: Answer, record: Record, qtype: string): Answer {
    if Canonical(record.owner) != answer.name || record.data.OtherData? then answer
    else
      var next := match record.data
        case CnameData(target) =>
          answer.(failure := if answer.cname != Root && answer.cname != Canonical(target)
                             then "invalid-response" else answer.failure,
                  cname := Canonical(target))
        case AData(address) =>
          answer.(failure := if qtype != "A" then "invalid-response" else answer.failure,
                  addresses := answer.addresses + [address])
        case AAAAData(address) =>
          answer.(failure := if qtype != "AAAA" then "invalid-response" else answer.failure,
                  addresses := answer.addresses + [address])
        case OtherData => answer;
      next.(failure := if !record.internet then "invalid-response" else next.failure,
            positiveTTL := MaxTTL(answer.positiveTTL, Some(record.ttl)))
  }

  function AddRecords(answer: Answer, records: seq<Record>, qtype: string): (out: Answer)
    ensures out.name == answer.name && out.qtype == answer.qtype && out.rcode == answer.rcode
  {
    if records == [] then answer
    else AddRecord(AddRecords(answer, records[..|records| - 1], qtype), records[|records| - 1], qtype)
  }

  function AddAuthority(answer: Answer, soa: Authority): Answer {
    var owner := Canonical(soa.owner);
    if !Under(owner, answer.name) || !soa.internet || !soa.wellFormed then answer.(failure := "invalid-response")
    else answer.(negativeTTL := MaxTTL(answer.negativeTTL,
                                       Some(if soa.ttl < soa.minimum then soa.ttl else soa.minimum)))
  }

  function AddAuthorities(answer: Answer, soas: seq<Authority>): (out: Answer)
    ensures out.name == answer.name && out.qtype == answer.qtype && out.rcode == answer.rcode
    ensures out.addresses == answer.addresses && out.positiveTTL == answer.positiveTTL && out.cname == answer.cname
  {
    if soas == [] then answer else AddAuthority(AddAuthorities(answer, soas[..|soas| - 1]), soas[|soas| - 1])
  }

  function AnswerEvidence(reply: Exchange, name: Name, qtype: string): (answer: Answer)
    requires reply.Reply?
    ensures answer.name == name && answer.qtype == qtype && answer.rcode == reply.rcode
  {
    var read := AddRecords(Answer(name, qtype, reply.rcode, [], Root, None, None, ""), reply.answer, qtype);
    var checked := if read.cname != Root && read.addresses != [] then read.(failure := "invalid-response") else read;
    if reply.rcode == NXDOMAIN || (read.cname == Root && read.addresses == []) then AddAuthorities(checked, reply.soas)
    else checked
  }

  method ReadAnswer(reply: Exchange, name: Name, qtype: string) returns (answer: Answer)
    requires reply.Reply?
    ensures answer == AnswerEvidence(reply, name, qtype)
  {
    ghost var empty := Answer(name, qtype, reply.rcode, [], Root, None, None, "");
    answer := Answer(name, qtype, reply.rcode, [], Root, None, None, "");
    var i := 0;
    while i < |reply.answer|
      invariant 0 <= i <= |reply.answer|
      invariant answer == AddRecords(empty, reply.answer[..i], qtype)
    {
      assert reply.answer[..i + 1][..i] == reply.answer[..i];
      answer := AddRecord(answer, reply.answer[i], qtype);
      i := i + 1;
    }
    assert reply.answer[..i] == reply.answer;
    if answer.cname != Root && |answer.addresses| != 0 {
      answer := answer.(failure := "invalid-response");
    }
    if reply.rcode == NXDOMAIN || (answer.cname == Root && |answer.addresses| == 0) {
      ghost var checked := answer;
      i := 0;
      while i < |reply.soas|
        invariant 0 <= i <= |reply.soas|
        invariant answer == AddAuthorities(checked, reply.soas[..i])
      {
        assert reply.soas[..i + 1][..i] == reply.soas[..i];
        answer := AddAuthority(answer, reply.soas[i]);
        i := i + 1;
      }
      assert reply.soas[..i] == reply.soas;
    }
  }

  /** Every address record at the asked name appears among the evidence addresses, with a lifetime at least its own. */
  lemma {:induction false} EvidenceHoldsAddresses(answer: Answer, records: seq<Record>, qtype: string, record: Record)
    requires record in records && Canonical(record.owner) == answer.name
    requires (record.data.AData? || record.data.AAAAData?)
    ensures var out := AddRecords(answer, records, qtype);
      record.data.address in out.addresses && out.positiveTTL.Some? && out.positiveTTL.value >= record.ttl
  {
    var rest, last := records[..|records| - 1], records[|records| - 1];
    assert records == rest + [last];
    if record in rest {
      EvidenceHoldsAddresses(answer, rest, qtype, record);
    }
  }

  // ---------- the chain ----------

  function Targets(records: seq<Record>, current: Name): seq<Name> {
    if records == [] then []
    else
      var last := records[|records| - 1];
      Targets(records[..|records| - 1], current)
      + if Canonical(last.owner) == current && last.data.CnameData? then [Canonical(last.data.target)] else []
  }

  function AddressData(records: seq<Record>, current: Name, wantA: bool): seq<AddressText> {
    if records == [] then []
    else
      var last := records[|records| - 1];
      AddressData(records[..|records| - 1], current, wantA)
      + if Canonical(last.owner) == current && ((wantA && last.data.AData?) || (!wantA && last.data.AAAAData?))
        then [last.data.address] else []
  }

  lemma {:induction false} TargetsAreCanonical(records: seq<Record>, current: Name)
    ensures forall t :: t in Targets(records, current) ==> Lowercase(t)
  {
    if records != [] {
      TargetsAreCanonical(records[..|records| - 1], current);
      if records[|records| - 1].data.CnameData? {
        CanonicalIdempotent(records[|records| - 1].data.target);
      }
    }
  }

  function Compact(names: seq<Name>): seq<Name> {
    if |names| < 2 then names
    else if names[0] == names[1] then Compact(names[1..])
    else [names[0]] + Compact(names[1..])
  }

  /** Sorted without repetition. */
  function Unrepeated(names: seq<Name>): seq<Name> {
    Compact(Sort(names, Text))
  }

  lemma {:induction false} CompactMembers(names: seq<Name>)
    ensures forall n :: n in Compact(names) ==> n in names
  {
    if |names| >= 2 {
      CompactMembers(names[1..]);
    }
  }

  lemma UnrepeatedMembers(names: seq<Name>)
    ensures forall n :: n in Unrepeated(names) ==> n in names
  {
    SortMembers(names, Text);
    CompactMembers(Sort(names, Text));
  }

  predicate InZone(zone: Name, name: Name) {
    Under(zone, name)
  }

  function AskAt(recursive: string, authority: string, zone: Name, current: Name, qtype: string): Question {
    if authority != "" && InZone(zone, current) then Question(authority, current, qtype, false)
    else Question(recursive, current, qtype, true)
  }

  /** One query of the pair: its failure, or its reply. */
  datatype Asked = Refusal(code: string) | Answered(reply: Exchange)

  function Ask(server: Server, question: Question): (asked: Asked)
    ensures asked.Refusal? ==> asked.code != ""
    ensures asked.Answered? ==> asked.reply.Reply?
  {
    var exchange := server(question);
    var failure := ExchangeFailure(exchange);
    if failure != "" then Refusal(failure)
    else if !question.recursive && !exchange.authoritative then Refusal("invalid-response")
    else Answered(exchange)
  }

  function MinTTL(current: Option<nat>, next: Option<nat>): Option<nat> {
    if next.Some? && (current.None? || next.value < current.value) then next else current
  }

  /** A link or an address of the current name. */
  predicate OfName(record: Record, current: Name) {
    Canonical(record.owner) == current && !record.data.OtherData?
  }

  function LeastTTL(records: seq<Record>, current: Name, sofar: Option<nat>): Option<nat> {
    if records == [] then sofar
    else
      var rest, last := LeastTTL(records[..|records| - 1], current, sofar), records[|records| - 1];
      if OfName(last, current) then MinTTL(rest, Some(last.ttl)) else rest
  }

  function LeastNegative(soas: seq<Authority>, sofar: Option<nat>): Option<nat> {
    if soas == [] then sofar
    else
      var last := soas[|soas| - 1];
      MinTTL(LeastNegative(soas[..|soas| - 1], sofar), Some(if last.ttl < last.minimum then last.ttl else last.minimum))
  }

  predicate Silent(records: seq<Record>, current: Name) {
    forall r :: r in records ==> !OfName(r, current)
  }

  /** A view with one more reply read into it. */
  function WithReply(view: View, authoritative: bool, reply: Exchange, current: Name, qtype: string): View
    requires reply.Reply?
  {
    var negative := reply.rcode == NXDOMAIN || Silent(reply.answer, current);
    view.(authoritative := view.authoritative || authoritative,
          answers := view.answers + [AnswerEvidence(reply, current, qtype)],
          ttl := LeastTTL(reply.answer, current, view.ttl),
          negativeTTL := if negative then LeastNegative(reply.soas, view.negativeTTL) else view.negativeTTL)
  }

  method ReadReply(before: View, authoritative: bool, reply: Exchange, current: Name, qtype: string)
    returns (view: View)
    requires reply.Reply?
    ensures view == WithReply(before, authoritative, reply, current, qtype)
  {
    var answer := ReadAnswer(reply, current, qtype);
    var ttl, silent := ReadTTL(reply.answer, current, before.ttl);
    var negativeTTL := before.negativeTTL;
    if reply.rcode == NXDOMAIN || silent {
      negativeTTL := ReadNegativeTTL(reply.soas, negativeTTL);
    }
    view := before.(authoritative := before.authoritative || authoritative, answers := before.answers + [answer],
                    ttl := ttl, negativeTTL := negativeTTL);
  }

  method ReadTTL(records: seq<Record>, current: Name, before: Option<nat>) returns (ttl: Option<nat>, silent: bool)
    ensures ttl == LeastTTL(records, current, before) && silent == Silent(records, current)
  {
    ttl, silent := before, true;
    var i := 0;
    while i < |records|
      invariant 0 <= i <= |records|
      invariant ttl == LeastTTL(records[..i], current, before) && silent == Silent(records[..i], current)
    {
      assert records[..i + 1] == records[..i] + [records[i]];
      if OfName(records[i], current) {
        ttl, silent := MinTTL(ttl, Some(records[i].ttl)), false;
      }
      i := i + 1;
    }
    assert records[..i] == records;
  }

  method ReadNegativeTTL(soas: seq<Authority>, before: Option<nat>) returns (ttl: Option<nat>)
    ensures ttl == LeastNegative(soas, before)
  {
    ttl := before;
    var i := 0;
    while i < |soas|
      invariant 0 <= i <= |soas|
      invariant ttl == LeastNegative(soas[..i], before)
    {
      assert soas[..i + 1][..i] == soas[..i];
      ttl := MinTTL(ttl, Some(if soas[i].ttl < soas[i].minimum then soas[i].ttl else soas[i].minimum));
      i := i + 1;
    }
    assert soas[..i] == soas;
  }

  /** What one name step adds to a view: stop with it, or follow a link. */
  datatype Step = Stop(view: View) | Follow(view: View, next: Name)

  function StepAt(server: Server, recursive: string, authority: string, zone: Name, current: Name, view: View): Step {
    AfterReplies(Ask(server, AskAt(recursive, authority, zone, current, "A")),
                 Ask(server, AskAt(recursive, authority, zone, current, "AAAA")),
                 authority != "" && InZone(zone, current), current, view)
  }

  /** The step, given what the two queries brought; the second counts only when the first did not fail. */
  function AfterReplies(first: Asked, second: Asked, authoritative: bool, current: Name, view: View): Step
    requires (first.Answered? ==> first.reply.Reply?) && (second.Answered? ==> second.reply.Reply?)
  {
    if first.Refusal? then Stop(view.(failure := first.code))
    else
      var one := WithReply(view, authoritative, first.reply, current, "A");
      if second.Refusal? then Stop(one.(failure := second.code))
      else
        var two := WithReply(one, authoritative, second.reply, current, "AAAA");
        if first.reply.rcode != second.reply.rcode then Stop(two.(failure := "invalid-response"))
        else Conclude(two.(rcode := first.reply.rcode), first.reply.answer + second.reply.answer, current)
  }

  /** After both queries: the end of the chain, a contradiction, or the next link. */
  function Conclude(view: View, records: seq<Record>, current: Name): Step {
    var targets := Unrepeated(Targets(records, current));
    var a, aaaa := AddressData(records, current, true), AddressData(records, current, false);
    if targets == [] then Stop(view.(a := a, aaaa := aaaa))
    else if |targets| != 1 || a != [] || aaaa != [] then Stop(view.(mismatch := true, chain := view.chain + targets))
    else Follow(view, targets[0])
  }

  /** The loop over names, for any behaviour of one name step. */
  function ResolveFrom(step: (Name, View) -> Step, current: Name, seen: set<Name>, view: View): View
    decreases MAX_CNAMES + 1 - |view.chain|
  {
    if current in seen then view.(mismatch := true)
    else
      match step(current, view)
      case Stop(last) => last
      case Follow(answered, next) =>
        var linked := answered.(chain := view.chain + [next]);
        if |linked.chain| > MAX_CNAMES then linked.(failure := "chain-limit")
        else ResolveFrom(step, next, seen + {current}, linked)
  }

  /** The names the loop asks for, in order. */
  function NamesAsked(step: (Name, View) -> Step, current: Name, seen: set<Name>, view: View): seq<Name>
    decreases MAX_CNAMES + 1 - |view.chain|
  {
    if current in seen then []
    else
      match step(current, view)
      case Stop(last) => [current]
      case Follow(answered, next) =>
        var linked := answered.(chain := view.chain + [next]);
        if |linked.chain| > MAX_CNAMES then [current]
        else [current] + NamesAsked(step, next, seen + {current}, linked)
  }

  function EmptyView(recursive: string, authority: string): View {
    View(if authority != "" then AuthorityID(authority, recursive) else RecursiveID(recursive), 0, [], [], [], false,
         "", false, [], None, None)
  }

  function NameStep(server: Server, recursive: string, authority: string, zone: Name): (Name, View) -> Step {
    (current: Name, view: View) => StepAt(server, recursive, authority, zone, current, view)
  }

  function ResolveSpec(server: Server, name: Name, recursive: string, authority: string, zone: Name): View {
    ResolveFrom(NameStep(server, recursive, authority, zone), Canonical(name), {}, EmptyView(recursive, authority))
  }

  method Resolve(server: Server, name: Name, recursive: string, authority: string, zone: Name)
    returns (view: View, ghost asked: seq<Name>)
    ensures view == ResolveSpec(server, name, recursive, authority, zone)
    ensures asked == NamesAsked(NameStep(server, recursive, authority, zone), Canonical(name), {},
                                EmptyView(recursive, authority))
  {
    ghost var step := NameStep(server, recursive, authority, zone);
    assert Behaves(step, server, recursive, authority, zone);
    view, asked := FollowNames(server, name, recursive, authority, zone, step);
  }

  /** The step does what asking the server does. */
  ghost predicate Behaves(step: (Name, View) -> Step, server: Server, recursive: string, authority: string,
                          zone: Name) {
    forall current: Name, view: View :: BehavesAt(step, server, recursive, authority, zone, current, view)
  }

  predicate BehavesAt(step: (Name, View) -> Step, server: Server, recursive: string, authority: string, zone: Name,
                      current: Name, view: View)
  {
    step(current, view) == StepAt(server, recursive, authority, zone, current, view)
  }

  method FollowNames(server: Server, name: Name, recursive: string, authority: string, zone: Name,
                     ghost step: (Name, View) -> Step)
    returns (view: View, ghost asked: seq<Name>)
    requires Behaves(step, server, recursive, authority, zone)
    ensures view == ResolveFrom(step, Canonical(name), {}, EmptyView(recursive, authority))
    ensures asked == NamesAsked(step, Canonical(name), {}, EmptyView(recursive, authority))
  {
    view, asked := EmptyView(recursive, authority), [];
    var current := Canonical(name);
    var seen: set<Name> := {};
    ghost var last, all := ResolveFrom(step, current, seen, view), NamesAsked(step, current, seen, view);
    while true
      invariant last == ResolveFrom(step, current, seen, view)
      invariant all == asked + NamesAsked(step, current, seen, view)
      decreases MAX_CNAMES + 1 - |view.chain|
    {
      if current in seen {
        view := view.(mismatch := true);
        return;
      }
      var chain := view.chain;
      var next := AskBoth(server, recursive, authority, zone, current, view, step);
      asked := asked + [current];
      seen := seen + {current};
      view := next.view;
      if next.Stop? {
        return;
      }
      view := view.(chain := chain + [next.next]);
      if |view.chain| > MAX_CNAMES {
        view := view.(failure := "chain-limit");
        return;
      }
      current := next.next;
    }
  }

  method AskBoth(server: Server, recursive: string, authority: string, zone: Name, current: Name, before: View,
                 ghost step: (Name, View) -> Step)
    returns (next: Step)
    requires Behaves(step, server, recursive, authority, zone)
    ensures next == step(current, before)
  {
    assert BehavesAt(step, server, recursive, authority, zone, current, before);
    var authoritative := authority != "" && InZone(zone, current);
    var view := before;
    var replies: seq<Exchange> := [];
    ghost var first := Ask(server, AskAt(recursive, authority, zone, current, "A"));
    var i := 0;
    while i < 2
      invariant 0 <= i <= 2 && |replies| == i
      invariant i == 0 ==> view == before
      invariant i > 0 ==> first == Answered(replies[0])
      invariant i == 1 ==> view == WithReply(before, authoritative, replies[0], current, "A")
      invariant i == 2 ==>
        && Ask(server, AskAt(recursive, authority, zone, current, "AAAA")) == Answered(replies[1])
        && view == WithReply(WithReply(before, authoritative, replies[0], current, "A"), authoritative, replies[1],
                             current, "AAAA")
    {
      var asked := Ask(server, AskAt(recursive, authority, zone, current, FAMILIES[i]));
      if asked.Refusal? {
        return Stop(view.(failure := asked.code));
      }
      view := ReadReply(view, authoritative, asked.reply, current, FAMILIES[i]);
      replies := replies + [asked.reply];
      i := i + 1;
    }
    if replies[0].rcode != replies[1].rcode {
      return Stop(view.(failure := "invalid-response"));
    }
    next := Conclude(view.(rcode := replies[0].rcode), replies[0].answer + replies[1].answer, current);
  }

  // ---------- what a clean view looks like ----------

  /** Owner i holds answers 2i (A) and 2i+1 (AAAA), in chain order. */
  ghost predicate InOrder(answers: seq<Answer>, owners: seq<Name>) {
    && |answers| == 2 * |owners|
    && forall i :: 0 <= i < |owners| ==>
         answers[2 * i].name == owners[i] && answers[2 * i].qtype == "A"
         && answers[2 * i + 1].name == owners[i] && answers[2 * i + 1].qtype == "AAAA"
  }

  /** One name step extends the answers in order or reports why not. */
  ghost predicate Extends(step: Step, view: View, owners: seq<Name>) {
    match step
    case Stop(last) =>
      |last.answers| <= |view.answers| + 2
      && (last.failure == "" && !last.mismatch ==> InOrder(last.answers, owners) && last.chain == view.chain)
    case Follow(answered, next) =>
      && Lowercase(next) && answered.failure == view.failure && answered.mismatch == view.mismatch
      && InOrder(answered.answers, owners)
  }

  ghost predicate Orderly(step: (Name, View) -> Step) {
    forall current: Name, view: View, owners: seq<Name> :: InOrder(view.answers, owners) ==>
      Extends(step(current, view), view, owners + [current])
  }

  lemma ConcludeExtends(before: View, view: View, records: seq<Record>, current: Name, owners: seq<Name>)
    requires view.failure == before.failure && view.mismatch == before.mismatch && view.chain == before.chain
    requires |view.answers| <= |before.answers| + 2 && InOrder(view.answers, owners)
    ensures Extends(Conclude(view, records, current), before, owners)
  {
    UnrepeatedMembers(Targets(records, current));
    TargetsAreCanonical(records, current);
  }

  lemma OneMoreOwner(answers: seq<Answer>, owners: seq<Name>, owner: Name, first: Answer, second: Answer,
                     all: seq<Answer>)
    requires InOrder(answers, owners) && all == answers + [first] + [second]
    requires first.name == second.name == owner && first.qtype == "A" && second.qtype == "AAAA"
    ensures InOrder(all, owners + [owner])
  {
  }

  lemma RepliesExtend(first: Asked, second: Asked, authoritative: bool, current: Name, view: View, owners: seq<Name>)
    requires (first.Answered? ==> first.reply.Reply?) && (second.Answered? ==> second.reply.Reply?)
    requires (first.Refusal? ==> first.code != "") && (second.Refusal? ==> second.code != "")
    requires InOrder(view.answers, owners)
    ensures Extends(AfterReplies(first, second, authoritative, current, view), view, owners + [current])
  {
    if first.Answered? && second.Answered? && first.reply.rcode == second.reply.rcode {
      var two := WithReply(WithReply(view, authoritative, first.reply, current, "A"), authoritative, second.reply,
                           current, "AAAA");
      var all := owners + [current];
      OneMoreOwner(view.answers, owners, current, AnswerEvidence(first.reply, current, "A"),
                   AnswerEvidence(second.reply, current, "AAAA"), two.answers);
      ConcludeExtends(view, two.(rcode := first.reply.rcode), first.reply.answer + second.reply.answer, current, all);
    }
  }

  lemma NameStepIsOrderly(server: Server, recursive: string, authority: string, zone: Name)
    ensures Orderly(NameStep(server, recursive, authority, zone))
  {
    forall current: Name, view: View, owners: seq<Name> | InOrder(view.answers, owners)
      ensures Extends(NameStep(server, recursive, authority, zone)(current, view), view, owners + [current])
    {
      RepliesExtend(Ask(server, AskAt(recursive, authority, zone, current, "A")),
                    Ask(server, AskAt(recursive, authority, zone, current, "AAAA")),
                    authority != "" && InZone(zone, current), current, view, owners);
    }
  }

  /** The names seen so far: the start, then the chain. */
  ghost predicate OnTrack(view: View, owners: seq<Name>, current: Name) {
    && |owners| == |view.chain| <= MAX_CNAMES
    && Distinct(owners) && InOrder(view.answers, owners)
    && view.failure == "" && !view.mismatch
    && owners + [current] == [(owners + [current])[0]] + view.chain
    && forall i :: 0 <= i < |owners + [current]| ==> Lowercase((owners + [current])[i])
  }

  ghost predicate WellFormed(view: View, owners: seq<Name>) {
    && Distinct(owners) && InOrder(view.answers, owners) && (forall i :: 0 <= i < |owners| ==> Lowercase(owners[i]))
    && |view.chain| <= MAX_CNAMES
  }

  lemma {:induction false} ResolveKeepsOrder(step: (Name, View) -> Step, current: Name, owners: seq<Name>,
                                             seen: set<Name>, view: View)
    requires Orderly(step)
    requires OnTrack(view, owners, current)
    requires forall n :: n in owners <==> n in seen
    ensures var last := ResolveFrom(step, current, seen, view);
      && |last.answers| <= 2 * (MAX_CNAMES + 1)
      && (last.failure == "" && !last.mismatch ==> WellFormed(last, [(owners + [current])[0]] + last.chain))
    decreases MAX_CNAMES + 1 - |view.chain|
  {
    if current !in seen {
      var all := owners + [current];
      assert Extends(step(current, view), view, all);
      assert Distinct(all);
      match step(current, view)
      case Stop(last) =>
      case Follow(answered, next) =>
        var linked := answered.(chain := view.chain + [next]);
        if |linked.chain| <= MAX_CNAMES {
          assert all + [next] == [all[0]] + linked.chain;
          assert (all + [next])[0] == all[0];
          ResolveKeepsOrder(step, next, all, seen + {current}, linked);
        }
    }
  }

  /** However the steps behave, no name is asked twice and at most one more than the links that may still follow. */
  lemma {:induction false} NamesAreBounded(step: (Name, View) -> Step, current: Name, seen: set<Name>, view: View)
    requires |view.chain| <= MAX_CNAMES
    ensures |NamesAsked(step, current, seen, view)| <= MAX_CNAMES + 1 - |view.chain|
    ensures Distinct(NamesAsked(step, current, seen, view))
    ensures forall n :: n in NamesAsked(step, current, seen, view) ==> n !in seen
    decreases MAX_CNAMES + 1 - |view.chain|
  {
    if current !in seen && step(current, view).Follow? {
      var next := step(current, view);
      var linked := next.view.(chain := view.chain + [next.next]);
      if |linked.chain| <= MAX_CNAMES {
        NamesAreBounded(step, next.next, seen + {current}, linked);
      }
    }
  }

  /**
   Against any server at most MAX_CNAMES + 1 names are asked, none of them twice. A view without failure or
   mismatch holds one A and one AAAA answer per distinct owner in chain order, so the owner and count checks
   of the withdrawal evaluation accept it.
   */
  lemma ResolveIsWellFormed(server: Server, name: Name, recursive: string, authority: string, zone: Name)
    ensures var asked := NamesAsked(NameStep(server, recursive, authority, zone), Canonical(name), {},
                                    EmptyView(recursive, authority));
      |asked| <= MAX_CNAMES + 1 && Distinct(asked)
    ensures var view := ResolveSpec(server, name, recursive, authority, zone);
      && |view.answers| <= 2 * (MAX_CNAMES + 1)
      && (view.failure == "" && !view.mismatch ==>
            var owners := OwnersOf(name, view);
            && InOrder(view.answers, owners) && Distinct(owners)
            && |view.chain| <= MAX_CNAMES && |view.answers| == 2 * |owners|
            && forall i, f :: 0 <= i < |owners| && f in FAMILIES ==> AnsweredOnce(view.answers, owners[i], f))
  {
    var start := Canonical(name);
    NameStepIsOrderly(server, recursive, authority, zone);
    CanonicalIdempotent(name);
    assert ([] + [start])[0] == start;
    assert OnTrack(EmptyView(recursive, authority), [], start);
    NamesAreBounded(NameStep(server, recursive, authority, zone), start, {}, EmptyView(recursive, authority));
    ResolveKeepsOrder(NameStep(server, recursive, authority, zone), start, [], {}, EmptyView(recursive, authority));
    var view := ResolveSpec(server, name, recursive, authority, zone);
    if view.failure == "" && !view.mismatch {
      var owners := [start] + view.chain;
      OwnersAreChain(name, view);
      forall i, f | 0 <= i < |owners| && f in FAMILIES
        ensures AnsweredOnce(view.answers, owners[i], f)
      {
        OrderedOnce(view.answers, owners, i, f);
      }
    }
  }

  lemma OwnersAreChain(name: Name, view: View)
    requires forall i :: 0 <= i < |[Canonical(name)] + view.chain| ==> Lowercase(([Canonical(name)] + view.chain)[i])
    ensures OwnersOf(name, view) == [Canonical(name)] + view.chain
  {
    forall i | 0 <= i < |view.chain|
      ensures Canonical(view.chain[i]) == view.chain[i]
    {
      assert ([Canonical(name)] + view.chain)[i + 1] == view.chain[i];
    }
  }

  lemma OrderedOnce(answers: seq<Answer>, owners: seq<Name>, i: nat, family: string)
    requires InOrder(answers, owners) && Distinct(owners) && (forall k :: 0 <= k < |owners| ==> Lowercase(owners[k]))
    requires i < |owners| && family in FAMILIES
    ensures AnsweredOnce(answers, owners[i], family)
  {
    var j := SlotNumber(i, family);
    forall k | 0 <= k < |answers| && Matches(answers[k], owners[i], family)
      ensures k == j
    {
      var h := k / 2;
      assert k == 2 * h || k == 2 * h + 1;
      assert answers[k].name == owners[h];
    }
    assert Lone(answers, owners[i], family, j);
  }

  /** The answers of owner i are numbered 2i and 2i + 1. */
  lemma SlotNumber(i: nat, family: string) returns (slot: nat)
    requires family in FAMILIES
    ensures slot == 2 * i + if family == "A" then 0 else 1
  {
    slot := 2 * i + if family == "A" then 0 else 1;
  }

  // ---------- the views of one probe ----------

  /** Resolving one name through a server, at an authority when one is named. */
  function Through(server: Server, request: Request, authority: string): string -> View {
    (via: string) => ResolveSpec(server, request.name, via, authority, request.zone)
  }

  function Each<T>(ask: string -> T, names: seq<string>): (out: seq<T>)
    ensures |out| == |names|
  {
    seq(|names|, i requires 0 <= i < |names| => ask(names[i]))
  }

  function Flat(lists: seq<seq<View>>): seq<View> {
    if lists == [] then [] else Flat(lists[..|lists| - 1]) + lists[|lists| - 1]
  }

  /** The configured servers, each asked for the whole chain. */
  function RecursiveViews(server: Server, request: Request): seq<View> {
    Each(Through(server, request, ""), request.policy.servers)
  }

  function ServersVia(server: Server, request: Request): string -> seq<View> {
    (authority: string) => Each(Through(server, request, authority), request.policy.servers)
  }

  function AuthorityViews(server: Server, request: Request, authorities: seq<string>): seq<View> {
    Flat(Each(ServersVia(server, request), authorities))
  }

  predicate HasEvidence(request: Request) {
    && request.evidence.Some? && request.evidence.value.zone == request.zone
    && request.evidence.value.policy == request.policy
    && request.evidence.value.authorities != []
  }

  /** The views of a withdrawal probe: every configured server, then every authority through every server. */
  function ProbeSpec(server: Server, request: Request): Result<seq<View>>
    requires request.policy.servers != []
  {
    var views := RecursiveViews(server, request);
    if request.policy.expectedNameservers == [] then Ok(views)
    else if !HasEvidence(request) then Err("invalid-response")
    else Ok(views + AuthorityViews(server, request, request.evidence.value.authorities))
  }

  method ProbeViews(server: Server, request: Request) returns (result: Result<seq<View>>)
    requires request.policy.servers != []
    ensures result == ProbeSpec(server, request)
  {
    var views := AskEach(server, request, "", []);
    if |request.policy.expectedNameservers| != 0 {
      if !HasEvidence(request) {
        return Err("invalid-response");
      }
      var more := ProbeAuthorities(server, request, request.evidence.value.authorities);
      views := views + more;
    }
    result := Ok(views);
  }

  method AskEach(server: Server, request: Request, authority: string, first: seq<View>) returns (views: seq<View>)
    requires |first| <= |request.policy.servers|
    requires first == Each(Through(server, request, authority), request.policy.servers[..|first|])
    ensures views == Each(Through(server, request, authority), request.policy.servers)
  {
    views := first;
    var servers := request.policy.servers;
    var i := |first|;
    while i < |servers|
      invariant 0 <= i <= |servers|
      invariant views == Each(Through(server, request, authority), servers[..i])
    {
      EachExtends(Through(server, request, authority), servers, i);
      var view, _ := Resolve(server, request.name, servers[i], authority, request.zone);
      views := views + [view];
      i := i + 1;
    }
    assert servers[..i] == servers;
  }

  lemma EachExtends<T>(ask: string -> T, names: seq<string>, i: nat)
    requires i < |names|
    ensures Each(ask, names[..i + 1]) == Each(ask, names[..i]) + [ask(names[i])]
  {
  }

  method ProbeAuthorities(server: Server, request: Request, authorities: seq<string>) returns (views: seq<View>)
    requires request.policy.servers != []
    ensures views == AuthorityViews(server, request, authorities)
  {
    views := [];
    var i := 0;
    while i < |authorities|
      invariant 0 <= i <= |authorities|
      invariant views == AuthorityViews(server, request, authorities[..i])
    {
      var lists := Each(ServersVia(server, request), authorities[..i + 1]);
      assert lists[..i] == Each(ServersVia(server, request), authorities[..i]);
      var via := ProbeAuthority(server, request, authorities[i]);
      views := views + via;
      i := i + 1;
    }
    assert authorities[..i] == authorities;
  }

  /** A withdrawal asks an authority through every server, the first one first. */
  method ProbeAuthority(server: Server, request: Request, authority: string) returns (views: seq<View>)
    requires request.policy.servers != []
    ensures views == ServersVia(server, request)(authority)
  {
    var first, _ := Resolve(server, request.name, request.policy.servers[0], authority, request.zone);
    views := AskEach(server, request, authority, [first]);
  }

  /** No step renames a view. */
  ghost predicate KeepsID(step: (Name, View) -> Step) {
    forall current: Name, view: View :: step(current, view).view.id == view.id
  }

  lemma {:induction false} ResolveKeepsID(step: (Name, View) -> Step, current: Name, seen: set<Name>, view: View)
    requires KeepsID(step)
    ensures ResolveFrom(step, current, seen, view).id == view.id
    decreases MAX_CNAMES + 1 - |view.chain|
  {
    if current !in seen {
      var next := step(current, view);
      if next.Follow? {
        var linked := next.view.(chain := view.chain + [next.next]);
        if |linked.chain| <= MAX_CNAMES {
          ResolveKeepsID(step, next.next, seen + {current}, linked);
        }
      }
    }
  }

  lemma ViewID(server: Server, name: Name, recursive: string, authority: string, zone: Name)
    ensures ResolveSpec(server, name, recursive, authority, zone).id
            == if authority != "" then AuthorityID(authority, recursive) else RecursiveID(recursive)
  {
    var step := NameStep(server, recursive, authority, zone);
    forall current: Name, view: View
      ensures step(current, view).view.id == view.id
    {
      StepKeepsID(server, recursive, authority, zone, current, view);
    }
    ResolveKeepsID(step, Canonical(name), {}, EmptyView(recursive, authority));
  }

  lemma StepKeepsID(server: Server, recursive: string, authority: string, zone: Name, current: Name, view: View)
    ensures StepAt(server, recursive, authority, zone, current, view).view.id == view.id
  {
    RepliesKeepID(Ask(server, AskAt(recursive, authority, zone, current, "A")),
                  Ask(server, AskAt(recursive, authority, zone, current, "AAAA")),
                  authority != "" && InZone(zone, current), current, view);
  }

  lemma RepliesKeepID(first: Asked, second: Asked, authoritative: bool, current: Name, view: View)
    requires (first.Answered? ==> first.reply.Reply?) && (second.Answered? ==> second.reply.Reply?)
    ensures AfterReplies(first, second, authoritative, current, view).view.id == view.id
  {
    if first.Answered? && second.Answered? && first.reply.rcode == second.reply.rcode {
      var two := WithReply(WithReply(view, authoritative, first.reply, current, "A"), authoritative, second.reply,
                           current, "AAAA");
      ConcludeKeepsID(two.(rcode := first.reply.rcode), first.reply.answer + second.reply.answer, current);
    }
  }

  lemma ConcludeKeepsID(view: View, records: seq<Record>, current: Name)
    ensures Conclude(view, records, current).view.id == view.id
  {
  }

  /**
   A probe of distinct servers without expected name servers yields one view for each server and no other: the
   views every withdrawal decision requires, each exactly once.
   */
  lemma ProbeYieldsRequired(server: Server, request: Request)
    requires request.policy.servers != [] && request.policy.expectedNameservers == []
    requires Distinct(request.policy.servers)
    ensures ProbeSpec(server, request).Ok?
    ensures RequiredPresent(request, ProbeSpec(server, request).value) && DistinctIDs(ProbeSpec(server, request).value)
    ensures |ProbeSpec(server, request).value| == |request.policy.servers|
  {
    ViewIDs(server, request, "");
    OneViewEach(request, RecursiveViews(server, request));
  }

  lemma ViewIDs(server: Server, request: Request, authority: string)
    ensures forall via: string :: Through(server, request, authority)(via).id
                                  == if authority != "" then AuthorityID(authority, via) else RecursiveID(via)
  {
    forall via: string
      ensures Through(server, request, authority)(via).id
              == if authority != "" then AuthorityID(authority, via) else RecursiveID(via)
    {
      ViewID(server, request.name, via, authority, request.zone);
    }
  }

  lemma OneViewEach(request: Request, views: seq<View>)
    requires request.policy.servers != [] && request.policy.expectedNameservers == []
    requires Distinct(request.policy.servers)
    requires |views| == |request.policy.servers|
    requires forall i :: 0 <= i < |views| ==> views[i].id == RecursiveID(request.policy.servers[i])
    ensures RequiredPresent(request, views) && DistinctIDs(views)
  {
    var servers := request.policy.servers;
    forall s | s in servers
      ensures HasView(views, RecursiveID(s))
    {
      var i :| 0 <= i < |servers| && servers[i] == s;
      assert views[i].id == RecursiveID(s);
    }
    forall i, j | 0 <= i < j < |views|
      ensures views[i].id != views[j].id
    {
      assert RecursiveID(servers[i])[10..] == servers[i] && RecursiveID(servers[j])[10..] == servers[j];
    }
  }

  /** With evidence of authorities, every authority is asked through every server as well. */
  lemma ProbeAsksAuthorities(server: Server, request: Request, authority: string, via: string)
    requires request.policy.servers != [] && request.policy.expectedNameservers != [] && HasEvidence(request)
    requires authority in request.evidence.value.authorities && authority != "" && via in request.policy.servers
    ensures ProbeSpec(server, request).Ok? && HasView(ProbeSpec(server, request).value, AuthorityID(authority, via))
  {
    var authorities, servers := request.evidence.value.authorities, request.policy.servers;
    ViewIDs(server, request, authority);
    var i :| 0 <= i < |authorities| && authorities[i] == authority;
    var j :| 0 <= j < |servers| && servers[j] == via;
    var lists := Each(ServersVia(server, request), authorities);
    var k := FlatHas(lists, i, j);
    var all := RecursiveViews(server, request) + Flat(lists);
    assert all[|RecursiveViews(server, request)| + k] == lists[i][j];
    assert lists[i][j] == Through(server, request, authority)(via);
  }

  lemma {:induction false} FlatHas(lists: seq<seq<View>>, i: nat, j: nat) returns (k: nat)
    requires i < |lists| && j < |lists[i]|
    ensures k < |Flat(lists)| && Flat(lists)[k] == lists[i][j]
  {
    var last := |lists| - 1;
    if i == last {
      k := |Flat(lists[..last])| + j;
    } else {
      k := FlatHas(lists[..last], i, j);
    }
  }

  // ---------- the answers of a view are the server's ----------

  /** The answer is the evidence of the reply to its own question. */
  predicate Truthful(server: Server, recursive: string, authority: string, zone: Name, answer: Answer) {
    var asked := Ask(server, AskAt(recursive, authority, zone, answer.name, answer.qtype));
    Lowercase(answer.name) && asked.Answered? && answer == AnswerEvidence(asked.reply, answer.name, answer.qtype)
  }

  ghost predicate AllAre(truthful: Answer -> bool, view: View) {
    forall a :: a in view.answers ==> truthful(a)
  }

  ghost predicate KeepsTruth(step: (Name, View) -> Step, truthful: Answer -> bool) {
    forall current: Name, view: View :: Lowercase(current) && AllAre(truthful, view) ==>
      && AllAre(truthful, step(current, view).view)
      && (step(current, view).Follow? ==> Lowercase(step(current, view).next))
  }

  lemma ConcludeKeepsAnswers(view: View, records: seq<Record>, current: Name)
    ensures Conclude(view, records, current).view.answers == view.answers
    ensures Conclude(view, records, current).Follow? ==> Lowercase(Conclude(view, records, current).next)
  {
    UnrepeatedMembers(Targets(records, current));
    TargetsAreCanonical(records, current);
  }

  /** What the two replies of a name step give, seen without how they were asked. */
  predicate FromReplies(answer: Answer, view: View, first: Asked, second: Asked, current: Name) {
    || answer in view.answers
    || (first.Answered? && first.reply.Reply? && answer == AnswerEvidence(first.reply, current, "A"))
    || (second.Answered? && second.reply.Reply? && answer == AnswerEvidence(second.reply, current, "AAAA"))
  }

  /** A name step adds at most the evidence of its two replies. */
  lemma RepliesAdd(first: Asked, second: Asked, authoritative: bool, current: Name, view: View)
    requires (first.Answered? ==> first.reply.Reply?) && (second.Answered? ==> second.reply.Reply?)
    ensures var step := AfterReplies(first, second, authoritative, current, view);
      && (step.Follow? ==> Lowercase(step.next))
      && forall a :: a in step.view.answers ==> FromReplies(a, view, first, second, current)
  {
    if first.Answered? && second.Answered? && first.reply.rcode == second.reply.rcode {
      var two := WithReply(WithReply(view, authoritative, first.reply, current, "A"), authoritative, second.reply,
                           current, "AAAA");
      ConcludeKeepsAnswers(two.(rcode := first.reply.rcode), first.reply.answer + second.reply.answer, current);
    }
  }

  lemma StepIsTruthful(server: Server, recursive: string, authority: string, zone: Name, current: Name, view: View)
    requires Lowercase(current)
    ensures var step := StepAt(server, recursive, authority, zone, current, view);
      && (forall a :: a in step.view.answers ==> a in view.answers || Truthful(server, recursive, authority, zone, a))
      && (step.Follow? ==> Lowercase(step.next))
  {
    RepliesAdd(Ask(server, AskAt(recursive, authority, zone, current, "A")),
               Ask(server, AskAt(recursive, authority, zone, current, "AAAA")),
               authority != "" && InZone(zone, current), current, view);
  }

  lemma {:induction false} ResolveKeepsTruth(step: (Name, View) -> Step, truthful: Answer -> bool, current: Name,
                                             seen: set<Name>, view: View)
    requires KeepsTruth(step, truthful) && Lowercase(current) && AllAre(truthful, view)
    ensures AllAre(truthful, ResolveFrom(step, current, seen, view))
    decreases MAX_CNAMES + 1 - |view.chain|
  {
    if current !in seen {
      var next := step(current, view);
      assert AllAre(truthful, next.view);
      if next.Follow? {
        var linked := next.view.(chain := view.chain + [next.next]);
        assert AllAre(truthful, linked);
        if |linked.chain| <= MAX_CNAMES {
          ResolveKeepsTruth(step, truthful, next.next, seen + {current}, linked);
        }
      }
    }
  }

  lemma ViewIsTruthful(server: Server, name: Name, recursive: string, authority: string, zone: Name)
    ensures forall a :: a in ResolveSpec(server, name, recursive, authority, zone).answers ==>
      Truthful(server, recursive, authority, zone, a)
  {
    var step := NameStep(server, recursive, authority, zone);
    var truthful := (a: Answer) => Truthful(server, recursive, authority, zone, a);
    forall current: Name, view: View | Lowercase(current) && AllAre(truthful, view)
      ensures AllAre(truthful, step(current, view).view)
      ensures (step(current, view).Follow? ==> Lowercase(step(current, view).next))
    {
      StepIsTruthful(server, recursive, authority, zone, current, view);
    }
    CanonicalIdempotent(name);
    ResolveKeepsTruth(step, truthful, Canonical(name), {}, EmptyView(recursive, authority));
  }

  /** The reply to a question carries the address for the name that was asked. */
  ghost predicate Serves(server: Server, question: Question, address: Addr) {
    && server(question).Reply?
    && exists r :: r in server(question).answer && Canonical(r.owner) == question.name
                   && (r.data.AData? || r.data.AAAAData?) && r.data.address.Is(address)
  }

  /** A complete view without the address means that the server serves it at no owner of the chain. */
  lemma AbsenceIsTheServers(server: Server, name: Name, recursive: string, authority: string, zone: Name,
                            address: Addr, owner: Name, family: string)
    requires var view := ResolveSpec(server, name, recursive, authority, zone);
      Complete(name, view) && AbsentFrom(address, view) && owner in OwnersOf(name, view)
    requires family in FAMILIES
    ensures !Serves(server, AskAt(recursive, authority, zone, owner, family), address)
  {
    var view := ResolveSpec(server, name, recursive, authority, zone);
    var owners := OwnersOf(name, view);
    var i :| 0 <= i < |owners| && owners[i] == owner;
    ViewIsTruthful(server, name, recursive, authority, zone);
    assert AnsweredOnce(view.answers, owners[i], family);
    var j :| Lone(view.answers, owner, family, j);
    assert view.answers[j] in view.answers;
    TruthfulIsServed(server, recursive, authority, zone, view.answers[j], address);
  }

  lemma TruthfulIsServed(server: Server, recursive: string, authority: string, zone: Name, answer: Answer,
                         address: Addr)
    requires Truthful(server, recursive, authority, zone, answer) && !Holds(answer, address)
    ensures !Serves(server, AskAt(recursive, authority, zone, answer.name, answer.qtype), address)
  {
    var question := AskAt(recursive, authority, zone, answer.name, answer.qtype);
    var reply := Ask(server, question).reply;
    if Serves(server, question, address) {
      var r :| r in reply.answer && Canonical(r.owner) == answer.name && (r.data.AData? || r.data.AAAAData?)
               && r.data.address.Is(address);
      EvidenceHoldsAddresses(Answer(answer.name, answer.qtype, reply.rcode, [], Root, None, None, ""), reply.answer,
                             answer.qtype, r);
    }
  }

  lemma RecursiveViewIsProbed(server: Server, request: Request, via: string)
    requires via in request.policy.servers && ProbeSpec(server, request).Ok?
    ensures ResolveSpec(server, request.name, via, "", request.zone) in ProbeSpec(server, request).value
  {
    var views := RecursiveViews(server, request);
    var i :| 0 <= i < |request.policy.servers| && request.policy.servers[i] == via;
    assert views[i] == Through(server, request, "")(via);
    assert views[i] == ProbeSpec(server, request).value[i];
  }
}
