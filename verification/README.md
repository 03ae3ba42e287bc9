# Verified withdrawal and authoritative serving, in Dafny

This project models how a DNS address is withdrawn before it is reused, and the authoritative
server that the withdrawal reasons about.

- A **source** (gateway or service) retires hostname and address pairs of an EndpointRecordSet; the
  **endpoint controller** captures each pair as a withdrawal claim before it prunes or deletes
  (`Retirement`, `Capture`, `Conservation`).
- The **withdrawal evaluator** decides when a claim's address is gone: it follows the links of the
  served snapshot (`Owners`, `Exclusion`), probes every configured view (`Wire`, `Probe`) and keeps a
  window of absence with cache horizons, policy floors and a backoff (`States`, `Evaluator`). `Runs` is
  about whole runs of evaluations, `Stretches` says when a run that keeps finding absence releases, and
  `Release` joins the runs with the DNS exchanges and with the server.
- The **hosted server** compiles snapshots (`Zones`), indexes them (`ZoneIndexes`), arbitrates between
  snapshots of one apex (`Watch`), answers queries (`Exclusion`) and limits sources (`RateLimit`).
- The **composition** of a zone's ledger (`Ledger`) and its **rendering** into a snapshot (`Render`,
  `Quote`) feed the server; `Snapshots` says what the server makes of a rendered snapshot.

`Names`, `Order` and `Sequences` hold what these share.

## How to read it

A loop or an object of the system is a method or a class, proved against a function or relation beside it;
the lemmas about that function are the properties. Names are trees of labels, times of the state machine
are natural numbers of nanoseconds with 0 as the zero time, times and tokens of the limiter are real
numbers. Hashes and fingerprints are injective, that is, they are the tuple they cover. A DNS server is an
arbitrary function from questions to replies, provider rules and capabilities are arbitrary predicates, and
the API server is an object with a version and a generation that rises with each specification change and
with the deletion mark.

Where a property needs a condition the code does not check, the condition is stated and shown to be
needed:

- `Owners.LookupRefinesScan` holds for every name but the label `@` directly below the apex, which the
  scan takes for the apex itself. Probe names are host names, so this label is never probed.
- `Exclusion.ExclusionIsSound` is about the zone that is indexed for the name; `ChildZoneAnswersInstead`
  gives an index in which a more closely enclosing zone answers.
- `Probe.SightingKeptExactly` says which observed copies leave evidence: those in A and AAAA answers, and
  others only through a link beside them.
- `Ledger.RunStaysConflictFree` is about runs in which the deletion of an incarnation is irrevocable, as
  the API server guarantees.
- The 330 s between rounds in `Runs.ScheduledGap` is for the schedule as computed. The controller may
  move the next probe (jitter, up to 300 s after completion); `Runs.TrueEndsWindow` therefore states the
  gap relative to the due time, which covers every rescheduling.

## Model

| member | source | states |
|---|---|---|
| Zones.CompileZone | internal/go/providers/hosted/server/zone.go:31-127 | succeeds exactly when the snapshot has a usable apex and serial, well-formed records, no two records with one owner and type, exclusive CNAMEs and valid name servers; the two maps built record by record then equal the order-free meaning of the records: existing nodes with empty non-terminals, and wildcards by parent |
| Zones.Zone.Find | internal/go/providers/hosted/server/zone.go:148-159 | the walk up the name returns what the indexed lookup means: the exact owner, else the wildcard of the first existing ancestor, else nothing |
| Zones.NodesAreExisting | internal/go/providers/hosted/server/zone.go:79-87 | a name is in the compiled index exactly when it is the apex or a record sits at it or below it |
| Zones.CompileIgnoresOrder | internal/go/providers/hosted/server/zone.go:42-88 | every reordering of the records is accepted alike and compiles to the same zone |
| Owners.AnsweringIsUnique | internal/go/providers/hosted/server/zone.go:148-159 | the closest-encloser rule of sections 2.2.2 and 3.3.1 of RFC 4592 names at most one answering owner |
| Owners.ScanOwner | internal/go/providers/hosted/withdrawal/evaluator.go:291-313 | the linear scan over the records computes the scan's owner function |
| Owners.ScanFollowsRule | internal/go/providers/hosted/withdrawal/evaluator.go:291-327 | for every in-zone name but `@` below the apex, the owner the linear scan chooses is the one the RFC 4592 rule prescribes |
| Owners.LookupFollowsRule | internal/go/providers/hosted/server/zone.go:79-88 | the indexed lookup gives exactly the RRsets of the owner the RFC 4592 rule prescribes, with the SOA and synthesised NS at the apex |
| Owners.LookupRefinesScan | internal/go/providers/hosted/withdrawal/evaluator.go:291-327 | for every accepted snapshot and in-zone name the indexed lookup equals the scan's answer if and only if the name is not the label `@` below the apex |
| Owners.AtLabelIsNotApex | internal/go/providers/hosted/withdrawal/evaluator.go:291-297 | the exception is real: at the label `@` below the apex the scan answers with the apex and the server does not |
| Exclusion.SnapshotExclusion | internal/go/providers/hosted/withdrawal/evaluator.go:237-287 | the loop with its visited array and running TTL equals the recursive meaning of following a snapshot's links |
| Exclusion.Answer | internal/go/providers/hosted/server/handler.go:44-132 | the answering procedure equals its recursive meaning for every request and index, the refusals of an EDNS version, an opcode and a question count included |
| Exclusion.FollowLinks | internal/go/providers/hosted/server/handler.go:80-131 | the CNAME loop stops for every zone and index, after at most eight links, and equals the recursive chase |
| Exclusion.ChaseIsSound | internal/go/providers/hosted/server/handler.go:80-131 | from any point of a chase that the scan calls clean, no record of the answer carries the address |
| Exclusion.ExclusionIsSound | internal/go/providers/hosted/withdrawal/evaluator.go:237-287 | if the snapshot excludes an address at a name, the server of that snapshot never puts it into the answer to a request for A or AAAA there, whatever EDNS option or opcode it has, through any links and wildcards and whatever other zones are indexed |
| Exclusion.ChildZoneAnswersInstead | internal/go/providers/hosted/server/handler.go:127-129 | the condition that this zone is the one indexed for the name is needed: with two snapshots that both compile, the one that encloses the name more closely serves the address the other excludes |
| Probe.WithdrawalViewEvidence | internal/go/core/dnsprobe/withdrawal.go:109-218 | the loops over owners, families and answers compute the evidence function of one view, with the first failing check deciding the failure code |
| Probe.EvaluateWithdrawal | internal/go/core/dnsprobe/withdrawal.go:53-107 | the evaluation equals a fold over the views sorted by ID that ends at the first failure |
| Probe.PositiveWithdrawalEvidence | internal/go/core/dnsprobe/withdrawal.go:230-261 | collects exactly the positive evidence of every view that holds the address, in order |
| Probe.TrueMeansAbsent | internal/go/core/dnsprobe/withdrawal.go:53-107 | a decision other than Unknown certifies that every required view is present exactly once and that its answers are in bijection with chain owners times {A, AAAA} with links forming the chain; it is True if and only if no answer in any view holds the address |
| Probe.DecidedExactly | internal/go/core/dnsprobe/withdrawal.go:53-107 | for a parsed address without zone, the decision is other than Unknown if and only if every required view is present, no view ID repeats and every view passes its own checks |
| Probe.SightingsAreKept | internal/go/core/dnsprobe/withdrawal.go:59-106 | on True, False and every failure, each answer that holds the address with a lifetime leaves an evidence item with that view, type and lifetime |
| Probe.SightingKeptExactly | internal/go/core/dnsprobe/withdrawal.go:230-250 | for all views, repeated IDs included, and answers of any type: a sighting leaves its evidence if and only if its type is A or AAAA, or a link of the same type and lifetime in a view of the same ID leaves the same evidence in its place |
| Wire.ReadAnswer | internal/go/core/dnsprobe/withdrawal.go:273-324 | the record loop equals the evidence function of one reply |
| Wire.EvidenceHoldsAddresses | internal/go/core/dnsprobe/withdrawal.go:275-304 | every address record at the asked name is among the evidence addresses, with a lifetime at least its own |
| Wire.Resolve | internal/go/core/dnsprobe/wire.go:215-296 | against any reply function the chain loop terminates and equals the recursive meaning of following a name, the least TTL and least negative TTL of the view included |
| Wire.ResolveIsWellFormed | internal/go/core/dnsprobe/wire.go:215-296 | at most nine names are asked, none of them twice; a view without failure or mismatch has distinct owners and exactly one A and one AAAA answer per owner in chain order |
| Wire.ProbeViews | internal/go/core/dnsprobe/wire.go:114-141 | the enumeration of views is every server in order, then every authority through every server |
| Wire.ProbeYieldsRequired | internal/go/core/dnsprobe/wire.go:117-119 | a probe of distinct servers yields each required view exactly once and no other |
| Wire.ProbeAsksAuthorities | internal/go/core/dnsprobe/wire.go:120-139 | a withdrawal probe asks every evidenced authority through every server |
| Wire.AbsenceIsTheServers | internal/go/core/dnsprobe/wire.go:215-296 | a complete view without the address means the server serves it at no owner of the chain and for neither type |
| States.State.Invalidate | internal/go/providers/hosted/withdrawal/state.go:84-88 | clears the window and nothing else |
| States.State.RetainPositive | internal/go/providers/hosted/withdrawal/state.go:90-104 | the map afterwards is the old map with each item's expiry raised to the observation time plus its lifetime, never lowered |
| States.State.Window | internal/go/providers/hosted/withdrawal/state.go:106-139 | the new state keeps or starts the window, takes the largest SOA minimum, sets the horizon to the least whole second at or above the start plus that minimum, the old horizon and every cached expiry, and concludes True exactly for a confirming probe at or after it |
| States.State.Schedule | internal/go/providers/hosted/withdrawal/state.go:141-152 | the whole new state after scheduling, failures and next probe included |
| States.Latest | internal/go/providers/hosted/withdrawal/state.go:123-127 | the loop over the expiries finds their least upper bound with the base |
| States.WindowIsDeterminate | internal/go/providers/hosted/withdrawal/state.go:106-139 | the order in which the map of expiries is visited cannot matter |
| States.WindowFacts | internal/go/providers/hosted/withdrawal/state.go:106-139 | a concluding window was open, is later than the last probe, is past its minimum and past every cached expiry |
| States.WindowConcludesExactly | internal/go/providers/hosted/withdrawal/state.go:106-139 | a window concludes if and only if it was open, the probe is strictly later than the last one, and the minimum since its start, the old horizon and every cached expiry have all passed, to the whole second |
| States.RetainGrows | internal/go/providers/hosted/withdrawal/state.go:90-104 | no expiry is lowered or dropped and every positive item is remembered for its lifetime |
| States.BackoffGrows | internal/go/providers/hosted/withdrawal/state.go:141-152 | n unknown outcomes in a row after a success wait 30, 60, 120 and then always 300 seconds |
| Evaluator.InitialState | internal/go/providers/hosted/withdrawal/state.go:38-61 | a fresh private state whose value is the previous memory of the same identity with its history checks, or an empty one that inherits missing history and a seed |
| Evaluator.CheckServers | internal/go/core/dnsprobe/policy.go:38-49 | accepts exactly one through three distinct canonical endpoints |
| Evaluator.ProbeNames | internal/go/providers/hosted/withdrawal/evaluator.go:112-125 | the loop over checked names combines the verdicts and retains the sightings of every name, failed probes included |
| Evaluator.Evaluate | internal/go/providers/hosted/withdrawal/evaluator.go:67-177 | the decision, its readiness and waiver binding and the new state satisfy the evaluation relation between the old memory and the inputs, and the previous state is left untouched |
| Evaluator.FinishedFacts | internal/go/providers/hosted/withdrawal/evaluator.go:148-159 | counting and scheduling change only the window and the schedule; the next probe is 30 to 300 seconds away, 30 unless the outcome is Unknown |
| Evaluator.WaiverIsBeside | internal/go/providers/hosted/withdrawal/evaluator.go:215-222 | whatever waiver a claim carries or loses, exactly the same decisions and memories are possible: a waiver stands beside a decision and cannot bring it about |
| Runs.VerdictTrue | internal/go/providers/hosted/withdrawal/evaluator.go:104-142 | a verdict of True means a valid claim, a served snapshot, an outcome in time, unchanged policy, and for every checked name absence from the snapshot and from every view |
| Runs.VerdictExactly | internal/go/providers/hosted/withdrawal/evaluator.go:104-142 | the verdict is True if and only if the policy neither changed nor weakened, the round was in time, the claim is valid, its snapshot is served, and every checked name is excluded by the snapshot and by its probe |
| Runs.TrueExactly | internal/go/providers/hosted/withdrawal/evaluator.go:67-159 | one evaluation says `Withdrawn=True` if and only if its verdict is True, the window it found was open and is not broken by a change or a gap, it ends strictly later than the last probe, and every bound of the window has passed, the copies seen in this very round included |
| Runs.ProperLeaves | internal/go/providers/hosted/withdrawal/evaluator.go:92-159 | what one evaluation of any input leaves: an open window was continued or started by an absent round, and a True outcome concluded it |
| Runs.WindowIsUnbroken | internal/go/providers/hosted/withdrawal/state.go:106-139 | in every run an open window is an unbroken stretch of absent rounds under one policy since its start |
| Runs.TrueEndsWindow | internal/go/providers/hosted/withdrawal/evaluator.go:67-159 | in every run of one claim identity, `Withdrawn=True` ends a window of at least two absent rounds under one policy with non-decreasing ends, each at most 300 s after its due time; the last is strictly later than the one before and no earlier than the window start plus the SOA minimum |
| Runs.ScheduledGap | internal/go/providers/hosted/withdrawal/evaluator.go:97-99 | successive rounds of a window end at most 330 s apart when the next probe is left as scheduled |
| Runs.TrueIsAfterExpiries | internal/go/providers/hosted/withdrawal/evaluator.go:112-125 | `Withdrawn=True` comes no earlier than any expiry the run ever held, a publication seed included |
| Runs.TrueIsAfterLifetimes | internal/go/providers/hosted/withdrawal/evaluator.go:112-125 | cache safety: it comes no earlier than observation time plus TTL for every copy any round saw in a view, in failed and policy-changed rounds too |
| Runs.TrueIsAfterSnapshotLifetimes | internal/go/providers/hosted/withdrawal/evaluator.go:113-114 | the same for copies the snapshot itself still held |
| Runs.FloorIsMonotone | internal/go/providers/hosted/withdrawal/evaluator.go:143-146 | along a run the required-view floor never loses a view, the SOA floor never drops and missing history is sticky |
| Runs.TrueMeetsFloor | internal/go/providers/hosted/withdrawal/evaluator.go:92-102 | `Withdrawn=True` implies that history was never missing and that every view ever in the floor was probed in that very evaluation and held the address for no name |
| Runs.OpeningIsCarried | internal/go/providers/hosted/controllers/zoneunit/withdrawal.go:164-192 | a round of a run finds the identity, floors, names, copies and schedule history its predecessor left, provided that what the controller did in between stays within `Carried` |
| Runs.TreatmentsCarry | internal/go/providers/hosted/controllers/zoneunit/withdrawal.go:38-192 | every sequence of what the controller does to the state (move the next probe, drop the window, store it with times cut to seconds) stays within `Carried` |
| Stretches.StretchIsMarked | internal/go/providers/hosted/withdrawal/state.go:106-139 | in an unbroken stretch of favourable rounds every round keeps the window that its first round opened: its start, its minimum, and a horizon that has passed once the minimum and the copies have run out |
| Stretches.ReleasedExactlyWhenRunOut | internal/go/providers/hosted/withdrawal/evaluator.go:67-159 | in every run, an address that stays gone is called `Withdrawn=True` at exactly the rounds of an unbroken stretch that end no earlier than its start plus the SOA minimum and than every cached expiry, each counted to the whole second |
| Release.ReleasedMeansUnserved | internal/go/providers/hosted/withdrawal/evaluator.go:67-159 | the parts together: when a claim is released, in every round of its last window each configured server was asked for each checked name along its whole chain and for both types, and no reply held the address; DNS may answer differently in every round and for every name |
| Release.ReleasedMeansUnanswered | internal/go/providers/hosted/withdrawal/evaluator.go:237-287 | when a claim is released, no server that held the snapshot of a round of its last window could put the address into the answer to an A or AAAA request at the checked name, through any links and wildcards |
| Retirement.Addresses | internal/go/apps/endpoint/retirement/retirement.go:107-123 | the loop returns the distinct unwrapped addresses in order, or the error of an unreadable one |
| Retirement.AddressesAre | internal/go/apps/endpoint/retirement/retirement.go:107-123 | it fails exactly for an unreadable address target; otherwise its members are the published addresses, without repetition |
| Retirement.Append | internal/go/apps/endpoint/retirement/retirement.go:46-100 | the method computes the specification function, errors included |
| Retirement.AppendKeeps | internal/go/apps/endpoint/retirement/retirement.go:46-100 | the desired live part and every stored entry survive, new entries stand behind them, and the entry lists of an unprotected object stay as they are |
| Retirement.AppendIsExact | internal/go/apps/endpoint/retirement/retirement.go:46-98 | for every object and every pair: the added entries retire the pair at the object's generation if and only if the object is protected, published the pair before and does not desire it now |
| Retirement.AppendKeepsLimits | internal/go/apps/endpoint/retirement/retirement.go:82-86 | the limits of 64 and 256, of the lists and inside each entry, are kept |
| Retirement.AppendKeepsIDs | internal/go/apps/endpoint/retirement/retirement.go:87-105 | entry IDs stay unique because every stored entry is of an earlier generation |
| Capture.Pass.CaptureWithdrawals | internal/go/apps/endpoint/controllers/endpointrecordset/withdrawal.go:41-127 | succeeds exactly when the limits hold and no demanded pair is blocked; afterwards there is a claim of the right shape for every bound pair and no other new claim, and a failing pass has removed none |
| Capture.Pass.CaptureOne | internal/go/apps/endpoint/controllers/endpointrecordset/withdrawal.go:61-99 | one pair: the cached binding, the free case, the duplicate and the collision all keep the account of claims exact |
| Capture.Pass.Ensure | internal/go/apps/endpoint/controllers/endpointrecordset/withdrawal.go:207-227 | creates the claim or accepts an existing one of exactly the wanted shape |
| Capture.Pass.SettledIsClaimedOrFree | internal/go/apps/endpoint/controllers/endpointrecordset/withdrawal.go:61-99 | every pair of a successful pass has a claim or was found free of obligation |
| Conservation.RetireOrDelete | internal/go/apps/endpoint/retirement/retirement.go:159-182 | the branch structure yields the call computed from the version that was read |
| Conservation.Reconcile | internal/go/apps/endpoint/controllers/endpointrecordset/controller.go:80-118 | one endpoint reconciliation issues the call of its branch, and prunes, acknowledges or drops the finalizer only after every demanded pair is claimed or free |
| Conservation.AppendConserves | internal/go/apps/endpoint/retirement/retirement.go:46-100 | a retiring write drops no held obligation and holds every pair it removes |
| Conservation.DeletedGood | internal/go/apps/endpoint/retirement/retirement.go:170-173 | deletion without a finalizer happens only when there is nothing to retire |
| Conservation.DeletingGood | internal/go/apps/endpoint/controllers/endpointrecordset/controller.go:556-583 | the finalizer is removed only when every entry and every live pair of a protected object is settled |
| Conservation.PrunedGood | internal/go/apps/endpoint/controllers/endpointrecordset/withdrawal.go:233-238 | pruning drops only entries that are settled |
| Conservation.StaleOrCurrent | internal/go/apps/endpoint/retirement/retirement.go:177-186 | any version ever committed that is not the stored one carries another version number, so a write computed from it fails the version check |
| Conservation.InvariantStep | internal/go/apps/endpoint/controllers/endpointrecordset/controller.go:68-118 | every event of either controller, from any version either may have read, keeps the invariant |
| Conservation.NoObligationIsLost | internal/go/apps/endpoint/retirement/retirement.go:46-182 | in every interleaving, at every moment, each pair ever removed from a protected object is a retirement entry, a claim, or was found to carry no obligation |
| Conservation.RemovedStaysAccounted | internal/go/apps/endpoint/retirement/retirement.go:46-182 | a pair that some step removed from a protected object is, at every later moment of the run, held in an entry, claimed, or was found to carry no obligation |
| Conservation.EntriesStayUnique | internal/go/apps/endpoint/retirement/retirement.go:87-105 | in every run the stored entries have unique IDs, earlier generations and stay within the limits |
| Conservation.AcknowledgmentIsTrue | internal/go/apps/endpoint/controllers/endpointrecordset/withdrawal.go:229-251 | a current capture acknowledgment means that every retired pair is claimed or free |
| RateLimit.SourceLimiter.Allow | internal/go/providers/hosted/server/ratelimit.go:32-56 | the new table, the new order of use and the decision are those of the call function, and the table stays consistent with the order |
| RateLimit.MeterIsFair | internal/go/providers/hosted/server/ratelimit.go:47-49 | refilling keeps a bucket between empty and full, fills it within the idle timeout and gains at most `rate` a second |
| RateLimit.ReclaimedLevel | internal/go/providers/hosted/server/ratelimit.go:35-38 | reclaiming an idle source changes no level a later call could find |
| RateLimit.ReclaimingIsInvisible | internal/go/providers/hosted/server/ratelimit.go:32-56 | over every ordered sequence of calls that never fills the table each decision is that of a limiter that never reclaims |
| RateLimit.IntervalBound | internal/go/providers/hosted/server/ratelimit.go:32-56 | in every ordered sequence of calls one source is allowed at most rate + rate*d queries in d seconds |
| RateLimit.SourcesFit | internal/go/providers/hosted/server/ratelimit.go:40-43 | at most 65536 sources are tracked after any sequence of calls |
| RateLimit.ActiveIsKept | internal/go/providers/hosted/server/ratelimit.go:30-38 | a source used within the last minute is never evicted |
| ZoneIndexes.ZoneIndex.Replace | internal/go/providers/hosted/server/zone.go:176-211 | the outcome and the whole new table, in each of the five cases, and the table stays consistent |
| ZoneIndexes.ZoneIndex.Remove | internal/go/providers/hosted/server/zone.go:213-224 | removes the apex of a key only for the incarnation that is served |
| ZoneIndexes.ZoneIndex.ReconcileAbsent | internal/go/providers/hosted/server/zone.go:244-254 | blocks or unblocks the apex and stops serving it |
| ZoneIndexes.ZoneIndex.Find | internal/go/providers/hosted/server/zone.go:256-266 | the walk towards the root equals the lookup function |
| ZoneIndexes.ReplaceIsConsistent | internal/go/providers/hosted/server/zone.go:176-211 | replacing keeps keys and zones mutually inverse, blocked and served apexes disjoint and the number of zones within the limit |
| ZoneIndexes.LookupIsClosest | internal/go/providers/hosted/server/zone.go:256-266 | lookup returns the deepest enclosing zone, and nothing exactly when there is no enclosing entry or the deepest one is blocked |
| Watch.Handler.ReconcileApex | internal/go/providers/hosted/server/watch.go:150-173 | reconciling an apex with the current owners in the store has the outcome the arbitration relation allows |
| Watch.StoredIsAnnounced | internal/go/providers/hosted/server/watch.go:86-106 | every change of an object that alters the owners of an apex has an operation for that apex behind it; skipped updates alter none |
| Watch.ReconciledApex | internal/go/providers/hosted/server/watch.go:150-173 | reconciling settles the apex, or meets a served snapshot that has left while another operation for the apex is still waiting |
| Watch.StepKeepsInvariant | internal/go/providers/hosted/server/watch.go:86-136 | every change of the store and every handled operation keeps the invariant, with the store any distance ahead |
| Watch.ArbitrationAtRest | internal/go/providers/hosted/server/watch.go:150-173 | once everything is handled: two or more owners mean blocked and unserved, none means neither, a served apex is served for its only owner, and a blocked apex is contested or its sole owner was refused |
| Watch.ContestedIsSilent | internal/go/providers/hosted/server/watch.go:146-149 | at rest no query below a contested apex is answered, not even from a zone above it |
| Ledger.AcceptedRecordSetItems | internal/go/core/controllers/zoneunit/zoneunit_controller.go:397-521 | the acceptance loop equals its fold over the record sets with pending deletions first |
| Ledger.RetainedExistingItems | internal/go/core/controllers/zoneunit/zoneunit_controller.go:523-542 | keeps exactly the stored items the rules retain, in order |
| Ledger.PendingPredecessorItems | internal/go/core/controllers/zoneunit/zoneunit_controller.go:544-558 | keeps exactly the stored items of earlier incarnations still being deleted |
| Ledger.RetainedNotAllowedItems | internal/go/core/controllers/zoneunit/zoneunit_controller.go:560-601 | the loop equals its per-record-set meaning, each kept item marked not allowed |
| Ledger.ComposeLedger | internal/go/core/controllers/zoneunit/zoneunit_controller.go:159-178 | the new ledger is predecessors, accepted items and not-allowed items, in that order |
| Ledger.KeysStayUnique | internal/go/core/controllers/zoneunit/zoneunit_controller.go:172-178 | the three parts share no key, so the keys of the composed ledger are unique |
| Ledger.RunKeysUnique | internal/go/core/controllers/zoneunit/zoneunit_controller.go:159-178 | along every sequence of compositions from the empty ledger the keys are unique, however context, screening and record sets change from one to the next |
| Ledger.AcceptedIsConflictFree | internal/go/core/controllers/zoneunit/zoneunit_controller.go:508-518 | no accepted item conflicts with one accepted before it |
| Ledger.LedgerStaysConflictFree | internal/go/core/controllers/zoneunit/zoneunit_controller.go:663-680 | when nothing is being deleted, the rules are a symmetric predicate of owner name and type, and stored deletion requests belong to deleting record sets, a conflict-free ledger is followed by a conflict-free ledger |
| Ledger.RequestsAreFaithful | internal/go/core/controllers/zoneunit/zoneunit_controller.go:560-601 | along every run in which the deletion of an incarnation is irrevocable, a stored deletion request belongs to a record set being deleted |
| Ledger.RunStaysConflictFree | internal/go/core/controllers/zoneunit/zoneunit_controller.go:159-178 | along every such run with symmetric rules, a ledger free of conflicts stays so over any number of compositions for as long as nothing is being deleted |
| Quote.QuoteString | internal/go/providers/hosted/render/render.go:208-228 | the byte loop equals the escaping function |
| Quote.QuoteTXT | internal/go/providers/hosted/render/render.go:229-243 | the chunk loop equals joining the quoted pieces |
| Quote.QuotingRoundTrip | internal/go/providers/hosted/render/render.go:208-243 | for every octet string, reading the text by the escape rules of section 5.1 of RFC 1035 and concatenating gives it back, each piece has at most 255 octets and the text is printable ASCII |
| Quote.QuotingIsInjective | internal/go/providers/hosted/render/render.go:208-243 | different values never quote to the same text |
| Render.AddAllMeans | internal/go/providers/hosted/render/render.go:34-49 | merging succeeds exactly when all parts of an owner and type agree on the TTL and have at most 64 distinct values, and then holds exactly their sorted union |
| Render.RenderSnapshot | internal/go/providers/hosted/render/render.go:22-131 | the result is related to the items and parameters by the rendering relation, with canonical server names, sorted and compacted addresses and SOA defaults, failures included |
| Render.RenderIgnoresOrder | internal/go/providers/hosted/render/render.go:50-64 | every permutation and repetition of the record sets renders to the same snapshot, or to none |
| Render.RecordsAreSortedAndUnique | internal/go/providers/hosted/render/render.go:99-111 | records are sorted, one per owner in lower case and type, with sorted distinct values, at least one and at most 64 |
| Render.ApexNamesServers | internal/go/providers/hosted/render/render.go:65-97 | every rendered snapshot has an NS record at the apex whose values are exactly the canonical names of the declared servers |
| Snapshots.RenderedCompiles | internal/go/providers/hosted/server/zone.go:42-62 | however values are read, a rendered snapshot has no duplicate or empty RRset, no unsupported type and a serial other than zero, so it compiles if and only if its names are valid, its values parse and its CNAMEs stand alone |
| Snapshots.ApexServesDeclared | internal/go/providers/hosted/server/zone.go:112-116 | the zone compiled from a rendered snapshot serves at its apex exactly the NS records of the declared servers, none synthesised beside them |
| Render.SerialTracksDigest | internal/go/providers/hosted/render/render.go:122-130 | the serial never decreases and is unchanged exactly when the digest is |
| Render.SerialsAdvance | internal/go/providers/hosted/render/render.go:116-130 | along every run serials never decrease and two renderings share a serial only if they share the digest |

## Left out

- Messages, metrics, event recording, tracing and logging: only statuses, reasons and failure codes are modelled.
- Zone-cut referrals: the server does not produce them.
- Backslash escapes in names: a label is the text between two dots.
- Parsing and printing of names, addresses and records: values are already parsed, `Malformed` and a false `wellFormed` stand for text that does not parse.
- Go's unstable sort: sorting is stable here. No proved property depends on the order of equal keys.
- Snapshot evidence of a broken record: when a record of the scanned owner does not parse, the scan fails without the copies it had already found in the same scan, as the source does; `Runs.TrueIsAfterSnapshotLifetimes` is about the evidence the scan returns.
- Zone verification (`EvaluateZone`): its outcome is a boolean of the evidence.
- The cache of authority replies within one probe: a server is a function, so repeated questions have one answer.
- Concurrency limits, query budgets and deadlines of probing: an exchange may fail with any code.
- The controller's own status bookkeeping around an evaluation: only what it does to the evaluator's state is in `Runs.Treated`.
- Evaluator.Evaluate: says nothing of the text of messages and condition times of a decision.
- Exclusion.Answer: says nothing of the additional section and its glue, truncation, the EDNS option of the reply and its header flags; a reply is its answer section, its code and whether the SOA of a negative answer is present.
- Position keys of retained copies: the text key `name/view/type` is a triple, which is injective because names and types hold no slash.
- Width of counters: TTLs, generations and times are unbounded; the serial is bounded by its 32 bits explicitly.
- Generated RecordSets, hostname status and zone resolution of the endpoint controller: the binding of a pair is an arbitrary function of hostname and address per pass.
- Retention of withdrawal claims after capture: a created claim counts as captured for good.
- Finalizers other than the one for generated records, and writers that change neither specification nor conditions beyond a version bump.
- The two-phase write of a source (clearing its pending condition, then updating): the second write is one whose version has the same specification as the first.
- Liveness of arbitration: a sole owner that was refused for lack of room or an invalid snapshot is not retried by the watcher, so `Watch.ArbitrationAtRest` does not say that it is served.
- Decoding failures of a watched object and objects without a domain name: the object schema excludes both.
- Acknowledgement and heartbeat of served snapshots.
- Clocks that run backwards in the limiter, rates below zero and floating-point rounding.
- Finalizer writes of the ledger composition and the message of each rejection.
- Presentation form of A, AAAA, CNAME, NS, MX and CAA values in rendering: values enter as text or as unparsable; TXT and CAA quoting is `Quote`.
- The content digest: an arbitrary function of the content, empty when there is no wire form.
- Render.RenderSnapshot: does not say which of several errors is reported first, because the order of the record sets decides that in the source.
- Cloud provider adapters, admission validation, gateway receipts, service annotations, the user interface and generated code: flat checks.
