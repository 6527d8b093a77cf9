# Price, import and authority core: a verified model

This project models the parts of the construction price backend whose correctness rests on more than
one function, and proves what they promise for every input, every interleaving or every reachable
state. One module stands for one source file or one concern:

| modules | concern |
|---|---|
| `AuthorityCommand`, `AuthorityGovernance`, `AuthorityInvariant`, `AuthorityGovernanceService` | the append-only log of GRANT and REVOKE decisions: the command digest, the interleaving state machine (every read, insert, upsert, commit and recovery of every session is its own event), its invariants, and the service method itself proved against whatever other sessions commit between its statements |
| `PriceCurrentness`, `PriceLifecycle`, `PriceChains`, `PriceOffers`, `PriceLedger` | which price rows are current at an instant, the nine kinds of writes, what each changes at every instant, correction chains, who is offered what, and the writing transactions check by check |
| `SupersessionTimeline`, `PriceTimeline`, `ProvenHistory` | the bounded correction timeline and the proven price history |
| `ImportIdentity`, `SharedIdentity`, `ConditionalSegments`, `ImportBatches`, `ImportBatchLaws`, `TemporalProvenance`, `SourceVersions`, `RegionCoverage`, `Submissions` | batch fingerprints, intake and metadata saves, the provenance law, source versions, interned coverage sets, and submission waves |
| `CanonicalJson`, `AccessTables`, `Rm01bActivation`, `Bp02Activation`, `Bp02Commit`, `Bp02Examples`, `Iql01Activation`, `Rm02c3Activation` | canonical text and the four activation scripts that plan, compare, apply and re-derive |
| `RegionLadder`, `RegionFirstIndex` | the administrative ladder and the region index |
| `Outcomes`, `Text`, `Delimiters`, `Sorting` | results, joined text and what it determines, sorting |

## Conventions

- A table is a map or a sequence held in a field of a class; a transaction is a method of that class
  that ends with the whole new state or with the old one. A unique index is a guard. The governance
  service is the exception: its transaction is cut at every statement and other sessions commit in
  between.
- A digest is represented by the text that is digested, so equal texts stand for equal digests. Where
  a plan is compared by digest (`Bp02Activation`, `Iql01Activation`, `Rm02c3Activation`) equal plans
  stand for equal digests; `CanonicalJson` and `Rm01bActivation` prove for canonical text why that is
  right, and `AuthorityCommand` and `ImportIdentity` prove where the digested text says less than the
  value.
- Instants and days are integers, fresh identifiers are parameters, and a database read whose
  content the model does not hold is a parameter named in the method's comment.

## Where the code and its promise part

Each of these has a witness, a lawful input or state on which the promise fails, and an exact
condition: the promise holds if and only if it is met.

- **Governance replay.** The command digest joins its fields with a space, and the owner reference and
  the reason are both free text. Two different grants can therefore share a digest and be taken for one
  another's replay. Witness `FingerprintCollisionExample`; `SharedFingerprint` says exactly when.
- **The past of two linked imports.** Recording that one existing private row corrects another gives
  the older row a successor with an earlier creation instant, so answers before the recording change.
  Witness `LinkExample`; `LinkRewritesThePast` says exactly when they do not, and `PastIsKept` covers
  every other step.
- **An emptied effective date.** A save that sends an empty date is validated as having no date and
  keeps the stored one, so a derivation claim that does not explain the stored date is accepted.
  Witness `EmptiedDateExample`; exact in `SaveKeepsCoherence`.
- **A date that is not listed as sent.** When a caller names the keys it sent and leaves the date out, a
  date that arrives all the same is written without having been compared, even under linked prices.
  Witness `UnlistedDateExample`; exact in `PricesRespected`, which `UpdateMetadata` promises. The
  controller always lists the keys of the body.
- **Separators in an import's names.** The fingerprint joins its facts with `|` and does not refuse that
  character. As long as the other facts of both imports are free of it, an import is mistaken for a
  different one if and only if its vendor name or its period label contains `|sourcePeriodLabel:`. Exact
  in `SharedIdentity.MistakenExactly`; witness `SeparatorInVendorCollides`.
- **Separators in another import's facts.** Some facts are spelled only when they are stated, so a text
  of another import can spell the fact behind it: source `x` and record `y` read like source
  `x|externalRecordId:y`. An import none of whose own facts holds the separator is mistaken for a
  different one, whatever that one holds, if and only if one of its stated conditional texts is followed
  by another stated conditional fact. Exact in `ConditionalSegments.CleanMistakenExactly`; the witness,
  for any texts, is `AbsorbedIsAlike`.
- **Separators in region codes.** Two or more village codes share their digest with a different list of
  two or more if and only if there are at least three of them, or the district's code or one of theirs
  contains `|member:`. Exact in `DigestSharedExactly`. In a table none of whose codes contains it, digests
  name their villages (`SameDigestSameVillages`); in one table of unique codes that holds such a code
  there are two pairs of villages with one digest (`LawfulCollisionExample`), and a triple of clean codes
  digested like a pair (`UnequalCollisionExample`).
- **The owner guard of BP-02.** It is not unreachable: it fires exactly when the owner already sits in
  one of the two curation roles before that role has its permissions. Witness `OwnerGuardExample`;
  exact in `OwnerGuardExact` and in what `Bp02Database.Apply` promises.
- **An expired seat in BP-02.** An active assignment past its end counts as assigned, so the activation
  commits without a new one and the person cannot do its work. Witness `ExpiredSeatExample`; exact in
  `WorkExactly`.
- **Judge and teacher.** The second-holder plan looks only at roles of its own workspace, so an account
  assigned to a role of another workspace can still do both. Witness `ForeignTeacherExample`; exact in
  `JudgesDoNotTeach`.
- **An anchor far down its chain.** A timeline opened 200 or more corrections below the newest row does
  not contain the row it was opened for. Witness `DeepAnchorExample`; exact in `AnchorIsShown`.
- **City keys.** A city key of the region index selects that city's prices for all cities exactly when
  no city id lies under two provinces. Witness `TornCityExample`; exact in `CityKeysExact`.

## Model

| member | source | states |
|---|---|---|
| AuthorityCommand.EqualFingerprints | backend/src/authority-governance/authority-governance.service.ts:316-332 | commands with equal digests agree on action, position, authority, actor and attestation instant, and on reference and reason joined together |
| AuthorityCommand.SharedFingerprint | backend/src/authority-governance/authority-governance.service.ts:316-332 | a command shares its digest with a different command if and only if its reference or its reason has a lone interior space to move across; otherwise the digest names the command |
| AuthorityCommand.FingerprintCollisionExample | backend/src/authority-governance/authority-governance.service.ts:316-332 | two grants with different references and reasons and one digest |
| AuthorityInvariant.EventKeepsInv | backend/src/authority-governance/authority-governance.service.ts:126-293 | every read, insert, upsert, commit, abort and recovery of any session keeps log, seat rows and every session's knowledge coherent |
| AuthorityInvariant.GovernedHistory | backend/src/authority-governance/authority-governance.service.ts:175-251 | in every interleaving the committed decisions of a pair are generations 1..n, each linked to the one before, alternating from GRANT; the seat is active exactly when the last is a GRANT and has a revocation instant exactly otherwise |
| AuthorityInvariant.OneDecisionPerCommand | backend/src/authority-governance/authority-governance.service.ts:129-139 | one command submitted any number of times commits at most one decision, and every successful answer is that decision |
| AuthorityInvariant.DifferentCommandRefused | backend/src/authority-governance/authority-governance.service.ts:259-288 | of two commands of different digests under one key at most one is ever settled |
| AuthorityInvariant.RefusalMeansNotLanded | backend/src/authority-governance/authority-governance.service.ts:186-205 | an unchanged-state or lost-race refusal is never given to a command that had landed when the deciding read ran |
| AuthorityInvariant.IdempotencyRecoveryIsNeverContended | backend/src/authority-governance/authority-governance.service.ts:259-288 | after an idempotency violation the recovery read always finds the row that caused it |
| AuthorityInvariant.AppendOnly | backend/src/authority-governance/authority-governance.service.ts:207-251 | committed decisions are never changed, reordered or removed |
| AuthorityInvariant.UndisturbedCeremony | backend/src/authority-governance/authority-governance.service.ts:126-293 | a submission nobody disturbs runs to its commit, appends exactly its decision and moves exactly its seat |
| AuthorityGovernanceService.OthersMeetTheRely | backend/src/authority-governance/authority-governance.service.ts:126-293 | every event of another session in the state machine meets what the service method assumes about other sessions |
| AuthorityGovernanceService.GovernanceStore.Decide | backend/src/authority-governance/authority-governance.service.ts:95-293 | whatever others commit in between, the log only grows and stays coherent, a settled answer is a committed decision of this very command, and a submission that is not settled adds nothing of its own |
| AuthorityGovernanceService.GovernanceStore.TryInsert | backend/src/authority-governance/authority-governance.service.ts:207-230 | the insert goes through, or names the index it violates, against the rows committed when it runs |
| AuthorityGovernanceService.GovernanceStore.RecoverFrom | backend/src/authority-governance/authority-governance.service.ts:256-293 | after a violation one read decides: replay of this command, conflict with another, or lost race |
| AuthorityGovernanceService.GovernanceStore.Append | backend/src/authority-governance/authority-governance.service.ts:207-293 | decision and seat row become visible together or not at all |
| AuthorityGovernanceService.GovernanceStore.Transition | backend/src/authority-governance/authority-governance.service.ts:175-251 | the state gate is passed only from the state it demands, or answers as a replay |
| PriceCurrentness.EndedStaysEnded | backend/src/basic-price/basic-price-currentness.ts:214-427 | successor, withdrawal, supersession and an ended origin take a row out of currency for every later instant |
| PriceCurrentness.CurrentIsAnInterval | backend/src/basic-price/basic-price-currentness.ts:259-427 | in any state whatever the instants at which a row is current form an interval, which starts late only for a private successor |
| PriceLifecycle.StepKeepsWellFormed | backend/src/basic-price/basic-price-history.ts:36-67 | every write keeps unique successors, acyclic lineage, matching scope and tenant, and one SUPERSEDED audit per replaced catalog row |
| PriceLifecycle.PredecessorChecksAreExact | backend/src/basic-price/basic-price-publication.service.ts:107-471 | a publication that names a predecessor leaves the lineage lawful if and only if the predecessor passes the checks: a refused one would break it |
| PriceLifecycle.StepEffect | backend/src/basic-price/basic-price-currentness.ts:259-427 | for every write, row and instant: the row is current afterwards exactly when it was before and the instant precedes what the write names; shared copies go with their origin |
| PriceLifecycle.NewRowEffect | backend/src/basic-price/basic-price-currentness.ts:365-427 | a private correction is current from its own instant on and never before; a copy is current exactly while its origin stands |
| PriceLifecycle.RunKeepsWellFormed | backend/src/basic-price/basic-price-currentness.ts:54-97 | every run of writes keeps the lineage lawful, and only adds rows and audits |
| PriceLifecycle.PastIsKept | backend/src/basic-price/basic-price-currentness.ts:54-97 | no run changes an answer about an instant before it began, except through a back-dated withdrawal or the linking of that row |
| PriceLifecycle.RunsOnlyRemove | backend/src/basic-price/basic-price-currentness.ts:259-427 | currency once lost at an instant is never regained by any later run |
| PriceLifecycle.IsolatedPrivateIsCurrent | backend/src/basic-price/basic-price-currentness.ts:365-427 | a private row without predecessor or successor is current exactly until it is withdrawn |
| PriceLifecycle.LinkRewritesThePast | backend/src/basic-price/basic-price-private-asset.service.ts:292-514 | linking two existing rows leaves every earlier answer about a row alone if and only if it is neither of them, or is the previous one and was already withdrawn when the corrected one was recorded |
| PriceLifecycle.LinkExample | backend/src/basic-price/basic-price-private-asset.service.ts:292-514 | two imports whose linking changes two answers about instants before it |
| PriceChains.OneCurrentPerChain | backend/src/basic-price/basic-price-currentness.ts:272-299 | at every instant the member of a private chain that is current is exactly the newest one recorded by then, unless withdrawn |
| PriceChains.ChainInOrder | backend/src/basic-price/basic-price-currentness.ts:365-427 | recording instants never decrease along a private chain of a reachable state |
| PriceChains.ChainBelow | backend/src/basic-price/basic-price-currentness.ts:272-299 | every private row ends a chain of corrections that starts at an origin |
| PriceOffers.NeverOriginAndCopy | backend/src/basic-price/basic-price-promotion-precedence.ts:40-47 | no workspace is offered an origin and its shared copy, not even at two instants |
| PriceOffers.CopyFollowsOrigin | backend/src/basic-price/basic-price-promotion.service.ts:158-279 | a shared copy is offered exactly to workspaces other than the origin's, while its origin is neither superseded nor withdrawn, however late it was promoted, and within its own dates |
| PriceOffers.OffersAreOwnOrShared | backend/src/basic-price/basic-price-eligibility.policy.ts:86-137 | a workspace is offered only its own rows and rows of no workspace |
| PriceOffers.SpreadOfDisjoint | backend/src/basic-price/basic-price.service.ts:1146-1155 | spreading query fragments asks both fragments' questions when they share no key |
| PriceOffers.MergeAsksBoth | backend/src/basic-price/basic-price-currentness.ts:307-328 | merging under AND keeps the fragment's own conditions |
| PriceOffers.CurrentnessWhereMeans | backend/src/basic-price/basic-price-currentness.ts:365-427 | the query fragment matches exactly the current rows |
| PriceOffers.OfferWhereMeans | backend/src/basic-price/basic-price.service.ts:1146-1155 | the composed query returns exactly the rows that are usable, not superseded by precedence, current and applicable |
| PriceOffers.AssignedWhereLeaks | backend/src/basic-price/basic-price-applicability.ts:95-107 | assigning AND instead of merging would add exactly the private successors not yet recorded |
| PriceLedger.Ledger.CheckPredecessor | backend/src/basic-price/basic-price-publication.service.ts:107-471 | reports the first thing wrong with a named predecessor and passes exactly one that may be replaced, which is what keeps the lineage lawful (`PredecessorChecksAreExact`) |
| PriceLedger.Ledger.Publish | backend/src/basic-price/basic-price-publication.service.ts:107-471 | writes exactly when the step is lawful and the publisher is not the traced verifier; then it is that one step, pointer and audits together; otherwise nothing changes |
| PriceLedger.Ledger.Withdraw | backend/src/basic-price/basic-price-publication.service.ts:496-642 | one WITHDRAWN audit and no change to any price row, exactly when lawful; a repeat adds nothing and must name the same instant |
| PriceLedger.Ledger.Promote | backend/src/basic-price/basic-price-promotion.service.ts:104-299 | a new copy of a published, uncorrected catalog row exactly when there is none, else the existing copy |
| PriceLedger.Ledger.CorrectPrivate | backend/src/basic-price/basic-price-private-asset.service.ts:1611-1780 | a new successor exactly when the stored value is the expected one and nothing replaced the row; a repeat answers with the row that holds the proposed value |
| PriceLedger.Ledger.LinkCorrection | backend/src/basic-price/basic-price-private-asset.service.ts:292-514 | links exactly the pairs that agree in every compared fact and are tied to no third row, writes only the pointer and its record; finds exactly the pairs already linked, which are always on record; refuses everything else |
| PriceLedger.StepKeepsLinks | backend/src/basic-price/basic-price-private-asset.service.ts:430-514 | only linking ever makes an imported private row a correction, so every such link is on record |
| PriceLedger.Ledger.RemovePrivate | backend/src/basic-price/basic-price.service.ts:910-1017 | takes a private price out of use by one audit, exactly when it was never proposed, referenced or made public |
| SupersessionTimeline.BuildTimeline | backend/src/basic-price/basic-price-history.ts:158-230 | the two loops over map and visited set compute the walk the other lemmas speak of, with only the head CURRENT and the truncation flag |
| SupersessionTimeline.WalkOnAnyInput | backend/src/basic-price/basic-price-history.ts:158-230 | on any input, cyclic or corrupt, at most 200 rows, none twice, each the recorded predecessor of the one before |
| SupersessionTimeline.WalkOnChain | backend/src/basic-price/basic-price-history.ts:158-230 | from position p of a chain of any length exactly the 200 rows that start at most 200 above p |
| SupersessionTimeline.ShortChainIsShownWhole | backend/src/basic-price/basic-price-history.ts:158-230 | a chain of at most 200 rows is shown whole and the same from every member, only its newest row current; it is marked truncated if and only if its oldest row names an absent predecessor |
| SupersessionTimeline.AnchorIsShown | backend/src/basic-price/basic-price-history.ts:158-230 | the anchor is in its own timeline if and only if it lies fewer than 200 below the top |
| SupersessionTimeline.DeepAnchorExample | backend/src/basic-price/basic-price-history.ts:158-230 | a lawful chain of 201 rows whose oldest row is missing from its own timeline |
| PriceTimeline.ChainThrough | backend/src/basic-price/basic-price-history.ts:158-230 | every row read from a lawful table lies on one maximal chain |
| PriceTimeline.TimelineOfReachableBook | backend/src/basic-price/basic-price-history.ts:36-67 | in every reachable state the timeline is the stretch of the row's own chain |
| ProvenHistory.WalkEdges | backend/src/basic-price/basic-price-proven-history.ts:69-156 | the cursor loop ends on any input, shows each row at most once along permitted edges, and skips rows that change only the domestic-content value |
| ProvenHistory.HistoryIsProven | backend/src/basic-price/basic-price-proven-history.ts:63-170 | at most 500 entries, each once, each reached from the one before over a permitted edge, the initial price only last, and, the search not being capped, cut exactly when it does not end in an initial price |
| ProvenHistory.NamesAreInherited | backend/src/basic-price/basic-price-proven-history.ts:157-164 | a stated source name is never overwritten, and an inherited one comes from a later entry over proved edges only |
| ProvenHistory.BuildHistory | backend/src/basic-price/basic-price-proven-history.ts:63-170 | walk and name loop together give those entries, labels and names, and the history is not truncated exactly when the search was not capped and it ends in an initial price |
| ImportIdentity.FingerprintDeterminesFacts | backend/src/basic-price/basic-price-import.service.ts:96-371 | when no value contains the separator, equal fingerprints mean the same import, and conversely, although late segments are appended only when stated |
| ImportIdentity.SameImportSameFingerprint | backend/src/basic-price/basic-price-import.service.ts:159-371 | absent, null and default-false values and instants of one UTC day never change a fingerprint |
| SharedIdentity.OneFingerprintMeans | backend/src/basic-price/basic-price-import.service.ts:343-371 | two imports whose other facts are separator-free have one fingerprint if and only if those facts agree and vendor and period, joined by the next label, read the same |
| SharedIdentity.MistakenExactly | backend/src/basic-price/basic-price-import.service.ts:172-371 | an import shares its fingerprint with a different one, the other facts of both being separator-free, if and only if its vendor or its period contains the next label |
| ConditionalSegments.CleanMistakenExactly | backend/src/basic-price/basic-price-import.service.ts:236-371 | an import none of whose facts holds the separator shares its fingerprint with a different one, whatever that one holds, if and only if a stated conditional text is followed by another stated conditional fact |
| ConditionalSegments.AbsorbedIsAlike | backend/src/basic-price/basic-price-import.service.ts:236-371 | for any texts, the import whose text spells the next stated fact in its place is a different one with the same fingerprint |
| ImportIdentity.SeparatorInVendorCollides | backend/src/basic-price/basic-price-import.service.ts:172-232 | a vendor name that spells the next label collides with a different import, for every choice of texts |
| ImportBatches.IntakeSpellsItsRow | backend/src/basic-price/basic-price-import.service.ts:1749-1866 | the fingerprint minted from the request is the one of the row that is stored |
| ImportBatches.ReadBackExactly | backend/src/basic-price/basic-price-import.service.ts:2332-2578 | the fingerprint computed from the merged facts is the one of the row the column update leaves if and only if the coverage digest fits the stored set |
| ImportBatches.WriteSpellsItsRow | backend/src/basic-price/basic-price-import.service.ts:2332-2578 | for every outcome of resolving the coverage that the writer can reach, the columns kept, cleared and set spell exactly the fingerprint that is stored with them |
| ImportBatches.ImportStore.Intake | backend/src/basic-price/basic-price-import.service.ts:1666-2000 | refuses exactly an incoherent claim or an observation held for other content; creates one batch, whose fingerprint spells its facts, exactly when neither observation nor fingerprint is held, and otherwise answers with the batch that holds it |
| ImportBatches.ImportStore.ResolveCoverage | backend/src/basic-price/basic-price-import.service.ts:1047-1224 | succeeds exactly on a geography that resolves: silence keeps the stored set, no village leaves the requested region, one village becomes the region, several resolve to the registered set that names exactly them under the requested district; a refusal registers nothing |
| ImportBatches.ImportStore.TryCommit | backend/src/basic-price/basic-price-import.service.ts:2572-2653 | writes the new identity, or names the other batch that holds it |
| ImportBatches.ImportStore.UpdateMetadata | backend/src/basic-price/basic-price-import.service.ts:2055-2653 | a save succeeds exactly when it is allowed, its geography resolves, its prices permit it and no other batch holds the identity it makes; it writes one row column by column, with the coverage set that names the villages it lists and the fingerprint the row spells; the place of a batch with issued prices and every judged fact of one with linked prices stay, but for an unlisted date; a refusal writes nothing, coverage sets included |
| ImportBatchLaws.SavesKeepIdentity | backend/src/basic-price/basic-price-import.service.ts:2332-2578 | after any sequence of column updates, coverage changes included, the stored fingerprint is still that of the facts read back and the reading is untouched |
| ImportBatchLaws.SavesMeetFreshRead | backend/src/basic-price/basic-price-import.service.ts:2332-2578 | a read followed by any column updates ends, without a coverage set, with the fingerprint a fresh read under the stored facts mints |
| ImportBatchLaws.SaveStoresItsVillages | backend/src/basic-price/basic-price-import.service.ts:1047-1224 | a save that lists villages stores a set exactly when it lists several, and then the set that names exactly them under the requested district; one village is stored as the region |
| ImportBatchLaws.SavesShareSetExactly | backend/src/basic-price/basic-price-import.service.ts:1047-1224 | two saves, of any batches and with any others between them, store one coverage set id if and only if they list the same villages, in whatever order, under the same district |
| ImportBatchLaws.FreshReadFindsOnlyItsFacts | backend/src/basic-price/basic-price-import.service.ts:1749-1866 | without separators a fresh read meets a stored batch if and only if it states the batch's facts |
| ImportBatchLaws.DatesDiffer | backend/src/basic-price/basic-price-import.service.ts:2199-2207 | the validated and the written day differ if and only if the date was explicitly emptied over a stored one or sent without being listed |
| ImportBatchLaws.SaveKeepsCoherence | backend/src/basic-price/basic-price-import.service.ts:2199-2237 | an allowed save stores a coherent claim if and only if it is not such a save with a claim that fails to explain the stored date |
| ImportBatchLaws.DateChangeNeedsDecision | backend/src/basic-price/basic-price-import.service.ts:2208-2237 | a save that does not restate the provenance cannot move a claim onto another day |
| ImportBatchLaws.EmptiedDateExample | backend/src/basic-price/basic-price-import.service.ts:2521-2523 | an allowed save after which the stored claim and the stored date contradict each other |
| ImportBatchLaws.UnlistedDateExample | backend/src/basic-price/basic-price-import.service.ts:2199-2578 | a save under linked prices that is allowed and moves the stored effective day |
| TemporalProvenance.CoherentDerivationExplains | backend/src/basic-price/basic-price-metadata-coherence.law.ts:46-222 | a derived claim about a dated fact is coherent if and only if the label names exactly one year, at year granularity, whose first day is the date |
| SourceVersions.CompareSegments | backend/src/basic-price/basic-price-import.service.ts:398-408 | the loop finds the first differing segment of the zero-padded versions and orders by it |
| SourceVersions.OneOrder | backend/src/basic-price/basic-price-import.service.ts:398-408 | exactly one order holds of two versions |
| SourceVersions.OrderFlips | backend/src/basic-price/basic-price-import.service.ts:398-408 | swapping the versions swaps the order |
| SourceVersions.OrderComposes | backend/src/basic-price/basic-price-import.service.ts:398-408 | the order is transitive, and versions equal up to missing zero segments are interchangeable |
| SourceVersions.Compare | backend/src/basic-price/basic-price-import.service.ts:388-421 | equal text, dates, dotted numbers and everything else are judged by the strongest claim that holds |
| SourceVersions.ClaimFlips | backend/src/basic-price/basic-price-import.service.ts:388-421 | swapping two versions swaps the claim, and only one claim holds |
| SourceVersions.ResolveOrder | backend/src/basic-price/basic-price-import.service.ts:744-768 | an arrival is late if and only if some version on record is proven newer, in whatever order the records are read; the order reported is that of the last record that is not equal |
| RegionCoverage.Canonicalize | backend/src/basic-price/basic-price-region-coverage.ts:42-104 | accepts exactly lawful villages of the anchor and reports the first issue; the value has the members sorted and the digest of the anchor and their codes |
| RegionCoverage.PermutationGivesSameCoverage | backend/src/basic-price/basic-price-region-coverage.ts:42-104 | the villages in any order give the same members and the same digest |
| RegionCoverage.DigestInjective | backend/src/basic-price/basic-price-region-coverage.ts:83-97 | codes that do not contain the next member's label are read back from the digested text: equal digests if and only if equal district and codes |
| RegionCoverage.SameDigestSameVillages | backend/src/basic-price/basic-price-region-coverage.ts:42-104 | in a region table whose codes do not contain the next member's label, two lawful coverages share a digest if and only if they name the same villages of the same district |
| RegionCoverage.DigestSharedExactly | backend/src/basic-price/basic-price-region-coverage.ts:83-97 | two or more codes share their digest with a different list of two or more, of whatever length and district, if and only if there are three or more, or the district's code or one of them contains the next member's label |
| RegionCoverage.LawfulCollisionExample | backend/src/basic-price/basic-price-region-coverage.ts:42-104 | two lawful coverages of different villages, in one table of unique codes, with one digest |
| RegionCoverage.UnequalCollisionExample | backend/src/basic-price/basic-price-region-coverage.ts:42-104 | in a table of unique codes, three villages whose codes do not contain the label are digested like two |
| RegionCoverage.CoverageRegister.Intern | backend/src/basic-price/basic-price-import.service.ts:1174-1224 | returns the one set with those members, adding it at most once; reports a digest collision if and only if a stored set has the digest and names other villages, and then changes nothing; with readable codes it never does |
| RegionCoverage.CoverageRegister.LoadMembers | backend/src/basic-price/basic-price-import.service.ts:1143-1172 | loads the row of each named id once, and as many as were named exactly when every id is known |
| RegionCoverage.OneIdPerVillageSet | backend/src/basic-price/basic-price-import.service.ts:1174-1224 | over the life of the register, whatever the codes, two coverages get one id if and only if they name the same villages |
| Submissions.CurationDesk.ReviewRow | backend/src/basic-price/basic-price-row-resolution.service.ts:2057-2069 | review makes a row ready or rejected, or sends it back to review; never a submitted row, and only in an open batch |
| Submissions.CurationDesk.SubmitBatch | backend/src/basic-price/basic-price-import.service.ts:3001-3171 | a wave submits exactly the READY rows, each once, closes the batch exactly when no row needs review, never leaves APPROVED_FOR_SUBMISSION behind, and sends everything back when a row is unresolved |
| Submissions.CurationDesk.SubmitRows | backend/src/basic-price/basic-price-import.service.ts:3092-3133 | the row loop is exactly that wave if and only if every row is resolved |
| Submissions.CurationDesk.SubmitPrivatePrice | backend/src/basic-price/basic-price-import.service.ts:3173-3344 | one submission per price, through its import row if it has one; succeeds if and only if the price is proposable and its row or its organisation is there; a repeat answers with the first |
| Submissions.CurationDesk.SubmitPriceRow | backend/src/basic-price/basic-price-import.service.ts:3247-3298 | succeeds if and only if the row was proposed already or stands in a batch of the workspace; moves it to SUBMISSION_CREATED with its one submission |
| Submissions.CurationDesk.SubmitPriceAlone | backend/src/basic-price/basic-price-import.service.ts:3300-3343 | a price without an import row is submitted at most once under its own name |
| Submissions.WaveKeepsBatches | backend/src/basic-price/basic-price-batch-actions.policy.ts:569-607 | after a wave a closed batch has no row that still needs review, and other batches are as they were |
| Submissions.AtMostOnce | backend/src/basic-price/basic-price-import.service.ts:3001-3344 | in every state the desk reaches, a row or a price has at most one submission |
| Submissions.RowSubmissionsAreCreatedRows | backend/src/basic-price/basic-price-import.service.ts:3001-3344 | submissions made for rows are exactly those the SUBMISSION_CREATED rows point at, one each |
| CanonicalJson.WriteInjective | backend/src/auth/rm01b-production-permission-activation.ts:102-111 | a written JSON value is determined by its text, entry order included (sections 4, 5 and 7 of RFC 8259) |
| CanonicalJson.CanonicalDecides | backend/src/auth/rm01b-production-permission-activation.ts:102-111 | canonical texts are equal if and only if the values are equal up to the order of object keys, at every depth |
| CanonicalJson.CanonicalTextIsCanonical | backend/src/auth/bp-provisioning-02-production-activation.ts:155-164 | joining entries written in key order is writing the value with its keys sorted at every depth |
| CanonicalJson.SortedDetermined | backend/src/auth/rm02c3-basic-price-acceptance-activation.ts:106-122 | sorting objects by key leaves one arrangement per set of entries |
| CanonicalJson.RecordTextsAgree | backend/src/auth/rm01b-production-permission-activation.ts:102-111 | records of one shape with one canonical text agree field by field |
| Rm01bActivation.PlanTextDeterminesPlan | backend/src/auth/rm01b-production-permission-activation.ts:102-215 | the reviewed text names one plan: target, every entry and every other grant of the role |
| Rm01bActivation.ActivationStore.Apply | backend/src/auth/rm01b-production-permission-activation.ts:262-317 | goes ahead exactly on the reviewed plan; then it adds exactly the planned rows, counts them, and the re-derived plan has no change; otherwise nothing changes; the guards behind the loop never fire |
| Rm01bActivation.ActivationStore.ApplyLoop | backend/src/auth/rm01b-production-permission-activation.ts:277-299 | after the loop every listed permission exists and is granted, other rows are untouched, and the count is that of the missing ones |
| Rm01bActivation.ActivationStore.Turn | backend/src/auth/rm01b-production-permission-activation.ts:277-299 | one turn completes one permission and leaves what the plan said of later ones true |
| Rm01bActivation.AfterPlan | backend/src/auth/rm01b-production-permission-activation.ts:300-310 | after the loop the plan re-derives, complete, with the role's other grants as they were |
| Rm01bActivation.OthersUnmoved | backend/src/auth/rm01b-production-permission-activation.ts:126-215 | what was inserted is invisible among the role's other grants |
| Bp02Commit.Bp02Database.Apply | backend/src/auth/bp-provisioning-02-production-activation.ts:562-849 | commits if and only if the plan derives and is the reviewed one, director and owner hold no curation, neither person sits where the other's power is, and the owner sits in neither role; a commit keeps verifier and publisher apart at every instant, gives new grants to the two roles alone, counts the planned rows and lets each person work exactly while a new or an unexpired seat lasts; otherwise nothing changes |
| Bp02Commit.Bp02Database.Inserts | backend/src/auth/bp-provisioning-02-production-activation.ts:598-782 | table by table and person by person the inserts add exactly the planned rows and make both people ready |
| Bp02Commit.Bp02Database.EnsureActor | backend/src/auth/bp-provisioning-02-production-activation.ts:688-782 | account, active membership, user and assignment of one person exist afterwards, the other person's rows as planned |
| Bp02Commit.Bp02Database.AssertSod | backend/src/auth/bp-provisioning-02-production-activation.ts:851-882 | reports the first of the five separation failures that holds, and none if and only if duties are separated |
| Bp02Activation.RoleGrantsAfter | backend/src/auth/bp-provisioning-02-production-activation.ts:598-686 | a role grants afterwards what it granted before or, in this workspace, its own curation permissions |
| Bp02Activation.DirectorGainsNothing | backend/src/auth/bp-provisioning-02-production-activation.ts:791-812 | the director guard cannot fire |
| Bp02Activation.OwnerGuardExact | backend/src/auth/bp-provisioning-02-production-activation.ts:791-812 | the owner guard fires if and only if the owner already sat in one of the workspace's curation roles |
| Bp02Examples.OwnerGuardExample | backend/src/auth/bp-provisioning-02-production-activation.ts:791-812 | a lawful database on which the plan derives and passes every earlier check, and the owner guard fires after any such inserts |
| Bp02Examples.ExpiredSeatExample | backend/src/auth/bp-provisioning-02-production-activation.ts:562-849 | a lawful database on which the activation commits and the verifier can do nothing once the old seat has expired |
| Bp02Activation.PlanIsComplete | backend/src/auth/bp-provisioning-02-production-activation.ts:267-505 | after the inserts the plan re-derives without a stop and with nothing left to insert |
| Bp02Activation.SodMeansSeparated | backend/src/auth/bp-provisioning-02-production-activation.ts:851-882 | passing the in-transaction proof means two accounts, of which the resolver at no instant gives the verifier PUBLISH or the publisher VERIFY |
| Bp02Activation.ResolvedIsHeld | backend/src/auth/workspace-permission-resolver.service.ts:38-94 | what the resolver grants beyond the baseline is held in the sense of the in-transaction proof |
| Bp02Commit.PowerExactly | backend/src/auth/workspace-permission-resolver.service.ts:38-94 | what either person can do with a curation code after the inserts, at an instant or at all, is exactly what an old seat gives and what its own new seat adds |
| Bp02Commit.ConflictExactly | backend/src/auth/bp-provisioning-02-production-activation.ts:851-882 | the in-transaction proof fails if and only if, before the activation, one of the two sat where the other's power is |
| Bp02Commit.WorkExactly | backend/src/auth/workspace-permission-resolver.service.ts:38-94 | from the commit on each person can do its work at an instant if and only if its seat is new or an old one has not expired |
| Bp02Activation.ActorOwnStep | backend/src/auth/bp-provisioning-02-production-activation.ts:688-782 | after one person's rows that person is complete and the database still lawful |
| Bp02Activation.ActorOtherStep | backend/src/auth/bp-provisioning-02-production-activation.ts:688-782 | a person of another email is left exactly as planned |
| Iql01Activation.HolderDatabase.Apply | backend/src/auth/iql01-second-holder-activation.ts:333-398 | commits exactly on the reviewed plan, adds exactly the planned rows, never fires the guards behind its inserts, and from then on leaves nobody who judges and teaches, roles of other workspaces apart |
| Iql01Activation.AppliedReplans | backend/src/auth/iql01-second-holder-activation.ts:143-275 | the plan re-derives from the new state, complete, with the same role and the same holders |
| Iql01Activation.JudgesDoNotTeach | backend/src/auth/iql01-second-holder-activation.ts:143-275 | where the plan derives, at every instant from then on an account can judge and teach if and only if it teaches and judges through a role of another workspace |
| Iql01Activation.ForeignTeacherExample | backend/src/auth/iql01-second-holder-activation.ts:143-275 | a lawful database on which the plan derives and one account judges and teaches at every instant |
| Rm02c3Activation.NamesFindTheirActions | backend/src/auth/rm02c3-basic-price-acceptance-activation.ts:308-347 | whatever the role is called, looking an action up by its name finds the action it is for |
| Rm02c3Activation.AcceptanceSite.Apply | backend/src/auth/rm02c3-basic-price-acceptance-activation.ts:383-526 | commits exactly on the confirmed, reviewed plan when no failure is injected, writes exactly the planned rows and reports the planned deltas; otherwise everything is as before; the two guards behind the inserts never fire |
| Rm02c3Activation.AcceptanceSite.InsertPermissions | backend/src/auth/rm02c3-basic-price-acceptance-activation.ts:411-430 | the loop inserts exactly the permissions that were missing and counts them |
| Rm02c3Activation.AcceptanceSite.InsertGrants | backend/src/auth/rm02c3-basic-price-acceptance-activation.ts:467-481 | the loop grants exactly the permissions the role lacked and counts them |
| Rm02c3Activation.Replans | backend/src/auth/rm02c3-basic-price-acceptance-activation.ts:504-512 | a second plan stands on the same people and has nothing left to create |
| Rm02c3Activation.GrowthIsPlanned | backend/src/auth/rm02c3-basic-price-acceptance-activation.ts:350-362 | each table grows by exactly the delta the plan announced |
| Rm02c3Activation.WrittenSeats | backend/src/auth/rm02c3-basic-price-acceptance-activation.ts:236-304 | the dedicated role serves the target membership alone, at most once live, and grants nothing beyond the list |
| Rm02c3Activation.OnlyTheTargetGains | backend/src/auth/workspace-permission-resolver.service.ts:38-94 | at every instant the resolver's answer changes for the one account, the one workspace and the two permissions while its new seat lasts, and for nothing else anywhere |
| RegionFirstIndex.BuildIndex | backend/src/basic-price/basic-price-region-first-index.ts:105-186 | the loop over rows files every row in exactly one bucket, with counts and region ids |
| RegionFirstIndex.AddToProvince | backend/src/basic-price/basic-price-region-first-index.ts:133-166 | a row of a verified region joins its province's own prices or one of its cities and no other bucket |
| RegionFirstIndex.IndexConserves | backend/src/basic-price/basic-price-region-first-index.ts:105-186 | total is provinces plus unverified plus general, and each province is its own bucket plus its cities |
| RegionFirstIndex.GroupsAreDisjoint | backend/src/basic-price/basic-price-region-first-index.ts:105-186 | every priced region lies in exactly one bucket, and each group holds exactly the priced regions of its bucket |
| RegionFirstIndex.GroupFilters | backend/src/basic-price/basic-price-region-first-index.ts:45-72 | filtering the rows by what a province's own keys select sums to that selection's count |
| RegionFirstIndex.SelectionAgrees | backend/src/basic-price/basic-price-region-first-index.ts:45-72 | whatever a key selects, filtering the input rows by it sums to one group's count |
| RegionFirstIndex.PublishedKeysAnswer | backend/src/basic-price/basic-price-region-first-index.ts:45-72 | a key selects something if and only if it is published, the whole-province keys apart |
| RegionFirstIndex.CityKeysExact | backend/src/basic-price/basic-price-region-first-index.ts:53-72 | every city key selects its own city's prices if and only if no city id lies under two provinces |
| RegionFirstIndex.TornCityExample | backend/src/basic-price/basic-price-region-first-index.ts:53-104 | rows whose ladders put one city id under two provinces: both cities are listed and one city key selects the wrong prices |
| RegionFirstIndex.ConsistentParentsKeepCitiesApart | backend/src/basic-price/basic-price-region-first-index.ts:77-104 | when one city id always sits under one province that condition holds |
| RegionLadder.ProjectLoop | backend/src/basic-price/basic-price-region-priority.ts:51-93 | the climb gives the tiers of the ancestors by strictly rising level or the first broken link; its cycle guard never fires |
| RegionLadder.LoadContext | backend/src/basic-price/basic-price-region-priority.ts:115-138 | the loader returns the at most four rows met by parent pointer |
| RegionLadder.LoadedIsEnough | backend/src/basic-price/basic-price-region-priority.ts:51-138 | projecting from those rows is projecting from the whole table, for every parent graph, cycles included |
| RegionLadder.ClimbHasNoCycle | backend/src/basic-price/basic-price-region-priority.ts:51-93 | no parent graph makes the climb answer HIERARCHY_CYCLE |
| RegionLadder.FirstEligibleTier | backend/src/basic-price/basic-price-region-priority.ts:95-113 | the tier found is the nearest with any applicable offer, with exactly the offers that apply there; none is found if and only if none applies |

## Left out

- Spreadsheet parsing, the source archive, unit conversion, row resolution and quarantine: a reading is given.
- Controllers, guards, request validation, message texts and the frontend.
- SHA-256 (digested text stands for the digest), `localeCompare` (code-point order), `Date.parse` (integers), random UUIDs (parameters that are fresh), and the loss of precision of version segments beyond 2^53.
- JSON keys that look like array indices, which the object built by `canonicalize` would move to the front, and lone surrogates; the plans have neither.
- Publish: the account traced from the one ACCEPT decision, and whether the publisher is live in the workspace, are parameters.
- Withdraw: whether the actor is live in the workspace is a parameter.
- Promote: whether the actor is live in the workspace is a parameter, and the recovery of a lost creation race is left out.
- RemovePrivate: whether the price was proposed or is referenced are parameters, because the tables that say so are not modelled.
- LinkCorrection: the comparison of the documents' publishers and of the facts stored beside the price are parameters.
- Intake: the reading and its observation key are given, and the recovery of a lost creation race is left out.
- MistakenExactly: where the names hold separators it compares only imports whose other facts hold none.
- Compare: whether a text reads as an instant, and which, is a parameter.
- Bp02Commit.Bp02Database.Apply: the plan records whether a user and an assignment exist, and not their ids.
- Domestic-content writers and the provenance-correction journal, which change no field that currentness reads.
- Whether linked or issued prices exist and whether the organisation's name changed: `UpdateMetadata` takes them as parameters.
- The clock is assumed not to run backwards between writes; the hypothesis on private chains follows from it.
- Catalog rows at historical instants: no claim that at most one is current, since their successors follow the source's own dates.
- ReviewRow: does not model the version, ownership, evidence and private-price checks that can refuse a review further; it says only which moves are possible at all.
- SubmitPrivatePrice: is stated over serial transactions, because the original reads the import row without a row lock.
- SubmitRows: iterates the READY rows in no particular order; nothing in the result depends on it.
- Display-name ordering of provinces, cities and price lists.
- What an inherited source name says about rows that change only the domestic-content value and are skipped.
- Email comparison lowers ASCII letters only.
- Environment checks, secrets files, file hashes and the format check of an expected digest in the activation scripts.
- Keep-private import holds, dismissal of unfinished imports, and the display gates of the batch policy.
