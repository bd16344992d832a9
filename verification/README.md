# A verified model of the federated-learning coordinator

The coordinator invites organisations to rounds, collects signed XGBoost models from them, scores
the uploads, merges the survivors into one tree ensemble, lets the merge soak, and publishes it
under its own signature. This project models that behaviour in Dafny and proves what it keeps, for
every input and every run.

## How the model is laid out

| files | what they hold |
|---|---|
| `Aggregation`, `AggregationTheorems`, `OrderTheorems`, `AggregationInPlace`, `ExactMerge` | the weighted bagging merge: as a function of its inputs, what that function guarantees, the mutating algorithm (shared tree objects, in-place renumbering) proved to compute it, and its result in plain numbers and fields |
| `Trees`, `Privacy` | the array form of a tree, how an input is routed and scored, and the in-place noise step of the participant |
| `Sorting`, `Arithmetic`, `Wrappers`, `Decimal` | stable descending order, products and quotients, option and result types, decimal text |
| `Trust`, `Standing` | one evaluation of an upload; bounds over arbitrary sequences of evaluations; the same bounds in every reachable state of the coordinator |
| `SchemaGate`, `GateAnswers`, `Outcome` | judging uploads and the feature-schema gate between scoring and merging, its agreement with the merge, what it reports, and the exact outcomes of the aggregation handler |
| `Attestation`, `Store`, `Protocol` | the signed messages, the database with its operations, and the coordinator as a transition system: one function per handler, `Step`, and `Play` over a run |
| `Frames`, `Lifecycle`, `Contributions`, `ContributionTheorems`, `Membership`, `Distribution` | what one step can touch, and the invariants and theorems over runs |
| `Answers` | when each handler succeeds and exactly what it then does to the database, field by field |
| `Provenance` | from a version back to the step that merged it and the attestations it rests on; attested and merged organisations |
| `Scenarios` | concrete runs on which a promise fails, in every environment where organisations' own signatures verify |
| `Service` | the store, the trust manager and the coordinator as classes with mutable fields; every handler method is proved to perform the transition of the same name, so the theorems over runs hold of these objects |
| `Audit` | the hash-chained log |
| `Libsvm` | the two-pass dataset reader, and the writer of the synthetic validation set |

A run is a sequence of moments. A moment is an event with two clock readings, one for the handler's
checks and one for what it writes; the clock never goes back (`TimelyRun`). The contribution handler
exists twice: as one step (`ContributeEvent`), and as two (`BeginEvent`, `FinishEvent`) with any
other handlers in between, because the original awaits the upload at coordinator/api.py:908. Results
that need the first form ask for `AtomicRun`; all others hold for every mixture.

Cryptography, JSON and configuration are the fields of one record, `Env`, of which nothing is
assumed unless a lemma says so. The outcome of loading and scoring a booster is an input of each
evaluation (`Scoring`). Results about hashes read "equal, or here is an explicit collision". Trust is
counted in hundredths, so weights are integers and `int(len * w / W)` is exact integer division;
`AggregationTheorems.ScaleInvariance` shows that the unit does not matter. Rounds and versions are
identified by their position in their table, counted from 0 where the tables of the original count from 1.

## Where the code and its promises differ

* SECURITY.md:29 and coordinator/store.py:369-371 promise one accepted contribution per organisation and
  round. The duplicate check stands before the await and the record after it:
  `Scenarios.InterleavingDuplicates` is a run with two accepted rows, and
  `ContributionTheorems.UniqueExactlyWhenRechecked` says exactly when the promise is kept.
* A round's status is likewise checked before the await only, so a request that was waiting when its round
  closed can still be recorded in it: `Scenarios.LateUploadIsRecorded` is a run,
  `ContributionTheorems.ClosedRoundGrowsByLate` counts such rows exactly.
* Uploads are filed under 16 digits of their hash. A row's file is that of the last row filed under its name
  (`ContributionTheorems.StoredBytesAreAttested`), so all files are what was attested exactly when no two accepted
  rows of one organisation and round collide in those digits (`ContributionTheorems.AllBytesAttestedIff`);
  `Scenarios.CollidingUploadOverwrites` is a run for any such collision.
* The reported accepted count and the number of merged models agree only up to survivors without
  trees and organisations with two uploads: `SchemaGate.CountsAgreeIff` is the exact condition,
  `Scenarios.TreelessIsReportedUnmerged` and `Scenarios.RepeatedOrgIsMergedUnreported` are runs, and
  `Outcome.AcceptedCountIsMerged` is the case in which they agree.
* The order in which equally weighted models arrive can change the merge (`AggregationTheorems.TiesDependOnOrder`).
  `OrderTheorems.MergeIgnoresOrderIff` says exactly when it cannot: with each of the heaviest models as the base the
  result is the same, and the shares of equally weighted others commute in the room that the cap leaves.
  `AggregationTheorems.BaseIgnoresOrderIff` is the condition for the base alone.
* Contributions are taken from organisations that were not invited and after the intake window, as long as the
  round is running: `Scenarios.UninvitedLateUploadIsAccepted` is a run. `ContributionTheorems.AcceptedExactlyWhen`
  has the exact conditions, and neither is among them.
* coordinator/api.py:531 calls a revocation permanent. Blocking and unblocking have no status check, so either
  takes a revoked organisation out of that status (`Membership.BlockingLiftsRevocation`); a revocation lasts exactly
  until the organisation is enrolled, blocked or unblocked (`Membership.RevocationEndsIff`,
  `Membership.RevocationLastsIff`).
* The organisations named in a served model's attestation are all those with an accepted upload at that time. They
  are the organisations of the merged models exactly when every organisation judged has an upload that was merged and
  so has every one whose request was let through after the aggregation (`Provenance.ServedOrgsAreMergedIff`); with
  atomic contributions, exactly when every upload was merged (`Provenance.AtomicAttestedAreMergedIff`).
  `Scenarios.ExcludedIsAttested` and `Scenarios.LateUploadIsAttested` are runs in which they are not.

## Model

| member | source | states |
|---|---|---|
| AggregationInPlace.MergeXgboostModels | coordinator/aggregation.py:100-171 | The mutating algorithm (parse into fresh objects, filter, sort in place, extend the base's list with other models' tree objects, cap, renumber) returns the merge of its inputs, in the error cases too; `ExactMerge.MergeIsExact` and `ExactMerge.RefusedIff` say what that merge is in numbers and fields |
| AggregationInPlace.SetTrees | coordinator/aggregation.py:77-97 | The arrays are rebuilt to the new length; a tree object listed twice keeps its last position as id, so the ids count up from 0 exactly when no object is shared |
| AggregationInPlace.Load | coordinator/aggregation.py:119-124 | Parsing yields pairwise distinct fresh tree objects that hold the document's trees |
| AggregationInPlace.ParseUsable | coordinator/aggregation.py:119-127 | The parsed list holds exactly the usable inputs in order, and no two entries share a model or a tree object |
| AggregationInPlace.CollectTrees | coordinator/aggregation.py:148-159 | The extended list consists of the base's trees followed by every other model's share, and no tree object occurs in it twice |
| AggregationInPlace.Bag | coordinator/aggregation.py:146-171 | From the sorted, unaliased entries the base object ends up holding the merged model, and the info record counts it |
| AggregationInPlace.LastIdsCountUpIff | coordinator/aggregation.py:86-91 | Numbering by last position gives 0..n-1 if and only if the list has no repeated object |
| ExactMerge.UsableIsExact | coordinator/aggregation.py:119-127 | Those that take part are exactly the inputs that are JSON, have trees and weigh more than 0, in their order |
| ExactMerge.SchemasAgreeIff | coordinator/aggregation.py:34-54 | Two models match if and only if their lists of feature names are equal and, when both are empty, so are their feature counts, an absent count being 0 |
| ExactMerge.RefusedIff | coordinator/aggregation.py:129-142 | A merge fails for want of usable models exactly if nothing takes part, for a mismatch exactly if two that do differ in those fields, and otherwise succeeds |
| ExactMerge.ReorderedNamesDiffer | coordinator/aggregation.py:40-49 | ["age", "dose"] and ["dose", "age"] are different schemas |
| ExactMerge.TotalIsSum | coordinator/aggregation.py:143-143 | The total counts every model's weight once |
| ExactMerge.QuotaIsExact | coordinator/aggregation.py:157-158 | A model with len trees and weight w out of W gives the n with n·W ≤ len·w < (n+1)·W, or one tree if len·w < W |
| ExactMerge.ShareIsUnique | coordinator/aggregation.py:157-158 | There is only one such number, so the share is exactly that |
| ExactMerge.MergeIsExact | coordinator/aggregation.py:143-171 | The result's trees are all of the base's and, of each other model in descending order, its own first n, n being that number; their count is the sum of these, and beyond 500 exactly the first 500 stay; the record counts models, trees and capping |
| AggregationTheorems.BaseIsEarliestHeaviest | coordinator/aggregation.py:145-148 | A successful merge keeps the features and all trees (up to the cap) of the earliest of the heaviest usable inputs |
| AggregationTheorems.MergedArraysAgree | coordinator/aggregation.py:77-97 | Ids are exactly 0..n-1 and distinct, tree_info is n zeros, iteration_indptr is 0..n, num_trees is n, and n is positive and at most 500 |
| AggregationTheorems.QuotaFits | coordinator/aggregation.py:157-159 | Every share has at least one tree and never more than the model has, so the slice is never clamped |
| AggregationTheorems.ShareOfRank | coordinator/aggregation.py:145-159 | The i-th heaviest model gives one tree or at most an i-th of its own |
| AggregationTheorems.TotalShareBound | coordinator/aggregation.py:150-159 | k models whose non-base ensembles have at most L trees add at most (k-1) + L(k-1)/k trees beyond the base, before the cap |
| AggregationTheorems.SharesOfMerge | coordinator/aggregation.py:119-159 | Both share bounds hold for the usable inputs of any merge |
| AggregationTheorems.MergeSeesSortedOnly | coordinator/aggregation.py:136-171 | Inputs with the same stable descending order merge, or fail, identically |
| AggregationTheorems.OrderInvariance | coordinator/aggregation.py:145-159 | When no two different usable models weigh the same, every permutation of the inputs merges identically |
| AggregationTheorems.BaseIgnoresOrderIff | coordinator/aggregation.py:145-148 | No permutation of the inputs changes the trees of the structural base if and only if all of the heaviest usable models have the same trees |
| AggregationTheorems.MergeStartsWithBase | coordinator/aggregation.py:146-163 | The result begins with the base's trees, as far as the cap lets them |
| AggregationTheorems.TiesDependOnOrder | coordinator/aggregation.py:145-147 | With two equal weights and different first trees, swapping the inputs changes the result |
| OrderTheorems.MergeIgnoresOrderIff | coordinator/aggregation.py:145-165 | No permutation of the inputs changes the merge in any way if and only if it is refused, or each of the heaviest models as base gives the same result and, with each as base, the shares of every two equally weighted others commute in the room left by heavier ones under the cap |
| OrderTheorems.OneHeaviestIff | coordinator/aggregation.py:145-165 | With one heaviest model, order is irrelevant if and only if the shares of equally weighted others commute |
| OrderTheorems.CommutingTiesSuffice | coordinator/aggregation.py:153-163 | If tied shares commute pairwise, every descending order of the models gives the same trees up to the cap |
| OrderTheorems.CommutingIsNeeded | coordinator/aggregation.py:153-163 | If every descending order gives the same trees up to the cap, tied shares commute pairwise |
| AggregationTheorems.ScaleInvariance | coordinator/aggregation.py:107-110 | Multiplying all weights by one positive number changes neither the merge nor its failures |
| AggregationTheorems.MarginIsTreeSum | coordinator/aggregation.py:92-97 | For consistent parallel arrays, the margin computed through them is the plain sum over the trees |
| AggregationTheorems.MeaningOfMerge | coordinator/aggregation.py:146-165 | For every input vector the merged margin is the base's plus those of the included prefixes, and when capped that of the first 500 trees of the list |
| Sorting.SortIsStableDescending | coordinator/aggregation.py:146-146 | The sort is a descending permutation in which equal weights keep their order |
| Sorting.StableOrderIsUnique | coordinator/aggregation.py:146-146 | There is only one stable descending order of a list, so the specification pins the sort down |
| Sorting.SortRelabel | coordinator/api.py:1157-1157 | Renaming items and scaling keys commutes with the sort |
| Sorting.SortOfPermutation | coordinator/aggregation.py:146-146 | Permutations without ties between different items sort to the same list |
| SchemaGate.FlipInPlace | coordinator/api.py:1167-1170 | Overwrites verdict and reason in every row of one organisation and in no other |
| SchemaGate.ApplyGate | coordinator/api.py:1157-1174 | The gate's loop yields the survivors of the canonical schema in descending order, the excluded organisations, and the flipped result rows; `GateAnswers.GateIsExact` says in fields which they are |
| SchemaGate.GateSilencesMismatch | coordinator/api.py:1153-1171 | After the gate the merge never raises its schema-mismatch error |
| SchemaGate.GateOrderIsMergeOrder | coordinator/api.py:1157-1163 | The merge's own sort leaves the gate's order as it is |
| SchemaGate.HeaviestSurvivorIsBase | coordinator/api.py:1157-1183 | If the heaviest survivor has trees it owns the canonical schema and is the merge's structural base, and the merge succeeds |
| SchemaGate.FlipAllVerdicts | coordinator/api.py:1161-1171 | A result row stays accepted exactly when it was and its organisation has no excluded survivor |
| SchemaGate.CountsBalance | coordinator/api.py:1157-1188 | Reported and merged counts differ by the survivors merged under an excluded organisation and the ones without trees, and by nothing else |
| SchemaGate.CountsAgreeIff | coordinator/api.py:1157-1188 | The two counts are equal if and only if those two numbers are |
| SchemaGate.CountsAgree | coordinator/api.py:1157-1188 | With distinct organisations and trees in every survivor, num_models is the reported accepted count |
| SchemaGate.RepeatedOrgBreaksCounts | coordinator/api.py:1161-1171 | One organisation with two surviving uploads of different schemas: one model is merged and none reported |
| SchemaGate.TreelessBreaksCounts | coordinator/aggregation.py:124-127 | A lighter survivor of the same schema without trees: two are reported and one merged |
| GateAnswers.JudgementsAre | coordinator/api.py:1115-1132 | Each upload is judged on its own file, scoring outcome and example count, and on the scores that earlier uploads of its organisation left; a missing file is reported with the trust from before |
| GateAnswers.NoticesAre | coordinator/api.py:1133-1142 | A trust update is signed for exactly the uploads that were evaluated, each with its new trust and reason |
| GateAnswers.BrokenIff | coordinator/api.py:1157-1163 | The gate breaks exactly when an accepted upload is not JSON |
| GateAnswers.HeavierRanksFirst | coordinator/api.py:1157-1157 | Of two survivors the one with the greater evaluated weight ranks before the other, each with its own document and weight |
| GateAnswers.MoreTrustedRanksFirst | coordinator/trust.py:126-137 | With equal examples, the survivor with more trust after its evaluation ranks before the other |
| GateAnswers.GateIsExact | coordinator/api.py:1157-1171 | A survivor goes into the merge exactly if its names and, without names, its feature count are those of the heaviest survivor; all others and no more are excluded, both in ranking order |
| GateAnswers.ReportsAre | coordinator/api.py:1119-1171 | Where each organisation has one upload, the result line of each carries its organisation, verdict, accuracy, trust and reason: accepted exactly if it survived with the heaviest survivor's features |
| Outcome.JudgedRows | coordinator/api.py:1119-1132 | Judgements come in the order of the uploads, one for each; every survivor has positive weight and trust above the floor |
| Outcome.CombineOutcome | coordinator/api.py:1144-1183 | Merging succeeds, or fails for want of survivors, exactly under the stated conditions on the evaluated uploads |
| Outcome.AggregateOutcome | coordinator/api.py:1089-1206 | Exactly when the handler completes an aggregation and when it answers 422; on refusal rounds, versions and files are as before |
| Outcome.AcceptedCountIsMerged | coordinator/api.py:1183-1206 | After any atomic run, the accepted count written to the round is the number of models merged, and the file written is exactly their merge |
| Outcome.AcceptedCountIsMergedIff | coordinator/api.py:1183-1206 | From any state, the accepted count a completed aggregation writes is the number of models it merged if and only if as many merged models are shadowed by an excluded one as accepted ones have no trees |
| Outcome.AggregateStagesMerge | coordinator/api.py:1157-1186 | What a completed aggregation writes is the merge of the gated survivors, and it writes no other file |
| Provenance.MergedAreUsed | coordinator/aggregation.py:119-127 | The models the merge uses are, one for one, the survivors of the canonical schema that have trees |
| Provenance.AttestedAreMergedIff | coordinator/api.py:998-1004 | Under every interleaving and at any time after the aggregation, the organisations attested for the round include the merged ones, and are the same if and only if every organisation judged has an upload that was merged and so has every one let through late |
| Provenance.ServedOrgsAreMergedIff | coordinator/api.py:992-1011 | The same of the organisations named in every attestation that is served for the round |
| Provenance.AttestedGrowByLate | coordinator/api.py:897-972 | The organisations attested for a closed round grow by exactly those of the requests let through afterwards |
| Provenance.AtomicAttestedAreMergedIff | coordinator/api.py:998-1004 | With atomic contributions they are the same, then and ever after, if and only if every upload judged survived, with the canonical schema, and has trees |
| Provenance.VersionIsMerge | coordinator/api.py:1183-1199 | Every version of every run has the aggregation step that staged it, and its file is still the merge made there |
| Provenance.VersionProvenance | coordinator/api.py:1119-1199 | Under every interleaving each document merged into a version was parsed from a stored file whose hash its organisation attested for the round, with a signature that verified while it was active |
| Trust.TrustStaysInRange | coordinator/trust.py:58-63 | Trust stays between 0.10 and 1.00 over every sequence of evaluations, so the lower clamp never acts |
| Trust.TrustBudget | coordinator/trust.py:58-137 | Trust is bounded by what acceptances earned less what penalties cost |
| Trust.PoisoningIsAmortised | coordinator/trust.py:72-137 | Within one enrolment there are at most 8 penalised evaluations plus one for every five accepted ones |
| Trust.AmortisedBoundIsTight | coordinator/trust.py:72-137 | For every n some sequence with 5n acceptances reaches that bound, and it can occur at one trust manager, built with a validation set |
| Trust.ExclusionIsAbsorbing | coordinator/trust.py:75-79 | Below 0.3 no further evaluation changes anything or is accepted |
| Trust.BaselineDrift | coordinator/trust.py:114-124 | n acceptances lower the accuracy baseline by at most 0.15 n, and never below the minimum accuracy |
| Trust.AcceptedWeight | coordinator/trust.py:126-137 | An accepted upload's weight is positive and at most full trust times the example cap |
| Trust.EvaluationTable | coordinator/trust.py:65-137 | The verdict, new trust, weight, accuracy, reason and next baseline of every outcome in numbers: 0 below 0.30, −0.20, −0.10, −0.15, −0.20 for the four failures, +0.02 up to 1.00 otherwise |
| Trust.AcceptedWeightIs | coordinator/trust.py:126-137 | An accepted upload weighs its new trust times the reported examples, these counted as at least 1 and at most the cap |
| Trust.MoreTrustedOutweighs | coordinator/trust.py:126-134 | With equal examples, one accepted upload weighs less than another if and only if it has less trust after its evaluation |
| Trust.TrustBeatsSize | coordinator/trust.py:126-134 | Trust 0.40 with 1000 examples weighs 420, full trust with 500 weighs 500 |
| Standing.ScoresFollowHistory | coordinator/trust.py:65-137 | After any run an organisation's persisted scores are those of its own evaluations since it last enrolled, and of nothing else |
| Standing.TrustOverRuns | coordinator/store.py:199-206 | In every reachable state trust is in range and the amortised bound holds of the real history |
| Standing.ExclusionLasts | coordinator/trust.py:75-79 | Once below the floor, scores are unchanged at every later point of the run until the organisation enrols again |
| Store.DiagnosisIsRight | coordinator/store.py:250-288 | A failed consumption changes nothing, its diagnosis names the true cause in every case, and the last-resort message is unreachable |
| Store.StagedForFinds | coordinator/store.py:642-646 | The staged version of a round is found exactly when there is one, and it is the latest |
| Store.LiveVersionFinds | coordinator/store.py:648-652 | The active version is found exactly when there is one, and it is the latest |
| Store.AcceptedForIsExact | coordinator/store.py:379-393 | The listing has exactly the accepted rows of the round that have a stored model, each as often as recorded, in order of arrival |
| Contributions.VerifyAndRecordEffect | coordinator/api.py:908-972 | Verifying an upload changes nothing, or burns its own fresh challenge, or burns it and adds one row, accepted only when the answer is success and the evidence stands |
| Contributions.StepKeepsContributions | coordinator/api.py:847-989 | Every handler keeps the invariants of rows, challenges, open requests and uploaded files |
| Contributions.ContributionsAlways | coordinator/api.py:847-989 | Under every interleaving: rows equal what was attested, each is backed by its own challenge consumed before expiry, and every uploaded file hashes to what an accepted row of that name attests |
| ContributionTheorems.ChallengesAreOneShot | coordinator/store.py:228-288 | Under every interleaving a challenge is consumed once and never changes again, no two rows share one, and each row's was issued to its organisation and round |
| ContributionTheorems.AcceptedRowHasEvidence | coordinator/api.py:930-972 | For every accepted row of any run there is the step that recorded it, at which the organisation was active and the stored attestation verified under its key; the row's fields are the attested ones |
| ContributionTheorems.RecordingKeepsUniqueIff | coordinator/api.py:908-972 | Verifying and recording keeps one accepted row per organisation and round unless the upload passes the guards after the await beside an accepted row, and only then fails to |
| ContributionTheorems.UniqueExactlyWhenRechecked | coordinator/api.py:897-972 | A run ends with at most one accepted row per organisation and round if and only if no resumed request ever passed the guards after its await while its organisation had an accepted row |
| Scenarios.InterleavingDuplicates | coordinator/api.py:903-972 | With any working signatures: two overlapping requests of one organisation end with two accepted rows |
| Scenarios.LateUploadIsRecorded | coordinator/api.py:901-972 | With any working signatures: a request that waits while its round is aggregated is recorded as accepted in the closed round, whose counters stay |
| Scenarios.LateUploadIsAttested | coordinator/api.py:901-1004 | With any working signatures: every upload judged is merged, and yet the organisation whose request is let through late is attested for the round too |
| Scenarios.UninvitedLateUploadIsAccepted | coordinator/api.py:811-905 | With any working signatures: an organisation that no signed announcement invites is issued a challenge and has its upload accepted after the intake window |
| Scenarios.CollidingUploadOverwrites | coordinator/api.py:963-966 | Two overlapping uploads of one organisation whose hashes agree in 16 digits only: the first row's file no longer has its hash |
| Scenarios.RepeatedOrgIsMergedUnreported | coordinator/api.py:1157-1206 | After two overlapping uploads of one organisation with different schemas, aggregation succeeds, merges one model and writes 0 as accepted |
| Scenarios.TreelessIsReportedUnmerged | coordinator/api.py:1157-1206 | After two uploads in turn, one without trees, aggregation succeeds, merges one model and writes 2 as accepted |
| Scenarios.ExcludedIsAttested | coordinator/api.py:998-1004 | After two uploads in turn with different schemas only the heavier is merged, and both organisations are those attested for the round |
| ContributionTheorems.StepMovesRounds | coordinator/api.py:1188-1206 | A round's status never goes back, its counters are fixed once it leaves 'running', and closing it records sums that add up |
| ContributionTheorems.CountersAlwaysAdd | coordinator/api.py:1200-1206 | Under every interleaving responded = accepted + rejected in every round that is not running |
| ContributionTheorems.AtomicAlways | coordinator/store.py:369-377 | With atomic contributions there is at most one accepted row per organisation and round, and the responded counter is the number of them |
| ContributionTheorems.ClosedRoundIsFrozen | coordinator/api.py:897-905 | With atomic contributions the accepted rows, attested organisations and counters of a round never change once it has left 'running' |
| ContributionTheorems.ClosedRoundGrowsByLate | coordinator/api.py:897-972 | Under every interleaving a closed round's counters never change, and its accepted rows only gain, one for each request of that round let through after closing |
| ContributionTheorems.StoredBytesAreAttested | coordinator/api.py:961-972 | Under every interleaving the file of an accepted row is what the last row filed under its name attests, and so matches the row itself exactly if their hashes are equal |
| ContributionTheorems.AllBytesAttestedIff | coordinator/api.py:961-972 | Under every interleaving all files are what their rows attest if and only if no two accepted rows of one organisation and round have different hashes that agree in 16 digits |
| ContributionTheorems.AtomicBytesAreAttested | coordinator/api.py:961-972 | With atomic contributions the file of every accepted row hashes to what its organisation attested |
| ContributionTheorems.AcceptedExactlyWhen | coordinator/api.py:856-989 | Handled as one step, an upload is accepted if and only if every check of the chain holds of it, and only then is there one more accepted row of its round and organisation |
| ContributionTheorems.HonestContributionIsAccepted | client_ref/fl_client.py:32-54 | What the client builds is accepted whenever round, organisation, key, challenge, clocks and size allow it, and its challenge is then spent |
| Lifecycle.StepKeepsLifecycle | coordinator/api.py:1060-1303 | Every handler keeps the invariants of rounds, versions and merged files |
| Lifecycle.LifecycleAlways | coordinator/store.py:593-672 | After every run: running rounds have no version, aggregated ones one staged, completed ones one live or archived; at most one version is live and exactly one once anything was published; every file hashes to its version's hash |
| Lifecycle.NothingPublishedEarly | coordinator/api.py:1096-1105 | Whatever is live or archived was promoted after its soak, two observation windows or more after its round began, through any mixture of publications and rollbacks |
| Distribution.NoVersionReturnsToStaged | coordinator/store.py:654-672 | Over any run no version disappears, changes its round, model or soak, or returns to staged |
| Distribution.SignedAlways | coordinator/api.py:992-1011 | Every model attestation the coordinator ever signed is for a published version |
| Distribution.GenuineModelWasPublished | client_ref/fl_client.py:57-82 | Unless the very message presented is a forgery, a model that passes the client's checks has the hash of the version of the attested round, which was published after its own soak, two windows or more after the round began |
| Distribution.ServedModelIsGenuine | coordinator/api.py:1014-1032 | Once anything was published, the current model is always served, it is the one live version, and the client's checks pass on it |
| Distribution.ServedModelWasPublished | coordinator/api.py:992-1055 | Whatever was served at any moment passes the client's checks, is no forgery at any later moment, and has the hash of the attested round's version, published after its soak |
| Membership.HandshakeAlways | coordinator/api.py:548-631 | In every reachable state a pending or confirmed removal has a leave request that verifies under the current key, and a confirmation carries the coordinator's signature |
| Membership.KeyChangeForgetsPapers | coordinator/store.py:190-208 | A key or serial changes only when a revoked organisation enrols again, and enrolling again, with the same key too, clears both halves of the handshake and the scores |
| Membership.BlockingLiftsRevocation | coordinator/api.py:493-522 | Blocking or unblocking a revoked organisation lifts its revocation with key, serial and scores kept; its serial leaves the list at the next rebuild unless another revoked organisation has it |
| Membership.RevocationEndsIff | coordinator/api.py:493-538 | A step ends an organisation's revocation if and only if it enrols, blocks or unblocks that organisation |
| Membership.RevocationLastsIff | coordinator/api.py:493-538 | Over any run an organisation stays revoked from one moment through another if and only if no such event for it lies between |
| Membership.EnrolmentStartsOver | coordinator/store.py:190-208 | Enrolment succeeds exactly for organisations that are new or revoked, and starts a row with full trust, no baseline and no papers |
| Membership.CrlAlwaysCovers | coordinator/api.py:142-164 | While regeneration succeeds, every revoked organisation's serial is in the loaded list in every reachable state |
| Membership.CrlExactAfterRevocation | coordinator/api.py:525-538 | Right after a revocation or an approved removal the list is exactly the revoked serials, and unchanged if it could not be written |
| Answers.StatusIs | coordinator/api.py:493-522 | Blocking and unblocking succeed for every known organisation whatever its status, and set its status and nothing else |
| Answers.RevokeIs | coordinator/api.py:525-538 | Revoking succeeds for every known organisation, and changes its status and the loaded list only |
| Answers.LeaveIs | coordinator/api.py:548-590 | A leave request is taken if and only if it is about its sender, who is known and not revoked, and verifies; the organisation is then pending with this very request stored, and any other request changes nothing |
| Answers.ApproveIs | coordinator/api.py:593-631 | Approval succeeds if and only if a removal is pending; it revokes and stores a signed confirmation of that organisation and moment |
| Answers.StartIs | coordinator/api.py:681-743 | A round starts if and only if enough active organisations are among the targets (all of them where there are none); one running round is added and announced with exactly those |
| Answers.ChallengeIs | coordinator/api.py:800-822 | A challenge is issued if and only if the round is running and the organisation known, is bound to both, and expires 600 seconds later |
| Answers.BeginIs | coordinator/api.py:869-905 | The checks before the await pass if and only if the attestation is bound to caller and address, the round is running and nothing of the organisation was accepted for it |
| Answers.RecordingIs | coordinator/api.py:908-989 | What follows the await, by how far the upload gets: a bad signature leaves one rejected row without a file, a good one an accepted row with its file, every field stated, and nothing else leaves a row; the challenge is spent by every upload that presents it |
| Answers.FinishIs | coordinator/api.py:908-989 | A request that was waiting is recorded in just this way, on the state it resumes in, and is no longer open |
| Answers.GuardIs | coordinator/api.py:1089-1113 | Aggregation may start if and only if the round is running, its window is over, and it has an accepted row with a file |
| Answers.AggregateIs | coordinator/api.py:1157-1206 | A completed aggregation adds one staged version that soaks for one more window, writes the merge's bytes, and records counters and hash in the round, leaving rows and challenges alone |
| Answers.RollbackIs | coordinator/api.py:1276-1303 | Rollback succeeds if and only if the version exists and is not staged; that version is then live and stamped with the moment, any other live one archived, and nothing else changed |
| Answers.PublishIs | coordinator/api.py:1228-1262 | Publication succeeds if and only if the soak of the round's staged version is over; that version is then live and stamped, any other live one archived, the round completed, and nothing else changed |
| Answers.NothingToPublish | coordinator/api.py:1241-1246 | Without a staged version publication is refused and changes nothing |
| Answers.MadeLiveIsServed | coordinator/api.py:1014-1032 | After any run that ends with a publication or rollback, participants are served the version it made live: a file of its hash, attested for its round and signed |
| Answers.RoundIsServedIff | coordinator/api.py:1035-1055 | In every reachable state a round's model is served if and only if the round is completed, as that round's file, attested and signed at that moment |
| Answers.AttestedIff | coordinator/api.py:998-1004 | An organisation is attested for a round if and only if it has an accepted row in it |
| Answers.GenuineIff | client_ref/fl_client.py:57-82 | The client accepts a model if and only if the coordinator's signature holds and the attested hash is the model's |
| Service.CoordinatorStore.ConsumeChallenge | coordinator/store.py:250-288 | Consumes exactly the consumable challenge, else changes nothing and never reports the last-resort reason |
| Service.CoordinatorStore.PromoteGlobalModel | coordinator/store.py:654-672 | Two updates in place come to: the chosen version live and stamped, any other live one archived, all else as before |
| Service.TrustManager.Bump | coordinator/trust.py:58-63 | Moves the persisted trust by the given amount inside [0, 1] |
| Service.TrustManager.Evaluate | coordinator/trust.py:65-137 | The sequence of checks with its writes along the way has exactly the result and effect of the evaluation that `Trust.EvaluationTable` gives in numbers |
| Service.Coordinator.RequestLeave | coordinator/api.py:548-590 | Performs the leave transition, with every refusal in the order of the checks |
| Service.Coordinator.ApproveRemoval | coordinator/api.py:593-631 | Performs the approval transition |
| Service.Coordinator.Start | coordinator/api.py:681-743 | Performs the start transition: the announcement that is signed carries the round, its parameters and exactly the active organisations invited |
| Service.Coordinator.IssueRoundChallenge | coordinator/api.py:800-822 | Performs the challenge transition |
| Service.Coordinator.BeginContribution | coordinator/api.py:869-908 | Performs the contribution handler up to its await |
| Service.Coordinator.FinishContribution | coordinator/api.py:908-989 | Performs the rest of the handler, in whatever state it resumes |
| Service.Coordinator.Contribute | coordinator/api.py:847-989 | Performs the handler as one transition |
| Service.Coordinator.JudgeUploads | coordinator/api.py:1115-1142 | The evaluation loop, with its reads of files and writes of scores, judges the uploads as the specification does |
| Service.Coordinator.AggregateRound | coordinator/api.py:1060-1223 | Performs the aggregation transition, calling the in-place gate and the in-place merge |
| Service.Coordinator.Publish | coordinator/api.py:1228-1262 | Performs the publication transition, whose exact outcome is `Answers.PublishIs` and `Answers.NothingToPublish` |
| Service.Coordinator.Rollback | coordinator/api.py:1276-1303 | Performs the rollback transition, whose exact outcome is `Answers.RollbackIs` |
| Service.Coordinator.Serve | coordinator/api.py:992-1011 | Signs and returns the bytes of a model file, or answers 404 |
| Service.Coordinator.Perform | coordinator/api.py:493-1303 | Each moment of a run moves the object's state by the transition system's step, so every theorem over runs is one about this object |
| Privacy.PerturbLeaves | client_ref/privacy.py:53-59 | The loop adds its sample to exactly the leaf positions of one array |
| Privacy.ApplyDifferentialPrivacy | client_ref/privacy.py:35-63 | An ensemble comes back as one of equally many trees in which every leaf's condition is the old one plus its sample, and every other condition and array is as it was; other documents come back unchanged |
| Privacy.NoisedIsUnique | client_ref/privacy.py:35-63 | There is only one document of which that is true, so the step is pinned down by it |
| Privacy.NoisedShiftsTreeSum | client_ref/privacy.py:35-63 | Whatever the step returns for an ensemble predicts, on every input, the old sum plus the samples met |
| Privacy.NoiseKeepsRouting | client_ref/privacy.py:46-59 | For any noise every input takes the same route to the same leaf in every tree |
| Privacy.NoiseShiftsTreeSum | client_ref/privacy.py:46-59 | The ensemble's sum changes by exactly the samples met, and in a well-founded tree that is always the sample drawn for the leaf reached |
| Privacy.WellFoundedMeetsSample | client_ref/privacy.py:51-58 | In a well-founded tree every input comes to the same leaf with and without noise, and meets the sample drawn there |
| Trees.LaterChildrenAreWellFounded | client_ref/privacy.py:51-58 | Trees whose splits point at later nodes are among the well-founded ones, which may number their nodes in any way |
| Audit.AuditTrail.Log | coordinator/audit.py:45-69 | On any table, tampered or not: appends one row that verifies, changes the verdict on no other, and keeps the cached hash current |
| Audit.EveryInterleavingExtends | coordinator/audit.py:28-69 | Any sequence of locked appends and restarts on any table loses nothing, adds only rows that verify, and leaves the first bad row where it was |
| Audit.AuditTrail.VerifyIntegrity | coordinator/audit.py:79-100 | True with the number of rows exactly when the chain is intact, else the least bad row |
| Audit.EveryInterleavingVerifies | coordinator/audit.py:57-69 | From an empty table any such sequence gives one that verifies |
| Audit.LastHashFixesLog | coordinator/audit.py:86-100 | Two verifying tables with the same last hash have equally many rows with the same text, or the two positions returned hold a hash collision |
| Audit.AlterationIsLocated | coordinator/audit.py:87-97 | Changing the text of one stored row breaks exactly that row, or exhibits a collision |
| Audit.FieldAlterationIsLocated | coordinator/audit.py:57-97 | Altering any one of timestamp, action, actor, target and details of a stored row breaks exactly that row, or exhibits a collision |
| Audit.HashAlterationIsFound | coordinator/audit.py:87-97 | Altering a stored hash is found at its own row |
| Libsvm.LoadLibsvm | flproto/dataset.py:18-46 | Both passes, with dictionaries filled and cells written in place, compute the specified dataset or the error the original raises |
| Libsvm.ReadFeatures | flproto/dataset.py:32-39 | One line's tokens become a dictionary that keeps the last value of an index, and the running maximum index |
| Libsvm.FillInPlace | flproto/dataset.py:42-44 | The writes of one row succeed exactly when every index lands inside it, counting from the end for indices below 1 |
| Libsvm.DictKeepsLast | flproto/dataset.py:32-38 | Looking an index up in the dictionary gives the last value the line gives for it, else 0 |
| Libsvm.WidthIsLargest | flproto/dataset.py:24-39 | The width bounds every index in the file and is one of them, or is 0 |
| Libsvm.OneBasedFilesLoad | flproto/dataset.py:22-46 | A file with indices from 1 on always loads; the width is the largest index and each cell the last value given, else 0 |
| Libsvm.ParsingFailsIff | flproto/dataset.py:26-38 | The first pass fails if and only if some line is malformed: a label or value that is neither a decimal number (sign, point, exponent, underscores between digits) nor `inf`, `infinity` or `nan`, an index that is not an integer, or a token without exactly one colon |
| Libsvm.LoadFailsIff | flproto/dataset.py:41-44 | A well-formed file fails to load if and only if some index lies below 1 minus the width, and then with the index error |
| Libsvm.LoadedCellsAre | flproto/dataset.py:41-44 | In any file that loads, each cell holds the value of the last entry that lands on it, where indices below 1 count from the end, else 0 |
| Libsvm.SkippedIff | flproto/dataset.py:26-28 | A line is skipped if and only if it is blank or its first visible character is '#' |
| Libsvm.TokenIff | flproto/dataset.py:33-35 | A token with one colon is read exactly if an integer precedes and a number follows it |
| Libsvm.OneColonOnly | flproto/dataset.py:33-33 | A token with no colon, or with more than one, is malformed |
| Libsvm.WriteThenLoad | examples/gen_validation.py:30-33 | Reading the writer's text returns the same labels and the same n by d matrix of numbers |
| Decimal.FixedRoundTrip | examples/gen_validation.py:32-32 | Every fixed-point value with five decimals is read back as the same number |
| Decimal.SignedIntParses | flproto/dataset.py:34-34 | A leading "+" changes nothing and a leading "-" the sign of an index |
| Decimal.SignedNumberParses | flproto/dataset.py:30-35 | And so of a label or value without a point |
| Decimal.PlacesParse | flproto/dataset.py:30-35 | Digits before and after a point are worth the digits together, over ten for each place |
| Decimal.ExponentParses | flproto/dataset.py:30-35 | With the exponent e, signed or not, marked by either letter, a whole number is worth that many times ten, or that many times a tenth (`Decimal.PowersOfTen`) |
| Decimal.WordsParse | flproto/dataset.py:30-35 | `inf`, `infinity` and `nan` are read in any mixture of cases, with a sign or without |
| Decimal.UnderscoreIsReadOver | flproto/dataset.py:34-34 | One underscore between digits is read over |
| Decimal.MisplacedUnderscores | flproto/dataset.py:34-34 | One at either end, or two together, make the index malformed |

## Left out

- Trust.Evaluate: exact arithmetic with the default thresholds (0.3, 0.5, 0.15); rounding of binary floating point, and other thresholds, are not modelled.
- Aggregation.Merge: weights are integers, so a share on the edge of an integer is not affected by rounding as it may be in the original.
- Libsvm.Load: finite numbers are exact; rounding, overflow and the narrowing to 32-bit floats are not modelled, nor are digits and spaces outside ASCII.
- Audit.LastHashFixesLog: equality of the concatenated text of a row, not of its separate fields, because the original hashes them without a separator.
- Privacy.NoiseShiftsTreeSum: no claim about privacy; which samples the Laplace distribution yields is left open.
- Distribution.GenuineModelWasPublished: that the message presented is not a forgery is a hypothesis, about this one message; for messages the coordinator sent it is proved (`Distribution.ServedModelWasPublished`).
- Cryptography (Ed25519, SHA-256, X25519, certificates, revocation list encoding) and JSON text: library code, represented by the functions of `Env`.
- Loading, training and scoring boosters: library code; their outcomes are inputs.
- Enrolment tokens: minting and redeeming repeat the argument for challenges; both enrolment routes end in the one `EnrollEvent`, which always carries a key and a serial.
- Malformed fields inside a contribution's JSON (a round or example count that is not a number): the attestation is a record with typed fields, or not a contribution at all.
- A missing certificate authority, signing key or trust manager (answers 503): start-up checks of one branch; they are taken to be loaded.
- Ordering by timestamps: rows and versions are read in insertion order, which the nondecreasing clock makes the same up to equal readings.
- Crashes between two commits of one handler, and several coordinator processes: each handler is one step, but for the await; a restart loses open requests only.
- HTTP, cookies, roles, mutual TLS, dashboards, logging texts, listings and templates: plumbing around the modelled handlers; who is authenticated is an input.
- The audit entries that handlers write: the log is modelled by itself.
