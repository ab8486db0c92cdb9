# A verified model of ntulearn_skill

The program keeps a local store of course material and derives calendar events, a content tree and a search
index from it. This project models the parts of it that change stored state step by step and proves what they
keep:

* **Event reconciliation.** Sources, claims, projections, conflicts, supersession edges and manual decisions are
  tables of one record (`EventTables`). `Reconcile`, `Recompute` and `Manual` say what one step does to those tables,
  column by column; `Grouping` says on *sets* of claims how agreeing claims are grouped and which one is chosen, so
  nothing there can depend on row order. `EventStore.Store` is the store as an object whose statements carry the
  constraints and guard triggers of the schema as preconditions, and `Reconciler.EventReconciler` is the program: loops and
  statements, each method proved equal to the table function that specifies it. Because every statement's
  precondition is discharged, no constraint or trigger modelled here can fire. `ClaimGroups` and
  `FieldDecision` are the list algorithms (lists extended and removed in place) proved against `Grouping`.
  `Histories` closes the steps under any interleaving, starting from the empty store; `Clock`, `Reselection` and
  `RunOrder` draw conclusions for whole histories or runs.
* **What the table functions mean.** The same steps in other words, with quantifiers over claims, sources and decisions and
  without the functions the methods are proved against: `TitleIdentities` (which titles are the same), `Choices` (what
  agreeing evidence decides), `Activity` (what counts as evidence), `Ties` and `Verdicts` (why a source was bound or
  not), `EventRows` (what an event row says), `Standing` (how long a decision by hand is in force and what it decides), `Caching`
  (when a run is not made again) and `Additions` (where every claim came from). Each ends in a statement about every history.
* **Content discovery over a stored forest.** `ContentForest.Repository` and `Discovery.ContentDiscovery`, with
  `ParentChains` for acyclicity, `ContentSource` for what a provider lists, and `ContentHistory` for what the rows say after
  any observations.
* **The search index.** `SearchDocuments` (projection, marks, generations) and `SearchIndex.Database` (refresh inside
  every transaction); `ClaimDocuments` derives the claim documents from the event store, and `IndexHistories` follows the
  index through whole histories.
* **Smaller loops.** `CaptureTree`, `Cursors`, `ByteStream`, `PdfObjects`, `DocxTables`, `DocxBody`, and `Decimals` for numbers
  in text.

Title tokenising, case folding and the classification of change wording are arbitrary functions (`Lexicon`); the
context tokens of a source are an arbitrary function of the source. Everything proved holds for all of them.
Confidences are reals, times are integers, keys are positions or natural numbers.

## What the proofs found

* The error "manual resolution does not belong to this event field" **can** be raised. `resolve_field` accepts as
  `selected_claim_key` a claim that an earlier local decision created; the activity predicate of local claims looks
  only at `local_claim_key`, so the chosen claim never competes. `Reselection.ReselectingLocalClaimRaises` is a history
  of three calls that leads there from the empty store. `ManualPrevails.RaisesExactly` and
  `RunRaises.RunRaisesExactly` give the exact condition for an event and for a whole run,
  `ManualPrevails.SelectionRaisesExactly` and `Reselection.HistoryRaisesExactly` the condition a caller can check before
  a request, `RunRaises.CalmRunSucceeds` one before a run, and `Histories.HistoryNeverRaises` shows that it never
  happens in a history whose requests do not do this.
* A run is not made again when its inputs are those of an earlier one, and the inputs name manual decisions only while they
  are in force. A decision that expires in the very call that makes it therefore leaves no trace in them, and an earlier
  run may answer: `Caching.HistoryCache` gives the exact condition, `Caching.NewsIsNotCached` what is never answered so.
* An incremental index refresh replaces courses in ascending key order, so it violates the unique key of the document
  table exactly when a document is to appear under a lower course key than the one it is still indexed under
  (`SearchDocuments.ClashIsMoveDown`, `SearchIndex.Database.RefreshDirty`); the transaction is then rolled back. The
  immutability triggers on `resource` and `content_node` leave only deletion and re-insertion in one transaction as a way to
  get there (`SearchDocuments.MovingDownIsPossible`); no code under `src` deletes a resource row.
* The index does **not** always agree with a rebuild after a commit. Claim documents depend on extraction records, and
  no trigger marks anything when one is inserted (events/extraction.py:1608), so claims retired by a new extraction stay
  indexed under equal generations: `IndexHistories.ReextractionLeavesClaim`, `SearchDocuments.RetiredClaimStaysIndexed`.
  `SearchDocuments.CurrentExactly` and `UnmarkedExactly` say exactly when a transaction leaves the index current, and
  `IndexHistories.HistoryIndex` exactly which documents are left over after any history; none is ever missing. The metadata
  of visual descriptions (0010_visual_evidence.sql) sets no mark either, but what it hides belongs to the resource that
  the description stored with it has marked (`SearchDocuments.MetadataIsCovered`); stored for a description that was there
  before, it is an unmarked write like the other.

## Model

| member | source | states |
|---|---|---|
| ClaimGroups.TemporalGroups | src/ntulearn_skill/events/reconciliation.py:1521-1562 | For well-formed temporal claims in any order, the merged lists are exactly the classes: signatures, a date joining an instant iff it is the only instant of that date |
| ClaimGroups.MergeDays | src/ntulearn_skill/events/reconciliation.py:1529-1562 | The in-place loop (extend one list, remove another) reaches the folded partition although later rounds see lists changed by earlier ones |
| ClaimGroups.Compatible | src/ntulearn_skill/events/reconciliation.py:1542-1559 | The lists a partial group could join, each once |
| ClaimGroups.FittingIsFold | src/ntulearn_skill/events/reconciliation.py:1560-1562 | Exactly one fitting list remains iff exactly one instant has that date |
| ClaimGroups.SemanticGroups | src/ntulearn_skill/events/reconciliation.py:1565-1576 | First-match grouping puts each row once, under the head that means the same, heads pairwise different |
| ClaimGroups.Groups | src/ntulearn_skill/events/reconciliation.py:1521-1576 | For every field and row order the lists are the classes of the set of claims; in key order each list starts with the first claim of its class |
| FieldDecision.Best | src/ntulearn_skill/events/reconciliation.py:1292-1303 | The maximum is the one row preferred to all others by precision, confidence and earlier key |
| FieldDecision.Newest | src/ntulearn_skill/events/reconciliation.py:1594-1606 | The newest explicit change stands above all others |
| FieldDecision.Winner | src/ntulearn_skill/events/reconciliation.py:1587-1629 | A group yields a winner iff one of its claims beats every other group in time and, for temporal fields, in precision |
| FieldDecision.NoSecondWinner | src/ntulearn_skill/events/reconciliation.py:1579-1630 | Once a group has yielded a winner no later group can |
| FieldDecision.ExplicitSuccessor | src/ntulearn_skill/events/reconciliation.py:1579-1630 | Returns the only possible successor, and nothing only if there is none |
| FieldDecision.SpecificIsHeads | src/ntulearn_skill/events/reconciliation.py:1273-1290 | One specific group remains iff exactly one class of event types is specific, and its head is the chosen row |
| FieldDecision.DecideField | src/ntulearn_skill/events/reconciliation.py:1236-1327 | The decision on a list of rows is the decision on their set: order-independent for every field but the event type |
| Choices.AgreementMeans | src/ntulearn_skill/events/_matching.py:63-90 | Two times agree iff they are the same instant, date or week, or one is an instant of the date the other gives |
| Choices.ClassMeans | src/ntulearn_skill/events/reconciliation.py:1521-1576 | Two rows are in one class iff they say the same; a date says the same as an instant iff that is the only instant of the date among the rows |
| Choices.PreferenceMeans | src/ntulearn_skill/events/reconciliation.py:1292-1303 | Preferred is finer (an exact time before a date before a week before none), then surer, then earlier |
| Choices.ChangeMeans | src/ntulearn_skill/events/_matching.py:106-118 | A move announces times, a cancellation the status, a change of venue the location, each only with a time of its own |
| Choices.DecisionMeans | src/ntulearn_skill/events/reconciliation.py:1236-1327 | What evidence alone decides: the one specific type, the best of agreeing claims, a change that overrules all that disagree, or nothing |
| Choices.DecidedOnce | src/ntulearn_skill/events/reconciliation.py:1236-1327 | No other outcome fits that description |
| Choices.BesideMeans | src/ntulearn_skill/events/reconciliation.py:1633-1684 | A claim stays accepted beside the chosen one iff it says the same, for times at the same precision |
| Grouping.BestExists | src/ntulearn_skill/events/reconciliation.py:1292-1303 | Every nonempty set of rows with distinct keys has a preferred row |
| Grouping.SuccessorUnique | src/ntulearn_skill/events/reconciliation.py:1579-1630 | At most one claim can win against all other classes |
| Grouping.DecideShape | src/ntulearn_skill/events/reconciliation.py:1236-1327 | A decision chooses among the competing rows, and supersedes only for a successor |
| EventTables.ChoiceIsInForce | src/ntulearn_skill/events/reconciliation.py:1248-1256 | The claim looked up for a field is that of a decision in force, and none iff none is in force |
| Activity.OneCounts | src/ntulearn_skill/events/_activity.py:16-35 | Of the extractions of one input by one extractor exactly one counts as soon as one is usable, never an unusable one and none older than a usable one |
| Activity.IngestTakesOver | src/ntulearn_skill/events/_activity.py:16-35 | A new usable extraction ends the effect of its rivals and of nothing else; an unusable one changes nothing |
| Activity.ActivityMeans | src/ntulearn_skill/events/_activity.py:38-91 | A source claim counts iff its source does, that is by its extraction or by a decision for that source or any of its claims; a local claim iff the decision that made it is in force |
| Activity.RowsTell | src/ntulearn_skill/events/reconciliation.py:1238-1245 | A field is decided by one row for each of its claims that count, with the claim's value, precision and confidence and its source's change and time |
| Settling.SettleStep | src/ntulearn_skill/events/reconciliation.py:1236-1349 | Deciding one more field of the loop is exactly applying its outcome, independent of the fields decided before |
| Settling.StateStep | src/ntulearn_skill/events/reconciliation.py:1215-1229 | Deciding a field touches a claim only if it competes there |
| RecomputeFacts.SameChoices | src/ntulearn_skill/events/reconciliation.py:1236-1327 | What settling writes never changes a later choice |
| RecomputeFacts.OutdatedKept | src/ntulearn_skill/events/reconciliation.py:1409-1502 | Whether a decision is outdated depends only on evidence, not on what expiry or settling wrote |
| RecomputeFacts.MissingExactly | src/ntulearn_skill/events/reconciliation.py:1253-1259 | The field loop raises iff some claim competes and the decision in force names a local claim as an existing one |
| RecomputeFacts.OpenAfter | src/ntulearn_skill/events/reconciliation.py:1328-1349 | After settling, the open conflicts are the contested fields, one each, over exactly the competing claims |
| RecomputeFacts.FieldSettles | src/ntulearn_skill/events/reconciliation.py:1236-1349 | Every canonical field is silent, projected or contended, and contended iff nothing wins |
| RecomputeFacts.InactiveSettles | src/ntulearn_skill/events/reconciliation.py:1216-1229 | Inactive source claims are rejected |
| RecomputeFacts.RecomputedSettles | src/ntulearn_skill/events/reconciliation.py:1213-1406 | After recomputation: no active claim, no projection and no open conflict; otherwise an accepted projection or one open conflict over all active claims; the event is conflicting iff some field is contended |
| RecomputeFacts.RecomputedStandings | src/ntulearn_skill/events/reconciliation.py:1633-1684 | In a projected field the accepted claims are exactly those agreeing with the projected one at its precision; the others are all rejected or all superseded, each with its edge from a successor |
| RecomputeFacts.ConfidenceInRange | src/ntulearn_skill/events/reconciliation.py:1376-1405 | In every sound store the mean confidence of the active source claims of an event lies between 0 and 1 |
| EventRows.RecomputedRowRight | src/ntulearn_skill/events/reconciliation.py:1350-1406 | After recomputation the row shows exactly the projected values, its confidence is the mean and its count the number of the active sources; it is in conflict iff a field is contended, else ambiguous iff some active unmatched source might belong to the event, else resolved |
| EventRows.MeanBetween | src/ntulearn_skill/events/reconciliation.py:1376-1405 | So the confidence lies between the least and the greatest of the claims, and is that of a single one |
| EventRows.HistoryRows | src/ntulearn_skill/events/reconciliation.py:1350-1406 | The same of every event that the last step of a history recomputed |
| RecomputeSound.ExpireSound | src/ntulearn_skill/events/reconciliation.py:1409-1502 | Expiry keeps every invariant |
| RecomputeSound.NewEdgeGoesDown | src/ntulearn_skill/events/reconciliation.py:1633-1683 | A new supersession edge leaves an explicit change and, between explicit changes, goes strictly down, inside one group too |
| RecomputeSound.SettleSound | src/ntulearn_skill/events/reconciliation.py:1236-1349 | Settling any of the fields keeps every invariant |
| RecomputeSound.RecomputedSound | src/ntulearn_skill/events/reconciliation.py:1213-1406 | Recomputation keeps every invariant and rewrites no evidence, binding, decision or edge |
| RecomputeSound.RecomputedElsewhere | src/ntulearn_skill/events/reconciliation.py:1213-1406 | Recomputing an event leaves claims, activity, projections and open conflicts of every other event alone |
| RecomputeSound.RecomputedKeepsSettled | src/ntulearn_skill/events/reconciliation.py:1194-1198 | An event already settled stays settled while others are recomputed |
| RecomputeSound.RecomputedAccepted | src/ntulearn_skill/storage/migrations/0007_event_reconciliation.sql:273-287 | After recomputation the projections of the event show accepted claims, and others still do |
| Idempotence.RecomputeIsIdempotent | src/ntulearn_skill/events/reconciliation.py:1213-1502 | A second recomputation raises no error and changes nothing but the numbering of the conflict log; the open conflicts are the same |
| Supersession.PathGoesDown | src/ntulearn_skill/events/reconciliation.py:1579-1683 | Along a path the first claim is an explicit change, and above the last if that is one |
| Supersession.SupersessionAcyclic | src/ntulearn_skill/events/reconciliation.py:1579-1683 | The supersession relation of a sound store has no cycle |
| Supersession.GuardNeverFires | src/ntulearn_skill/storage/migrations/0007_event_reconciliation.sql:519-530 | Inserting a sound edge finds no way back, so the recursive trigger never fires |
| FieldWrites.GuardHolds | src/ntulearn_skill/storage/migrations/0007_event_reconciliation.sql:519-530 | The same for every intermediate state of the loop that inserts the edges |
| FieldWrites.ClaimMaySettle | src/ntulearn_skill/events/reconciliation.py:1648-1676 | The statements for one claim of a chosen group meet the schema and write its share of the outcome |
| FieldWrites.ExpireStep | src/ntulearn_skill/events/reconciliation.py:1426-1502 | Examining decisions one by one in place sees what was there before expiry began |
| Standing.StandingMeans | src/ntulearn_skill/events/reconciliation.py:1409-1518 | A decision expires iff the claim it names is of a superseded extraction, or a current claim made after it says something else: another time or precision, another title, other text, another value |
| Standing.HistoryStands | src/ntulearn_skill/events/reconciliation.py:1409-1502 | After any history and one more step: a decision is in force iff it was, no new one replaced it and, if its event was recomputed, it still stands |
| Standing.DecisionStands | src/ntulearn_skill/events/_manual.py:192-267 | A new decision is recorded as asked and in force iff it stands; it ends the one for its field and of the others of the event those that do not stand |
| Standing.IdentitiesDecided | src/ntulearn_skill/events/_manual.py:270-330 | The same for identity decisions, which stand iff their source is current |
| Standing.HistoryShown | src/ntulearn_skill/events/reconciliation.py:1236-1327 | What a recomputed event shows for a field is the claim that a decision still in force names, or without one what the evidence alone decides; a local claim is shown only while its decision is in force |
| EventStore.Store.InsertSupersession | src/ntulearn_skill/storage/migrations/0007_event_reconciliation.sql:289-298 | Same event and field, no cycle |
| EventStore.Store.InsertProjection | src/ntulearn_skill/storage/migrations/0007_event_reconciliation.sql:273-279 | One projection per field, of an accepted claim of that field and its value |
| EventStore.Store.InsertConflict | src/ntulearn_skill/storage/migrations/0007_event_reconciliation.sql:143-144 | At most one open conflict per event and field |
| EventStore.Store.InsertAlternative | src/ntulearn_skill/storage/migrations/0007_event_reconciliation.sql:537-543 | An alternative is a claim of the contested field, listed once |
| EventStore.Store.AssignSource | src/ntulearn_skill/storage/migrations/0007_event_reconciliation.sql:247-251 | A source is assigned only inside its course |
| EventStore.Store.AssignClaims | src/ntulearn_skill/storage/migrations/0007_event_reconciliation.sql:265-271 | The claims of a source have its event |
| EventStore.Store.InsertManualField | src/ntulearn_skill/storage/migrations/0007_event_reconciliation.sql:207-208 | One decision in force per field, naming a claim of that field |
| EventStore.Store.InsertManualIdentity | src/ntulearn_skill/storage/migrations/0007_event_reconciliation.sql:219-220 | One identity in force per source, inside its course |
| EventStore.Store.InsertDecision | src/ntulearn_skill/storage/migrations/0007_event_reconciliation.sql:167-183 | One audit row per run and candidate |
| EventStore.Store.InsertRun | src/ntulearn_skill/storage/migrations/0007_event_reconciliation.sql:152-165 | One run per course, resolver version and input fingerprint |
| Reconciler.EventReconciler.ExpireOutdated | src/ntulearn_skill/events/reconciliation.py:1409-1502 | The loop over decisions is the specified expiry |
| Reconciler.EventReconciler.Reset | src/ntulearn_skill/events/reconciliation.py:1216-1236 | Claims reset, projections deleted, conflicts closed: the settled store with no field decided |
| Reconciler.EventReconciler.QueryRows | src/ntulearn_skill/events/reconciliation.py:1238-1245 | Delivers exactly the competing rows, in key order |
| Reconciler.EventReconciler.SelectClaimGroup | src/ntulearn_skill/events/reconciliation.py:1633-1684 | States, edges and projection written claim by claim are the specified outcome, and no guard trips on the way |
| Reconciler.EventReconciler.RecordConflict | src/ntulearn_skill/events/reconciliation.py:1328-1349 | Every competing claim becomes conflicting and an alternative of one new open conflict |
| Reconciler.EventReconciler.ReconcileField | src/ntulearn_skill/events/reconciliation.py:1236-1349 | One turn of the field loop is one settled field more, and fails exactly on a missing chosen claim |
| Reconciler.EventReconciler.RecomputeEvent | src/ntulearn_skill/events/reconciliation.py:1213-1406 | The statements of a recomputation compute the specified store, and fail exactly when it is undefined |
| Reconciler.EventReconciler.EnsureSourceAndClaims | src/ntulearn_skill/events/reconciliation.py:709-806 | One source per candidate, with one claim per field; nothing if it exists |
| Reconciler.EventReconciler.BindSource | src/ntulearn_skill/events/reconciliation.py:1155-1177 | Source, claims and possible matches are updated together |
| Reconciler.EventReconciler.LeaveSource | src/ntulearn_skill/events/reconciliation.py:900-933 | An unbound source holds exactly the plausible events |
| Reconciler.EventReconciler.CandidateMatches | src/ntulearn_skill/events/reconciliation.py:967-1094 | Finds exactly the plausible and the mergeable events of the course, each once |
| Ties.SignalsMean | src/ntulearn_skill/events/reconciliation.py:967-1094 | Claims decide: an event is plausible iff a title is shared, no numbers differ and a type is shared or generic; it is merged into iff besides a time agrees, or another source of it shares object or context, or a change is announced, with a shared type or that relation, and no unrelated clash of times |
| TitleIdentities.NumberedTitles | src/ntulearn_skill/events/_matching.py:29-60 | Titles with a number and an event word are the same iff the number and the word are, homework read as assignment, whatever else they say |
| TitleIdentities.OtherTitles | src/ntulearn_skill/events/_matching.py:29-60 | Every other title is identified by all its words, a value that is no text by nothing; a title has a number iff some word is one |
| TitleIdentities.JoinedTitles | src/ntulearn_skill/events/_matching.py:29-60 | Titles identified by all their words are the same iff all words are |
| Reconciler.EventReconciler.ReconcileCandidate | src/ntulearn_skill/events/reconciliation.py:825-965 | The branches write the specified treatment; false iff the candidate is put off |
| Reconciler.EventReconciler.RunFirstPass | src/ntulearn_skill/events/reconciliation.py:182-193 | The list comprehension with effects is the specified first pass and its deferred sources |
| Reconciler.EventReconciler.RunSecondPass | src/ntulearn_skill/events/reconciliation.py:194-197 | Changes, then deferred candidates |
| Reconciler.EventReconciler.ReconcileCourse | src/ntulearn_skill/events/reconciliation.py:133-206 | A cached run changes nothing; any other is the specified run or, if that raises, leaves the store as it was |
| Caching.FingerprintMeans | src/ntulearn_skill/events/reconciliation.py:636-706 | The hashed payload is the same iff the current extractions and candidates of the course and its decisions in force are |
| Caching.HistoryCache | src/ntulearn_skill/events/reconciliation.py:133-181 | After every history a call is answered from the cache iff an earlier call for the course and version ran, in a store with the very same inputs |
| Caching.HistoryAnswered | src/ntulearn_skill/events/reconciliation.py:133-202 | Cached or not, once a call returns some run of the course and version has audited every current candidate exactly once, and each has its source |
| Caching.NewsIsNotCached | src/ntulearn_skill/events/reconciliation.py:636-706 | A call after an accepted usable extraction of the course, or after a decision on it that is in force, is not answered by a run made before |
| Reconciler.EventReconciler.ResolveField | src/ntulearn_skill/events/_manual.py:192-267 | A refused or failing request changes nothing; any other gives the specified store |
| Reconciler.EventReconciler.ResolveEventSource | src/ntulearn_skill/events/_manual.py:270-330 | The same for identity decisions |
| ReconcileSound.TreatmentFacts | src/ntulearn_skill/events/reconciliation.py:825-965 | Assigned events lie in the course, only unbound sources are assigned anew, an explicit change never founds an event |
| ReconcileSound.BindSound | src/ntulearn_skill/events/reconciliation.py:1155-1177 | Binding an unbound source inside its course keeps every invariant |
| ReconcileSound.TreatedSound | src/ntulearn_skill/events/reconciliation.py:825-965 | Handling a candidate keeps every invariant and writes one audit row unless it is put off |
| ReconcileSound.TreatedExplains | src/ntulearn_skill/events/reconciliation.py:839-965 | The audit row names the event the source ends with, and each verdict says what happened: created iff bound to a new event, retained only if nothing changed, merged only if newly bound, manual iff an identity is in force |
| Verdicts.TreatmentJudged | src/ntulearn_skill/events/reconciliation.py:825-965 | Each verdict has its reason: an identity in force, else a binding already there, else the one event of the course the source is tied to, else an announced change, else events it resembles, else a new event |
| Verdicts.TreatedCarried | src/ntulearn_skill/events/reconciliation.py:900-965 | What a verdict writes: this binding and no other; an unbound source is left with exactly the events it resembles |
| Verdicts.HistoryVerdicts | src/ntulearn_skill/events/reconciliation.py:825-1094 | Every row of the log of every history was written by a run for those reasons, in a store that all later ones only append to |
| Verdicts.HistoryTies | src/ntulearn_skill/events/reconciliation.py:967-1094 | In a history without identity decisions every bound source founded its event or was, when it joined, tied to that event of its course and no other: a shared title alone binds nothing |
| ReconcileSound.EnsureClaimed | src/ntulearn_skill/events/reconciliation.py:709-806 | A new source brings one claim for each field of its candidate |
| RunSound.FirstPassAudits | src/ntulearn_skill/events/reconciliation.py:182-193 | Candidates handled and candidates put off make up the first pass, each once |
| RunSound.PassesAudit | src/ntulearn_skill/events/reconciliation.py:162-197 | The two passes together audit each candidate exactly once |
| RunSound.FreshRunFacts | src/ntulearn_skill/events/reconciliation.py:133-202 | A fresh run commits a sound store, audits each effective candidate exactly once, CREATED decisions are the new events in order, no change candidate creates one, and every event of the course is settled |
| RunOrder.RunOrdered | src/ntulearn_skill/events/reconciliation.py:182-197 | In the log of a run no candidate is left unresolved before the last announced change was treated |
| Additions.RunRestates | src/ntulearn_skill/events/reconciliation.py:709-806 | A run makes claims for sources only, dated by the run and as sure as their candidates |
| RunRaises.RunRaisesExactly | src/ntulearn_skill/events/reconciliation.py:198-202 | A fresh run raises iff, with all candidates assigned, an event of the course has a reason to |
| RunRaises.CalmRunSucceeds | src/ntulearn_skill/events/reconciliation.py:198-202 | A condition on the store before the run: if no decision in force on an event of the course names a local claim as an existing one, the run cannot raise, whatever the candidates bring |
| Titles.TreatedTitles | src/ntulearn_skill/events/reconciliation.py:967-1094 | Without manual identities, merging and founding keep one title identity per event |
| Titles.TitleNeverContested | src/ntulearn_skill/events/_matching.py:29-60 | Then the title field is never contested |
| Manual.TemporalValueIsExact | src/ntulearn_skill/events/_manual.py:49-144 | An accepted local time is well formed, of the requested precision, and agrees with itself |
| Manual.TemporalValueAccepts | src/ntulearn_skill/events/_manual.py:49-144 | Which local times are accepted and as what: all who name a precision name it, else the first member present implies it; all who name a zone name the same, exactly for exact times; the member can be read; the source text is not blank or too long |
| ManualSound.FieldResolvedFacts | src/ntulearn_skill/events/_manual.py:192-267 | A field decision commits a sound store in which the event is settled |
| ManualSound.IdentityResolvedFacts | src/ntulearn_skill/events/_manual.py:270-330 | The same for an identity decision |
| ManualPrevails.LocalDecisionPrevails | src/ntulearn_skill/events/_manual.py:192-267 | With a clock not behind the claims, a local value ends projected, without an open conflict on the field |
| ManualPrevails.ExistingDecisionPrevails | src/ntulearn_skill/events/_manual.py:214-222 | A selected claim ends projected iff it is a source claim of an effective extraction |
| ManualPrevails.ExpiredActivity | src/ntulearn_skill/events/_activity.py:37-91 | After expiry a source claim of the event is active iff its extraction is effective |
| ManualPrevails.RaisesExactly | src/ntulearn_skill/events/reconciliation.py:1253-1259 | Recomputation raises iff a surviving decision names a local claim as existing on a field with current evidence |
| ManualPrevails.SelectionRaisesExactly | src/ntulearn_skill/events/_manual.py:214-222 | On a store without such decisions, a request raises iff it selects a local claim of a field with current evidence |
| Histories.SteppedFacts | src/ntulearn_skill/storage/database.py:94-108 | Every step of any kind commits a sound store or is rolled back |
| Histories.HistoryOnlyAppends | src/ntulearn_skill/storage/migrations/0007_event_reconciliation.sql:483-579 | Over any history bindings are write-once and evidence, decisions and edges are never rewritten |
| Histories.HistoryAcyclic | src/ntulearn_skill/events/reconciliation.py:1579-1683 | In every reachable store supersession is acyclic and every successor is an explicit change |
| Histories.HistoryIdentity | src/ntulearn_skill/events/_manual.py:270-330 | In every reachable store a source is matched iff bound, inside its course, its claims follow it, only unbound sources have possible matches, and manual identities agree |
| Histories.HistoryClaims | src/ntulearn_skill/storage/migrations/0007_event_reconciliation.sql:253-263 | In every reachable store the claims of a source are exactly the fields of its candidate, one each |
| Histories.HistoryTitles | src/ntulearn_skill/events/reconciliation.py:967-1094 | In every history without identity decisions the titles of an event share one identity and its title is never in open conflict |
| Additions.HistoryMakes | src/ntulearn_skill/events/_manual.py:192-267 | In every history each claim was made by one step: for a source, dated by the run and as sure as its candidate, or for a local value, with value, precision, confidence and time as given |
| Histories.HistoryNeverRaises | src/ntulearn_skill/events/reconciliation.py:1246-1259 | In a history that never selects a local claim as an existing one no run raises, and of such requests exactly those that make sense succeed |
| Clock.HistoryInBounds | src/ntulearn_skill/events/reconciliation.py:152-166 | After every history no claim is younger than the latest call, and the confidence of every event row is in the range the schema demands |
| Clock.HistoryLocalPrevails | src/ntulearn_skill/events/_manual.py:192-267 | With a clock that does not run backwards, a local value prevails in every history: once the call returns, the event shows it without an open conflict on the field |
| Reselection.HistoryRaisesExactly | src/ntulearn_skill/events/_manual.py:214-222 | After any history in which nobody selected a local claim as an existing one, an accepted request raises iff it does so now, on a field with current evidence |
| Reselection.ReselectingLocalClaimRaises | src/ntulearn_skill/events/_manual.py:214-222 | One extraction, one run and one correction by hand lead, from the empty store, to an event showing the local value; confirming it by selecting its claim is then a valid request that raises, for every lexicon that finds no change in the wording, every resolver version and context |
| ParentChains.AcyclicMeansRooted | src/ntulearn_skill/storage/repository.py:351-369 | Chains of parents are free of cycles iff all of them end |
| ParentChains.ClosesCycle | src/ntulearn_skill/storage/repository.py:306-309 | Hanging a node under a parent closes a cycle iff the parent already hangs under the node |
| ContentForest.PutKeepsForest | src/ntulearn_skill/storage/repository.py:271-345 | An observation keeps the forest acyclic and inside its courses; no node changes course or disappears |
| ContentForest.RefusesExactlyCycles | src/ntulearn_skill/storage/repository.py:306-309 | The cycle error is raised for precisely the edges that would close a cycle |
| ContentForest.HistoryKeepsForest | src/ntulearn_skill/storage/repository.py:249-349 | The same over every sequence of observations |
| ContentHistory.HistoryShowsNewest | src/ntulearn_skill/storage/repository.py:249-349 | After any observations of an empty store, a node is stored iff one of it was taken; its row has parent and data of the newest, of equally new ones of the latest, and the interval of all |
| ContentHistory.RefusedExactly | src/ntulearn_skill/storage/repository.py:271-345 | An observation is refused iff it is not older than the row and would break the forest or move the node to another course |
| ContentForest.FreshNodeHangs | src/ntulearn_skill/storage/repository.py:292-309 | A new node under a parent whose ancestors were all seen is never refused |
| ContentForest.Repository.ParentReachesNode | src/ntulearn_skill/storage/repository.py:351-369 | The ancestor walk ends and decides reachability |
| ContentForest.Repository.UpsertNode | src/ntulearn_skill/storage/migrations/0002_domain_integrity.sql:49-95 | Parent in the same course, course unchanged, no cycle |
| ContentForest.Repository.PutContentNode | src/ntulearn_skill/storage/repository.py:249-349 | Each branch and error of an observation, the stale one included |
| ContentForest.Repository.PutCourse | src/ntulearn_skill/storage/repository.py:157-216 | An older observation only widens the observed interval |
| CaptureTree.FollowChain | src/ntulearn_skill/client/browser_capture.py:1081-1088 | One walk with a seen set decides whether the chain ends |
| CaptureTree.ValidateContentTree | src/ntulearn_skill/client/browser_capture.py:1079-1088 | Accepted iff every parent chain ends, iff there is no cycle |
| ContentSource.ClosedIsReachable | src/ntulearn_skill/sync/discovery.py:412-507 | What is closed under listing contains everything reachable through containers |
| Discovery.FreshPut | src/ntulearn_skill/storage/repository.py:271-309 | With a fresh clock a listed item is stored under its parent and the store mirrors what was seen |
| Discovery.NothingLeft | src/ntulearn_skill/sync/discovery.py:416-513 | With every parent expanded, observed and reachable nodes are the same |
| Discovery.ContentDiscovery.MergePageCoverage | src/ntulearn_skill/sync/discovery.py:579-587 | A page never improves the coverage of the scope; partial and unknown pages lower it, stale and failed ones are no pages |
| Discovery.ContentDiscovery.TakeItem | src/ntulearn_skill/sync/discovery.py:453-502 | Checks, duplicates and the node cap in their order; an item that belongs, is new and has room is taken if the store is fresh |
| Discovery.ContentDiscovery.ReadPage | src/ntulearn_skill/sync/discovery.py:442-505 | One request: counted, merged, its items all observed unless something was missed; a complete page of new items that belong, with room for them, is taken whole without a warning |
| Discovery.PageFits | src/ntulearn_skill/sync/discovery.py:423-502 | If a provider lists a complete tree on so many pages with so many identifiers, every page not read before fits the caps and brings only new items |
| Discovery.ContentDiscovery.ReadParent | src/ntulearn_skill/sync/discovery.py:423-507 | All pages of a parent are read unless a failure is recorded; failures say what happened, and under a provider in order there are none |
| Discovery.ContentDiscovery.Dequeue | src/ntulearn_skill/sync/discovery.py:416-421 | The front of the queue was never expanded before: the repeated-parent branch is dead |
| Discovery.ContentDiscovery.Discover | src/ntulearn_skill/sync/discovery.py:399-519 | Caps hold, identifiers and expanded parents are distinct; complete pagination of a deterministic source means observed is exactly reachable; complete coverage means no warning and no failure. The page and node limits are reported only when the caps are used up, a cycle only if cursors do not advance, a protocol error only for an answer out of order or a node listed twice, a refusal of the store never in a fresh run. A deterministic, advancing provider that lists a complete tree within the caps is always read to the end, without a warning, and the store ends showing what was listed |
| SearchDocuments.WrittenTracked | src/ntulearn_skill/storage/migrations/0005_search.sql:148-341 | Through any write, every document that differs between index and rows lies under a mark or was changed by a write that sets none |
| SearchDocuments.AfterAllTracked | src/ntulearn_skill/storage/database.py:94-129 | The same over a whole transaction of marked and unmarked writes |
| SearchDocuments.UncoveredWasMissed | src/ntulearn_skill/index/fts.py:200-216 | The courses gathered for a refresh reach everything under a mark: what they do not reach was changed without one |
| SearchDocuments.ReplacedLeaves | src/ntulearn_skill/index/fts.py:218-228 | Replacing the gathered courses leaves exactly the stale documents outside them |
| SearchDocuments.ClashIsMoveDown | src/ntulearn_skill/index/fts.py:218-220 | If the gathered courses reach everything stale, the refresh is refused iff a document moves to a lower course |
| SearchDocuments.ClashExactly | src/ntulearn_skill/index/fts.py:218-220 | Inserting a course violates the unique key iff one of its documents still stands in a course that is not replaced or is replaced later |
| SearchDocuments.MovingDownIsPossible | src/ntulearn_skill/index/fts.py:218-228 | Deleting a resource and storing it again under a lower course key, in one transaction, passes every trigger and is refused by the refresh |
| SearchDocuments.RefreshedCurrent | src/ntulearn_skill/index/fts.py:135-144 | After a refresh the index is what a rebuild would make iff nothing stale lay outside the gathered courses |
| SearchDocuments.CurrentExactly | src/ntulearn_skill/index/fts.py:165-236 | From a current index, a transaction commits a current index iff every document that a write changed without a mark is unchanged on balance or lies in a course that is refreshed |
| SearchDocuments.UnmarkedExactly | src/ntulearn_skill/events/extraction.py:229-283 | The condition a caller can check before such a write: the index stays current iff all documents that enter or leave lie in courses already marked |
| SearchDocuments.MarkedCommitsAreCurrent | src/ntulearn_skill/storage/database.py:94-129 | Transactions whose writes all set a mark commit a current index |
| SearchDocuments.MetadataIsCovered | src/ntulearn_skill/parsers/repository.py:394-468 | Metadata stored together with a new description of a chunk leaves the index current, although no trigger marks it |
| SearchDocuments.RetiredClaimStaysIndexed | src/ntulearn_skill/events/extraction.py:1608-1625 | A transaction that inserts one extraction record commits with equal generations, no marks and a document that a rebuild would not insert |
| SearchIndex.Database.AffectedCourses | src/ntulearn_skill/index/fts.py:200-216 | The loop over dirty resources gathers owners and indexed courses |
| SearchIndex.Database.ReplaceCourse | src/ntulearn_skill/index/fts.py:218-228 | Delete and insert one course; fails iff the unique key refuses a document |
| SearchIndex.Database.RefreshDirty | src/ntulearn_skill/index/fts.py:165-236 | The loop over courses computes the specified index, rebuilt or with every gathered course replaced, and fails iff a gathered course clashes |
| SearchIndex.Database.Rebuild | src/ntulearn_skill/index/fts.py:239-269 | Every row, whatever was indexed |
| SearchIndex.Database.EnsureCurrent | src/ntulearn_skill/index/fts.py:135-144 | Equal generations refresh nothing, whatever the rows say; otherwise the specified refresh or its refusal |
| SearchIndex.Database.Transaction | src/ntulearn_skill/storage/database.py:94-129 | Over any marked and unmarked writes: a commit gives the specified index, from a current one again a current one iff each document changed without a mark is unchanged on balance or lies in a refreshed course; a body that raises or a refused refresh changes nothing |
| ClaimDocuments.IngestRetires | src/ntulearn_skill/index/fts.py:417-453 | An accepted extraction adds no claim document and removes exactly those of claims whose extraction it replaces and for which no manual decision speaks |
| ClaimDocuments.RunConfined | src/ntulearn_skill/events/reconciliation.py:133-202 | A run changes, binds, switches on or off source claims of its own course only |
| ClaimDocuments.DecidedConfined | src/ntulearn_skill/events/_manual.py:192-267 | So does a field decision, with the course of its event |
| ClaimDocuments.IdentityConfined | src/ntulearn_skill/events/_manual.py:270-330 | And an identity decision |
| IndexHistories.SteppedMarks | src/ntulearn_skill/storage/migrations/0007_event_reconciliation.sql:436-462 | Except for extractions, every step changes claim documents only of courses whose mark it sets, although decisions and their expiry set none themselves |
| IndexHistories.HistoryIndex | src/ntulearn_skill/index/fts.py:165-236 | After every history the index holds every claim document a rebuild would insert; besides, exactly the documents that an extraction retired and whose course no later step marked |
| IndexHistories.HistoryCurrentExactly | src/ntulearn_skill/index/fts.py:165-236 | The claim documents agree with a rebuild iff each extraction that retired one was followed by a step that marked its course |
| IndexHistories.ReextractionLeavesClaim | src/ntulearn_skill/events/extraction.py:229-283 | Extracting the one announcement of a reconciled event again, with nothing found, leaves the claim in the index |
| Cursors.PagesAdvance | src/ntulearn_skill/client/browser_capture.py:1091-1105 | A followed cursor is greater, pages are consecutive slices, the last one ends the list |
| Cursors.PageIsFull | src/ntulearn_skill/client/browser_capture.py:1091-1105 | A page is refused iff its cursor names no position, and is as long as asked unless the list ends |
| Cursors.WalkAll | src/ntulearn_skill/client/browser_capture.py:1091-1105 | A walk with any page sizes returns every item once, in order |
| Cursors.BundleAdvances | src/ntulearn_skill/sync/discovery.py:438-440 | A captured bundle is a deterministic source whose cursors advance, so discovery meets no cursor cycle |
| Cursors.PartsAdvance | src/ntulearn_skill/client/ntulearn.py:656-736 | A followed NTULearn cursor is greater; a page with a next page is complete iff it has results |
| Cursors.WalkHasNoGap | src/ntulearn_skill/client/ntulearn.py:656-736 | In a walk of complete pages each page starts where the earlier ones end |
| Cursors.WalkIsWhole | src/ntulearn_skill/client/ntulearn.py:656-736 | Such a walk returns as many results as its last page reports |
| Cursors.HonestIsAccepted | src/ntulearn_skill/client/ntulearn.py:656-736 | What a server holding the items answers is accepted for every page size the program allows; an empty page with more to come is partial |
| Cursors.HonestWalk | src/ntulearn_skill/client/ntulearn.py:656-736 | Following the cursors of such a server is a complete walk that returns all items in order |
| Cursors.CursorRoundTrip | src/ntulearn_skill/client/ntulearn.py:901-915 | A cursor reads back in its scope and in no other scope, colons in scopes included |
| Cursors.ScopedAdvances | src/ntulearn_skill/client/ntulearn.py:179-223 | Whatever the server answers and whatever the scopes are, the cursors of NTULearn advance by the number they end in, so discovery meets no cursor cycle there either |
| ByteStream.EphemeralByteStream.ReadNext | src/ntulearn_skill/client/contracts.py:461-470 | One chunk moves to the buffer and nothing is lost |
| ByteStream.EphemeralByteStream.ReadBytes | src/ntulearn_skill/client/contracts.py:430-459 | Results concatenate to a prefix of the source; a short read means the stream closed, and it closes by itself only when drained or failed; the callback runs once |
| ByteStream.EphemeralByteStream.ReadAll | src/ntulearn_skill/client/contracts.py:421-428 | Iteration returns the rest of the source in nonempty blocks and closes |
| ByteStream.FlatIgnoresCuts | src/ntulearn_skill/client/contracts.py:430-470 | How the source is cut into chunks does not matter |
| PdfObjects.VisualXObjects | src/ntulearn_skill/parsers/pdf.py:54-96 | Ends on any graph, counts each distinct object once and at most the maximum; unless incomplete, counts exactly the reachable images and forms. Incomplete if more are reachable, a form lacks resources or lies too deep by every way, and only if more are reachable, a form lacks resources or lies too deep by some way |
| DocxTables.StructureBudget.TakeText | src/ntulearn_skill/parsers/docx.py:113-118 | A text within the budget is kept whole; a longer one is cut to exactly what is left, and then the budget is exhausted |
| DocxTables.TableData | src/ntulearn_skill/parsers/docx.py:121-169 | A table is read whole, for exactly the elements and characters it takes, iff these and its depth fit the budget, and otherwise the budget is exhausted. What is kept is then what comes first, unless tables lie too deep, and as many characters as there were if elements suffice |
| DocxTables.RowData | src/ntulearn_skill/parsers/docx.py:138-168 | The same for a row; a merged cell is read once |
| DocxTables.CellData | src/ntulearn_skill/parsers/docx.py:172-206 | The same for the contents of a cell, nested tables one level further down |
| DocxTables.MergedOnce | src/ntulearn_skill/parsers/docx.py:143-168 | A row enumerated as the library does it, each cell once for every column it occupies, is read as each cell once, at the column where it begins |
| DocxTables.NeedIsKept | src/ntulearn_skill/parsers/docx.py:121-206 | The characters a table takes are those its whole reading keeps |
| DocxBody.Trim | src/ntulearn_skill/parsers/docx.py:294-307 | The text cut to exactly what both limits leave, with each warning iff its limit did the cutting; a total used up warns even of an empty text |
| DocxBody.Parse | src/ntulearn_skill/parsers/docx.py:246-328 | The chunks are those of the first paragraphs and tables, as many as allowed, each cut to what is left and each table that fits whole; the result is partial iff the archive was noticed for something or some body element has no room, and otherwise has every element, whole and in order |

## Left out

- Columns that nothing reads back: `updated_at`, `resolved_at`, decision reasons, explanations, and the signal lists and confidences of audit rows and possible matches.
- `_resolved_event` and the other lookups after commit: they read the committed store.
- JSON text and SHA-256: values are decoded, and the input hash of a run is taken to be injective.
- Floating-point rounding of confidences: they are reals.
- Local values of fields that are not temporal: bounds and enumerations of `_local_assertion` are not modelled; any text or value is accepted.
- Extraction from wording: candidates arrive well formed, as the schema and the extractor guarantee, with at most one field of each name.
- ClaimGroups.MergeDays: a list is identified by the signature it was opened for in a map, instead of by object identity.
- FieldDecision.DecideField: for event types it asks for rows in key order, as the query delivers them; there the choice depends on the first claim of each class.
- Reconciler.EventReconciler.ExpireOutdated: single UPDATE statements are single assignments over all rows.
- Observation of resources during discovery, and `_courses`: the first can only fail or not, the second is the loop of one parent.
- Storage failures during discovery other than refusals of the node upsert.
- The nine projection queries of the index: one set of canonical documents whose per-course part each query inserts. `content_node` updates are course writes, as their triggers mark the course.
- IndexHistories.HistoryIndex: speaks about claim documents; how the documents of the other kinds follow from their rows is not derived, only that writes to them are among those of `SearchDocuments.Write`.
- The postings of the full-text engine and their integrity check.
- The page loop of the PDF parser, archive checks and visual diagnostics of the DOCX parser: a warning they add makes a result partial, which the parameter `noticed` stands for.
- DocxTables.TableData: of a table with tables nested too deeply it states only that the budget is exhausted and how many characters were spent, because what follows a table left out is still read.
- Discovery.ContentDiscovery.Discover: the local variables of the traversal are fields, so that its nested loops can be separate methods.
- Sessions, transport, permissions, the command line and rendering.
