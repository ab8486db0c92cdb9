/** The tables of the event store (storage/migrations/0006_event_candidates.sql and
    0007_event_reconciliation.sql) and the activity predicates over them (events/_activity.py).

    Rows of append-only tables are kept in a sequence and identified by their position. */
module EventTables {
  import opened Basics
  import opened Matching
  import opened Grouping

  datatype Input = Observation(observation: nat) | ResourceVersion(version: nat)

  /** `usable` stands for the statuses COMPLETE and PARTIAL. */
  datatype Extraction = Extraction(course: nat, input: Input, extractor: string, usable: bool)

  datatype FieldData = FieldData(name: Field, value: Json, precision: Option<Precision>)

  datatype Candidate = Candidate(
    extraction: nat, course: nat, wording: string, confidence: real,
    objectKey: nat, timestamp: Option<int>, fields: seq<FieldData>)

  datatype SourceState = Matched | Unresolved | RelatedChange

  datatype Source = Source(
    candidate: nat, course: nat, event: Option<nat>,
    objectKey: nat, timestamp: Option<int>, change: ChangeKind, state: SourceState)

  datatype Origin = FromSource(source: nat) | LocalDecision

  datatype ClaimState = Accepted | Superseded | Conflicting | Rejected | Undecided

  datatype Claim = Claim(
    event: Option<nat>, origin: Origin, field: Field, value: Json, precision: Option<Precision>,
    confidence: real, createdAt: int, state: ClaimState)

  datatype EventState = Settled | Ambiguous | InConflict

  datatype Event = Event(course: nat, state: EventState, shown: map<Field, Json>, confidence: real, sources: nat)

  datatype Projection = Projection(claim: nat, value: Json)

  datatype Conflict = Conflict(event: nat, field: Field, open: bool, alternatives: set<nat>)

  /** A manual field decision names an existing claim, or (`local`) a claim made for the decision. */
  datatype ManualField = ManualField(event: nat, field: Field, claim: nat, local: bool, decidedAt: int, active: bool)

  datatype ManualIdentity = ManualIdentity(source: nat, event: nat, active: bool)

  /** What the input hash of a run is computed from; the hash is taken to be injective. */
  datatype Fingerprint = Fingerprint(
    extractions: set<nat>, candidates: seq<nat>, manualFields: set<nat>, manualIdentities: set<nat>)

  datatype Run = Run(course: nat, version: string, fingerprint: Fingerprint)

  datatype Verdict = Created | Merged | Retained | LeftUnresolved | LeftRelated | ManualRetained

  datatype Decision = Decision(run: nat, candidate: nat, event: Option<nat>, verdict: Verdict)

  datatype Tables = Tables(
    extractions: seq<Extraction>,
    candidates: seq<Candidate>,
    events: seq<Event>,
    sources: seq<Source>,
    claims: seq<Claim>,
    supersessions: set<(nat, nat)>,
    projections: map<(nat, Field), Projection>,
    conflicts: seq<Conflict>,
    possible: set<(nat, nat)>,
    manualFields: seq<ManualField>,
    manualIdentities: seq<ManualIdentity>,
    runs: seq<Run>,
    decisions: seq<Decision>)

  const EMPTY := Tables([], [], [], [], [], {}, map[], [], {}, [], [], [], [])

  // ----- foreign keys

  ghost predicate SourceRefs(t: Tables) {
    forall s :: 0 <= s < |t.sources| ==>
      && t.sources[s].candidate < |t.candidates|
      && (t.sources[s].event.Some? ==> t.sources[s].event.value < |t.events|)
  }

  ghost predicate ClaimRefs(t: Tables) {
    forall c :: 0 <= c < |t.claims| ==>
      && (t.claims[c].origin.FromSource? ==> t.claims[c].origin.source < |t.sources|)
      && (t.claims[c].event.Some? ==> t.claims[c].event.value < |t.events|)
  }

  ghost predicate ManualRefs(t: Tables) {
    && (forall m :: 0 <= m < |t.manualFields| ==>
          t.manualFields[m].claim < |t.claims| && t.manualFields[m].event < |t.events|)
    && (forall m :: 0 <= m < |t.manualIdentities| ==>
          t.manualIdentities[m].source < |t.sources| && t.manualIdentities[m].event < |t.events|)
  }

  ghost predicate Refs(t: Tables) {
    && (forall k :: 0 <= k < |t.candidates| ==> t.candidates[k].extraction < |t.extractions|)
    && SourceRefs(t) && ClaimRefs(t) && ManualRefs(t)
  }

  // ----- activity

  /** The latest usable extraction of its input by its extractor. */
  predicate Effective(t: Tables, x: nat)
    requires x < |t.extractions|
  {
    && t.extractions[x].usable
    && forall y :: x < y < |t.extractions| && t.extractions[y].usable ==>
         t.extractions[y].input != t.extractions[x].input || t.extractions[y].extractor != t.extractions[x].extractor
  }

  predicate EffectiveSource(t: Tables, s: nat)
    requires Refs(t) && s < |t.sources|
  {
    Effective(t, t.candidates[t.sources[s].candidate].extraction)
  }

  predicate IdentityChosen(t: Tables, s: nat) {
    exists m :: 0 <= m < |t.manualIdentities| && t.manualIdentities[m].active && t.manualIdentities[m].source == s
  }

  predicate ClaimSelected(t: Tables, c: nat) {
    exists m :: 0 <= m < |t.manualFields| && t.manualFields[m].active && !t.manualFields[m].local &&
                t.manualFields[m].claim == c
  }

  predicate SomeClaimSelected(t: Tables, s: nat)
    requires Refs(t)
  {
    exists m :: 0 <= m < |t.manualFields| && t.manualFields[m].active && !t.manualFields[m].local &&
                t.claims[t.manualFields[m].claim].origin == FromSource(s)
  }

  predicate LocallyDecided(t: Tables, c: nat) {
    exists m :: 0 <= m < |t.manualFields| && t.manualFields[m].active && t.manualFields[m].local &&
                t.manualFields[m].claim == c
  }

  predicate ActiveSource(t: Tables, s: nat)
    requires Refs(t) && s < |t.sources|
  {
    EffectiveSource(t, s) || IdentityChosen(t, s) || SomeClaimSelected(t, s)
  }

  predicate ActiveClaim(t: Tables, c: nat)
    requires Refs(t) && c < |t.claims|
  {
    match t.claims[c].origin
    case FromSource(s) => ActiveSource(t, s) || ClaimSelected(t, c)
    case LocalDecision => LocallyDecided(t, c)
  }

  // ----- queries

  function RowOf(t: Tables, c: nat): Row
    requires Refs(t) && c < |t.claims|
  {
    var claim := t.claims[c];
    match claim.origin
    case FromSource(s) =>
      Row(c, claim.value, claim.precision, claim.confidence, Some(t.sources[s].change), t.sources[s].timestamp)
    case LocalDecision =>
      Row(c, claim.value, claim.precision, claim.confidence, None, None)
  }

  predicate IsFieldClaim(t: Tables, e: nat, f: Field, c: nat)
    requires Refs(t) && c < |t.claims|
  {
    t.claims[c].event == Some(e) && t.claims[c].field == f && ActiveClaim(t, c)
  }

  /** The claims competing for a field of an event. */
  ghost function FieldClaims(t: Tables, e: nat, f: Field): set<nat>
    requires Refs(t)
  {
    set c | 0 <= c < |t.claims| && IsFieldClaim(t, e, f, c)
  }

  ghost function FieldRows(t: Tables, e: nat, f: Field): set<Row>
    requires Refs(t)
  {
    set c | c in FieldClaims(t, e, f) :: RowOf(t, c)
  }

  lemma FieldRowsDistinct(t: Tables, e: nat, f: Field)
    requires Refs(t)
    ensures DistinctKeys(FieldRows(t, e, f))
    ensures forall r :: r in FieldRows(t, e, f) ==> r.key in FieldClaims(t, e, f) && r == RowOf(t, r.key)
    ensures forall c :: c in FieldClaims(t, e, f) ==> RowOf(t, c) in FieldRows(t, e, f) && RowOf(t, c).key == c
  {
  }

  predicate InForce(t: Tables, e: nat, f: Field, m: nat)
    requires m < |t.manualFields|
  {
    t.manualFields[m].active && t.manualFields[m].event == e && t.manualFields[m].field == f
  }

  function ChoiceUpTo(t: Tables, e: nat, f: Field, n: nat): Option<nat>
    requires n <= |t.manualFields|
  {
    if n == 0 then None
    else if InForce(t, e, f, n - 1) then Some(t.manualFields[n - 1].claim)
    else ChoiceUpTo(t, e, f, n - 1)
  }

  /** The claim a manual decision in force names for a field. */
  function ManualChoice(t: Tables, e: nat, f: Field): Option<nat> {
    ChoiceUpTo(t, e, f, |t.manualFields|)
  }

  lemma {:induction false} ChoiceIsInForce(t: Tables, e: nat, f: Field, n: nat)
    requires n <= |t.manualFields|
    ensures ChoiceUpTo(t, e, f, n).None? <==> forall m :: 0 <= m < n ==> !InForce(t, e, f, m)
    ensures ChoiceUpTo(t, e, f, n).Some? ==>
              exists m :: 0 <= m < n && InForce(t, e, f, m) && ChoiceUpTo(t, e, f, n) == Some(t.manualFields[m].claim)
  {
    if n > 0 {
      ChoiceIsInForce(t, e, f, n - 1);
    }
  }

  // ----- what a step may change

  /** Equal up to the columns reconciliation may write; a binding to an event is written once. */
  predicate SourceKept(a: Source, b: Source) {
    b == a.(event := b.event, state := b.state) && (a.event.Some? ==> b.event == a.event)
  }

  predicate ClaimKept(a: Claim, b: Claim) {
    b == a.(event := b.event, state := b.state) && (a.event.Some? ==> b.event == a.event)
  }

  /** A step appends and never rewrites evidence, bindings, decisions or supersession edges. */
  ghost predicate Keeps(t: Tables, u: Tables) {
    && t.extractions <= u.extractions
    && t.candidates <= u.candidates
    && t.runs <= u.runs
    && t.decisions <= u.decisions
    && t.supersessions <= u.supersessions
    && |t.events| <= |u.events| && (forall e :: 0 <= e < |t.events| ==> u.events[e].course == t.events[e].course)
    && |t.sources| <= |u.sources| && (forall s :: 0 <= s < |t.sources| ==> SourceKept(t.sources[s], u.sources[s]))
    && |t.claims| <= |u.claims| && (forall c :: 0 <= c < |t.claims| ==> ClaimKept(t.claims[c], u.claims[c]))
    && |t.conflicts| <= |u.conflicts|
    && (forall k :: 0 <= k < |t.conflicts| ==>
          u.conflicts[k] == t.conflicts[k].(open := u.conflicts[k].open) &&
            (u.conflicts[k].open ==> t.conflicts[k].open))
    && |t.manualFields| <= |u.manualFields|
    && (forall m :: 0 <= m < |t.manualFields| ==>
          && u.manualFields[m] == t.manualFields[m].(active := u.manualFields[m].active)
          && (u.manualFields[m].active ==> t.manualFields[m].active))
    && |t.manualIdentities| <= |u.manualIdentities|
    && (forall m :: 0 <= m < |t.manualIdentities| ==>
          && u.manualIdentities[m] == t.manualIdentities[m].(active := u.manualIdentities[m].active)
          && (u.manualIdentities[m].active ==> t.manualIdentities[m].active))
  }

  lemma KeepsTransitive(t: Tables, u: Tables, v: Tables)
    requires Keeps(t, u) && Keeps(u, v)
    ensures Keeps(t, v)
  {
  }

  lemma RowKept(t: Tables, u: Tables, c: nat)
    requires Refs(t) && Refs(u) && Keeps(t, u) && c < |t.claims|
    ensures RowOf(u, c) == RowOf(t, c)
  {
  }

  // ----- invariants

  predicate InUnit(confidence: real) {
    0.0 <= confidence <= 1.0
  }

  ghost predicate CandidateOk(c: Candidate) {
    && c.fields != [] && InUnit(c.confidence)
    && (forall i :: 0 <= i < |c.fields| ==> WellFormed(c.fields[i].name, c.fields[i].value, c.fields[i].precision))
    && (forall i, j :: 0 <= i < j < |c.fields| ==> c.fields[i].name != c.fields[j].name)
  }

  ghost predicate CandidatesOk(t: Tables) {
    forall k :: 0 <= k < |t.candidates| ==> CandidateOk(t.candidates[k])
  }

  /** Source rows mirror their candidate; MATCHED is bound, inside the course. */
  ghost predicate SourceOk(lex: Lexicon, t: Tables, s: nat)
    requires Refs(t) && s < |t.sources|
  {
    var source := t.sources[s];
    var candidate := t.candidates[source.candidate];
    && source.course == candidate.course && source.objectKey == candidate.objectKey
    && source.timestamp == candidate.timestamp && source.change == lex.classify(candidate.wording)
    && (source.state.Matched? <==> source.event.Some?)
    && (source.event.Some? ==> t.events[source.event.value].course == source.course)
  }

  ghost predicate SourcesOk(lex: Lexicon, t: Tables)
    requires Refs(t)
  {
    && (forall s :: 0 <= s < |t.sources| ==> SourceOk(lex, t, s))
    && (forall r, s :: 0 <= r < s < |t.sources| ==> t.sources[r].candidate != t.sources[s].candidate)
  }

  predicate IsField(candidate: Candidate, claim: Claim) {
    exists i :: 0 <= i < |candidate.fields| &&
      candidate.fields[i] == FieldData(claim.field, claim.value, claim.precision)
  }

  /** A source claim restates a field of its candidate and follows the binding of its source. */
  ghost predicate ClaimOk(t: Tables, c: nat)
    requires Refs(t) && c < |t.claims|
  {
    var claim := t.claims[c];
    && WellFormed(claim.field, claim.value, claim.precision) && InUnit(claim.confidence)
    && match claim.origin
       case FromSource(s) => claim.event == t.sources[s].event && IsField(t.candidates[t.sources[s].candidate], claim)
       case LocalDecision => claim.event.Some? && claim.field in CANONICAL
  }

  ghost predicate ClaimsOk(t: Tables)
    requires Refs(t)
  {
    forall c :: 0 <= c < |t.claims| ==> ClaimOk(t, c)
  }

  ghost predicate ManualFieldOk(t: Tables, m: nat)
    requires Refs(t) && m < |t.manualFields|
  {
    var manual := t.manualFields[m];
    && manual.field in CANONICAL
    && t.claims[manual.claim].event == Some(manual.event) && t.claims[manual.claim].field == manual.field
    && (manual.local ==> t.claims[manual.claim].origin.LocalDecision?)
  }

  ghost predicate ManualFieldsOk(t: Tables)
    requires Refs(t)
  {
    && (forall m :: 0 <= m < |t.manualFields| ==> ManualFieldOk(t, m))
    && (forall e, f, m, n :: 0 <= m < n < |t.manualFields| ==> !(InForce(t, e, f, m) && InForce(t, e, f, n)))
  }

  /** Every manual identity agrees with the binding; one is in force per source. */
  ghost predicate ManualIdentitiesOk(t: Tables)
    requires Refs(t)
  {
    && (forall m :: 0 <= m < |t.manualIdentities| ==>
          t.sources[t.manualIdentities[m].source].event == Some(t.manualIdentities[m].event))
    && (forall m, n :: 0 <= m < n < |t.manualIdentities| ==>
          !(t.manualIdentities[m].active && t.manualIdentities[n].active &&
            t.manualIdentities[m].source == t.manualIdentities[n].source))
  }

  /** Only unbound sources hold possible matches, inside their course. */
  ghost predicate PossibleOk(t: Tables)
    requires Refs(t)
  {
    forall s, e :: (s, e) in t.possible ==>
      && s < |t.sources| && e < |t.events|
      && t.sources[s].event.None? && t.events[e].course == t.sources[s].course
  }

  /** A supersession edge leaves an explicit change and, between explicit changes, goes down. */
  ghost predicate EdgeOk(t: Tables, a: nat, b: nat)
    requires Refs(t)
  {
    && a < |t.claims| && b < |t.claims|
    && t.claims[a].event.Some? && t.claims[a].event == t.claims[b].event && t.claims[a].field == t.claims[b].field
    && ExplicitChange(t.claims[a].field, RowOf(t, a))
    && (ExplicitChange(t.claims[b].field, RowOf(t, b)) ==> Above(RowOf(t, a), RowOf(t, b)))
  }

  ghost predicate EdgesOk(t: Tables)
    requires Refs(t)
  {
    forall a, b :: (a, b) in t.supersessions ==> EdgeOk(t, a, b)
  }

  ghost predicate ConflictOk(t: Tables, k: nat)
    requires Refs(t) && k < |t.conflicts|
  {
    var conflict := t.conflicts[k];
    forall c :: c in conflict.alternatives ==>
      c < |t.claims| && t.claims[c].event == Some(conflict.event) && t.claims[c].field == conflict.field
  }

  predicate OpenFor(t: Tables, e: nat, f: Field, k: nat)
    requires k < |t.conflicts|
  {
    t.conflicts[k].open && t.conflicts[k].event == e && t.conflicts[k].field == f
  }

  ghost predicate ConflictsOk(t: Tables)
    requires Refs(t)
  {
    && (forall k :: 0 <= k < |t.conflicts| ==> ConflictOk(t, k))
    && (forall e, f, j, k :: 0 <= j < k < |t.conflicts| ==> !(OpenFor(t, e, f, j) && OpenFor(t, e, f, k)))
  }

  ghost predicate ProjectionOk(t: Tables, e: nat, f: Field)
    requires Refs(t) && (e, f) in t.projections
  {
    var p := t.projections[(e, f)];
    && f in CANONICAL && p.claim < |t.claims|
    && t.claims[p.claim].event == Some(e) && t.claims[p.claim].field == f && t.claims[p.claim].value == p.value
  }

  ghost predicate ProjectionsOk(t: Tables)
    requires Refs(t)
  {
    forall e, f :: (e, f) in t.projections ==> ProjectionOk(t, e, f)
  }

  ghost predicate DecisionsOk(t: Tables) {
    && (forall i :: 0 <= i < |t.decisions| ==> t.decisions[i].run < |t.runs|)
    && (forall i, j :: 0 <= i < j < |t.decisions| && t.decisions[i].run == t.decisions[j].run ==>
          t.decisions[i].candidate != t.decisions[j].candidate)
  }

  /** What holds between any two statements of any transaction. */
  ghost predicate Sound(lex: Lexicon, t: Tables) {
    && Refs(t) && CandidatesOk(t) && SourcesOk(lex, t) && ClaimsOk(t)
    && ManualFieldsOk(t) && ManualIdentitiesOk(t) && PossibleOk(t)
    && EdgesOk(t) && ConflictsOk(t) && ProjectionsOk(t) && DecisionsOk(t)
  }

  /** What also holds between transactions: projections show accepted claims. */
  ghost predicate ProjectedAccepted(t: Tables)
    requires Refs(t) && ProjectionsOk(t)
  {
    forall e, f :: (e, f) in t.projections ==> t.claims[t.projections[(e, f)].claim].state.Accepted?
  }

  ghost predicate Committed(lex: Lexicon, t: Tables) {
    Sound(lex, t) && ProjectedAccepted(t)
  }
}
