/** What recomputing one event must do to the tables (events/reconciliation.py, `_recompute_event`,
    `_expire_outdated_manual_resolutions` and `_select_claim_group`), stated column by column. */
module Recompute {
  import opened Basics
  import opened Matching
  import opened Grouping
  import opened EventTables

  // ----- expiry of manual decisions

  predicate ManualCompatible(lex: Lexicon, f: Field, selected: Claim, other: Claim) {
    if Temporal(f) then selected.precision == other.precision && TemporalAgrees(selected.value, other.value)
    else SemanticValue(lex, f, selected.value) == SemanticValue(lex, f, other.value)
  }

  /** A current source claim, newer than decision `m`, that contradicts it. */
  predicate Displaces(lex: Lexicon, t: Tables, m: nat, c: nat)
    requires Refs(t) && m < |t.manualFields| && c < |t.claims|
  {
    var manual, claim := t.manualFields[m], t.claims[c];
    && claim.event == Some(manual.event) && claim.field == manual.field && claim.origin.FromSource?
    && c != manual.claim && claim.createdAt > manual.decidedAt && EffectiveSource(t, claim.origin.source)
    && !ManualCompatible(lex, manual.field, t.claims[manual.claim], claim)
  }

  predicate SelectionCurrent(t: Tables, m: nat)
    requires Refs(t) && m < |t.manualFields|
  {
    var origin := t.claims[t.manualFields[m].claim].origin;
    origin.FromSource? ==> EffectiveSource(t, origin.source)
  }

  predicate FieldOutdated(lex: Lexicon, t: Tables, m: nat)
    requires Refs(t) && m < |t.manualFields|
  {
    !SelectionCurrent(t, m) || exists c :: 0 <= c < |t.claims| && Displaces(lex, t, m, c)
  }

  function ExpiredField(lex: Lexicon, t: Tables, e: nat, m: nat): ManualField
    requires Refs(t) && m < |t.manualFields|
  {
    var manual := t.manualFields[m];
    manual.(active := manual.active && !(manual.event == e && FieldOutdated(lex, t, m)))
  }

  function ExpiredIdentity(t: Tables, e: nat, m: nat): ManualIdentity
    requires Refs(t) && m < |t.manualIdentities|
  {
    var manual := t.manualIdentities[m];
    manual.(active := manual.active && !(manual.event == e && !EffectiveSource(t, manual.source)))
  }

  ghost function Expire(lex: Lexicon, t: Tables, e: nat): Tables
    requires Refs(t)
  {
    t.(manualIdentities :=
      seq(|t.manualIdentities|, m requires 0 <= m < |t.manualIdentities| => ExpiredIdentity(t, e, m)),
       manualFields := seq(|t.manualFields|, m requires 0 <= m < |t.manualFields| => ExpiredField(lex, t, e, m)))
  }

  // ----- the new columns

  ghost function OutcomeOf(lex: Lexicon, t: Tables, e: nat, f: Field): Outcome
    requires Refs(t)
  {
    FieldRowsDistinct(t, e, f);
    Decide(lex, f, FieldRows(t, e, f), ManualChoice(t, e, f))
  }

  /** State of a claim of the event before its field is decided. */
  function ResetState(t: Tables, c: nat): ClaimState
    requires Refs(t) && c < |t.claims|
  {
    if t.claims[c].origin.LocalDecision? then t.claims[c].state
    else if ActiveClaim(t, c) then Undecided
    else Rejected
  }

  function DecidedState(lex: Lexicon, f: Field, outcome: Outcome, r: Row, otherwise: ClaimState): ClaimState {
    match outcome
    case Chosen(chosen, supersede) =>
      if AcceptedBeside(lex, f, chosen, r) then Accepted else if supersede then Superseded else Rejected
    case Contested => Conflicting
    case _ => otherwise
  }

  /** State of claim `c` once the fields `done` of event `e` are decided. */
  ghost function StateOf(lex: Lexicon, t: Tables, e: nat, done: seq<Field>, c: nat): ClaimState
    requires Refs(t) && c < |t.claims|
  {
    var claim := t.claims[c];
    if claim.event != Some(e) then claim.state
    else if claim.field in done && ActiveClaim(t, c)
    then DecidedState(lex, claim.field, OutcomeOf(lex, t, e, claim.field), RowOf(t, c), ResetState(t, c))
    else ResetState(t, c)
  }

  ghost function StatesAfter(lex: Lexicon, t: Tables, e: nat, done: seq<Field>): seq<Claim>
    requires Refs(t)
  {
    seq(|t.claims|, c requires 0 <= c < |t.claims| => t.claims[c].(state := StateOf(lex, t, e, done, c)))
  }

  ghost function ProjectionsAfter(lex: Lexicon, t: Tables, e: nat, done: seq<Field>): map<(nat, Field), Projection>
    requires Refs(t)
  {
    (map p | p in t.projections && p.0 != e :: t.projections[p]) +
    (map f | f in done && OutcomeOf(lex, t, e, f).Chosen? ::
       (e, f) := Projection(OutcomeOf(lex, t, e, f).row.key, OutcomeOf(lex, t, e, f).row.value))
  }

  function Close(conflict: Conflict, e: nat): Conflict {
    if conflict.event == e then conflict.(open := false) else conflict
  }

  function Closed(conflicts: seq<Conflict>, e: nat): seq<Conflict> {
    seq(|conflicts|, k requires 0 <= k < |conflicts| => Close(conflicts[k], e))
  }

  ghost function NewConflicts(lex: Lexicon, t: Tables, e: nat, done: seq<Field>): (q: seq<Conflict>)
    requires Refs(t)
  {
    if done == [] then []
    else
      var f := done[|done| - 1];
      NewConflicts(lex, t, e, done[..|done| - 1]) +
      (if OutcomeOf(lex, t, e, f).Contested? then [Conflict(e, f, true, FieldClaims(t, e, f))] else [])
  }

  ghost predicate Edge(lex: Lexicon, t: Tables, e: nat, f: Field, a: nat, b: nat)
    requires Refs(t)
  {
    var outcome := OutcomeOf(lex, t, e, f);
    && outcome.Chosen? && outcome.supersede && a == outcome.row.key
    && b in FieldClaims(t, e, f) && !AcceptedBeside(lex, f, outcome.row, RowOf(t, b))
  }

  ghost function NewEdges(lex: Lexicon, t: Tables, e: nat, done: seq<Field>): set<(nat, nat)>
    requires Refs(t)
  {
    set f, b | f in done && b in FieldClaims(t, e, f) && OutcomeOf(lex, t, e, f).Chosen? &&
               Edge(lex, t, e, f, OutcomeOf(lex, t, e, f).row.key, b) :: (OutcomeOf(lex, t, e, f).row.key, b)
  }

  /** The tables once the fields `done` of event `e` are decided. */
  ghost function Settle(lex: Lexicon, t: Tables, e: nat, done: seq<Field>): Tables
    requires Refs(t)
  {
    t.(claims := StatesAfter(lex, t, e, done),
       projections := ProjectionsAfter(lex, t, e, done),
       conflicts := Closed(t.conflicts, e) + NewConflicts(lex, t, e, done),
       supersessions := t.supersessions + NewEdges(lex, t, e, done))
  }

  // ----- the event row

  predicate HasOpenConflict(t: Tables, e: nat) {
    exists k :: 0 <= k < |t.conflicts| && t.conflicts[k].open && t.conflicts[k].event == e
  }

  predicate HasAmbiguity(t: Tables, e: nat)
    requires Refs(t)
  {
    exists s :: 0 <= s < |t.sources| && (s, e) in t.possible && !t.sources[s].state.Matched? && ActiveSource(t, s)
  }

  predicate IsActiveSourceClaim(t: Tables, e: nat, c: nat)
    requires Refs(t) && c < |t.claims|
  {
    t.claims[c].event == Some(e) && t.claims[c].origin.FromSource? && ActiveClaim(t, c)
  }

  function ConfidenceSum(t: Tables, e: nat, n: nat): (real, nat)
    requires Refs(t) && n <= |t.claims|
  {
    if n == 0 then (0.0, 0)
    else
      var (sum, count) := ConfidenceSum(t, e, n - 1);
      if IsActiveSourceClaim(t, e, n - 1) then (sum + t.claims[n - 1].confidence, count + 1) else (sum, count)
  }

  function Confidence(t: Tables, e: nat): real
    requires Refs(t)
  {
    var (sum, count) := ConfidenceSum(t, e, |t.claims|);
    if count == 0 then 0.0 else sum / (count as real)
  }

  function ActiveSources(t: Tables, e: nat): set<nat>
    requires Refs(t)
  {
    set c | 0 <= c < |t.claims| && IsActiveSourceClaim(t, e, c) :: t.claims[c].origin.source
  }

  /** Text fields are shown only when the projected value is text. */
  function Shown(t: Tables, e: nat): map<Field, Json> {
    map f | f in CANONICAL && (e, f) in t.projections && (Temporal(f) || t.projections[(e, f)].value.Text?) ::
      t.projections[(e, f)].value
  }

  function EventRow(t: Tables, e: nat): Event
    requires Refs(t) && e < |t.events|
  {
    Event(t.events[e].course,
          if HasOpenConflict(t, e) then InConflict else if HasAmbiguity(t, e) then Ambiguous else EventState.Settled,
          Shown(t, e), Confidence(t, e), |ActiveSources(t, e)|)
  }

  ghost function WithEventRow(t: Tables, e: nat): Tables
    requires Refs(t) && e < |t.events|
  {
    t.(events := t.events[e := EventRow(t, e)])
  }

  // ----- the whole step

  /** A manual decision in force names a claim that does not compete: the program raises. */
  ghost predicate Blocked(lex: Lexicon, t: Tables, e: nat)
    requires Refs(t)
  {
    exists f :: f in CANONICAL && OutcomeOf(lex, t, e, f).ManualMissing?
  }

  lemma ExpireRefs(lex: Lexicon, t: Tables, e: nat)
    requires Refs(t)
    ensures Refs(Expire(lex, t, e))
  {
  }

  lemma SettleRefs(lex: Lexicon, t: Tables, e: nat, done: seq<Field>)
    requires Refs(t)
    ensures Refs(Settle(lex, t, e, done))
  {
  }

  ghost function Recomputed(lex: Lexicon, t: Tables, e: nat): Option<Tables>
    requires Refs(t) && e < |t.events|
  {
    ExpireRefs(lex, t, e);
    var x := Expire(lex, t, e);
    if Blocked(lex, x, e) then None
    else
      SettleRefs(lex, x, e, CANONICAL);
      Some(WithEventRow(Settle(lex, x, e, CANONICAL), e))
  }
}
