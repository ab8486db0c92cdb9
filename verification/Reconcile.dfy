/** Identity: which candidate belongs to which event, and what a reconciliation run does to the tables
    (events/reconciliation.py, `reconcile_course` down to `_bind_source`).

    `ctx` gives the context tokens of a source (`_source_context`), which come from tables outside the
    event store; it is an arbitrary function. */
module Reconcile {
  import opened Basics
  import opened Matching
  import opened EventTables
  import opened Recompute
  import opened RecomputeFacts

  type Context = nat -> set<string>

  // ----- signals

  function FieldValue(fields: seq<FieldData>, f: Field): Option<Json> {
    if fields == [] then None
    else if fields[0].name == f then Some(fields[0].value)
    else FieldValue(fields[1..], f)
  }

  function CandidateOf(t: Tables, s: nat): Candidate
    requires Refs(t) && s < |t.sources|
  {
    t.candidates[t.sources[s].candidate]
  }

  function CandidateTitle(lex: Lexicon, t: Tables, s: nat): (string, Option<nat>)
    requires Refs(t) && s < |t.sources|
  {
    match FieldValue(CandidateOf(t, s).fields, Title)
    case Some(value) => TitleIdentity(lex, value)
    case None => ("", None)
  }

  function CandidateType(t: Tables, s: nat): Option<string>
    requires Refs(t) && s < |t.sources|
  {
    match FieldValue(CandidateOf(t, s).fields, EventType)
    case Some(value) => Some(StringOf(value))
    case None => None
  }

  predicate TitleMatch(lex: Lexicon, t: Tables, s: nat, e: nat)
    requires Refs(t) && s < |t.sources|
  {
    var title := CandidateTitle(lex, t, s).0;
    title != "" && exists c :: 0 <= c < |t.claims| && IsActiveSourceClaim(t, e, c) && t.claims[c].field.Title? &&
                               TitleIdentity(lex, t.claims[c].value).0 == title
  }

  predicate NumberConflict(lex: Lexicon, t: Tables, s: nat, e: nat)
    requires Refs(t) && s < |t.sources|
  {
    var number := CandidateTitle(lex, t, s).1;
    number.Some? && exists c :: 0 <= c < |t.claims| && IsActiveSourceClaim(t, e, c) && t.claims[c].field.Title? &&
                                TitleIdentity(lex, t.claims[c].value).1.Some? &&
                                TitleIdentity(lex, t.claims[c].value).1 != number
  }

  predicate HasType(t: Tables, e: nat, name: string)
    requires Refs(t)
  {
    exists c :: 0 <= c < |t.claims| && IsActiveSourceClaim(t, e, c) && t.claims[c].field.EventType? &&
                StringOf(t.claims[c].value) == name
  }

  predicate ExactType(t: Tables, s: nat, e: nat)
    requires Refs(t) && s < |t.sources|
  {
    CandidateType(t, s).Some? && HasType(t, e, CandidateType(t, s).value)
  }

  predicate GenericCompatible(t: Tables, s: nat, e: nat)
    requires Refs(t) && s < |t.sources|
  {
    CandidateType(t, s) == Some(GENERIC) || HasType(t, e, GENERIC)
  }

  /** A shared source object or a shared context token. */
  predicate Relational(t: Tables, ctx: Context, s: nat, e: nat)
    requires Refs(t) && s < |t.sources|
  {
    exists r :: 0 <= r < |t.sources| && t.sources[r].event == Some(e) && ActiveSource(t, r) &&
                (t.sources[r].objectKey == t.sources[s].objectKey || ctx(r) * ctx(s) != {})
  }

  predicate AgreesAt(t: Tables, e: nat, field: FieldData)
    requires Refs(t)
  {
    exists c :: 0 <= c < |t.claims| && IsActiveSourceClaim(t, e, c) && t.claims[c].field == field.name &&
                TemporalAgrees(field.value, t.claims[c].value)
  }

  predicate ComparableAt(t: Tables, e: nat, field: FieldData)
    requires Refs(t)
  {
    exists c :: 0 <= c < |t.claims| && IsActiveSourceClaim(t, e, c) && t.claims[c].field == field.name
  }

  predicate MatchingTime(t: Tables, s: nat, e: nat)
    requires Refs(t) && s < |t.sources|
  {
    var fields := CandidateOf(t, s).fields;
    exists i :: 0 <= i < |fields| && Temporal(fields[i].name) && AgreesAt(t, e, fields[i])
  }

  predicate ConflictingTime(t: Tables, s: nat, e: nat)
    requires Refs(t) && s < |t.sources|
  {
    var fields := CandidateOf(t, s).fields;
    exists i :: 0 <= i < |fields| && Temporal(fields[i].name) && !AgreesAt(t, e, fields[i]) &&
      ComparableAt(t, e, fields[i])
  }

  predicate Plausible(lex: Lexicon, t: Tables, s: nat, e: nat)
    requires Refs(t) && s < |t.sources|
  {
    TitleMatch(lex, t, s, e) && (ExactType(t, s, e) || GenericCompatible(t, s, e)) && !NumberConflict(lex, t, s, e)
  }

  predicate Merges(lex: Lexicon, t: Tables, ctx: Context, s: nat, e: nat)
    requires Refs(t) && s < |t.sources|
  {
    var relational := Relational(t, ctx, s, e);
    var explicit := t.sources[s].change != NoChange;
    && Plausible(lex, t, s, e)
    && (MatchingTime(t, s, e) || relational || explicit)
    && (ExactType(t, s, e) || relational)
    && !(ConflictingTime(t, s, e) && !relational && !explicit)
  }

  function PlausibleEvents(lex: Lexicon, t: Tables, s: nat): set<nat>
    requires Refs(t) && s < |t.sources|
  {
    set e | 0 <= e < |t.events| && t.events[e].course == t.sources[s].course && Plausible(lex, t, s, e)
  }

  function MergeEvents(lex: Lexicon, t: Tables, ctx: Context, s: nat): set<nat>
    requires Refs(t) && s < |t.sources|
  {
    set e | 0 <= e < |t.events| && t.events[e].course == t.sources[s].course && Merges(lex, t, ctx, s, e)
  }

  // ----- table writes

  function NewSource(lex: Lexicon, k: nat, candidate: Candidate): Source {
    Source(k, candidate.course, None, candidate.objectKey, candidate.timestamp, lex.classify(candidate.wording),
      Unresolved)
  }

  function NewClaim(s: nat, candidate: Candidate, field: FieldData, now: int): Claim {
    Claim(None, FromSource(s), field.name, field.value, field.precision, candidate.confidence, now, Undecided)
  }

  predicate HasSource(t: Tables, k: nat) {
    exists s :: 0 <= s < |t.sources| && t.sources[s].candidate == k
  }

  /** `_ensure_source_and_claims`. */
  function EnsureSource(lex: Lexicon, t: Tables, k: nat, now: int): Tables
    requires k < |t.candidates|
  {
    if HasSource(t, k) then t
    else
      var candidate := t.candidates[k];
      t.(sources := t.sources + [NewSource(lex, k, candidate)],
         claims := t.claims + seq(|candidate.fields|, i requires 0 <= i < |candidate.fields| =>
                                    NewClaim(|t.sources|, candidate, candidate.fields[i], now)))
  }

  function Rebound(claim: Claim, s: nat, e: nat): Claim {
    if claim.origin == FromSource(s) then claim.(event := Some(e), state := Undecided) else claim
  }

  /** `_bind_source`. */
  function Bind(t: Tables, s: nat, e: nat): Tables
    requires s < |t.sources|
  {
    t.(sources := t.sources[s := t.sources[s].(event := Some(e), state := Matched)],
       claims := seq(|t.claims|, c requires 0 <= c < |t.claims| => Rebound(t.claims[c], s, e)),
       possible := set p | p in t.possible && p.0 != s)
  }

  /** A candidate that stays unbound, with the events it might belong to. */
  function Leave(t: Tables, s: nat, state: SourceState, events: set<nat>): Tables
    requires s < |t.sources|
  {
    t.(sources := t.sources[s := t.sources[s].(state := state)],
       possible := (set p | p in t.possible && p.0 != s) + (set e | e in events :: (s, e)))
  }

  function CreateEvent(t: Tables, course: nat, confidence: real): Tables {
    t.(events := t.events + [Event(course, Ambiguous, map[], confidence, 0)])
  }

  function Audit(t: Tables, run: nat, k: nat, e: Option<nat>, verdict: Verdict): Tables {
    t.(decisions := t.decisions + [Decision(run, k, e, verdict)])
  }

  function IdentityUpTo(t: Tables, s: nat, n: nat): (e: Option<nat>)
    requires n <= |t.manualIdentities|
    ensures e.None? <==> forall m :: 0 <= m < n ==> !(t.manualIdentities[m].active && t.manualIdentities[m].source == s)
    ensures e.Some? ==> exists m :: 0 <= m < n && t.manualIdentities[m].active && t.manualIdentities[m].source == s &&
                                    t.manualIdentities[m].event == e.value
  {
    if n == 0 then None
    else if t.manualIdentities[n - 1].active && t.manualIdentities[n - 1].source == s
    then Some(t.manualIdentities[n - 1].event)
    else IdentityUpTo(t, s, n - 1)
  }

  /** The event a manual identity in force names for a source. */
  function ManualIdentityOf(t: Tables, s: nat): Option<nat> {
    IdentityUpTo(t, s, |t.manualIdentities|)
  }

  // ----- one candidate

  datatype Treatment =
    | Keep(event: nat)
    | Assign(event: nat, verdict: Verdict)
    | Defer
    | Park(state: SourceState, events: set<nat>)
    | Found

  /** What `_reconcile_candidate` decides for a source. */
  ghost function TreatmentOf(lex: Lexicon, t: Tables, ctx: Context, s: nat, defer: bool): Treatment
    requires Refs(t) && s < |t.sources|
  {
    var source := t.sources[s];
    if ManualIdentityOf(t, s).Some? then Assign(ManualIdentityOf(t, s).value, ManualRetained)
    else if source.event.Some? then Keep(source.event.value)
    else if exists e :: MergeEvents(lex, t, ctx, s) == {e} then
      var e :| MergeEvents(lex, t, ctx, s) == {e}; Assign(e, Merged)
    else if source.change != NoChange then Park(RelatedChange, PlausibleEvents(lex, t, s))
    else if PlausibleEvents(lex, t, s) != {} then
      if defer then Defer else Park(Unresolved, PlausibleEvents(lex, t, s))
    else Found
  }

  function VerdictOf(treatment: Treatment): Verdict {
    match treatment
    case Keep(_) => Retained
    case Assign(_, verdict) => verdict
    case Park(state, _) => if state.RelatedChange? then LeftRelated else LeftUnresolved
    case Found => Created
    case Defer => LeftUnresolved
  }

  /** The table writes of a treatment, audit row included. */
  function Treated(t: Tables, run: nat, s: nat, treatment: Treatment): Tables
    requires Refs(t) && s < |t.sources|
  {
    var k := t.sources[s].candidate;
    match treatment
    case Keep(e) => Audit(t, run, k, Some(e), Retained)
    case Assign(e, verdict) => Audit(Bind(t, s, e), run, k, Some(e), verdict)
    case Defer => t
    case Park(state, events) => Audit(Leave(t, s, state, events), run, k, None, VerdictOf(treatment))
    case Found =>
      var founded := CreateEvent(t, t.sources[s].course, CandidateOf(t, s).confidence);
      Audit(Bind(founded, s, |t.events|), run, k, Some(|t.events|), Created)
  }

  lemma TreatedRefs(lex: Lexicon, t: Tables, ctx: Context, run: nat, s: nat, defer: bool)
    requires Refs(t) && s < |t.sources|
    ensures Refs(Treated(t, run, s, TreatmentOf(lex, t, ctx, s, defer)))
    ensures |Treated(t, run, s, TreatmentOf(lex, t, ctx, s, defer)).sources| == |t.sources|
  {
    hide Treated, TreatmentOf;
    TreatmentInRange(lex, t, ctx, s, defer);
    TreatmentRefs(t, run, s, TreatmentOf(lex, t, ctx, s, defer));
  }

  lemma TreatmentInRange(lex: Lexicon, t: Tables, ctx: Context, s: nat, defer: bool)
    requires Refs(t) && s < |t.sources|
    ensures var treatment := TreatmentOf(lex, t, ctx, s, defer); treatment.Assign? ==> treatment.event < |t.events|
  {
    hide MergeEvents, PlausibleEvents;
    MergeInRange(lex, t, ctx, s);
  }

  lemma TreatmentRefs(t: Tables, run: nat, s: nat, treatment: Treatment)
    requires Refs(t) && s < |t.sources| && (treatment.Assign? ==> treatment.event < |t.events|)
    ensures Refs(Treated(t, run, s, treatment)) && |Treated(t, run, s, treatment).sources| == |t.sources|
  {
  }

  lemma MergeInRange(lex: Lexicon, t: Tables, ctx: Context, s: nat)
    requires Refs(t) && s < |t.sources|
    ensures forall e :: e in MergeEvents(lex, t, ctx, s) ==>
              e < |t.events| && t.events[e].course == t.sources[s].course && Plausible(lex, t, s, e)
    ensures forall e :: e in PlausibleEvents(lex, t, s) ==>
              e < |t.events| && t.events[e].course == t.sources[s].course && Plausible(lex, t, s, e)
  {
  }

  // ----- a run

  function EffectiveUpTo(t: Tables, course: nat, n: nat): (ks: seq<nat>)
    requires Refs(t) && n <= |t.candidates|
    ensures forall i :: 0 <= i < |ks| ==> ks[i] < n
    ensures forall i, j :: 0 <= i < j < |ks| ==> ks[i] < ks[j]
    ensures forall k: nat :: k in ks <==>
      k < n && t.candidates[k].course == course && Effective(t, t.candidates[k].extraction)
  {
    if n == 0 then []
    else
      EffectiveUpTo(t, course, n - 1) +
      (if t.candidates[n - 1].course == course && Effective(t, t.candidates[n - 1].extraction) then [n - 1] else [])
  }

  /** The candidates of a course whose extraction is effective, in key order. */
  function EffectiveCandidates(t: Tables, course: nat): seq<nat>
    requires Refs(t)
  {
    EffectiveUpTo(t, course, |t.candidates|)
  }

  function EventsUpTo(t: Tables, course: nat, n: nat): (es: seq<nat>)
    requires n <= |t.events|
    ensures forall i :: 0 <= i < |es| ==> es[i] < n
    ensures forall i, j :: 0 <= i < j < |es| ==> es[i] < es[j]
    ensures forall e: nat :: e in es <==> e < n && t.events[e].course == course
  {
    if n == 0 then []
    else EventsUpTo(t, course, n - 1) + (if t.events[n - 1].course == course then [n - 1] else [])
  }

  function FingerprintOf(t: Tables, course: nat): Fingerprint
    requires Refs(t)
  {
    Fingerprint(
      (set x | 0 <= x < |t.extractions| && t.extractions[x].course == course && Effective(t, x)),
      EffectiveCandidates(t, course),
      (set m | 0 <= m < |t.manualFields| && t.manualFields[m].active &&
        EventCourse(t, t.manualFields[m].event) == Some(course)),
      (set m | 0 <= m < |t.manualIdentities| && t.manualIdentities[m].active &&
               EventCourse(t, t.manualIdentities[m].event) == Some(course)))
  }

  function EventCourse(t: Tables, e: nat): Option<nat> {
    if e < |t.events| then Some(t.events[e].course) else None
  }

  ghost predicate Known(t: Tables, ks: seq<nat>) {
    forall i :: 0 <= i < |ks| ==> ks[i] < |t.candidates|
  }

  ghost predicate InRange(t: Tables, ss: seq<nat>) {
    forall i :: 0 <= i < |ss| ==> ss[i] < |t.sources|
  }

  lemma EnsureRefs(lex: Lexicon, t: Tables, k: nat, now: int)
    requires Refs(t) && k < |t.candidates|
    ensures Refs(EnsureSource(lex, t, k, now)) && EnsureSource(lex, t, k, now).candidates == t.candidates
    ensures HasSource(EnsureSource(lex, t, k, now), k)
    ensures t.sources <= EnsureSource(lex, t, k, now).sources
  {
    if !HasSource(t, k) {
      assert EnsureSource(lex, t, k, now).sources[|t.sources|].candidate == k;
    }
  }

  /** Sources and claims for all candidates, in order. */
  ghost function EnsureAll(lex: Lexicon, t: Tables, ks: seq<nat>, now: int): (u: Tables)
    requires Refs(t) && Known(t, ks)
    ensures Refs(u) && u.candidates == t.candidates && t.sources <= u.sources
    ensures forall i :: 0 <= i < |ks| ==> HasSource(u, ks[i])
  {
    if ks == [] then t
    else
      var n := |ks| - 1;
      var before := EnsureAll(lex, t, ks[..n], now);
      EnsureRefs(lex, before, ks[n], now);
      EnsureSource(lex, before, ks[n], now)
  }

  function SourceUpTo(t: Tables, k: nat, n: nat): (s: nat)
    requires n <= |t.sources| && exists s :: 0 <= s < n && t.sources[s].candidate == k
    ensures s < n && t.sources[s].candidate == k
  {
    if t.sources[n - 1].candidate == k then n - 1 else SourceUpTo(t, k, n - 1)
  }

  function SourceOf(t: Tables, k: nat): (s: nat)
    requires HasSource(t, k)
    ensures s < |t.sources| && t.sources[s].candidate == k
  {
    SourceUpTo(t, k, |t.sources|)
  }

  /** The sources of the candidates with (or without) change wording, in order. */
  function SourcesWhere(lex: Lexicon, t: Tables, ks: seq<nat>, changed: bool): (ss: seq<nat>)
    requires Known(t, ks) && forall i :: 0 <= i < |ks| ==> HasSource(t, ks[i])
    ensures InRange(t, ss)
  {
    if ks == [] then []
    else
      var n := |ks| - 1;
      SourcesWhere(lex, t, ks[..n], changed) +
      (if (lex.classify(t.candidates[ks[n]].wording) != NoChange) == changed then [SourceOf(t, ks[n])] else [])
  }

  /** First pass: candidates that only resemble an event are put off. */
  ghost function FirstPass(lex: Lexicon, t: Tables, ctx: Context, run: nat, ss: seq<nat>): (r: (Tables, seq<nat>))
    requires Refs(t) && InRange(t, ss)
    ensures Refs(r.0) && |r.0.sources| == |t.sources| && InRange(r.0, r.1)
  {
    if ss == [] then (t, [])
    else
      var n := |ss| - 1;
      var (before, deferred) := FirstPass(lex, t, ctx, run, ss[..n]);
      var treatment := TreatmentOf(lex, before, ctx, ss[n], true);
      TreatedRefs(lex, before, ctx, run, ss[n], true);
      (Treated(before, run, ss[n], treatment), if treatment.Defer? then deferred + [ss[n]] else deferred)
  }

  /** Second pass: every candidate is handled. */
  ghost function SecondPass(lex: Lexicon, t: Tables, ctx: Context, run: nat, ss: seq<nat>): (u: Tables)
    requires Refs(t) && InRange(t, ss)
    ensures Refs(u) && |u.sources| == |t.sources|
  {
    if ss == [] then t
    else
      var n := |ss| - 1;
      var before := SecondPass(lex, t, ctx, run, ss[..n]);
      TreatedRefs(lex, before, ctx, run, ss[n], false);
      Treated(before, run, ss[n], TreatmentOf(lex, before, ctx, ss[n], false))
  }

  ghost function RecomputeAll(lex: Lexicon, t: Tables, es: seq<nat>): (u: Option<Tables>)
    requires Refs(t) && forall i :: 0 <= i < |es| ==> es[i] < |t.events|
    ensures u.Some? ==> Refs(u.value) && |u.value.events| == |t.events|
  {
    if es == [] then Some(t)
    else
      var n := |es| - 1;
      var before := RecomputeAll(lex, t, es[..n]);
      if before.None? then None
      else
        var after := Recomputed(lex, before.value, es[n]);
        if after.Some? then RecomputedRefs(lex, before.value, es[n]); after else after
  }

  function OpenRun(t: Tables, course: nat, version: string, fingerprint: Fingerprint): Tables {
    t.(runs := t.runs + [Run(course, version, fingerprint)])
  }

  /** A run up to the point where every candidate is handled. */
  ghost function Assigned(lex: Lexicon, t: Tables, course: nat, version: string, ctx: Context, now: int): (u: Tables)
    requires Refs(t)
    ensures Refs(u)
  {
    var ks := EffectiveCandidates(t, course);
    var run := |t.runs|;
    var ensured := EnsureAll(lex, OpenRun(t, course, version, FingerprintOf(t, course)), ks, now);
    var (first, deferred) := FirstPass(lex, ensured, ctx, run, SourcesWhere(lex, ensured, ks, false));
    SecondPass(lex, first, ctx, run, SourcesWhere(lex, ensured, ks, true) + deferred)
  }

  /** A run that is not answered from the cache; no result if recomputing an event raises. */
  ghost function FreshRun(lex: Lexicon, t: Tables, course: nat, version: string, ctx: Context, now: int): Option<Tables>
    requires Refs(t)
  {
    var u := Assigned(lex, t, course, version, ctx, now);
    RecomputeAll(lex, u, EventsUpTo(u, course, |u.events|))
  }

  predicate Cached(t: Tables, course: nat, version: string)
    requires Refs(t)
  {
    Run(course, version, FingerprintOf(t, course)) in t.runs
  }

  /** `reconcile_course`: nothing if this version of the resolver already reconciled these inputs; no result if the
      run raises. */
  ghost function Reconciled(lex: Lexicon, t: Tables, course: nat, version: string, ctx: Context,
                            now: int): Option<Tables>
    requires Refs(t)
  {
    if Cached(t, course, version) then Some(t) else FreshRun(lex, t, course, version, ctx, now)
  }
}
