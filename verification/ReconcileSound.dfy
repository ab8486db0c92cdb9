/** Every table write of a reconciliation run keeps the invariants and rewrites no evidence. */
module ReconcileSound {
  import opened Basics
  import opened Matching
  import opened EventTables
  import opened RecomputeSound
  import opened Reconcile

  /** If a step keeps evidence, references and bindings, these invariants carry over. */
  lemma CarriedOver(lex: Lexicon, t: Tables, u: Tables)
    requires Sound(lex, t) && Refs(u) && Keeps(t, u)
    requires u.supersessions == t.supersessions && u.projections == t.projections && u.conflicts == t.conflicts
    ensures EdgesOk(u) && ProjectionsOk(u) && ConflictsOk(u)
  {
    hide WellFormed, IsField;
    forall a, b | (a, b) in u.supersessions ensures EdgeOk(u, a, b) {
      assert EdgeOk(t, a, b);
      RowKept(t, u, a);
      RowKept(t, u, b);
    }
    hide RowOf;
    forall d, f | (d, f) in u.projections ensures ProjectionOk(u, d, f) { assert ProjectionOk(t, d, f); }
    forall k | 0 <= k < |u.conflicts| ensures ConflictOk(u, k) { assert ConflictOk(t, k); }
    forall d, f, j, k | 0 <= j < k < |u.conflicts| ensures !(OpenFor(u, d, f, j) && OpenFor(u, d, f, k)) {
      assert !(OpenFor(t, d, f, j) && OpenFor(t, d, f, k));
    }
  }

  lemma ManualCarriedOver(lex: Lexicon, t: Tables, u: Tables)
    requires Sound(lex, t) && Refs(u) && Keeps(t, u)
    requires u.manualFields == t.manualFields && u.manualIdentities == t.manualIdentities
    ensures ManualFieldsOk(u) && ManualIdentitiesOk(u)
  {
    hide WellFormed, IsField;
    forall m | 0 <= m < |u.manualFields| ensures ManualFieldOk(u, m) { assert ManualFieldOk(t, m); }
    forall d, f, m, n | 0 <= m < n < |u.manualFields| ensures !(InForce(u, d, f, m) && InForce(u, d, f, n)) {
      assert !(InForce(t, d, f, m) && InForce(t, d, f, n));
    }
  }

  lemma EnsureKeeps(lex: Lexicon, t: Tables, k: nat, now: int)
    requires Refs(t) && k < |t.candidates|
    ensures Keeps(t, EnsureSource(lex, t, k, now)) && Refs(EnsureSource(lex, t, k, now))
  {
  }

  lemma EnsureSound(lex: Lexicon, t: Tables, k: nat, now: int)
    requires Sound(lex, t) && k < |t.candidates|
    ensures Sound(lex, EnsureSource(lex, t, k, now))
  {
    if !HasSource(t, k) {
      EnsureKeeps(lex, t, k, now);
      var u := EnsureSource(lex, t, k, now);
      CarriedOver(lex, t, u);
      ManualCarriedOver(lex, t, u);
      var candidate := t.candidates[k];
      hide WellFormed, EdgesOk, ProjectionsOk, ConflictsOk, ManualFieldsOk, ManualIdentitiesOk;
      forall s | 0 <= s < |u.sources| ensures SourceOk(lex, u, s) {
        if s < |t.sources| { assert SourceOk(lex, t, s); }
      }
      forall c | 0 <= c < |u.claims| ensures ClaimOk(u, c) {
        if c < |t.claims| {
          assert ClaimOk(t, c);
        } else {
          assert candidate.fields[c - |t.claims|] ==
            FieldData(u.claims[c].field, u.claims[c].value, u.claims[c].precision);
        }
      }
    }
  }

  lemma BindKeeps(t: Tables, s: nat, e: nat)
    requires Refs(t) && ClaimsOk(t) && s < |t.sources| && e < |t.events|
    requires t.sources[s].event.None? || t.sources[s].event == Some(e)
    ensures Keeps(t, Bind(t, s, e)) && Refs(Bind(t, s, e))
  {
    hide WellFormed, IsField;
    forall c | 0 <= c < |t.claims| ensures ClaimKept(t.claims[c], Rebound(t.claims[c], s, e)) {
      assert ClaimOk(t, c);
    }
  }

  lemma BindSound(lex: Lexicon, t: Tables, s: nat, e: nat)
    requires Sound(lex, t) && s < |t.sources| && e < |t.events|
    requires t.sources[s].event.None? || t.sources[s].event == Some(e)
    requires t.events[e].course == t.sources[s].course
    ensures Sound(lex, Bind(t, s, e))
  {
    BindKeeps(t, s, e);
    var u := Bind(t, s, e);
    CarriedOver(lex, t, u);
    ManualCarriedOver(lex, t, u);
    hide WellFormed, IsField, EdgesOk, ProjectionsOk, ConflictsOk, ManualFieldsOk, ManualIdentitiesOk;
    forall r | 0 <= r < |u.sources| ensures SourceOk(lex, u, r) { assert SourceOk(lex, t, r); }
    forall c | 0 <= c < |u.claims| ensures ClaimOk(u, c) { assert ClaimOk(t, c); }
  }

  lemma LeaveSound(lex: Lexicon, t: Tables, s: nat, state: SourceState, events: set<nat>)
    requires Sound(lex, t) && s < |t.sources| && t.sources[s].event.None? && !state.Matched?
    requires forall e :: e in events ==> e < |t.events| && t.events[e].course == t.sources[s].course
    ensures Sound(lex, Leave(t, s, state, events)) && Keeps(t, Leave(t, s, state, events))
  {
    var u := Leave(t, s, state, events);
    CarriedOver(lex, t, u);
    ManualCarriedOver(lex, t, u);
    hide WellFormed, IsField, EdgesOk, ProjectionsOk, ConflictsOk, ManualFieldsOk, ManualIdentitiesOk;
    forall r | 0 <= r < |u.sources| ensures SourceOk(lex, u, r) { assert SourceOk(lex, t, r); }
    forall c | 0 <= c < |u.claims| ensures ClaimOk(u, c) { assert ClaimOk(t, c); }
  }

  lemma CreateEventSound(lex: Lexicon, t: Tables, course: nat, confidence: real)
    requires Sound(lex, t)
    ensures Sound(lex, CreateEvent(t, course, confidence)) && Keeps(t, CreateEvent(t, course, confidence))
  {
    var u := CreateEvent(t, course, confidence);
    CarriedOver(lex, t, u);
    ManualCarriedOver(lex, t, u);
    hide WellFormed, IsField, EdgesOk, ProjectionsOk, ConflictsOk, ManualFieldsOk, ManualIdentitiesOk;
    forall r | 0 <= r < |u.sources| ensures SourceOk(lex, u, r) { assert SourceOk(lex, t, r); }
    forall c | 0 <= c < |u.claims| ensures ClaimOk(u, c) { assert ClaimOk(t, c); }
  }

  /** Run `run` has no decision on candidate `k` yet. */
  ghost predicate Unaudited(t: Tables, run: nat, k: nat) {
    forall i :: 0 <= i < |t.decisions| && t.decisions[i].run == run ==> t.decisions[i].candidate != k
  }

  lemma AuditSound(lex: Lexicon, t: Tables, run: nat, k: nat, e: Option<nat>, verdict: Verdict)
    requires Sound(lex, t) && run < |t.runs| && Unaudited(t, run, k)
    ensures Sound(lex, Audit(t, run, k, e, verdict)) && Keeps(t, Audit(t, run, k, e, verdict))
  {
    var u := Audit(t, run, k, e, verdict);
    CarriedOver(lex, t, u);
    ManualCarriedOver(lex, t, u);
    hide WellFormed, IsField, EdgesOk, ProjectionsOk, ConflictsOk, ManualFieldsOk, ManualIdentitiesOk;
    forall r | 0 <= r < |u.sources| ensures SourceOk(lex, u, r) { assert SourceOk(lex, t, r); }
    forall c | 0 <= c < |u.claims| ensures ClaimOk(u, c) { assert ClaimOk(t, c); }
  }

  lemma OpenRunSound(lex: Lexicon, t: Tables, course: nat, version: string, fingerprint: Fingerprint)
    requires Sound(lex, t)
    ensures Sound(lex, OpenRun(t, course, version, fingerprint)) && Keeps(t, OpenRun(t, course, version, fingerprint))
    ensures forall k :: Unaudited(OpenRun(t, course, version, fingerprint), |t.runs|, k)
  {
    var u := OpenRun(t, course, version, fingerprint);
    CarriedOver(lex, t, u);
    ManualCarriedOver(lex, t, u);
    hide WellFormed, IsField, EdgesOk, ProjectionsOk, ConflictsOk, ManualFieldsOk, ManualIdentitiesOk;
    forall r | 0 <= r < |u.sources| ensures SourceOk(lex, u, r) { assert SourceOk(lex, t, r); }
    forall c | 0 <= c < |u.claims| ensures ClaimOk(u, c) { assert ClaimOk(t, c); }
  }

  // ----- one candidate

  function Candidates(ds: seq<Decision>): seq<nat> {
    seq(|ds|, i requires 0 <= i < |ds| => ds[i].candidate)
  }

  lemma CandidatesAppend(ds: seq<Decision>, es: seq<Decision>)
    ensures Candidates(ds + es) == Candidates(ds) + Candidates(es)
  {
  }

  lemma TreatmentFacts(lex: Lexicon, t: Tables, ctx: Context, s: nat, defer: bool)
    requires Sound(lex, t) && s < |t.sources|
    ensures match TreatmentOf(lex, t, ctx, s, defer)
            case Keep(e) => t.sources[s].event == Some(e)
            case Assign(e, verdict) =>
              && e < |t.events| && t.events[e].course == t.sources[s].course
              && (t.sources[s].event.None? || t.sources[s].event == Some(e))
              && (verdict == ManualRetained ||
                   (verdict == Merged && t.sources[s].event.None? && Plausible(lex, t, s, e)))
              && (verdict == ManualRetained ==> ManualIdentityOf(t, s).Some?)
            case Defer => defer && t.sources[s].event.None?
            case Park(state, events) =>
              && t.sources[s].event.None? && !state.Matched?
              && (forall e :: e in events ==> e < |t.events| && t.events[e].course == t.sources[s].course)
            case Found => t.sources[s].event.None? && t.sources[s].change == NoChange
  {
    hide MergeEvents, PlausibleEvents, Plausible, EdgesOk, ProjectionsOk, ConflictsOk, ManualFieldsOk, ClaimsOk;
    MergeInRange(lex, t, ctx, s);
    assert SourceOk(lex, t, s);
    var manual := ManualIdentityOf(t, s);
    if manual.None? && t.sources[s].event.None? && exists e :: MergeEvents(lex, t, ctx, s) == {e} {
      var e :| MergeEvents(lex, t, ctx, s) == {e};
      assert e in MergeEvents(lex, t, ctx, s);
    }
  }

  /** The audit row a treatment writes. */
  function AuditRow(t: Tables, run: nat, s: nat, treatment: Treatment): seq<Decision>
    requires s < |t.sources|
  {
    var k := t.sources[s].candidate;
    match treatment
    case Keep(e) => [Decision(run, k, Some(e), Retained)]
    case Assign(e, verdict) => [Decision(run, k, Some(e), verdict)]
    case Park(_, _) => [Decision(run, k, None, VerdictOf(treatment))]
    case Found => [Decision(run, k, Some(|t.events|), Created)]
    case Defer => []
  }

  /** Handling one candidate keeps the invariants and writes exactly one audit row, unless it is put off. */
  lemma TreatedSound(lex: Lexicon, t: Tables, ctx: Context, run: nat, s: nat, defer: bool)
    requires Sound(lex, t) && s < |t.sources| && run < |t.runs| && Unaudited(t, run, t.sources[s].candidate)
    ensures var treatment := TreatmentOf(lex, t, ctx, s, defer);
            var u := Treated(t, run, s, treatment);
            && Sound(lex, u) && Keeps(t, u) && u.candidates == t.candidates && u.runs == t.runs
            && u.manualIdentities == t.manualIdentities && u.manualFields == t.manualFields &&
                 u.conflicts == t.conflicts
            && u.decisions == t.decisions + AuditRow(t, run, s, treatment)
            && |u.events| == |t.events| + (if treatment.Found? then 1 else 0)
  {
    hide Sound, Keeps, TreatmentOf, Refs, Plausible;
    SoundRefs(lex, t);
    TreatmentFacts(lex, t, ctx, s, defer);
    var k := t.sources[s].candidate;
    match TreatmentOf(lex, t, ctx, s, defer)
    case Keep(e) => AuditSound(lex, t, run, k, Some(e), Retained);
    case Assign(e, verdict) =>
      BindSound(lex, t, s, e);
      SoundParts(lex, t);
      BindKeeps(t, s, e);
      AuditSound(lex, Bind(t, s, e), run, k, Some(e), verdict);
      KeepsTransitive(t, Bind(t, s, e), Audit(Bind(t, s, e), run, k, Some(e), verdict));
    case Park(state, events) =>
      LeaveSound(lex, t, s, state, events);
      var verdict := VerdictOf(Park(state, events));
      AuditSound(lex, Leave(t, s, state, events), run, k, None, verdict);
      KeepsTransitive(t, Leave(t, s, state, events), Audit(Leave(t, s, state, events), run, k, None, verdict));
    case Found =>
      var founded := CreateEvent(t, t.sources[s].course, CandidateOf(t, s).confidence);
      var e := |t.events|;
      CreateEventSound(lex, t, t.sources[s].course, CandidateOf(t, s).confidence);
      SoundParts(lex, founded);
      BindSound(lex, founded, s, e);
      BindKeeps(founded, s, e);
      AuditSound(lex, Bind(founded, s, e), run, k, Some(e), Created);
      KeepsTransitive(t, founded, Bind(founded, s, e));
      KeepsTransitive(t, Bind(founded, s, e), Audit(Bind(founded, s, e), run, k, Some(e), Created));
    case Defer => KeepsReflexive(t);
  }

  lemma KeepsReflexive(t: Tables)
    ensures Keeps(t, t)
  {
  }

  // ----- the audit row of a candidate says what happened to it

  /** The last audit row against the tables before and after. */
  ghost predicate Explains(t: Tables, u: Tables, s: nat, d: Decision)
    requires s < |t.sources| && s < |u.sources|
  {
    var was, now := t.sources[s], u.sources[s];
    && d.candidate == was.candidate && d.event == now.event
    && (d.verdict.LeftRelated? <==> now.state.RelatedChange?)
    && (d.verdict.LeftUnresolved? <==> now.state.Unresolved?)
    && (d.verdict.Created? <==> now.event == Some(|t.events|))
    && (d.verdict.Retained? ==> was.event.Some? && now == was && ManualIdentityOf(t, s).None?)
    && (d.verdict.Merged? ==> was.event.None? && now.event.Some?)
    && (d.verdict.ManualRetained? <==> ManualIdentityOf(t, s).Some?)
  }

  lemma TreatedExplains(lex: Lexicon, t: Tables, ctx: Context, run: nat, s: nat, defer: bool)
    requires Sound(lex, t) && s < |t.sources| && run < |t.runs| && Unaudited(t, run, t.sources[s].candidate)
    ensures Refs(t)
    ensures var treatment := TreatmentOf(lex, t, ctx, s, defer);
            var u := Treated(t, run, s, treatment);
            && s < |u.sources|
            && (treatment.Defer? ==> u == t)
            && (!treatment.Defer? ==>
                 |u.decisions| == |t.decisions| + 1 && Explains(t, u, s, u.decisions[|t.decisions|]))
  {
    hide Sound, Refs, TreatmentOf, Plausible, ManualIdentityOf, Unaudited;
    SoundRefs(lex, t);
    TreatmentFacts(lex, t, ctx, s, defer);
    TreatmentVerdicts(lex, t, ctx, s, defer);
    BoundInRange(lex, t, s);
  }

  lemma BoundInRange(lex: Lexicon, t: Tables, s: nat)
    requires Sound(lex, t) && s < |t.sources|
    ensures t.sources[s].event.Some? ==> t.sources[s].event.value < |t.events| && t.sources[s].state.Matched?
  {
    assert SourceOk(lex, t, s);
  }

  lemma TreatmentVerdicts(lex: Lexicon, t: Tables, ctx: Context, s: nat, defer: bool)
    requires Refs(t) && s < |t.sources|
    ensures var treatment := TreatmentOf(lex, t, ctx, s, defer);
            && (ManualIdentityOf(t, s).Some? <==> treatment.Assign? && treatment.verdict == ManualRetained)
            && (treatment.Park? ==>
                 (treatment.state.RelatedChange? <==> t.sources[s].change != NoChange) && !treatment.state.Matched?)
  {
    hide MergeEvents, PlausibleEvents, ManualIdentityOf;
  }

  // ----- every candidate field is claimed, once

  predicate HasClaim(t: Tables, s: nat, field: FieldData) {
    exists c :: 0 <= c < |t.claims| && t.claims[c].origin == FromSource(s) &&
                field == FieldData(t.claims[c].field, t.claims[c].value, t.claims[c].precision)
  }

  /** The claims of a source are the fields of its candidate, one each. */
  ghost predicate Claimed(t: Tables)
    requires Refs(t)
  {
    && (forall s, i :: 0 <= s < |t.sources| && 0 <= i < |CandidateOf(t, s).fields| ==>
         HasClaim(t, s, CandidateOf(t, s).fields[i]))
    && (forall c, d ::
          0 <= c < d < |t.claims| && t.claims[c].origin.FromSource? && t.claims[c].origin == t.claims[d].origin ==>
          t.claims[c].field != t.claims[d].field)
  }

  /** No new source and no new source claim: nothing to claim. */
  lemma ClaimedKept(t: Tables, u: Tables)
    requires Refs(t) && Refs(u) && Keeps(t, u) && |u.sources| == |t.sources| && Claimed(t)
    requires forall c :: |t.claims| <= c < |u.claims| ==> u.claims[c].origin.LocalDecision?
    ensures Claimed(u)
  {
    SameCandidates(t, u);
    hide Refs;
    forall s, i | 0 <= s < |u.sources| && 0 <= i < |CandidateOf(u, s).fields|
      ensures HasClaim(u, s, CandidateOf(u, s).fields[i])
    {
      var field := CandidateOf(t, s).fields[i];
      assert HasClaim(t, s, field);
      var c :| 0 <= c < |t.claims| && t.claims[c].origin == FromSource(s) &&
               field == FieldData(t.claims[c].field, t.claims[c].value, t.claims[c].precision);
      assert ClaimKept(t.claims[c], u.claims[c]);
    }
    forall c | 0 <= c < |t.claims|
      ensures u.claims[c].origin == t.claims[c].origin && u.claims[c].field == t.claims[c].field
    {
      assert ClaimKept(t.claims[c], u.claims[c]);
    }
  }

  lemma SameCandidates(t: Tables, u: Tables)
    requires Refs(t) && Refs(u) && Keeps(t, u) && |u.sources| == |t.sources|
    ensures forall s :: 0 <= s < |t.sources| ==> CandidateOf(u, s) == CandidateOf(t, s)
  {
    forall s | 0 <= s < |t.sources| ensures CandidateOf(u, s) == CandidateOf(t, s) {
      assert SourceKept(t.sources[s], u.sources[s]);
    }
  }

  /** A new source brings one claim for each field of its candidate. */
  lemma EnsureClaimed(lex: Lexicon, t: Tables, k: nat, now: int)
    requires Sound(lex, t) && k < |t.candidates| && Claimed(t)
    ensures Refs(EnsureSource(lex, t, k, now)) && Claimed(EnsureSource(lex, t, k, now))
  {
    hide Sound, Refs, HasSource, HasClaim, EnsureSource, CandidateOf;
    SoundRefs(lex, t);
    EnsureRefs(lex, t, k, now);
    if HasSource(t, k) {
      NothingEnsured(lex, t, k, now);
    } else {
      FieldsDiffer(lex, t, k);
      ClaimsOfOthers(t);
      EnsuredRows(lex, t, k, now);
      forall s, i | 0 <= s < |t.sources| && 0 <= i < |CandidateOf(t, s).fields| {
        OldFieldClaimed(lex, t, k, now, s, i);
      }
      forall i | 0 <= i < |t.candidates[k].fields| {
        NewFieldClaimed(lex, t, k, now, i);
      }
    }
  }

  lemma NothingEnsured(lex: Lexicon, t: Tables, k: nat, now: int)
    requires k < |t.candidates| && HasSource(t, k)
    ensures EnsureSource(lex, t, k, now) == t
  {
  }

  lemma EnsuredRows(lex: Lexicon, t: Tables, k: nat, now: int)
    requires Refs(t) && k < |t.candidates| && !HasSource(t, k) && Refs(EnsureSource(lex, t, k, now))
    ensures var u, n, fields := EnsureSource(lex, t, k, now), |t.sources|, t.candidates[k].fields;
            && |u.sources| == n + 1 && CandidateOf(u, n) == t.candidates[k]
            && (forall s :: 0 <= s < n ==> CandidateOf(u, s) == CandidateOf(t, s))
            && |u.claims| == |t.claims| + |fields|
            && (forall c :: 0 <= c < |t.claims| ==> u.claims[c] == t.claims[c])
            && (forall c :: |t.claims| <= c < |u.claims| ==>
                 u.claims[c] == NewClaim(n, t.candidates[k], fields[c - |t.claims|], now))
  {
    hide HasSource;
    var u := EnsureSource(lex, t, k, now);
    assert forall s :: 0 <= s < |t.sources| ==> u.sources[s] == t.sources[s];
  }

  lemma OldFieldClaimed(lex: Lexicon, t: Tables, k: nat, now: int, s: nat, i: nat)
    requires Refs(t) && k < |t.candidates| && !HasSource(t, k) && Refs(EnsureSource(lex, t, k, now))
    requires s < |t.sources| && i < |CandidateOf(t, s).fields| && HasClaim(t, s, CandidateOf(t, s).fields[i])
    ensures HasClaim(EnsureSource(lex, t, k, now), s, CandidateOf(t, s).fields[i])
  {
    hide HasSource, EnsureSource, Refs;
    EnsuredRows(lex, t, k, now);
    var field := CandidateOf(t, s).fields[i];
    var c :| 0 <= c < |t.claims| && t.claims[c].origin == FromSource(s) &&
             field == FieldData(t.claims[c].field, t.claims[c].value, t.claims[c].precision);
    assert EnsureSource(lex, t, k, now).claims[c] == t.claims[c];
  }

  lemma NewFieldClaimed(lex: Lexicon, t: Tables, k: nat, now: int, i: nat)
    requires Refs(t) && k < |t.candidates| && !HasSource(t, k) && Refs(EnsureSource(lex, t, k, now))
    requires i < |t.candidates[k].fields|
    ensures HasClaim(EnsureSource(lex, t, k, now), |t.sources|, t.candidates[k].fields[i])
  {
    hide HasSource, EnsureSource, Refs;
    EnsuredRows(lex, t, k, now);
    assert EnsureSource(lex, t, k, now).claims[|t.claims| + i].origin == FromSource(|t.sources|);
  }

  lemma ClaimsOfOthers(t: Tables)
    requires Refs(t)
    ensures forall c :: 0 <= c < |t.claims| && t.claims[c].origin.FromSource? ==>
      t.claims[c].origin.source < |t.sources|
  {
  }

  lemma FieldsDiffer(lex: Lexicon, t: Tables, k: nat)
    requires Sound(lex, t) && k < |t.candidates|
    ensures var fields := t.candidates[k].fields;
            forall i, j :: 0 <= i < j < |fields| ==> fields[i].name != fields[j].name
  {
    assert CandidateOk(t.candidates[k]);
  }
}
