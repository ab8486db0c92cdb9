/** What the steps of a history add to the claims (events/reconciliation.py:707-771; events/_manual.py:193-239): every
    claim was made by one step, out of what that step was given. */
module Additions {
  import opened Basics
  import opened Matching
  import opened EventTables
  import opened Recompute
  import opened RecomputeSound
  import opened Reconcile
  import opened ReconcileSound
  import opened RunSound
  import opened RunSteps
  import opened RunRaises
  import opened Manual
  import opened Histories

  /** A claim made at this time for a source, as sure as its candidate. */
  ghost predicate Restates(t: Tables, c: int, now: int)
    requires Refs(t)
  {
    && 0 <= c < |t.claims| && t.claims[c].origin.FromSource? && t.claims[c].createdAt == now
    && t.claims[c].confidence == CandidateOf(t, t.claims[c].origin.source).confidence
  }

  ghost predicate OnlyRestates(t: Tables, u: Tables, now: int)
    requires Refs(u)
  {
    forall c :: |t.claims| <= c < |u.claims| ==> Restates(u, c, now)
  }

  /** A claim of exactly this value, made at this time for the decision. */
  predicate Records(claim: Claim, e: nat, f: Field, choice: Choice, at: int) {
    && choice.Local? && claim.event == Some(e) && claim.origin.LocalDecision? && claim.field == f
    && claim.value == choice.value && claim.precision == choice.precision && claim.confidence == choice.confidence
    && claim.createdAt == at
  }

  /** The step made this claim. */
  ghost predicate MadeBy(t: Tables, step: Step, c: int)
    requires Refs(t)
  {
    0 <= c < |t.claims| &&
    match step
    case ReconcileCourse(_, _, _, now) => Restates(t, c, now)
    case DecideField(e, f, choice, at) => Records(t.claims[c], e, f, choice, at)
    case _ => false
  }

  // ----- a run

  lemma EnsureRestates(lex: Lexicon, t: Tables, k: nat, now: int)
    requires Refs(t) && k < |t.candidates|
    ensures Refs(EnsureSource(lex, t, k, now)) && OnlyRestates(t, EnsureSource(lex, t, k, now), now)
    ensures Keeps(t, EnsureSource(lex, t, k, now))
  {
    EnsureRefs(lex, t, k, now);
    if !HasSource(t, k) {
      EnsuredRows(lex, t, k, now);
    }
  }

  lemma RestatesStill(t: Tables, u: Tables, c: int, now: int)
    requires Refs(t) && Refs(u) && Keeps(t, u) && Restates(t, c, now)
    ensures Restates(u, c, now)
  {
  }

  lemma OnlyRestatesTransitive(t: Tables, u: Tables, v: Tables, now: int)
    requires Refs(u) && Refs(v) && Keeps(u, v) && OnlyRestates(t, u, now) && OnlyRestates(u, v, now)
    ensures OnlyRestates(t, v, now)
  {
    hide Refs, Keeps, Restates;
    forall c | |t.claims| <= c < |v.claims| ensures Restates(v, c, now) {
      if c < |u.claims| {
        RestatesStill(u, v, c, now);
      }
    }
  }

  lemma {:induction false} EnsureAllRestates(lex: Lexicon, t: Tables, ks: seq<nat>, now: int)
    requires Refs(t) && Known(t, ks)
    ensures OnlyRestates(t, EnsureAll(lex, t, ks, now), now)
    decreases |ks|
  {
    if ks != [] {
      hide Refs, EnsureSource, Keeps, Restates, HasSource;
      var n := |ks| - 1;
      EnsureAllRestates(lex, t, ks[..n], now);
      var before := EnsureAll(lex, t, ks[..n], now);
      EnsureRestates(lex, before, ks[n], now);
      OnlyRestatesTransitive(t, before, EnsureSource(lex, before, ks[n], now), now);
    }
  }

  lemma {:induction false} FirstPassCounts(lex: Lexicon, t: Tables, ctx: Context, run: nat, ss: seq<nat>)
    requires Refs(t) && InRange(t, ss)
    ensures |FirstPass(lex, t, ctx, run, ss).0.claims| == |t.claims|
    decreases |ss|
  {
    hide Refs, Treated, TreatmentOf;
    if ss != [] {
      var n := |ss| - 1;
      FirstPassCounts(lex, t, ctx, run, ss[..n]);
      var before := FirstPass(lex, t, ctx, run, ss[..n]).0;
      TreatedCounts(before, run, ss[n], TreatmentOf(lex, before, ctx, ss[n], true));
    }
  }

  lemma {:induction false} SecondPassCounts(lex: Lexicon, t: Tables, ctx: Context, run: nat, ss: seq<nat>)
    requires Refs(t) && InRange(t, ss)
    ensures |SecondPass(lex, t, ctx, run, ss).claims| == |t.claims|
    decreases |ss|
  {
    hide Refs, Treated, TreatmentOf;
    if ss != [] {
      var n := |ss| - 1;
      SecondPassCounts(lex, t, ctx, run, ss[..n]);
      var before := SecondPass(lex, t, ctx, run, ss[..n]);
      TreatedCounts(before, run, ss[n], TreatmentOf(lex, before, ctx, ss[n], false));
    }
  }

  lemma {:induction false} RecomputeAllCounts(lex: Lexicon, t: Tables, es: seq<nat>)
    requires Refs(t) && forall i :: 0 <= i < |es| ==> es[i] < |t.events|
    ensures RecomputeAll(lex, t, es).Some? ==> |RecomputeAll(lex, t, es).value.claims| == |t.claims|
    decreases |es|
  {
    hide Refs, Recomputed;
    if es != [] {
      var n := |es| - 1;
      RecomputeAllCounts(lex, t, es[..n]);
      var before := RecomputeAll(lex, t, es[..n]);
      if before.Some? && Recomputed(lex, before.value, es[n]).Some? {
        RecomputedCounts(lex, before.value, es[n]);
      }
    }
  }

  lemma RecomputedCounts(lex: Lexicon, t: Tables, e: nat)
    requires Refs(t) && e < |t.events| && Recomputed(lex, t, e).Some?
    ensures var v := Recomputed(lex, t, e).value;
            |v.claims| == |t.claims| && forall c :: 0 <= c < |t.claims| ==>
              v.claims[c] == t.claims[c].(state := v.claims[c].state)
  {
    hide Refs, Recomputed;
    RecomputedSameBut(lex, t, e);
  }

  lemma AssignedCounts(lex: Lexicon, t: Tables, course: nat, version: string, ctx: Context, now: int)
    requires Sound(lex, t)
    ensures Refs(t)
    ensures var begun := OpenRun(t, course, version, FingerprintOf(t, course));
            && Refs(begun) && Known(begun, EffectiveCandidates(t, course))
            && var ensured := EnsureAll(lex, begun, EffectiveCandidates(t, course), now);
               var u := Assigned(lex, t, course, version, ctx, now);
               Refs(ensured) && Refs(u) && Keeps(ensured, u) && |u.claims| == |ensured.claims|
  {
    hide Sound, Refs, Keeps, FirstPass, SecondPass, SourcesWhere, EnsureAll, FingerprintOf, Ready, Audited, Unaudited,
      OnlyCourse;
    SoundRefs(lex, t);
    RunStarts(lex, t, course, version, ctx, now);
    EffectiveInCourse(t, course);
    var ks, run := EffectiveCandidates(t, course), |t.runs|;
    var begun := OpenRun(t, course, version, FingerprintOf(t, course));
    OpenRunSound(lex, t, course, version, FingerprintOf(t, course));
    var ensured := EnsureAll(lex, begun, ks, now);
    EnsureAllPassed(lex, begun, ks, now, course);
    forall k ensures Unaudited(ensured, run, k) {
      UnauditedByLog(begun, ensured, run, k);
    }
    PassesAudit(lex, ensured, ctx, run, ks, course);
    var ordinary, changes := SourcesWhere(lex, ensured, ks, false), SourcesWhere(lex, ensured, ks, true);
    FirstPassCounts(lex, ensured, ctx, run, ordinary);
    var (first, deferred) := FirstPass(lex, ensured, ctx, run, ordinary);
    SecondPassCounts(lex, first, ctx, run, changes + deferred);
    PassedKeeps(lex, ensured, Assigned(lex, t, course, version, ctx, now), course);
  }

  /** A run makes claims for sources only, at its own time. */
  lemma RunRestates(lex: Lexicon, t: Tables, course: nat, version: string, ctx: Context, now: int)
    requires Committed(lex, t) && FreshRun(lex, t, course, version, ctx, now).Some?
    ensures var v := FreshRun(lex, t, course, version, ctx, now).value; Refs(v) && OnlyRestates(t, v, now)
  {
    hide Sound, Refs, Keeps, Assigned, RecomputeAll, EnsureAll, FingerprintOf, Restates, OnlyCourse, Audited;
    SoundRefs(lex, t);
    AssignedCounts(lex, t, course, version, ctx, now);
    AssignedFacts(lex, t, course, version, ctx, now);
    var begun := OpenRun(t, course, version, FingerprintOf(t, course));
    var ensured := EnsureAll(lex, begun, EffectiveCandidates(t, course), now);
    EnsureAllRestates(lex, begun, EffectiveCandidates(t, course), now);
    var u := Assigned(lex, t, course, version, ctx, now);
    PassedKeeps(lex, t, u, course);
    var es := EventsUpTo(u, course, |u.events|);
    RecomputeAllSound(lex, u, es);
    RecomputeAllCounts(lex, u, es);
    var v := RecomputeAll(lex, u, es).value;
    KeepsTransitive(ensured, u, v);
    SoundRefs(lex, v);
    assert OnlyRestates(ensured, v, now);
    OnlyRestatesTransitive(begun, ensured, v, now);
  }

  // ----- decisions

  lemma DecisionRecords(lex: Lexicon, t: Tables, e: nat, f: Field, choice: Choice, at: int)
    requires Committed(lex, t) && FieldResolved(lex, t, e, f, choice, at).Some?
    ensures var v := FieldResolved(lex, t, e, f, choice, at).value;
            && |v.claims| == |t.claims| + (if choice.Local? then 1 else 0)
            && (choice.Local? ==> Records(v.claims[|t.claims|], e, f, choice, at))
  {
    SoundRefs(lex, t);
    FieldDecidedRefs(t, e, f, choice, at);
    var d := FieldDecided(t, e, f, choice, at);
    assert |d.claims| == |t.claims| + (if choice.Local? then 1 else 0);
    assert choice.Local? ==> Records(d.claims[|t.claims|], e, f, choice, at);
    hide Committed, Refs, Recomputed, FieldDecided;
    RecomputedCounts(lex, d, e);
  }

  lemma IdentityRecords(lex: Lexicon, t: Tables, s: nat, e: nat)
    requires Committed(lex, t) && IdentityResolved(lex, t, s, e).Some?
    ensures |IdentityResolved(lex, t, s, e).value.claims| == |t.claims|
  {
    SoundRefs(lex, t);
    IdentityRefs(t, s, e);
    var d := IdentityRecorded(Bind(t, s, e), s, e);
    assert |d.claims| == |t.claims|;
    hide Committed, Refs, Recomputed, IdentityRecorded, Bind;
    RecomputedCounts(lex, d, e);
  }

  // ----- histories

  /** What a step adds to the claims, it made. */
  lemma StepMakes(lex: Lexicon, t: Tables, step: Step)
    requires Committed(lex, t)
    ensures Refs(t) && Refs(Stepped(lex, t, step))
    ensures var u := Stepped(lex, t, step); forall c :: |t.claims| <= c < |u.claims| ==> MadeBy(u, step, c)
  {
    hide Committed, Refs, FreshRun, FieldResolved, IdentityResolved, Ingested, Restates, Records, Keeps, Cached,
      Stepped;
    CommittedSound(lex, t);
    SteppedFacts(lex, t, step);
    CommittedSound(lex, Stepped(lex, t, step));
    OutcomeMakes(lex, t, step);
    Outcomes(lex, t, step);
  }

  lemma Outcomes(lex: Lexicon, t: Tables, step: Step)
    requires Refs(t)
    ensures var o := Outcome(lex, t, step); Stepped(lex, t, step) == if o.Some? then o.value else t
  {
  }

  lemma OutcomeMakes(lex: Lexicon, t: Tables, step: Step)
    requires Committed(lex, t) && Refs(t)
    ensures var o := Outcome(lex, t, step);
            o.Some? && Refs(o.value) ==> forall c :: |t.claims| <= c < |o.value.claims| ==> MadeBy(o.value, step, c)
  {
    hide Committed, Refs, FreshRun, FieldResolved, IdentityResolved, Ingested, Restates, Records, Keeps, Cached;
    match step
    case Ingest(x, cs) => IngestMakes(t, x, cs);
    case ReconcileCourse(course, version, ctx, now) =>
      if !Cached(t, course, version) && FreshRun(lex, t, course, version, ctx, now).Some? {
        RunRestates(lex, t, course, version, ctx, now);
      }
    case DecideField(e, f, choice, at) =>
      if FieldResolved(lex, t, e, f, choice, at).Some? {
        DecisionRecords(lex, t, e, f, choice, at);
      }
    case DecideIdentity(s, e) =>
      if IdentityResolved(lex, t, s, e).Some? {
        IdentityRecords(lex, t, s, e);
      }
  }

  lemma IngestMakes(t: Tables, x: Extraction, cs: seq<Candidate>)
    ensures Ingested(t, x, cs).claims == t.claims
  {
  }

  lemma MadeStill(t: Tables, u: Tables, step: Step, c: int)
    requires Refs(t) && Refs(u) && Keeps(t, u) && MadeBy(t, step, c)
    ensures MadeBy(u, step, c)
  {
  }

  /** Every claim of a history was made by one of its steps: for a source, with the time of the run and the confidence
      of the candidate, or for a local value, with all that was given for it. */
  lemma {:induction false} HistoryMakes(lex: Lexicon, steps: seq<Step>, c: nat)
    requires c < |After(lex, steps).claims|
    ensures Refs(After(lex, steps))
    ensures exists i :: 0 <= i < |steps| && MadeBy(After(lex, steps), steps[i], c)
    decreases |steps|
  {
    var t := After(lex, steps);
    SoundRefs(lex, t);
    assert steps != [];
    var n := |steps| - 1;
    var before := After(lex, steps[..n]);
    hide Committed, Refs, Keeps, Stepped, MadeBy;
    StepMakes(lex, before, steps[n]);
    if c < |before.claims| {
      HistoryMakes(lex, steps[..n], c);
      var i :| 0 <= i < n && MadeBy(before, steps[..n][i], c);
      SteppedFacts(lex, before, steps[n]);
      MadeStill(before, t, steps[i], c);
    }
  }
}
