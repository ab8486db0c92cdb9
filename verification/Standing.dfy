/** How long a manual decision stays in force, and what it decides while it does (events/reconciliation.py:1409-1518):
    after every step of every history, in terms of the claims alone. */
module Standing {
  import opened Basics
  import opened Matching
  import opened Grouping
  import opened EventTables
  import opened Recompute
  import opened RecomputeFacts
  import opened RecomputeSound
  import opened Reconcile
  import opened ReconcileSound
  import opened RunSound
  import opened RunRaises
  import opened Manual
  import opened ManualSound
  import opened Histories
  import opened EventRows
  import opened Choices

  // ----- what it means to say the same

  /** The same time at the same precision, the same title identity, the same text but for its case, or the same
      value. */
  predicate SaysSame(lex: Lexicon, a: Claim, b: Claim) {
    match a.field
    case StartTime | EndTime | DueTime => a.precision == b.precision && SameMoment(a.value, b.value)
    case _ => SameContent(lex, a.field, a.value, b.value)
  }

  /** The claim comes from the latest usable extraction of its input. */
  predicate Recent(t: Tables, c: int)
    requires Refs(t)
  {
    && 0 <= c < |t.claims| && t.claims[c].origin.FromSource?
    && Effective(t, t.candidates[t.sources[t.claims[c].origin.source].candidate].extraction)
  }

  /** A recent claim of the decided field, made after the decision, that says something else. */
  predicate Contradicts(lex: Lexicon, t: Tables, m: nat, c: int)
    requires Refs(t) && m < |t.manualFields|
  {
    var decision := t.manualFields[m];
    && Recent(t, c) && t.claims[c].event == Some(decision.event) && t.claims[c].field == decision.field
    && t.claims[c].createdAt > decision.decidedAt && c != decision.claim
    && !SaysSame(lex, t.claims[decision.claim], t.claims[c])
  }

  /** Decision `m` names a local claim or a recent one, and nothing recent contradicts it. */
  ghost predicate Stands(lex: Lexicon, t: Tables, m: nat)
    requires Refs(t)
  {
    && m < |t.manualFields|
    && (t.claims[t.manualFields[m].claim].origin.FromSource? ==> Recent(t, t.manualFields[m].claim))
    && forall c :: !Contradicts(lex, t, m, c)
  }

  lemma MomentMeans(f: Field, x: Json, y: Json, p: Option<Precision>)
    requires Temporal(f) && WellFormed(f, x, p) && WellFormed(f, y, p)
    ensures TemporalAgrees(x, y) <==> SameMoment(x, y)
  {
    AgreementMeans(x, y);
  }

  /** The program's comparison is this one. */
  lemma SameMeans(lex: Lexicon, a: Claim, b: Claim)
    requires WellFormed(a.field, a.value, a.precision) && WellFormed(b.field, b.value, b.precision) &&
      a.field == b.field
    ensures ManualCompatible(lex, a.field, a, b) <==> SaysSame(lex, a, b)
  {
    hide TemporalAgrees, SameMoment, TitleIdentity;
    if Temporal(a.field) && a.precision == b.precision {
      MomentMeans(a.field, a.value, b.value, a.precision);
    }
  }

  lemma ContradictionMeans(lex: Lexicon, t: Tables, m: nat, c: nat)
    requires Sound(lex, t) && m < |t.manualFields| && c < |t.claims|
    ensures Refs(t) && (Contradicts(lex, t, m, c) <==> Displaces(lex, t, m, c))
  {
    SoundParts(lex, t);
    assert ManualFieldOk(t, m) && ClaimOk(t, t.manualFields[m].claim) && ClaimOk(t, c);
    var a, b := t.claims[t.manualFields[m].claim], t.claims[c];
    hide SaysSame, ManualCompatible, WellFormed, Effective, IsField, Sound, Refs;
    if a.field == b.field {
      SameMeans(lex, a, b);
    }
  }

  /** A decision is outdated exactly if it no longer stands. */
  lemma StandingMeans(lex: Lexicon, t: Tables, m: nat)
    requires Sound(lex, t) && m < |t.manualFields|
    ensures Refs(t) && (FieldOutdated(lex, t, m) <==> !Stands(lex, t, m))
  {
    SoundRefs(lex, t);
    hide Sound, Displaces, Effective;
    forall c | 0 <= c < |t.claims| ensures Contradicts(lex, t, m, c) <==> Displaces(lex, t, m, c) {
      ContradictionMeans(lex, t, m, c);
    }
    hide SaysSame, Refs;
    if c :| Contradicts(lex, t, m, c) {
      assert Displaces(lex, t, m, c);
    }
  }

  // ----- one recomputation

  lemma RecomputedManual(lex: Lexicon, t: Tables, e: nat)
    requires Refs(t) && e < |t.events| && Recomputed(lex, t, e).Some?
    ensures var v, x := Recomputed(lex, t, e).value, Expire(lex, t, e);
            v.manualFields == x.manualFields && v.manualIdentities == x.manualIdentities
  {
    hide Refs, StateOf, ProjectionsAfter, NewConflicts, NewEdges, EventRow, Blocked, ExpiredField, ExpiredIdentity;
  }

  lemma StandsKept(lex: Lexicon, t: Tables, v: Tables, e: nat, m: nat)
    requires Sound(lex, t) && Sound(lex, v) && Refs(t) && Refs(v) && SameBut(t, v, e) && m < |t.manualFields|
    ensures Stands(lex, t, m) <==> Stands(lex, v, m)
  {
    StandingMeans(lex, t, m);
    StandingMeans(lex, v, m);
    OutdatedKept(lex, t, v, m);
    hide Sound, Refs, FieldOutdated, Stands;
  }

  /** The decision after its event was recomputed: it stays in force exactly if it stands. */
  predicate KeptIf(was: ManualField, now: ManualField, stays: bool) {
    now == was.(active := was.active && stays)
  }

  lemma RecomputedStands(lex: Lexicon, t: Tables, e: nat, m: nat)
    requires Sound(lex, t) && e < |t.events| && Recomputed(lex, t, e).Some? && m < |t.manualFields|
    ensures var v := Recomputed(lex, t, e).value;
            && Refs(v) && m < |v.manualFields|
            && KeptIf(t.manualFields[m], v.manualFields[m], t.manualFields[m].event == e ==> Stands(lex, v, m))
  {
    hide Sound, Refs, Recomputed, FieldOutdated, Stands, SameBut;
    SoundRefs(lex, t);
    RecomputedRefs(lex, t, e);
    RecomputedSound(lex, t, e);
    RecomputedSameBut(lex, t, e);
    RecomputedManual(lex, t, e);
    StandingMeans(lex, t, m);
    StandsKept(lex, t, Recomputed(lex, t, e).value, e, m);
  }

  lemma IdentityKept(lex: Lexicon, t: Tables, e: nat, m: nat)
    requires Sound(lex, t) && e < |t.events| && Recomputed(lex, t, e).Some? && m < |t.manualIdentities|
    ensures var v := Recomputed(lex, t, e).value; var was := t.manualIdentities[m];
            && Refs(v) && m < |v.manualIdentities| && was.source < |v.sources|
            && v.manualIdentities[m] ==
                 was.(active := was.active && (was.event == e ==> EffectiveSource(v, was.source)))
  {
    hide Sound, Recomputed, EffectiveSource;
    SoundRefs(lex, t);
    RecomputedRefs(lex, t, e);
    RecomputedSameBut(lex, t, e);
    RecomputedManual(lex, t, e);
    EffectiveKept(t, Recomputed(lex, t, e).value, t.manualIdentities[m].source);
  }

  // ----- a run

  predicate IdentityKeptIf(was: ManualIdentity, now: ManualIdentity, stays: bool) {
    now == was.(active := was.active && stays)
  }

  lemma {:induction false} RecomputeAllStands(lex: Lexicon, t: Tables, es: seq<nat>, m: nat)
    requires Sound(lex, t) && (forall i :: 0 <= i < |es| ==> es[i] < |t.events|) && m < |t.manualFields|
    ensures Refs(t)
    ensures var v := RecomputeAll(lex, t, es);
            v.Some? ==>
              && Refs(v.value) && m < |v.value.manualFields|
              && KeptIf(t.manualFields[m], v.value.manualFields[m], t.manualFields[m].event in es ==>
                   Stands(lex, v.value, m))
    decreases |es|
  {
    hide Sound, Refs, Recomputed, Stands, SameBut, Keeps;
    SoundRefs(lex, t);
    if es != [] {
      var n := |es| - 1;
      RecomputeAllStands(lex, t, es[..n], m);
      RecomputeAllSound(lex, t, es[..n]);
      var b := RecomputeAll(lex, t, es[..n]);
      if b.Some? && Recomputed(lex, b.value, es[n]).Some? {
        var v := Recomputed(lex, b.value, es[n]).value;
        RecomputedStands(lex, b.value, es[n], m);
        RecomputedSound(lex, b.value, es[n]);
        RecomputedSameBut(lex, b.value, es[n]);
        StandsKept(lex, b.value, v, es[n], m);
        assert es == es[..n] + [es[n]];
      }
    }
  }

  lemma {:induction false} RecomputeAllIdentities(lex: Lexicon, t: Tables, es: seq<nat>, m: nat)
    requires Sound(lex, t) && (forall i :: 0 <= i < |es| ==> es[i] < |t.events|) && m < |t.manualIdentities|
    ensures Refs(t)
    ensures var v := RecomputeAll(lex, t, es); var was := t.manualIdentities[m];
            v.Some? ==>
              && Refs(v.value) && m < |v.value.manualIdentities| && v.value.sources == t.sources
              && was.source < |t.sources| && (EffectiveSource(v.value, was.source) <==> EffectiveSource(t, was.source))
              && IdentityKeptIf(was, v.value.manualIdentities[m], was.event in es ==>
                   EffectiveSource(v.value, was.source))
    decreases |es|
  {
    hide Sound, Recomputed, Keeps, EffectiveSource;
    SoundRefs(lex, t);
    if es != [] {
      var n := |es| - 1;
      RecomputeAllIdentities(lex, t, es[..n], m);
      RecomputeAllSound(lex, t, es[..n]);
      var b := RecomputeAll(lex, t, es[..n]);
      if b.Some? && Recomputed(lex, b.value, es[n]).Some? {
        IdentityKept(lex, b.value, es[n], m);
        RecomputedSameBut(lex, b.value, es[n]);
        EffectiveKept(b.value, Recomputed(lex, b.value, es[n]).value, t.manualIdentities[m].source);
        assert es == es[..n] + [es[n]];
      }
    }
  }

  /** A fresh run ends the decisions of its course that no longer stand, and no others. */
  lemma RunStands(lex: Lexicon, t: Tables, course: nat, version: string, ctx: Context, now: int, m: nat)
    requires Sound(lex, t) && m < |t.manualFields|
    ensures Refs(t) && t.manualFields[m].event < |t.events|
    ensures FreshRun(lex, t, course, version, ctx, now).Some? ==>
              var v := FreshRun(lex, t, course, version, ctx, now).value;
              && Refs(v) && m < |v.manualFields|
              && KeptIf(t.manualFields[m], v.manualFields[m],
                        t.events[t.manualFields[m].event].course == course ==> Stands(lex, v, m))
  {
    hide Sound, Keeps, Assigned, RecomputeAll, Audited, OnlyCourse, Stands;
    SoundRefs(lex, t);
    AssignedFacts(lex, t, course, version, ctx, now);
    var u := Assigned(lex, t, course, version, ctx, now);
    PassedKeeps(lex, t, u, course);
    CoursesKept(t, u);
    hide Refs;
    var es := EventsUpTo(u, course, |u.events|);
    RecomputeAllStands(lex, u, es, m);
  }

  lemma RunIdentities(lex: Lexicon, t: Tables, course: nat, version: string, ctx: Context, now: int, m: nat)
    requires Sound(lex, t) && m < |t.manualIdentities|
    ensures Refs(t) && t.manualIdentities[m].event < |t.events|
    ensures FreshRun(lex, t, course, version, ctx, now).Some? ==>
              var v := FreshRun(lex, t, course, version, ctx, now).value; var was := t.manualIdentities[m];
              && Refs(v) && m < |v.manualIdentities| && was.source < |v.sources|
              && IdentityKeptIf(was, v.manualIdentities[m],
                                t.events[was.event].course == course ==> EffectiveSource(v, was.source))
  {
    hide Sound, Keeps, Assigned, RecomputeAll, Audited, OnlyCourse, EffectiveSource;
    SoundRefs(lex, t);
    AssignedFacts(lex, t, course, version, ctx, now);
    var u := Assigned(lex, t, course, version, ctx, now);
    PassedKeeps(lex, t, u, course);
    CoursesKept(t, u);
    hide Refs;
    var es := EventsUpTo(u, course, |u.events|);
    RecomputeAllIdentities(lex, u, es, m);
  }

  // ----- a decision

  /** A new decision ends the one in force for its field; the others of the event stay if they stand, and so does it. */
  lemma DecisionStands(lex: Lexicon, t: Tables, e: nat, f: Field, choice: Choice, at: int, m: nat)
    requires Sound(lex, t) && FieldResolved(lex, t, e, f, choice, at).Some? && m <= |t.manualFields|
    ensures var v := FieldResolved(lex, t, e, f, choice, at).value; var n := |t.manualFields|;
            && Refs(t) && Refs(v) && |v.manualFields| == n + 1
            && (m < n ==>
                 var was := t.manualFields[m];
                 KeptIf(was, v.manualFields[m], was.event == e ==> was.field != f && Stands(lex, v, m)))
            && v.manualFields[n] == ManualField(e, f, if choice.Existing? then choice.claim else |t.claims|,
                                                choice.Local?, at, Stands(lex, v, n))
  {
    SoundRefs(lex, t);
    var d := FieldDecided(t, e, f, choice, at);
    FieldDecidedSound(lex, t, e, f, choice, at);
    assert d.manualFields[|t.manualFields|].active;
    assert m < |t.manualFields| ==>
        d.manualFields[m] == t.manualFields[m].(active := t.manualFields[m].active && !InForce(t, e, f, m));
    hide Sound, Refs, Recomputed, FieldDecided, Stands;
    RecordingKeeps(t, e, f, choice, at);
    RecomputedStands(lex, d, e, m);
    RecomputedStands(lex, d, e, |t.manualFields|);
    SoundRefs(lex, d);
    RecomputedSameBut(lex, d, e);
    NewDecision(t, e, f, choice, at);
  }

  lemma NewDecision(t: Tables, e: nat, f: Field, choice: Choice, at: int)
    ensures var n := |t.manualFields|; var d := FieldDecided(t, e, f, choice, at);
            |d.manualFields| == n + 1 &&
            d.manualFields[n] ==
              ManualField(e, f, if choice.Existing? then choice.claim else |t.claims|, choice.Local?, at, true)
  {
  }

  lemma IdentityDecisionStands(lex: Lexicon, t: Tables, s: nat, e: nat, m: nat)
    requires Sound(lex, t) && IdentityResolved(lex, t, s, e).Some? && m < |t.manualFields|
    ensures var v := IdentityResolved(lex, t, s, e).value;
            && Refs(t) && Refs(v) && m < |v.manualFields|
            && KeptIf(t.manualFields[m], v.manualFields[m], t.manualFields[m].event == e ==> Stands(lex, v, m))
  {
    SoundRefs(lex, t);
    BoundSource(t, s, e);
    IdentityDecisions(t, s, e);
    hide Sound, Refs, Recomputed, Bind, IdentityRecorded, Stands;
    BindSound(lex, t, s, e);
    IdentityRecordedSound(lex, Bind(t, s, e), s, e);
    RecomputedStands(lex, IdentityRecorded(Bind(t, s, e), s, e), e, m);
  }

  /** A new identity decision ends the one in force for its source; the others of the event stay if their source is
      recent, and so does it. */
  lemma IdentitiesDecided(lex: Lexicon, t: Tables, s: nat, e: nat, m: nat)
    requires Sound(lex, t) && IdentityResolved(lex, t, s, e).Some? && m <= |t.manualIdentities|
    ensures var v := IdentityResolved(lex, t, s, e).value; var n := |t.manualIdentities|;
            && Refs(v) && |v.manualIdentities| == n + 1 && s < |v.sources|
            && (m < n ==>
                 var was := t.manualIdentities[m];
                 && was.source < |v.sources|
                 && IdentityKeptIf(was, v.manualIdentities[m],
                                   was.source != s && (was.event == e ==> EffectiveSource(v, was.source))))
            && v.manualIdentities[n] == ManualIdentity(s, e, EffectiveSource(v, s))
  {
    var d := IdentityRecorded(Bind(t, s, e), s, e);
    RecordedIdentities(t, s, e);
    BoundSource(t, s, e);
    IdentityDecisions(t, s, e);
    hide Sound, Recomputed, Bind, IdentityRecorded, EffectiveSource;
    BindSound(lex, t, s, e);
    IdentityRecordedSound(lex, Bind(t, s, e), s, e);
    IdentityKept(lex, d, e, m);
    IdentityKept(lex, d, e, |t.manualIdentities|);
    RecomputedManual(lex, d, e);
  }

  lemma RecordedIdentities(t: Tables, s: nat, e: nat)
    requires s < |t.sources|
    ensures var d := IdentityRecorded(Bind(t, s, e), s, e);
            && |d.manualIdentities| == |t.manualIdentities| + 1 &&
                 d.manualIdentities[|t.manualIdentities|] == ManualIdentity(s, e, true)
            && forall m :: 0 <= m < |t.manualIdentities| ==>
                 IdentityKeptIf(t.manualIdentities[m], d.manualIdentities[m], t.manualIdentities[m].source != s)
  {
  }

  lemma FieldIdentities(lex: Lexicon, t: Tables, e: nat, f: Field, choice: Choice, at: int, m: nat)
    requires Sound(lex, t) && FieldResolved(lex, t, e, f, choice, at).Some? && m < |t.manualIdentities|
    ensures var v := FieldResolved(lex, t, e, f, choice, at).value; var was := t.manualIdentities[m];
            && Refs(t) && Refs(v) && m < |v.manualIdentities| && was.source < |v.sources|
            && IdentityKeptIf(was, v.manualIdentities[m], was.event == e ==> EffectiveSource(v, was.source))
  {
    SoundRefs(lex, t);
    FieldDecidedSound(lex, t, e, f, choice, at);
    RecordingKeeps(t, e, f, choice, at);
    hide Sound, Refs, Recomputed, FieldDecided, EffectiveSource;
    IdentityKept(lex, FieldDecided(t, e, f, choice, at), e, m);
  }

  // ----- every step of every history

  /** The step ends decision `m` by a new one: for the same field of the same event. */
  predicate Replaces(step: Step, was: ManualField) {
    step.DecideField? && step.event == was.event && step.field == was.field
  }

  /** After every history and any further step that returns: a decision that was in force still is exactly if no new one
      replaced it and, where its event was recomputed, it stands. Nothing else about it changes. */
  lemma HistoryStands(lex: Lexicon, steps: seq<Step>, step: Step, m: nat)
    ensures var t, v := After(lex, steps), After(lex, steps + [step]);
            && Refs(t) && Refs(v)
            && (Histories.Outcome(lex, t, step).Some? && m < |t.manualFields| ==>
                 var was := t.manualFields[m];
                 && m < |v.manualFields| && was.event < |v.events|
                 && KeptIf(was, v.manualFields[m],
                           !Replaces(step, was) && (Renews(t, v, step, was.event) ==> Stands(lex, v, m))))
  {
    hide Sound, Refs, Cached, FieldResolved, IdentityResolved, FreshRun, Stands, Committed, Keeps;
    var t, v := After(lex, steps), After(lex, steps + [step]);
    assert (steps + [step])[..|steps|] == steps;
    CommittedSound(lex, t);
    CommittedSound(lex, v);
    if Histories.Outcome(lex, t, step).Some? && m < |t.manualFields| {
      SteppedFacts(lex, t, step);
      ManualInRange(t, v, m);
      match step
      case Ingest(x, cs) =>
      case ReconcileCourse(course, version, ctx, now) => RunStands(lex, t, course, version, ctx, now, m);
      case DecideField(e, f, choice, at) => DecisionStands(lex, t, e, f, choice, at, m);
      case DecideIdentity(s, e) => IdentityDecisionStands(lex, t, s, e, m);
    }
  }

  lemma ManualInRange(t: Tables, v: Tables, m: nat)
    requires Refs(t) && Keeps(t, v) && m < |t.manualFields|
    ensures t.manualFields[m].event < |t.events| <= |v.events|
    ensures v.events[t.manualFields[m].event].course == t.events[t.manualFields[m].event].course
  {
  }

  // ----- what the event shows

  /** With a decision in force the event shows the claim it names, if any claim competes; without one it shows what the
      evidence alone decides. A local claim is shown only while a decision in force names it. */
  ghost predicate ShownRight(lex: Lexicon, v: Tables, e: nat, f: Field)
    requires Refs(v)
  {
    && DistinctKeys(FieldRows(v, e, f))
    && (forall m :: 0 <= m < |v.manualFields| && InForce(v, e, f, m) && FieldClaims(v, e, f) != {} ==>
          (e, f) in v.projections && v.projections[(e, f)].claim == v.manualFields[m].claim)
    && ((forall m :: 0 <= m < |v.manualFields| ==> !InForce(v, e, f, m)) ==>
          var alone := Decide(lex, f, FieldRows(v, e, f), None);
          && ((e, f) in v.projections <==> alone.Chosen?)
          && (alone.Chosen? ==> v.projections[(e, f)] == Projection(alone.row.key, alone.row.value)))
    && ((e, f) in v.projections && v.projections[(e, f)].claim < |v.claims| &&
        v.claims[v.projections[(e, f)].claim].origin.LocalDecision? ==>
          exists m :: 0 <= m < |v.manualFields| && InForce(v, e, f, m) && v.manualFields[m].local &&
                      v.manualFields[m].claim == v.projections[(e, f)].claim)
  }

  lemma ShownLocal(lex: Lexicon, v: Tables, e: nat, f: Field)
    requires Sound(lex, v) && Refs(v) && FieldSettled(v, e, f)
    requires (e, f) in v.projections && v.projections[(e, f)].claim < |v.claims|
    requires v.claims[v.projections[(e, f)].claim].origin.LocalDecision?
    ensures exists m :: 0 <= m < |v.manualFields| && InForce(v, e, f, m) && v.manualFields[m].local &&
                        v.manualFields[m].claim == v.projections[(e, f)].claim
  {
    SoundParts(lex, v);
    hide Sound, Refs;
    var c := v.projections[(e, f)].claim;
    assert IsFieldClaim(v, e, f, c);
    var m :| 0 <= m < |v.manualFields| && v.manualFields[m].active && v.manualFields[m].local &&
      v.manualFields[m].claim == c;
    assert ManualFieldOk(v, m);
    assert InForce(v, e, f, m);
  }

  lemma ShownAfterRecompute(lex: Lexicon, t: Tables, e: nat, f: Field)
    requires Sound(lex, t) && e < |t.events| && Recomputed(lex, t, e).Some? && f in CANONICAL
    ensures var v := Recomputed(lex, t, e).value; Refs(v) && ShownRight(lex, v, e, f)
  {
    hide Sound, Refs, Recomputed, OutcomeOf, Expire, Settle, FieldRows, FieldClaims, SameEvidence, EventRow, InForce,
      WithEventRow, FieldSettled, Keeps, Decide;
    SoundRefs(lex, t);
    RecomputedRefs(lex, t, e);
    RecomputedShape(lex, t, e);
    RecomputedManual(lex, t, e);
    RecomputedSound(lex, t, e);
    RecomputedSettles(lex, t, e);
    ExpireSound(lex, t, e);
    var x, v := Expire(lex, t, e), Recomputed(lex, t, e).value;
    SoundParts(lex, x);
    ExpireEvents(lex, t, e);
    var u := Settle(lex, x, e, CANONICAL);
    SettleEvidence(lex, x, e, CANONICAL);
    SettleEvents(lex, x, e);
    EventRowEvidence(u, e);
    SameChoices(lex, x, u, e, f);
    SameChoices(lex, u, v, e, f);
    ProjectionSettles(lex, x, e, f);
    FieldRowsDistinct(v, e, f);
    NotMissing(lex, t, e, f);
    ChoiceDecides(lex, x, e, f);
    SameInForce(x, v, e, f);
    if (e, f) in v.projections && v.projections[(e, f)].claim < |v.claims| &&
       v.claims[v.projections[(e, f)].claim].origin.LocalDecision? {
      ShownLocal(lex, v, e, f);
    }
  }

  lemma SameRowsElsewhere(lex: Lexicon, t: Tables, e: nat, d: nat, f: Field)
    requires Sound(lex, t) && e < |t.events| && d != e && Recomputed(lex, t, e).Some?
    ensures var v := Recomputed(lex, t, e).value;
            && Refs(t) && Refs(v) && FieldClaims(v, d, f) == FieldClaims(t, d, f) &&
                 FieldRows(v, d, f) == FieldRows(t, d, f)
  {
    hide Sound, Refs, Recomputed, ActiveClaim, RowOf, Keeps;
    SoundRefs(lex, t);
    RecomputedRefs(lex, t, e);
    RecomputedSound(lex, t, e);
    RecomputedSameBut(lex, t, e);
    var v := Recomputed(lex, t, e).value;
    forall c: nat | c < |t.claims|
      ensures IsFieldClaim(v, d, f, c) <==> IsFieldClaim(t, d, f, c)
      ensures RowOf(v, c) == RowOf(t, c)
    {
      RowKept(t, v, c);
      if t.claims[c].event == Some(d) {
        ClaimElsewhere(lex, t, e, c);
      }
    }
    assert FieldClaims(v, d, f) == FieldClaims(t, d, f);
  }

  lemma ShownElsewhere(lex: Lexicon, t: Tables, e: nat, d: nat, f: Field)
    requires Sound(lex, t) && e < |t.events| && d != e && Recomputed(lex, t, e).Some?
    ensures Refs(t) && Refs(Recomputed(lex, t, e).value)
    ensures ShownRight(lex, t, d, f) ==> ShownRight(lex, Recomputed(lex, t, e).value, d, f)
  {
    hide Sound, Refs, Recomputed, FieldRows, FieldClaims, Decide;
    SameRowsElsewhere(lex, t, e, d, f);
    RecomputedSameBut(lex, t, e);
    ProjectionElsewhere(lex, t, e, d, f);
    var v := Recomputed(lex, t, e).value;
    forall m | 0 <= m < |t.manualFields|
      ensures InForce(v, d, f, m) <==> InForce(t, d, f, m)
      ensures v.manualFields[m].claim == t.manualFields[m].claim &&
        v.manualFields[m].local == t.manualFields[m].local {}
    hide InForce, SameBut;
    ClaimOrigins(t, v, e);
  }

  lemma ClaimOrigins(t: Tables, v: Tables, e: nat)
    requires SameBut(t, v, e)
    ensures |v.claims| == |t.claims| && forall c :: 0 <= c < |t.claims| ==> v.claims[c].origin == t.claims[c].origin
    ensures |v.manualFields| == |t.manualFields|
  {
  }

  lemma {:induction false} RecomputeAllShown(lex: Lexicon, t: Tables, es: seq<nat>, f: Field)
    requires Sound(lex, t) && (forall i :: 0 <= i < |es| ==> es[i] < |t.events|) && NoDuplicates(es) && f in CANONICAL
    ensures Refs(t)
    ensures var v := RecomputeAll(lex, t, es);
            v.Some? ==> Refs(v.value) && forall i :: 0 <= i < |es| ==> ShownRight(lex, v.value, es[i], f)
    decreases |es|
  {
    hide Sound, Keeps, Refs, Recomputed, ShownRight;
    SoundRefs(lex, t);
    if es != [] {
      var n := |es| - 1;
      RecomputeAllShown(lex, t, es[..n], f);
      RecomputeAllSound(lex, t, es[..n]);
      var b := RecomputeAll(lex, t, es[..n]);
      if b.Some? && Recomputed(lex, b.value, es[n]).Some? {
        ShownAfterRecompute(lex, b.value, es[n], f);
        forall i | 0 <= i < n ensures ShownRight(lex, Recomputed(lex, b.value, es[n]).value, es[i], f) {
          assert es[..n][i] == es[i];
          ShownElsewhere(lex, b.value, es[n], es[i], f);
        }
      }
    }
  }

  lemma RunShown(lex: Lexicon, t: Tables, course: nat, version: string, ctx: Context, now: int, f: Field)
    requires Sound(lex, t) && f in CANONICAL
    ensures Refs(t)
    ensures FreshRun(lex, t, course, version, ctx, now).Some? ==>
              var v := FreshRun(lex, t, course, version, ctx, now).value;
              Refs(v) && forall e: nat :: e < |v.events| && v.events[e].course == course ==> ShownRight(lex, v, e, f)
  {
    hide Sound, Refs, Keeps, Assigned, RecomputeAll, Audited, OnlyCourse, ShownRight;
    SoundRefs(lex, t);
    AssignedFacts(lex, t, course, version, ctx, now);
    var u := Assigned(lex, t, course, version, ctx, now);
    PassedKeeps(lex, t, u, course);
    var es := EventsUpTo(u, course, |u.events|);
    RecomputeAllShown(lex, u, es, f);
    RecomputeAllSound(lex, u, es);
    var v := RecomputeAll(lex, u, es);
    if v.Some? {
      CoursesKept(u, v.value);
      forall e: nat | e < |v.value.events| && v.value.events[e].course == course
        ensures ShownRight(lex, v.value, e, f)
      {
        assert e in es;
        var i :| 0 <= i < |es| && es[i] == e;
      }
    }
  }

  /** After every history, what a recomputed event shows is decided by the decisions still in force, or by the evidence
      alone. */
  lemma HistoryShown(lex: Lexicon, steps: seq<Step>, step: Step, e: nat, f: Field)
    requires f in CANONICAL
    ensures var t, v := After(lex, steps), After(lex, steps + [step]);
            && Refs(t) && Refs(v)
            && (Histories.Outcome(lex, t, step).Some? && e < |v.events| && Renews(t, v, step, e) ==>
                 ShownRight(lex, v, e, f))
  {
    hide Sound, Refs, FreshRun, ShownRight, Cached, FieldResolved, IdentityResolved;
    var t, v := After(lex, steps), After(lex, steps + [step]);
    assert (steps + [step])[..|steps|] == steps;
    SoundRefs(lex, t);
    SoundRefs(lex, v);
    match step
    case Ingest(_, _) =>
    case ReconcileCourse(course, version, ctx, now) => RunShown(lex, t, course, version, ctx, now, f);
    case DecideField(d, g, choice, at) => FieldShown(lex, t, d, g, choice, at, f);
    case DecideIdentity(s, d) => IdentityShown(lex, t, s, d, f);
  }

  lemma FieldShown(lex: Lexicon, t: Tables, e: nat, g: Field, choice: Choice, at: int, f: Field)
    requires Sound(lex, t) && f in CANONICAL
    ensures Refs(t)
    ensures FieldResolved(lex, t, e, g, choice, at).Some? ==>
              var v := FieldResolved(lex, t, e, g, choice, at).value; Refs(v) && ShownRight(lex, v, e, f)
  {
    SoundRefs(lex, t);
    if FieldResolved(lex, t, e, g, choice, at).Some? {
      FieldDecidedSound(lex, t, e, g, choice, at);
      RecordingKeeps(t, e, g, choice, at);
      hide Sound, Refs, Recomputed, FieldDecided, ShownRight;
      ShownAfterRecompute(lex, FieldDecided(t, e, g, choice, at), e, f);
    }
  }

  lemma IdentityShown(lex: Lexicon, t: Tables, s: nat, e: nat, f: Field)
    requires Sound(lex, t) && f in CANONICAL
    ensures Refs(t)
    ensures IdentityResolved(lex, t, s, e).Some? ==>
              var v := IdentityResolved(lex, t, s, e).value; Refs(v) && ShownRight(lex, v, e, f)
  {
    SoundRefs(lex, t);
    if IdentityResolved(lex, t, s, e).Some? {
      BoundSource(t, s, e);
      IdentityDecisions(t, s, e);
      hide Sound, Refs, Recomputed, Bind, IdentityRecorded, ShownRight;
      BindSound(lex, t, s, e);
      IdentityRecordedSound(lex, Bind(t, s, e), s, e);
      ShownAfterRecompute(lex, IdentityRecorded(Bind(t, s, e), s, e), e, f);
    }
  }

  lemma SameInForce(x: Tables, v: Tables, e: nat, f: Field)
    requires x.manualFields == v.manualFields
    ensures forall m :: 0 <= m < |x.manualFields| ==> (InForce(x, e, f, m) <==> InForce(v, e, f, m))
  {
  }

  lemma NotMissing(lex: Lexicon, t: Tables, e: nat, f: Field)
    requires Refs(t) && e < |t.events| && Recomputed(lex, t, e).Some? && f in CANONICAL
    ensures Refs(Expire(lex, t, e)) && !OutcomeOf(lex, Expire(lex, t, e), e, f).ManualMissing?
  {
    hide Refs, OutcomeOf, Expire, Settle, EventRow;
    ExpireRefs(lex, t, e);
  }

  /** The outcome for a field by the decision in force, or by the rows alone. */
  lemma ChoiceDecides(lex: Lexicon, x: Tables, e: nat, f: Field)
    requires Refs(x) && ManualFieldsOk(x)
    ensures DistinctKeys(FieldRows(x, e, f))
    ensures (forall m :: 0 <= m < |x.manualFields| ==> !InForce(x, e, f, m)) ==>
              OutcomeOf(lex, x, e, f) == Decide(lex, f, FieldRows(x, e, f), None)
    ensures forall m :: 0 <= m < |x.manualFields| && InForce(x, e, f, m) && FieldClaims(x, e, f) != {} ==>
              var o := OutcomeOf(lex, x, e, f);
              o.ManualMissing? || (o.Chosen? && o.row.key == x.manualFields[m].claim)
  {
    FieldRowsDistinct(x, e, f);
    ChoiceIsInForce(x, e, f, |x.manualFields|);
    hide Refs, ManualFieldsOk, InForce, RowOf, OneClass, IsSuccessor, IsBest, SpecificHeads, ChoiceUpTo, FieldRows;
    forall m | 0 <= m < |x.manualFields| && InForce(x, e, f, m) && FieldClaims(x, e, f) != {}
      ensures var o := OutcomeOf(lex, x, e, f); o.ManualMissing? || (o.Chosen? && o.row.key == x.manualFields[m].claim)
    {
      OneInForce(x, e, f, m);
      assert ManualChoice(x, e, f) == Some(x.manualFields[m].claim);
      var c :| c in FieldClaims(x, e, f);
      assert RowOf(x, c) in FieldRows(x, e, f);
    }
  }
}
