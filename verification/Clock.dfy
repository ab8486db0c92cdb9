/** Two ranges that hold after every history: no claim is younger than the latest call (events/reconciliation.py:152;
    events/_manual.py:198), and every event row meets the range the schema demands of its confidence
    (storage/migrations/0007_event_reconciliation.sql:24). */
module Clock {
  import opened Basics
  import opened Matching
  import opened EventTables
  import opened Recompute
  import opened RecomputeFacts
  import opened RecomputeSound
  import opened Reconcile
  import opened ReconcileSound
  import opened RunSound
  import opened RunRaises
  import opened Manual
  import opened ManualSound
  import opened ManualPrevails
  import opened Histories

  ghost predicate ConfidencesOk(t: Tables) {
    forall e :: 0 <= e < |t.events| ==> InUnit(t.events[e].confidence)
  }

  /** A change made at `now` leaves the ranges intact. */
  ghost predicate InBounds(t: Tables, u: Tables, now: int) {
    && (ConfidencesOk(t) ==> ConfidencesOk(u))
    && forall later :: now <= later && ClockOk(t, later) ==> ClockOk(u, later)
  }

  lemma InBoundsTransitive(t: Tables, u: Tables, v: Tables, now: int)
    requires InBounds(t, u, now) && InBounds(u, v, now)
    ensures InBounds(t, v, now)
  {
    hide ConfidencesOk, ClockOk;
  }

  /** Claims keep their time, event rows stay or gain one of a known confidence. */
  lemma SameTimes(t: Tables, u: Tables, now: int)
    requires |u.claims| == |t.claims| && forall c :: 0 <= c < |t.claims| ==>
      u.claims[c].createdAt == t.claims[c].createdAt
    requires t.events <= u.events && forall e :: |t.events| <= e < |u.events| ==> InUnit(u.events[e].confidence)
    ensures InBounds(t, u, now)
  {
  }

  // ----- a run

  lemma EnsureInBounds(lex: Lexicon, t: Tables, k: nat, now: int)
    requires Refs(t) && k < |t.candidates|
    ensures InBounds(t, EnsureSource(lex, t, k, now), now)
  {
  }

  lemma {:induction false} EnsureAllInBounds(lex: Lexicon, t: Tables, ks: seq<nat>, now: int)
    requires Refs(t) && Known(t, ks)
    ensures InBounds(t, EnsureAll(lex, t, ks, now), now)
    decreases |ks|
  {
    hide InBounds, EnsureSource, Refs;
    if ks == [] {
      SameTimes(t, t, now);
    } else {
      var n := |ks| - 1;
      var before := EnsureAll(lex, t, ks[..n], now);
      EnsureAllInBounds(lex, t, ks[..n], now);
      EnsureInBounds(lex, before, ks[n], now);
      InBoundsTransitive(t, before, EnsureSource(lex, before, ks[n], now), now);
    }
  }

  lemma TreatedInBounds(t: Tables, run: nat, s: nat, treatment: Treatment, now: int)
    requires Refs(t) && CandidatesOk(t) && s < |t.sources|
    ensures InBounds(t, Treated(t, run, s, treatment), now) && Treated(t, run, s, treatment).candidates == t.candidates
  {
    hide WellFormed;
    assert CandidateOk(CandidateOf(t, s));
    SameTimes(t, Treated(t, run, s, treatment), now);
  }

  lemma {:induction false} FirstPassInBounds(lex: Lexicon, t: Tables, ctx: Context, run: nat, ss: seq<nat>, now: int)
    requires Refs(t) && CandidatesOk(t) && InRange(t, ss)
    ensures var u := FirstPass(lex, t, ctx, run, ss).0; InBounds(t, u, now) && u.candidates == t.candidates
    decreases |ss|
  {
    hide InBounds, Treated, TreatmentOf, Refs, CandidateOk;
    if ss == [] {
      SameTimes(t, t, now);
    } else {
      var n := |ss| - 1;
      var before := FirstPass(lex, t, ctx, run, ss[..n]).0;
      FirstPassInBounds(lex, t, ctx, run, ss[..n], now);
      var treatment := TreatmentOf(lex, before, ctx, ss[n], true);
      TreatedInBounds(before, run, ss[n], treatment, now);
      InBoundsTransitive(t, before, Treated(before, run, ss[n], treatment), now);
    }
  }

  lemma {:induction false} SecondPassInBounds(lex: Lexicon, t: Tables, ctx: Context, run: nat, ss: seq<nat>, now: int)
    requires Refs(t) && CandidatesOk(t) && InRange(t, ss)
    ensures var u := SecondPass(lex, t, ctx, run, ss); InBounds(t, u, now) && u.candidates == t.candidates
    decreases |ss|
  {
    hide InBounds, Treated, TreatmentOf, Refs, CandidateOk;
    if ss == [] {
      SameTimes(t, t, now);
    } else {
      var n := |ss| - 1;
      var before := SecondPass(lex, t, ctx, run, ss[..n]);
      SecondPassInBounds(lex, t, ctx, run, ss[..n], now);
      var treatment := TreatmentOf(lex, before, ctx, ss[n], false);
      TreatedInBounds(before, run, ss[n], treatment, now);
      InBoundsTransitive(t, before, Treated(before, run, ss[n], treatment), now);
    }
  }

  lemma AssignedInBounds(lex: Lexicon, t: Tables, course: nat, version: string, ctx: Context, now: int)
    requires Sound(lex, t)
    ensures Refs(t) && InBounds(t, Assigned(lex, t, course, version, ctx, now), now)
  {
    hide InBounds, Sound, Refs, CandidatesOk, FingerprintOf, EnsureAll, FirstPass, SecondPass, SourcesWhere;
    SoundParts(lex, t);
    var ks, run := EffectiveCandidates(t, course), |t.runs|;
    var begun := OpenRun(t, course, version, FingerprintOf(t, course));
    OpenRunSound(lex, t, course, version, FingerprintOf(t, course));
    SoundParts(lex, begun);
    SameTimes(t, begun, now);
    var ensured := EnsureAll(lex, begun, ks, now);
    EnsureAllInBounds(lex, begun, ks, now);
    SameCandidatesOk(begun, ensured);
    var (first, deferred) := FirstPass(lex, ensured, ctx, run, SourcesWhere(lex, ensured, ks, false));
    FirstPassInBounds(lex, ensured, ctx, run, SourcesWhere(lex, ensured, ks, false), now);
    SameCandidatesOk(ensured, first);
    var rest := SourcesWhere(lex, ensured, ks, true) + deferred;
    SecondPassInBounds(lex, first, ctx, run, rest, now);
    InBoundsTransitive(t, begun, ensured, now);
    InBoundsTransitive(t, ensured, first, now);
    InBoundsTransitive(t, first, SecondPass(lex, first, ctx, run, rest), now);
  }

  lemma SameCandidatesOk(t: Tables, u: Tables)
    requires CandidatesOk(t) && u.candidates == t.candidates
    ensures CandidatesOk(u)
  {
  }

  // ----- recomputation

  lemma RecomputedInBounds(lex: Lexicon, t: Tables, e: nat, now: int)
    requires Sound(lex, t) && e < |t.events| && Recomputed(lex, t, e).Some?
    ensures InBounds(t, Recomputed(lex, t, e).value, now)
  {
    hide Sound, Refs, ClaimsOk, Expire, Settle, Blocked, Confidence, Recomputed, SameBut, InUnit;
    SoundParts(lex, t);
    RecomputedSameBut(lex, t, e);
    RecomputedRow(lex, t, e);
    var v := Recomputed(lex, t, e).value;
    SameButTimes(t, v, e);
    RowsInBounds(t, v, e, now);
  }

  lemma SameButTimes(t: Tables, v: Tables, e: nat)
    requires SameBut(t, v, e)
    ensures |v.claims| == |t.claims| && forall c :: 0 <= c < |t.claims| ==>
      v.claims[c].createdAt == t.claims[c].createdAt
  {
  }

  lemma RowsInBounds(t: Tables, v: Tables, e: nat, now: int)
    requires |v.claims| == |t.claims| && forall c :: 0 <= c < |t.claims| ==>
      v.claims[c].createdAt == t.claims[c].createdAt
    requires e < |t.events| == |v.events| && InUnit(v.events[e].confidence)
    requires forall d :: 0 <= d < |t.events| && d != e ==> v.events[d] == t.events[d]
    ensures InBounds(t, v, now)
  {
    hide InUnit;
  }

  /** Recomputing an event writes its row, with a confidence in range, and no other. */
  lemma RecomputedRow(lex: Lexicon, t: Tables, e: nat)
    requires Sound(lex, t) && e < |t.events| && Recomputed(lex, t, e).Some?
    ensures var v := Recomputed(lex, t, e).value;
            && |v.events| == |t.events| && InUnit(v.events[e].confidence)
            && forall d :: 0 <= d < |t.events| && d != e ==> v.events[d] == t.events[d]
  {
    hide Sound, Refs, ClaimsOk, Expire, Settle, Blocked, Confidence, ConfidenceSum, InUnit, HasOpenConflict,
      HasAmbiguity, ActiveSources;
    SoundParts(lex, t);
    ExpireRefs(lex, t, e);
    ExpireSound(lex, t, e);
    ExpireEvents(lex, t, e);
    var x := Expire(lex, t, e);
    SoundParts(lex, x);
    assert NoDuplicates(CANONICAL);
    SettleSound(lex, x, e, CANONICAL);
    SettleEvents(lex, x, e);
    var u := Settle(lex, x, e, CANONICAL);
    SoundParts(lex, u);
    ConfidenceInRange(u, e);
  }

  lemma {:induction false} RecomputeAllInBounds(lex: Lexicon, t: Tables, es: seq<nat>, now: int)
    requires Sound(lex, t) && forall i :: 0 <= i < |es| ==> es[i] < |t.events|
    ensures Refs(t)
    ensures RecomputeAll(lex, t, es).Some? ==> InBounds(t, RecomputeAll(lex, t, es).value, now)
    decreases |es|
  {
    hide Sound, Refs, Recomputed, InBounds, Keeps;
    SoundRefs(lex, t);
    if es == [] {
      SameTimes(t, t, now);
    } else {
      var n := |es| - 1;
      RecomputeAllInBounds(lex, t, es[..n], now);
      RecomputeAllSound(lex, t, es[..n]);
      var before := RecomputeAll(lex, t, es[..n]);
      if before.Some? && Recomputed(lex, before.value, es[n]).Some? {
        RecomputedInBounds(lex, before.value, es[n], now);
        InBoundsTransitive(t, before.value, Recomputed(lex, before.value, es[n]).value, now);
      }
    }
  }

  lemma RunInBounds(lex: Lexicon, t: Tables, course: nat, version: string, ctx: Context, now: int)
    requires Sound(lex, t)
    ensures Refs(t)
    ensures FreshRun(lex, t, course, version, ctx, now).Some? ==>
      InBounds(t, FreshRun(lex, t, course, version, ctx, now).value, now)
  {
    hide Sound, Refs, Keeps, Assigned, RecomputeAll, OnlyCourse, Audited, InBounds;
    SoundRefs(lex, t);
    AssignedFacts(lex, t, course, version, ctx, now);
    AssignedInBounds(lex, t, course, version, ctx, now);
    var u := Assigned(lex, t, course, version, ctx, now);
    PassedKeeps(lex, t, u, course);
    var es := EventsUpTo(u, course, |u.events|);
    RecomputeAllInBounds(lex, u, es, now);
    if RecomputeAll(lex, u, es).Some? {
      InBoundsTransitive(t, u, RecomputeAll(lex, u, es).value, now);
    }
  }

  // ----- manual decisions

  lemma FieldInBounds(lex: Lexicon, t: Tables, e: nat, f: Field, choice: Choice, now: int)
    requires Sound(lex, t)
    ensures Refs(t)
    ensures FieldResolved(lex, t, e, f, choice, now).Some? ==>
      InBounds(t, FieldResolved(lex, t, e, f, choice, now).value, now)
  {
    SoundRefs(lex, t);
    if FieldResolved(lex, t, e, f, choice, now).Some? {
      hide Sound, Refs, Recomputed, FieldDecided, InBounds;
      FieldDecidedSound(lex, t, e, f, choice, now);
      DecidedInBounds(t, e, f, choice, now);
      var d := FieldDecided(t, e, f, choice, now);
      RecomputedInBounds(lex, d, e, now);
      InBoundsTransitive(t, d, Recomputed(lex, d, e).value, now);
    }
  }

  lemma DecidedInBounds(t: Tables, e: nat, f: Field, choice: Choice, now: int)
    ensures InBounds(t, FieldDecided(t, e, f, choice, now), now)
  {
  }

  lemma IdentityInBounds(lex: Lexicon, t: Tables, s: nat, e: nat, now: int)
    requires Sound(lex, t)
    ensures Refs(t)
    ensures IdentityResolved(lex, t, s, e).Some? ==> InBounds(t, IdentityResolved(lex, t, s, e).value, now)
  {
    SoundRefs(lex, t);
    if IdentityResolved(lex, t, s, e).Some? {
      var b := Bind(t, s, e);
      var d := IdentityRecorded(b, s, e);
      SameTimes(t, d, now);
      hide Sound, Refs, Recomputed, Bind, IdentityRecorded, InBounds;
      BindSound(lex, t, s, e);
      IdentityRecordedSound(lex, b, s, e);
      RecomputedInBounds(lex, d, e, now);
      InBoundsTransitive(t, d, Recomputed(lex, d, e).value, now);
    }
  }

  // ----- histories

  /** The clock of a step; identity decisions and extractions date no claim. */
  function TimeOf(step: Step): Option<int> {
    match step
    case ReconcileCourse(_, _, _, now) => Some(now)
    case DecideField(_, _, _, at) => Some(at)
    case _ => None
  }

  /** No step happens after `now`. */
  ghost predicate NotAfter(steps: seq<Step>, now: int) {
    forall i :: 0 <= i < |steps| && TimeOf(steps[i]).Some? ==> TimeOf(steps[i]).value <= now
  }

  lemma SteppedInBounds(lex: Lexicon, t: Tables, step: Step, now: int)
    requires Committed(lex, t) && (TimeOf(step).Some? ==> TimeOf(step).value <= now)
    ensures Refs(t)
    ensures ConfidencesOk(t) ==> ConfidencesOk(Stepped(lex, t, step))
    ensures ClockOk(t, now) ==> ClockOk(Stepped(lex, t, step), now)
  {
    hide Sound, Refs, FreshRun, FieldResolved, IdentityResolved, Ingested, ConfidencesOk, ClockOk;
    SoundRefs(lex, t);
    match step
    case Ingest(x, cs) =>
      IngestedInBounds(t, x, cs, now);
    case ReconcileCourse(course, version, ctx, at) => RunInBounds(lex, t, course, version, ctx, at);
    case DecideField(e, f, choice, at) => FieldInBounds(lex, t, e, f, choice, at);
    case DecideIdentity(s, e) => IdentityInBounds(lex, t, s, e, now);
  }

  lemma IngestedInBounds(t: Tables, x: Extraction, cs: seq<Candidate>, now: int)
    ensures InBounds(t, Ingested(t, x, cs), now)
  {
    SameTimes(t, Ingested(t, x, cs), now);
  }

  /** After every history no claim is younger than its latest step, and every event row is in range. */
  lemma {:induction false} HistoryInBounds(lex: Lexicon, steps: seq<Step>, now: int)
    ensures ConfidencesOk(After(lex, steps))
    ensures NotAfter(steps, now) ==> ClockOk(After(lex, steps), now)
    decreases |steps|
  {
    hide Committed, Stepped, ConfidencesOk, ClockOk, TimeOf;
    if steps == [] {
      EmptyInBounds(now);
    } else {
      var n := |steps| - 1;
      var before := After(lex, steps[..n]);
      HistoryInBounds(lex, steps[..n], now);
      var time := TimeOf(steps[n]);
      SteppedInBounds(lex, before, steps[n], if time.Some? && time.value > now then time.value else now);
    }
  }

  lemma EmptyInBounds(now: int)
    ensures ConfidencesOk(EMPTY) && ClockOk(EMPTY, now)
  {
  }

  /** So with a clock that does not run backwards a local value prevails in every history: if the call returns, the
      event shows it and the field has no open conflict. */
  lemma HistoryLocalPrevails(lex: Lexicon, steps: seq<Step>, e: nat, f: Field, choice: Choice, now: int)
    requires NotAfter(steps, now) && choice.Local?
    ensures var t := After(lex, steps); var step := DecideField(e, f, choice, now);
            Refs(t) && (Outcome(lex, t, step).Some? ==>
              var u := After(lex, steps + [step]);
              && (e, f) in u.projections && u.projections[(e, f)] == Projection(|t.claims|, choice.value)
              && Refs(u) && Projected(u, e, f))
  {
    hide Sound, Refs, FieldResolved, ClockOk, Projected;
    var t := After(lex, steps);
    SoundRefs(lex, t);
    HistoryInBounds(lex, steps, now);
    LocalDecisionPrevails(lex, t, e, f, choice, now);
    var step := DecideField(e, f, choice, now);
    assert (steps + [step])[..|steps|] == steps;
  }
}
