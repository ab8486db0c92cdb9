/** The error of `_recompute_event` that a user can meet (events/reconciliation.py:1247-1270): by confirming, as an
    existing claim, the value set by hand before. A history of three calls leads there, and among histories that
    never did so before, exactly such a request raises. */
module Reselection {
  import opened Basics
  import opened Matching
  import opened EventTables
  import opened Recompute
  import opened RecomputeFacts
  import opened RecomputeSound
  import opened Reconcile
  import opened RunSound
  import opened RunRaises
  import opened Manual
  import opened ManualSound
  import opened ManualPrevails
  import opened Histories
  import opened Clock

  // ----- exactly which requests raise

  /** A history in which nobody has selected a local claim as an existing one. */
  ghost predicate Disciplined(lex: Lexicon, steps: seq<Step>) {
    forall i :: 0 <= i < |steps| ==> SelectsSource(After(lex, steps[..i]), steps[i])
  }

  /** After such a history, an accepted request that is not dated before its steps raises exactly if it selects a
      local claim of a field that current evidence also speaks about. */
  lemma HistoryRaisesExactly(lex: Lexicon, steps: seq<Step>, e: nat, f: Field, choice: Choice, now: int)
    requires Disciplined(lex, steps) && NotAfter(steps, now)
    ensures var t := After(lex, steps);
            Refs(t) && (FieldRequestOk(t, e, f, choice) ==>
              (Outcome(lex, t, DecideField(e, f, choice, now)).None? <==>
                choice.Existing? && t.claims[choice.claim].origin.LocalDecision? && HasCurrentClaim(t, e, f)))
  {
    hide SelectsSource, Sound, Refs, NamesNoLocal, ClockOk, ConfidencesOk, FieldResolved, HasCurrentClaim;
    var t := After(lex, steps);
    SoundRefs(lex, t);
    HistoryNeverRaises(lex, steps);
    HistoryInBounds(lex, steps, now);
    if FieldRequestOk(t, e, f, choice) {
      SelectionRaisesExactly(lex, t, e, f, choice, now);
    }
  }

  // ----- a history that leads there

  const AT_FIRST := Text("LT1")
  const BY_HAND := Text("LT2")

  const FIRST := Extraction(0, Observation(0), "extractor", true)

  function Noticed(wording: string): Candidate {
    Candidate(0, 0, wording, 1.0, 0, None, [FieldData(Location, AT_FIRST, None)])
  }

  /** One announcement with a location is extracted and reconciled, and a user corrects the location by hand. */
  function Correction(wording: string, version: string, ctx: Context): (steps: seq<Step>)
    ensures |steps| == 3
  {
    [Ingest(FIRST, [Noticed(wording)]),
     ReconcileCourse(0, version, ctx, 0),
     DecideField(0, Location, Local(BY_HAND, None, 1.0), 1)]
  }

  /** One event, known from one effective source, and no decision. */
  ghost predicate OneEvent(t: Tables) {
    && Refs(t) && t.extractions == [FIRST] && |t.candidates| == 1
    && |t.events| == 1 && |t.sources| == 1 && |t.claims| == 1 && t.manualFields == []
    && t.claims[0].event == Some(0) && t.claims[0].field == Location && t.claims[0].origin == FromSource(0)
    && t.events[0].course == 0 && EffectiveSource(t, 0)
  }

  lemma FirstEffective(t: Tables, course: nat)
    requires Refs(t) && |t.extractions| == 1 && t.extractions[0].usable && |t.candidates| == 1 &&
      t.candidates[0].course == course
    ensures EffectiveCandidates(t, course) == [0]
  {
    assert Effective(t, 0);
    assert EffectiveUpTo(t, course, 0) == [];
  }

  ghost function IngestedFirst(wording: string): Tables {
    EMPTY.(extractions := [FIRST], candidates := [Noticed(wording)])
  }

  lemma FirstIngest(lex: Lexicon, wording: string, version: string, ctx: Context)
    ensures After(lex, Correction(wording, version, ctx)[..1]) == IngestedFirst(wording)
  {
    hide Committed;
    var steps := Correction(wording, version, ctx)[..1];
    assert steps[..0] == [];
    assert After(lex, []) == EMPTY;
    assert CandidateOk(Noticed(wording));
  }

  lemma FirstSources(lex: Lexicon, t: Tables, now: int)
    requires Refs(t) && |t.candidates| == 1 && t.sources == [] && lex.classify(t.candidates[0].wording) == NoChange
    ensures var u := EnsureAll(lex, t, [0], now);
            && u == EnsureSource(lex, t, 0, now) && Known(u, [0])
            && SourcesWhere(lex, u, [0], false) == [0] && SourcesWhere(lex, u, [0], true) == []
  {
    assert [0][..0] == [];
    assert EnsureAll(lex, t, [], now) == t;
    var u := EnsureAll(lex, t, [0], now);
    assert u.sources[0].candidate == 0;
    assert SourcesWhere(lex, u, [], false) == [] == SourcesWhere(lex, u, [], true);
  }

  lemma FirstIsFound(lex: Lexicon, t: Tables, ctx: Context)
    requires Refs(t) && |t.sources| == 1 && t.events == [] && t.manualIdentities == []
    requires t.sources[0].event.None? && t.sources[0].change == NoChange
    ensures TreatmentOf(lex, t, ctx, 0, true) == Found
  {
    hide Plausible, Merges;
    forall e ensures MergeEvents(lex, t, ctx, 0) != {e} { assert e !in MergeEvents(lex, t, ctx, 0); }
    assert PlausibleEvents(lex, t, 0) == {};
  }

  lemma FirstPasses(lex: Lexicon, t: Tables, ctx: Context, run: nat)
    requires Refs(t) && |t.sources| == 1 && t.events == [] && t.manualIdentities == []
    requires t.sources[0].event.None? && t.sources[0].change == NoChange
    ensures FirstPass(lex, t, ctx, run, [0]) == (Treated(t, run, 0, Found), [])
  {
    hide Treated, TreatmentOf;
    FirstIsFound(lex, t, ctx);
    assert [0][..0] == [];
    assert FirstPass(lex, t, ctx, run, []) == (t, []);
  }

  lemma FirstTreated(t: Tables, run: nat)
    requires Refs(t) && t.extractions == [FIRST] && |t.candidates| == 1
    requires |t.sources| == 1 && |t.claims| == 1 && t.events == [] && t.manualFields == []
    requires t.sources[0].course == 0 && t.claims[0].field == Location && t.claims[0].origin == FromSource(0)
    ensures OneEvent(Treated(t, run, 0, Found))
  {
  }

  /** The store once the candidate has its source and claim. */
  lemma FirstEnsured(lex: Lexicon, wording: string, version: string)
    requires lex.classify(wording) == NoChange
    ensures var t := IngestedFirst(wording);
            && Refs(t) && EffectiveCandidates(t, 0) == [0] && t.runs == []
            && var begun := OpenRun(t, 0, version, FingerprintOf(t, 0));
               && Refs(begun) && begun.candidates == t.candidates && begun.sources == []
               && var u := EnsureSource(lex, begun, 0, 0);
                  && Refs(u) && u.extractions == [FIRST] && |u.candidates| == 1
                  && |u.sources| == 1 && |u.claims| == 1 && u.events == [] && u.manualFields == [] &&
                       u.manualIdentities == []
                  && u.sources[0].event.None? && u.sources[0].change == NoChange && u.sources[0].course == 0
                  && u.claims[0].field == Location && u.claims[0].origin == FromSource(0)
  {
    hide EffectiveUpTo, Effective, FingerprintOf, EffectiveCandidates;
    var t := IngestedFirst(wording);
    assert t.extractions[0].usable && t.candidates[0].course == 0;
    FirstEffective(t, 0);
    EnsureRefs(lex, OpenRun(t, 0, version, FingerprintOf(t, 0)), 0, 0);
  }

  lemma FirstAssigned(lex: Lexicon, wording: string, version: string, ctx: Context)
    requires lex.classify(wording) == NoChange
    ensures var t := IngestedFirst(wording); Refs(t) && OneEvent(Assigned(lex, t, 0, version, ctx, 0))
  {
    hide Refs, FingerprintOf, EnsureSource, EnsureAll, Treated, OneEvent, EffectiveCandidates, SourcesWhere,
      FirstPass;
    var t := IngestedFirst(wording);
    FirstEnsured(lex, wording, version);
    var begun := OpenRun(t, 0, version, FingerprintOf(t, 0));
    FirstSources(lex, begun, 0);
    var ensured := EnsureSource(lex, begun, 0, 0);
    FirstPasses(lex, ensured, ctx, 0);
    FirstTreated(ensured, 0);
    assert SecondPass(lex, Treated(ensured, 0, 0, Found), ctx, 0, [] + []) == Treated(ensured, 0, 0, Found);
  }

  lemma OneEventKept(lex: Lexicon, t: Tables)
    requires OneEvent(t) && Sound(lex, t) && Recomputed(lex, t, 0).Some?
    ensures OneEvent(Recomputed(lex, t, 0).value)
  {
    hide Recomputed, Sound, Refs, EffectiveSource, InUnit;
    RecomputedRefs(lex, t, 0);
    RecomputedSameBut(lex, t, 0);
    RecomputedRow(lex, t, 0);
    RecomputedSound(lex, t, 0);
    EffectiveKept(t, Recomputed(lex, t, 0).value, 0);
  }

  lemma {:induction false} RecomputeOne(lex: Lexicon, t: Tables)
    requires OneEvent(t)
    ensures EventsUpTo(t, 0, |t.events|) == [0] && RecomputeAll(lex, t, [0]) == Recomputed(lex, t, 0)
  {
    hide Refs, Recomputed, EffectiveSource;
    assert EventsUpTo(t, 0, 0) == [];
    assert [0][..0] == [];
    assert RecomputeAll(lex, t, []) == Some(t);
  }

  lemma FreshRunOneEvent(lex: Lexicon, wording: string, version: string, ctx: Context)
    requires lex.classify(wording) == NoChange && Sound(lex, IngestedFirst(wording))
    ensures var t := IngestedFirst(wording);
            && Refs(t) && FreshRun(lex, t, 0, version, ctx, 0).Some? &&
                 OneEvent(FreshRun(lex, t, 0, version, ctx, 0).value)
  {
    var t := IngestedFirst(wording);
    assert Refs(t) && NamesNoLocalIn(t, 0);
    hide *;
    FirstAssigned(lex, wording, version, ctx);
    CalmRunSucceeds(lex, t, 0, version, ctx, 0);
    AssignedIsSound(lex, t, 0, version, ctx, 0);
    FreshRunIs(lex, t, 0, version, ctx, 0);
    RecomputeOne(lex, Assigned(lex, t, 0, version, ctx, 0));
    OneEventKept(lex, Assigned(lex, t, 0, version, ctx, 0));
  }

  lemma AssignedIsSound(lex: Lexicon, t: Tables, course: nat, version: string, ctx: Context, now: int)
    requires Sound(lex, t)
    ensures Refs(t) && Sound(lex, Assigned(lex, t, course, version, ctx, now))
  {
    hide *;
    SoundRefs(lex, t);
    AssignedFacts(lex, t, course, version, ctx, now);
    PassedKeeps(lex, t, Assigned(lex, t, course, version, ctx, now), course);
  }

  lemma FreshRunIs(lex: Lexicon, t: Tables, course: nat, version: string, ctx: Context, now: int)
    requires Refs(t)
    ensures var u := Assigned(lex, t, course, version, ctx, now);
            FreshRun(lex, t, course, version, ctx, now) == RecomputeAll(lex, u, EventsUpTo(u, course, |u.events|))
  {
    hide Refs, Assigned, RecomputeAll, EventsUpTo;
  }

  /** The run founds one event. */
  lemma FirstRun(lex: Lexicon, wording: string, version: string, ctx: Context)
    requires lex.classify(wording) == NoChange
    ensures OneEvent(After(lex, Correction(wording, version, ctx)[..2]))
  {
    hide OneEvent, Sound, FreshRun;
    var steps := Correction(wording, version, ctx);
    FirstIngest(lex, wording, version, ctx);
    assert steps[..2][..1] == steps[..1];
    FreshRunOneEvent(lex, wording, version, ctx);
    assert After(lex, steps[..2]) == Stepped(lex, IngestedFirst(wording), steps[1]);
  }

  /** One event as before, and a local claim for its location, in force. */
  ghost predicate Corrected(t: Tables) {
    && Refs(t) && |t.events| == 1 && |t.sources| == 1 && |t.claims| == 2
    && t.claims[0].event == Some(0) && t.claims[0].field == Location && t.claims[0].origin == FromSource(0)
    && t.claims[1].event == Some(0) && t.claims[1].field == Location && t.claims[1].origin.LocalDecision?
    && EffectiveSource(t, 0)
  }

  lemma DecidedByHand(t: Tables)
    requires OneEvent(t)
    ensures var choice := Local(BY_HAND, None, 1.0);
            Refs(t) && NamesNoLocal(t) && FieldRequestOk(t, 0, Location, choice) &&
              Corrected(FieldDecided(t, 0, Location, choice, 1))
  {
    FieldDecidedRefs(t, 0, Location, Local(BY_HAND, None, 1.0), 1);
    EffectiveKept(t, FieldDecided(t, 0, Location, Local(BY_HAND, None, 1.0), 1), 0);
    hide EffectiveSource;
  }

  lemma CorrectedKept(lex: Lexicon, t: Tables)
    requires Corrected(t) && Sound(lex, t)
    ensures Refs(t) && (Recomputed(lex, t, 0).Some? ==> Corrected(Recomputed(lex, t, 0).value))
  {
    hide Recomputed, Sound, Refs, EffectiveSource, InUnit;
    if Recomputed(lex, t, 0).Some? {
      RecomputedRefs(lex, t, 0);
      RecomputedSameBut(lex, t, 0);
      RecomputedRow(lex, t, 0);
      EffectiveKept(t, Recomputed(lex, t, 0).value, 0);
    }
  }

  lemma CorrectedByHand(lex: Lexicon, t: Tables)
    requires OneEvent(t) && Sound(lex, t) && ClockOk(t, 1)
    ensures var u := FieldResolved(lex, t, 0, Location, Local(BY_HAND, None, 1.0), 1);
            u.Some? && Corrected(u.value)
  {
    hide OneEvent, Corrected, Sound, Refs, ClockOk, NamesNoLocal, FieldRequestOk, FieldDecided, Recomputed;
    var choice := Local(BY_HAND, None, 1.0);
    DecidedByHand(t);
    SelectionRaisesExactly(lex, t, 0, Location, choice, 1);
    FieldDecidedSound(lex, t, 0, Location, choice, 1);
    CorrectedKept(lex, FieldDecided(t, 0, Location, choice, 1));
  }

  /** The store the correction meets. */
  lemma BeforeCorrection(lex: Lexicon, wording: string, version: string, ctx: Context)
    requires lex.classify(wording) == NoChange
    ensures var t := After(lex, Correction(wording, version, ctx)[..2]);
            OneEvent(t) && Refs(t) && Sound(lex, t) && ClockOk(t, 1)
  {
    hide *;
    FirstRun(lex, wording, version, ctx);
    FirstTimes(wording, version, ctx);
    HistoryInBounds(lex, Correction(wording, version, ctx)[..2], 1);
    CommittedSound(lex, After(lex, Correction(wording, version, ctx)[..2]));
  }

  lemma FirstTimes(wording: string, version: string, ctx: Context)
    ensures NotAfter(Correction(wording, version, ctx)[..2], 1)
  {
  }

  lemma CorrectionIs(lex: Lexicon, wording: string, version: string, ctx: Context)
    ensures var t := After(lex, Correction(wording, version, ctx)[..2]);
            Refs(t) && (FieldResolved(lex, t, 0, Location, Local(BY_HAND, None, 1.0), 1).Some? ==>
              After(lex, Correction(wording, version, ctx)) ==
                FieldResolved(lex, t, 0, Location, Local(BY_HAND, None, 1.0), 1).value)
  {
    hide FieldResolved, Sound, Refs;
    var steps := Correction(wording, version, ctx);
    assert steps[..|steps| - 1] == steps[..2];
    SoundRefs(lex, After(lex, steps[..2]));
  }

  lemma CorrectionCorrects(lex: Lexicon, wording: string, version: string, ctx: Context)
    requires lex.classify(wording) == NoChange
    ensures Corrected(After(lex, Correction(wording, version, ctx)))
  {
    hide *;
    BeforeCorrection(lex, wording, version, ctx);
    CorrectedByHand(lex, After(lex, Correction(wording, version, ctx)[..2]));
    CorrectionIs(lex, wording, version, ctx);
  }

  lemma CorrectionShows(lex: Lexicon, wording: string, version: string, ctx: Context)
    requires lex.classify(wording) == NoChange
    ensures var t := After(lex, Correction(wording, version, ctx));
            (0, Location) in t.projections && t.projections[(0, Location)] == Projection(1, BY_HAND)
  {
    var choice := Local(BY_HAND, None, 1.0);
    hide *;
    BeforeCorrection(lex, wording, version, ctx);
    var t := After(lex, Correction(wording, version, ctx)[..2]);
    CorrectedByHand(lex, t);
    CorrectionIs(lex, wording, version, ctx);
    LocalDecisionPrevails(lex, t, 0, Location, choice, 1);
    OneEventClaims(t);
  }

  lemma OneEventClaims(t: Tables)
    requires OneEvent(t)
    ensures |t.claims| == 1
  {
  }

  lemma CorrectionDisciplined(lex: Lexicon, wording: string, version: string, ctx: Context)
    ensures var steps := Correction(wording, version, ctx); Disciplined(lex, steps) && NotAfter(steps, 2)
  {
    hide After;
    var steps := Correction(wording, version, ctx);
    assert |steps| == 3 && forall i :: 0 <= i < 3 ==> !(steps[i].DecideField? && steps[i].choice.Existing?);
  }

  /** After one extraction, one run and one correction by hand the event shows the local value, and confirming it by
      selecting its claim is a valid request that raises; for every lexicon, resolver version and context. */
  lemma ReselectingLocalClaimRaises(lex: Lexicon, wording: string, version: string, ctx: Context)
    requires lex.classify(wording) == NoChange
    ensures var t := After(lex, Correction(wording, version, ctx));
            && (0, Location) in t.projections && t.projections[(0, Location)] == Projection(1, BY_HAND)
            && FieldRequestOk(t, 0, Location, Existing(1))
            && Refs(t) && Outcome(lex, t, DecideField(0, Location, Existing(1), 2)).None?
  {
    hide *;
    CorrectionCorrects(lex, wording, version, ctx);
    CorrectionDisciplined(lex, wording, version, ctx);
    HistoryRaisesExactly(lex, Correction(wording, version, ctx), 0, Location, Existing(1), 2);
    CorrectionShows(lex, wording, version, ctx);
    CorrectedMeets(After(lex, Correction(wording, version, ctx)));
  }

  /** A corrected event meets the condition of the error. */
  lemma CorrectedMeets(t: Tables)
    requires Corrected(t)
    ensures Refs(t) && FieldRequestOk(t, 0, Location, Existing(1)) && HasCurrentClaim(t, 0, Location)
    ensures t.claims[1].origin.LocalDecision?
  {
    hide EffectiveSource, Refs;
    assert t.claims[0].event == Some(0);
  }
}
