/** Whole histories: any interleaving of new extractions, reconciliation runs and manual decisions, starting
    from the empty store. A step that is refused or raises is rolled back. */
module Histories {
  import opened Basics
  import opened Matching
  import opened Grouping
  import opened EventTables
  import opened Recompute
  import opened RecomputeFacts
  import opened RecomputeSound
  import opened Reconcile
  import opened ReconcileSound
  import opened Titles
  import opened RunSound
  import opened Manual
  import opened ManualSound
  import opened ManualPrevails
  import opened Supersession
  import opened RunRaises

  datatype Step =
    | Ingest(extraction: Extraction, candidates: seq<Candidate>)
    | ReconcileCourse(course: nat, version: string, ctx: Context, now: int)
    | DecideField(event: nat, field: Field, choice: Choice, at: int)
    | DecideIdentity(source: nat, target: nat)

  /** A finished extraction with its candidates; the schema refuses malformed candidates. */
  ghost function Ingested(t: Tables, x: Extraction, cs: seq<Candidate>): Tables {
    if forall i :: 0 <= i < |cs| ==> CandidateOk(cs[i]) && cs[i].extraction == |t.extractions|
    then t.(extractions := t.extractions + [x], candidates := t.candidates + cs)
    else t
  }

  /** The outcome of a step; `None` if it is refused or raises. */
  ghost function Outcome(lex: Lexicon, t: Tables, step: Step): Option<Tables>
    requires Refs(t)
  {
    match step
    case Ingest(x, cs) => Some(Ingested(t, x, cs))
    case ReconcileCourse(course, version, ctx, now) => Reconciled(lex, t, course, version, ctx, now)
    case DecideField(e, f, choice, at) => FieldResolved(lex, t, e, f, choice, at)
    case DecideIdentity(s, e) => IdentityResolved(lex, t, s, e)
  }

  ghost function Stepped(lex: Lexicon, t: Tables, step: Step): Tables
    requires Refs(t)
  {
    if Outcome(lex, t, step).Some? then Outcome(lex, t, step).value else t
  }

  lemma IngestedCommitted(lex: Lexicon, t: Tables, x: Extraction, cs: seq<Candidate>)
    requires Committed(lex, t)
    ensures Committed(lex, Ingested(t, x, cs)) && Keeps(t, Ingested(t, x, cs))
  {
    var u := Ingested(t, x, cs);
    IngestedRefs(t, x, cs);
    IngestedEvidence(lex, t, x, cs);
    CarriedOver(lex, t, u);
    ManualCarriedOver(lex, t, u);
    hide SourcesOk, ClaimsOk, EdgesOk, ConflictsOk, ManualFieldsOk, ManualIdentitiesOk, CandidatesOk;
  }

  lemma IngestedRefs(t: Tables, x: Extraction, cs: seq<Candidate>)
    requires Refs(t)
    ensures Refs(Ingested(t, x, cs)) && Keeps(t, Ingested(t, x, cs))
  {
    hide CandidateOk;
  }

  lemma IngestedEvidence(lex: Lexicon, t: Tables, x: Extraction, cs: seq<Candidate>)
    requires Refs(t) && SourcesOk(lex, t) && ClaimsOk(t) && CandidatesOk(t) && Refs(Ingested(t, x, cs))
    ensures var u := Ingested(t, x, cs); SourcesOk(lex, u) && ClaimsOk(u) && CandidatesOk(u)
  {
    hide WellFormed, IsField, CandidateOk;
    var u := Ingested(t, x, cs);
    forall r | 0 <= r < |u.sources| ensures SourceOk(lex, u, r) { assert SourceOk(lex, t, r); }
    forall c | 0 <= c < |u.claims| ensures ClaimOk(u, c) { assert ClaimOk(t, c); }
  }

  /** Every step commits a sound state and rewrites nothing. */
  lemma SteppedFacts(lex: Lexicon, t: Tables, step: Step)
    requires Committed(lex, t)
    ensures Refs(t) && Committed(lex, Stepped(lex, t, step)) && Keeps(t, Stepped(lex, t, step))
  {
    SoundRefs(lex, t);
    hide Committed, Keeps, Refs, FreshRun, FieldResolved, IdentityResolved, Ingested;
    KeepsReflexive(t);
    match step
    case Ingest(x, cs) => IngestedCommitted(lex, t, x, cs);
    case ReconcileCourse(course, version, ctx, now) =>
      if !Cached(t, course, version) && FreshRun(lex, t, course, version, ctx, now).Some? {
        FreshRunFacts(lex, t, course, version, ctx, now);
      }
    case DecideField(e, f, choice, at) =>
      if FieldResolved(lex, t, e, f, choice, at).Some? {
        FieldResolvedFacts(lex, t, e, f, choice, at);
      }
    case DecideIdentity(s, e) =>
      if IdentityResolved(lex, t, s, e).Some? {
        IdentityResolvedFacts(lex, t, s, e);
      }
  }

  /** The store after a history. */
  ghost function After(lex: Lexicon, steps: seq<Step>): (t: Tables)
    ensures Committed(lex, t)
    decreases |steps|
  {
    if steps == [] then
      EmptyCommitted(lex);
      EMPTY
    else
      var before := After(lex, steps[..|steps| - 1]);
      SteppedFacts(lex, before, steps[|steps| - 1]);
      Stepped(lex, before, steps[|steps| - 1])
  }

  lemma EmptyCommitted(lex: Lexicon)
    ensures Committed(lex, EMPTY)
  {
  }

  // ----- safety of every history

  /** Histories only append: a source is bound to at most one event for ever, claims follow it, evidence and
      supersession edges stay. */
  lemma {:induction false} HistoryOnlyAppends(lex: Lexicon, steps: seq<Step>, n: nat)
    requires n <= |steps|
    ensures Keeps(After(lex, steps[..n]), After(lex, steps))
    decreases |steps| - n
  {
    hide Keeps, Committed;
    if n == |steps| {
      assert steps[..n] == steps;
      KeepsReflexive(After(lex, steps));
    } else {
      var next := steps[..n + 1];
      assert next[..n] == steps[..n];
      SteppedFacts(lex, After(lex, steps[..n]), steps[n]);
      assert After(lex, next) == Stepped(lex, After(lex, steps[..n]), steps[n]);
      HistoryOnlyAppends(lex, steps, n + 1);
      KeepsTransitive(After(lex, steps[..n]), After(lex, next), After(lex, steps));
    }
  }

  /** In every history the supersession relation is acyclic, and every successor is an explicit change. */
  lemma HistoryAcyclic(lex: Lexicon, steps: seq<Step>)
    ensures var t := After(lex, steps);
            && Refs(t) && Acyclic(t.supersessions)
            && forall a, b :: (a, b) in t.supersessions ==>
                 && a < |t.claims| && b < |t.claims| && t.claims[a].event == t.claims[b].event
                 && t.claims[a].field == t.claims[b].field && Explicit(t, a)
                 && (Explicit(t, b) ==> Above(RowOf(t, a), RowOf(t, b)))
  {
    var t := After(lex, steps);
    SoundParts(lex, t);
    SupersessionAcyclic(t);
    forall a, b | (a, b) in t.supersessions ensures EdgeOk(t, a, b) {}
    hide Committed, Sound, Refs, RowOf, After, Acyclic;
  }

  /** MATCHED is bound, the event is in the source's course, and a bound source has no possible matches. */
  ghost predicate BindingConsistent(t: Tables, s: nat)
    requires Refs(t) && s < |t.sources|
  {
    var source := t.sources[s];
    && (source.state.Matched? <==> source.event.Some?)
    && (source.event.Some? ==> t.events[source.event.value].course == source.course)
    && (source.event.Some? ==> forall e :: (s, e) !in t.possible)
  }

  lemma BindingsConsistent(lex: Lexicon, t: Tables, s: nat)
    requires Sound(lex, t) && s < |t.sources|
    ensures Refs(t) && BindingConsistent(t, s)
  {
    SoundParts(lex, t);
    assert SourceOk(lex, t, s);
    hide Sound, Refs;
  }

  lemma ClaimsFollow(lex: Lexicon, t: Tables, c: nat)
    requires Sound(lex, t) && c < |t.claims| && t.claims[c].origin.FromSource?
    ensures t.claims[c].origin.source < |t.sources| && t.claims[c].event == t.sources[t.claims[c].origin.source].event
  {
    SoundParts(lex, t);
    assert ClaimOk(t, c);
    hide Sound, WellFormed, IsField;
  }

  lemma IdentitiesAgree(lex: Lexicon, t: Tables, m: nat)
    requires Sound(lex, t) && m < |t.manualIdentities|
    ensures t.manualIdentities[m].source < |t.sources|
    ensures t.sources[t.manualIdentities[m].source].event == Some(t.manualIdentities[m].event)
  {
    hide ClaimsOk, SourcesOk, EdgesOk;
  }

  /** In every history identity is consistent: bindings as above, claims follow their source, and every manual
      identity agrees with the binding. */
  lemma HistoryIdentity(lex: Lexicon, steps: seq<Step>)
    ensures var t := After(lex, steps);
            && Refs(t)
            && (forall s :: 0 <= s < |t.sources| ==> BindingConsistent(t, s))
            && (forall c :: 0 <= c < |t.claims| && t.claims[c].origin.FromSource? ==>
                  t.claims[c].event == t.sources[t.claims[c].origin.source].event)
            && (forall m :: 0 <= m < |t.manualIdentities| ==>
                  t.sources[t.manualIdentities[m].source].event == Some(t.manualIdentities[m].event))
  {
    hide Sound, Refs, After, BindingConsistent;
    var t := After(lex, steps);
    SoundRefs(lex, t);
    forall s | 0 <= s < |t.sources| { BindingsConsistent(lex, t, s); }
    forall c | 0 <= c < |t.claims| && t.claims[c].origin.FromSource?
      ensures t.claims[c].origin.source < |t.sources| && t.claims[c].event == t.sources[t.claims[c].origin.source].event
    {
      ClaimsFollow(lex, t, c);
    }
    forall m | 0 <= m < |t.manualIdentities|
      ensures t.manualIdentities[m].source < |t.sources| &&
              t.sources[t.manualIdentities[m].source].event == Some(t.manualIdentities[m].event)
    {
      IdentitiesAgree(lex, t, m);
    }
  }

  // ----- titles

  /** No manual identity was ever recorded, titles are shared, and no conflict ever concerned a title. */
  ghost predicate TitlesQuiet(lex: Lexicon, t: Tables) {
    && t.manualIdentities == [] && TitlesShared(lex, t)
    && forall k :: 0 <= k < |t.conflicts| ==> !t.conflicts[k].field.Title?
  }

  lemma TitlesByEvidence(lex: Lexicon, t: Tables, u: Tables)
    requires TitlesShared(lex, t) && |u.claims| == |t.claims|
    requires forall c :: 0 <= c < |t.claims| ==> u.claims[c] == t.claims[c].(state := u.claims[c].state)
    ensures TitlesShared(lex, u)
  {
    forall c | 0 <= c < |t.claims|
      ensures IsTitleClaim(u, c) == IsTitleClaim(t, c) && TitleOf(lex, u, c) == TitleOf(lex, t, c) {}
    hide TitleOf;
  }

  lemma RecomputedQuiet(lex: Lexicon, t: Tables, e: nat)
    requires Sound(lex, t) && e < |t.events| && Recomputed(lex, t, e).Some? && TitlesQuiet(lex, t)
    ensures TitlesQuiet(lex, Recomputed(lex, t, e).value)
  {
    ExpireSound(lex, t, e);
    ExpireEvents(lex, t, e);
    var x := Expire(lex, t, e);
    assert x.manualIdentities == [] && x.conflicts == t.conflicts;
    TitlesByEvidence(lex, t, x);
    TitleNeverContested(lex, x, e);
    SettleEvidence(lex, x, e, CANONICAL);
    var u := Settle(lex, x, e, CANONICAL);
    TitlesByEvidence(lex, x, u);
    forall k | 0 <= k < |u.conflicts| ensures !u.conflicts[k].field.Title? {
      if k >= |x.conflicts| {
        NewConflictAt(lex, x, e, CANONICAL, k - |x.conflicts|);
      }
    }
    EventRowEvidence(u, e);
    TitlesByEvidence(lex, u, WithEventRow(u, e));
    hide Sound, Refs, TitlesShared, OutcomeOf, Expire, StatesAfter, ProjectionsAfter, NewEdges, NewConflicts,
      EventRow;
  }

  lemma {:induction false} RecomputeAllQuiet(lex: Lexicon, t: Tables, es: seq<nat>)
    requires Sound(lex, t) && (forall i :: 0 <= i < |es| ==> es[i] < |t.events|) && TitlesQuiet(lex, t)
    ensures Refs(t) && (RecomputeAll(lex, t, es).Some? ==> TitlesQuiet(lex, RecomputeAll(lex, t, es).value))
    decreases |es|
  {
    hide Sound, Refs, Recomputed, TitlesQuiet, Keeps;
    SoundRefs(lex, t);
    if es != [] {
      var n := |es| - 1;
      RecomputeAllQuiet(lex, t, es[..n]);
      RecomputeAllSound(lex, t, es[..n]);
      var before := RecomputeAll(lex, t, es[..n]);
      if before.Some? && Recomputed(lex, before.value, es[n]).Some? {
        RecomputedQuiet(lex, before.value, es[n]);
      }
    }
  }

  lemma SteppedQuiet(lex: Lexicon, t: Tables, step: Step)
    requires Committed(lex, t) && TitlesQuiet(lex, t) && !step.DecideIdentity?
    ensures Refs(t) && TitlesQuiet(lex, Stepped(lex, t, step))
  {
    hide Sound, Refs, Recomputed, TitlesShared, Keeps, Assigned, RecomputeAll;
    SoundRefs(lex, t);
    match step
    case Ingest(x, cs) => TitlesByEvidence(lex, t, Ingested(t, x, cs));
    case ReconcileCourse(course, version, ctx, now) =>
      AssignedFacts(lex, t, course, version, ctx, now);
      var u := Assigned(lex, t, course, version, ctx, now);
      PassedKeeps(lex, t, u, course);
      RecomputeAllQuiet(lex, u, EventsUpTo(u, course, |u.events|));
    case DecideField(e, f, choice, at) =>
      if FieldResolved(lex, t, e, f, choice, at).Some? {
        FieldDecidedSound(lex, t, e, f, choice, at);
        DecidedTitles(lex, t, e, f, choice, at);
        RecomputedQuiet(lex, FieldDecided(t, e, f, choice, at), e);
      }
  }

  lemma DecidedTitles(lex: Lexicon, t: Tables, e: nat, f: Field, choice: Choice, at: int)
    requires TitlesShared(lex, t)
    ensures TitlesShared(lex, FieldDecided(t, e, f, choice, at))
  {
    var u := FieldDecided(t, e, f, choice, at);
    forall c | 0 <= c < |u.claims| && IsTitleClaim(u, c)
      ensures c < |t.claims| && IsTitleClaim(t, c) && u.claims[c] == t.claims[c] &&
        TitleOf(lex, u, c) == TitleOf(lex, t, c) {}
    hide TitleOf;
  }

  /** Without manual identity decisions, whatever else happens, all title claims bound to one event share one
      title identity, and no title is ever in conflict. */
  lemma {:induction false} HistoryTitles(lex: Lexicon, steps: seq<Step>)
    requires forall i :: 0 <= i < |steps| ==> !steps[i].DecideIdentity?
    ensures TitlesQuiet(lex, After(lex, steps))
    decreases |steps|
  {
    hide Committed, TitlesQuiet, Stepped;
    if steps == [] {
      EmptyQuiet(lex);
    } else {
      HistoryTitles(lex, steps[..|steps| - 1]);
      SteppedQuiet(lex, After(lex, steps[..|steps| - 1]), steps[|steps| - 1]);
    }
  }

  lemma EmptyQuiet(lex: Lexicon)
    ensures TitlesQuiet(lex, EMPTY)
  {
  }

  // ----- a disciplined user never meets the error

  lemma NamesNoLocalKept(t: Tables, u: Tables)
    requires Refs(t) && Refs(u) && Keeps(t, u) && |u.manualFields| == |t.manualFields| && NamesNoLocal(t)
    ensures NamesNoLocal(u)
  {
    forall m | 0 <= m < |u.manualFields| && !u.manualFields[m].local
      ensures u.claims[u.manualFields[m].claim].origin.FromSource?
    {
      assert !t.manualFields[m].local;
    }
  }

  lemma RecomputedDecisions(lex: Lexicon, t: Tables, e: nat)
    requires Refs(t) && e < |t.events| && Recomputed(lex, t, e).Some?
    ensures |Recomputed(lex, t, e).value.manualFields| == |t.manualFields|
  {
    hide Refs, StateOf, ProjectionsAfter, NewConflicts, NewEdges, EventRow, Blocked, ExpiredField, ExpiredIdentity;
  }

  lemma {:induction false} RecomputeAllNeverRaises(lex: Lexicon, t: Tables, es: seq<nat>)
    requires Sound(lex, t) && (forall i :: 0 <= i < |es| ==> es[i] < |t.events|) && Refs(t) && NamesNoLocal(t)
    ensures var u := RecomputeAll(lex, t, es);
            u.Some? && Refs(u.value) && NamesNoLocal(u.value)
    decreases |es|
  {
    hide Sound, Refs, Recomputed, NamesNoLocal, Keeps;
    if es != [] {
      var n := |es| - 1;
      RecomputeAllNeverRaises(lex, t, es[..n]);
      RecomputeAllSound(lex, t, es[..n]);
      var before := RecomputeAll(lex, t, es[..n]).value;
      DisciplineNeverRaises(lex, before, es[n]);
      RecomputedSound(lex, before, es[n]);
      RecomputedRefs(lex, before, es[n]);
      RecomputedDecisions(lex, before, es[n]);
      NamesNoLocalKept(before, Recomputed(lex, before, es[n]).value);
    }
  }

  /** A request the caller can see to be harmless: it does not select a local claim as an existing one. */
  ghost predicate SelectsSource(t: Tables, step: Step) {
    step.DecideField? && step.choice.Existing? && step.choice.claim < |t.claims| ==>
      t.claims[step.choice.claim].origin.FromSource?
  }

  /** A request that makes sense: an event the store knows, a claim of that event and field or a well-formed value, a
      source of the same course that is not bound to another event. */
  ghost predicate MakesSense(t: Tables, step: Step) {
    match step
    case DecideField(e, f, Existing(c), _) =>
      f in CANONICAL && e < |t.events| && c < |t.claims| && t.claims[c].event == Some(e) && t.claims[c].field == f
    case DecideField(e, f, Local(value, precision, confidence), _) =>
      f in CANONICAL && e < |t.events| && WellFormed(f, value, precision) && 0.0 <= confidence <= 1.0
    case DecideIdentity(s, e) =>
      && s < |t.sources| && e < |t.events| && t.events[e].course == t.sources[s].course
      && forall other :: t.sources[s].event == Some(other) ==> other == e
    case _ => true
  }

  lemma SteppedDisciplined(lex: Lexicon, t: Tables, step: Step)
    requires Committed(lex, t) && Refs(t) && NamesNoLocal(t) && SelectsSource(t, step)
    ensures MakesSense(t, step) <==> Outcome(lex, t, step).Some?
    ensures Refs(Stepped(lex, t, step)) && NamesNoLocal(Stepped(lex, t, step))
  {
    hide Sound, Refs, Recomputed, NamesNoLocal, Keeps, Assigned, RecomputeAll, FieldDecided, IdentityRecorded, Bind;
    match step
    case Ingest(x, cs) =>
      IngestedCommitted(lex, t, x, cs);
      SoundRefs(lex, Ingested(t, x, cs));
      NamesNoLocalKept(t, Ingested(t, x, cs));
    case ReconcileCourse(course, version, ctx, now) =>
      AssignedFacts(lex, t, course, version, ctx, now);
      var u := Assigned(lex, t, course, version, ctx, now);
      PassedKeeps(lex, t, u, course);
      NamesNoLocalKept(t, u);
      RecomputeAllNeverRaises(lex, u, EventsUpTo(u, course, |u.events|));
    case DecideField(e, f, choice, at) =>
      if FieldRequestOk(t, e, f, choice) {
        var d := FieldDecided(t, e, f, choice, at);
        FieldDecidedSound(lex, t, e, f, choice, at);
        FieldDecidedDisciplined(t, e, f, choice, at);
        DisciplineNeverRaises(lex, d, e);
        RecomputedSound(lex, d, e);
        RecomputedRefs(lex, d, e);
        RecomputedDecisions(lex, d, e);
        NamesNoLocalKept(d, Recomputed(lex, d, e).value);
      }
    case DecideIdentity(s, e) =>
      if IdentityRequestOk(t, s, e) {
        var b := Bind(t, s, e);
        SoundParts(lex, t);
        BindSound(lex, t, s, e);
        BindKeeps(t, s, e);
        BoundSource(t, s, e);
        IdentityRecordedSound(lex, b, s, e);
        var d := IdentityRecorded(b, s, e);
        SoundRefs(lex, d);
        KeepsTransitive(t, b, d);
        IdentityDecisions(t, s, e);
        NamesNoLocalKept(t, d);
        DisciplineNeverRaises(lex, d, e);
        RecomputedSound(lex, d, e);
        RecomputedRefs(lex, d, e);
        RecomputedDecisions(lex, d, e);
        NamesNoLocalKept(d, Recomputed(lex, d, e).value);
      }
  }

  lemma BoundSource(t: Tables, s: nat, e: nat)
    requires s < |t.sources|
    ensures var b := Bind(t, s, e); |b.sources| == |t.sources| && b.sources[s].event == Some(e)
  {
  }

  lemma IdentityDecisions(t: Tables, s: nat, e: nat)
    requires s < |t.sources|
    ensures IdentityRecorded(Bind(t, s, e), s, e).manualFields == t.manualFields
    ensures IdentityRecorded(Bind(t, s, e), s, e).events == t.events
  {
  }

  lemma FieldDecidedDisciplined(t: Tables, e: nat, f: Field, choice: Choice, at: int)
    requires Refs(t) && NamesNoLocal(t) && FieldRequestOk(t, e, f, choice)
    requires choice.Existing? ==> t.claims[choice.claim].origin.FromSource?
    ensures var d := FieldDecided(t, e, f, choice, at);
            Refs(d) && NamesNoLocal(d) && d.events == t.events
  {
    FieldDecidedRefs(t, e, f, choice, at);
    var d := FieldDecided(t, e, f, choice, at);
    forall m | 0 <= m < |d.manualFields| && !d.manualFields[m].local
      ensures d.claims[d.manualFields[m].claim].origin.FromSource?
    {
      if m < |t.manualFields| {
        assert !t.manualFields[m].local;
      }
    }
  }

  /** If no step of a history selects a local claim as an existing one, no run raises, and of the requests that do not
      do so either exactly those that make sense succeed. */
  lemma {:induction false} HistoryNeverRaises(lex: Lexicon, steps: seq<Step>)
    requires forall i :: 0 <= i < |steps| ==> SelectsSource(After(lex, steps[..i]), steps[i])
    ensures var t := After(lex, steps);
            && Refs(t) && NamesNoLocal(t)
            && forall step :: SelectsSource(t, step) ==> (MakesSense(t, step) <==> Outcome(lex, t, step).Some?)
    decreases |steps|
  {
    hide Refs, NamesNoLocal, SelectsSource, Stepped, MakesSense, Outcome, Sound;
    var t := After(lex, steps);
    SoundRefs(lex, t);
    if steps == [] {
      EmptyDisciplined();
    } else {
      var n := |steps| - 1;
      var before := steps[..n];
      forall i | 0 <= i < |before| ensures SelectsSource(After(lex, before[..i]), before[i]) {
        assert before[..i] == steps[..i];
      }
      HistoryNeverRaises(lex, before);
      SteppedDisciplined(lex, After(lex, before), steps[n]);
    }
    forall step | SelectsSource(t, step) ensures MakesSense(t, step) <==> Outcome(lex, t, step).Some? {
      SteppedDisciplined(lex, t, step);
    }
  }

  lemma EmptyDisciplined()
    ensures Refs(EMPTY) && NamesNoLocal(EMPTY)
  {
  }

  // ----- evidence is complete

  lemma RecomputedClaimed(lex: Lexicon, t: Tables, e: nat)
    requires Sound(lex, t) && e < |t.events| && Recomputed(lex, t, e).Some?
    ensures Refs(t) && Refs(Recomputed(lex, t, e).value)
    ensures Claimed(t) ==> Claimed(Recomputed(lex, t, e).value)
  {
    hide Sound, Refs, Recomputed, Claimed, Keeps;
    SoundRefs(lex, t);
    RecomputedSound(lex, t, e);
    RecomputedRefs(lex, t, e);
    RecomputedSameBut(lex, t, e);
    if Claimed(t) {
      ClaimedKept(t, Recomputed(lex, t, e).value);
    }
  }

  lemma {:induction false} RecomputeAllClaimed(lex: Lexicon, t: Tables, es: seq<nat>)
    requires Sound(lex, t) && forall i :: 0 <= i < |es| ==> es[i] < |t.events|
    ensures Refs(t)
    ensures Claimed(t) && RecomputeAll(lex, t, es).Some? ==> Claimed(RecomputeAll(lex, t, es).value)
    decreases |es|
  {
    hide Sound, Refs, Recomputed, Claimed, Keeps;
    SoundRefs(lex, t);
    if es != [] {
      var n := |es| - 1;
      RecomputeAllClaimed(lex, t, es[..n]);
      RecomputeAllSound(lex, t, es[..n]);
      var before := RecomputeAll(lex, t, es[..n]);
      if before.Some? && Recomputed(lex, before.value, es[n]).Some? {
        RecomputedClaimed(lex, before.value, es[n]);
      }
    }
  }

  lemma RunClaimed(lex: Lexicon, t: Tables, course: nat, version: string, ctx: Context, now: int)
    requires Committed(lex, t)
    ensures Refs(t)
    ensures Claimed(t) && Reconciled(lex, t, course, version, ctx, now).Some? ==>
              var u := Reconciled(lex, t, course, version, ctx, now).value; Refs(u) && Claimed(u)
  {
    hide Sound, Refs, Claimed, Keeps, Assigned, RecomputeAll, OnlyCourse, TitlesShared, Audited, Cached,
      FingerprintOf;
    SoundRefs(lex, t);
    AssignedFacts(lex, t, course, version, ctx, now);
    var u := Assigned(lex, t, course, version, ctx, now);
    PassedKeeps(lex, t, u, course);
    RecomputeAllClaimed(lex, u, EventsUpTo(u, course, |u.events|));
  }

  lemma DecisionClaimed(lex: Lexicon, t: Tables, e: nat, f: Field, choice: Choice, now: int)
    requires Committed(lex, t) && FieldRequestOk(t, e, f, choice)
    ensures Refs(t) && Refs(FieldDecided(t, e, f, choice, now)) && e < |FieldDecided(t, e, f, choice, now).events|
    ensures Claimed(t) ==> Claimed(FieldDecided(t, e, f, choice, now))
  {
    hide Sound, Refs, Claimed, Keeps;
    SoundRefs(lex, t);
    FieldDecidedSound(lex, t, e, f, choice, now);
    FieldDecidedKeeps(t, e, f, choice, now);
    if Claimed(t) {
      ClaimedKept(t, FieldDecided(t, e, f, choice, now));
    }
  }

  lemma IdentityClaimed(lex: Lexicon, t: Tables, s: nat, e: nat)
    requires Committed(lex, t) && IdentityRequestOk(t, s, e)
    ensures var d := IdentityRecorded(Bind(t, s, e), s, e);
            Refs(t) && Refs(d) && e < |d.events| && Sound(lex, d) && (Claimed(t) ==> Claimed(d))
  {
    hide Sound, Refs, Claimed, Keeps, Committed;
    CommittedSound(lex, t);
    BindSound(lex, t, s, e);
    BindKeeps(t, s, e);
    var b := Bind(t, s, e);
    IdentityRecordedSound(lex, b, s, e);
    var d := IdentityRecorded(b, s, e);
    SoundRefs(lex, d);
    KeepsTransitive(t, b, d);
    if Claimed(t) {
      ClaimedKept(t, d);
    }
  }

  lemma CommittedSound(lex: Lexicon, t: Tables)
    requires Committed(lex, t)
    ensures Sound(lex, t) && Refs(t) && ClaimsOk(t)
  {
  }

  lemma SteppedClaimed(lex: Lexicon, t: Tables, step: Step)
    requires Committed(lex, t) && Refs(t) && Claimed(t)
    ensures Refs(Stepped(lex, t, step)) && Claimed(Stepped(lex, t, step))
  {
    hide Sound, Refs, Claimed, Keeps, Reconciled, Recomputed, Committed, FieldDecided, Bind, IdentityRecorded;
    CommittedSound(lex, t);
    SteppedFacts(lex, t, step);
    CommittedSound(lex, Stepped(lex, t, step));
    match step
    case Ingest(x, cs) => ClaimedKept(t, Ingested(t, x, cs));
    case ReconcileCourse(course, version, ctx, now) => RunClaimed(lex, t, course, version, ctx, now);
    case DecideField(e, f, choice, at) =>
      if FieldResolved(lex, t, e, f, choice, at).Some? {
        DecisionClaimed(lex, t, e, f, choice, at);
        FieldDecidedSound(lex, t, e, f, choice, at);
        RecomputedClaimed(lex, FieldDecided(t, e, f, choice, at), e);
      }
    case DecideIdentity(s, e) =>
      if IdentityResolved(lex, t, s, e).Some? {
        IdentityClaimed(lex, t, s, e);
        RecomputedClaimed(lex, IdentityRecorded(Bind(t, s, e), s, e), e);
      }
  }

  /** In every history the claims of a source are exactly the fields of its candidate, one each. */
  lemma {:induction false} HistoryClaims(lex: Lexicon, steps: seq<Step>)
    ensures var t := After(lex, steps);
            && Refs(t) && Claimed(t)
            && (forall c :: 0 <= c < |t.claims| && t.claims[c].origin.FromSource? ==>
                  t.claims[c].origin.source < |t.sources| &&
                    IsField(CandidateOf(t, t.claims[c].origin.source), t.claims[c]))
    decreases |steps|
  {
    hide Claimed, Committed, Stepped, IsField;
    var t := After(lex, steps);
    CommittedSound(lex, t);
    SourceClaimsAreFields(t);
    if steps == [] {
      EmptyClaimed();
    } else {
      var before := steps[..|steps| - 1];
      HistoryClaims(lex, before);
      SteppedClaimed(lex, After(lex, before), steps[|steps| - 1]);
    }
  }

  lemma EmptyClaimed()
    ensures Refs(EMPTY) && Claimed(EMPTY)
  {
  }

  lemma SourceClaimsAreFields(t: Tables)
    requires Refs(t) && ClaimsOk(t)
    ensures forall c :: 0 <= c < |t.claims| && t.claims[c].origin.FromSource? ==>
              t.claims[c].origin.source < |t.sources| && IsField(CandidateOf(t, t.claims[c].origin.source), t.claims[c])
  {
    hide IsField, WellFormed;
    forall c | 0 <= c < |t.claims| && t.claims[c].origin.FromSource?
      ensures t.claims[c].origin.source < |t.sources| && IsField(CandidateOf(t, t.claims[c].origin.source), t.claims[c])
    {
      assert ClaimOk(t, c);
    }
  }
}
