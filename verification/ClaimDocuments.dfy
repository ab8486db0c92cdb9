/** Which claims the search index should hold (index/fts.py:417-453): the active source claims, as a function of the
    event store. An extraction retires documents and marks nothing; runs and decisions change documents of one
    course only.

    What a document says of its claim is an arbitrary function of the claim row. */
module ClaimDocuments {
  import opened Basics
  import opened Matching
  import opened EventTables
  import opened Recompute
  import opened RecomputeFacts
  import opened RecomputeSound
  import opened Reconcile
  import opened RunSound
  import opened RunRaises
  import opened RunSteps
  import opened Manual
  import opened ManualSound
  import opened Histories
  import opened SearchDocuments

  /** The resource a claim is located in, and the text of its document. */
  type Rendering = (nat, Claim) -> (Option<nat>, string)

  predicate Documented(t: Tables, c: nat)
    requires Refs(t)
  {
    c < |t.claims| && t.claims[c].origin.FromSource? && ActiveClaim(t, c)
  }

  function ClaimDocument(t: Tables, render: Rendering, c: nat): Document
    requires Refs(t) && c < |t.claims| && t.claims[c].origin.FromSource?
  {
    var (resource, body) := render(c, t.claims[c]);
    Document(ClaimDoc, c, "metadata", t.sources[t.claims[c].origin.source].course, resource, body)
  }

  /** The claim documents a rebuild inserts. */
  ghost function ClaimDocs(t: Tables, render: Rendering): set<Document>
    requires Refs(t)
  {
    set c | 0 <= c < |t.claims| && Documented(t, c) :: ClaimDocument(t, render, c)
  }

  /** The document of the claim it is about. */
  ghost predicate DocumentOf(t: Tables, render: Rendering, d: Document)
    requires Refs(t)
  {
    Documented(t, d.entity) && d == ClaimDocument(t, render, d.entity)
  }

  lemma InClaimDocs(t: Tables, render: Rendering, d: Document)
    requires Refs(t)
    ensures d in ClaimDocs(t, render) <==> DocumentOf(t, render, d)
  {
    if DocumentOf(t, render, d) {
      assert Documented(t, d.entity);
    }
  }

  // ----- a new extraction

  /** `x` would replace the extraction of source `s`. */
  predicate ReplacesSource(t: Tables, x: Extraction, s: nat)
    requires Refs(t) && s < |t.sources|
  {
    var replaced := t.extractions[t.candidates[t.sources[s].candidate].extraction];
    x.usable && x.input == replaced.input && x.extractor == replaced.extractor
  }

  /** No manual decision in force speaks for the source. */
  predicate Unselected(t: Tables, s: nat)
    requires Refs(t)
  {
    !IdentityChosen(t, s) && !SomeClaimSelected(t, s)
  }

  /** The candidates of the extraction are refused as a whole or accepted as a whole. */
  ghost predicate Accepts(t: Tables, cs: seq<Candidate>) {
    forall i :: 0 <= i < |cs| ==> CandidateOk(cs[i]) && cs[i].extraction == |t.extractions|
  }

  lemma EffectiveAfter(t: Tables, u: Tables, x: Extraction, s: nat)
    requires Refs(t) && Refs(u) && s < |t.sources| && u.sources == t.sources && t.candidates <= u.candidates
    requires u.extractions == t.extractions + [x]
    ensures EffectiveSource(u, s) <==> EffectiveSource(t, s) && !ReplacesSource(t, x, s)
  {
    var y := t.candidates[t.sources[s].candidate].extraction;
    assert u.candidates[u.sources[s].candidate].extraction == y;
    assert u.extractions[|t.extractions|] == x;
    assert forall z :: 0 <= z < |t.extractions| ==> u.extractions[z] == t.extractions[z];
    hide Refs;
    if EffectiveSource(t, s) && !ReplacesSource(t, x, s) {
      forall z | y < z < |u.extractions| && u.extractions[z].usable
        ensures u.extractions[z].input != u.extractions[y].input ||
          u.extractions[z].extractor != u.extractions[y].extractor
      {
        assert z < |t.extractions| ==> t.extractions[z].usable;
      }
    }
    if EffectiveSource(u, s) {
      forall z | y < z < |t.extractions| && t.extractions[z].usable
        ensures t.extractions[z].input != t.extractions[y].input ||
          t.extractions[z].extractor != t.extractions[y].extractor
      {
        assert u.extractions[z].usable;
      }
    }
  }

  /** A source claim that is active stays so unless its extraction is replaced and no decision speaks for it. */
  lemma ActiveAfter(t: Tables, u: Tables, x: Extraction, c: nat)
    requires Refs(t) && Refs(u) && c < |t.claims| && t.claims[c].origin.FromSource?
    requires u.sources == t.sources && u.claims == t.claims && t.candidates <= u.candidates &&
      u.extractions == t.extractions + [x]
    requires u.manualFields == t.manualFields && u.manualIdentities == t.manualIdentities
    ensures var s := t.claims[c].origin.source;
            ActiveClaim(u, c) <==> ActiveClaim(t, c) && !(ReplacesSource(t, x, s) && Unselected(t, s))
  {
    var s := t.claims[c].origin.source;
    EffectiveAfter(t, u, x, s);
    hide EffectiveSource, ReplacesSource, Refs;
    assert IdentityChosen(u, s) == IdentityChosen(t, s);
    assert SomeClaimSelected(u, s) == SomeClaimSelected(t, s);
    assert ClaimSelected(u, c) == ClaimSelected(t, c);
    if ClaimSelected(t, c) {
      assert SomeClaimSelected(t, s);
    }
  }

  /** The documents of claims whose extraction `x` replaces and for which no decision speaks. */
  ghost function RetiredBy(t: Tables, render: Rendering, x: Extraction): set<Document>
    requires Refs(t)
  {
    set c | 0 <= c < |t.claims| && Documented(t, c) && ReplacesSource(t, x, t.claims[c].origin.source) &&
            Unselected(t, t.claims[c].origin.source) :: ClaimDocument(t, render, c)
  }

  /** An accepted extraction adds no document and removes exactly the retired ones. */
  lemma IngestRetires(lex: Lexicon, t: Tables, x: Extraction, cs: seq<Candidate>, render: Rendering)
    requires Committed(lex, t)
    ensures Refs(t) && Refs(Ingested(t, x, cs))
    ensures ClaimDocs(Ingested(t, x, cs), render) ==
      ClaimDocs(t, render) - (if Accepts(t, cs) then RetiredBy(t, render, x) else {})
  {
    IngestedCommitted(lex, t, x, cs);
    var u := Ingested(t, x, cs);
    SoundRefs(lex, t);
    SoundRefs(lex, u);
    if Accepts(t, cs) {
      assert u.extractions == t.extractions + [x];
      hide Refs, Ingested, Committed, ActiveClaim, ReplacesSource, Unselected, CandidateOk;
      forall c | 0 <= c < |t.claims| && t.claims[c].origin.FromSource?
        ensures t.claims[c].origin.source < |t.sources|
        ensures var s := t.claims[c].origin.source;
                Documented(u, c) <==> Documented(t, c) && !(ReplacesSource(t, x, s) && Unselected(t, s))
        ensures ClaimDocument(u, render, c) == ClaimDocument(t, render, c)
      {
        ClaimSource(t, c);
        ActiveAfter(t, u, x, c);
      }
    }
  }

  lemma ClaimSource(t: Tables, c: nat)
    requires Refs(t) && c < |t.claims| && t.claims[c].origin.FromSource?
    ensures t.claims[c].origin.source < |t.sources|
  {
  }

  // ----- runs and decisions

  predicate ClaimIn(t: Tables, c: nat, course: nat)
    requires Refs(t) && c < |t.claims| && t.claims[c].origin.FromSource?
  {
    t.sources[t.claims[c].origin.source].course == course
  }

  /** Source claims of other courses stay as they are, and no new ones appear. */
  ghost predicate RowsConfined(t: Tables, u: Tables, course: nat)
    requires Refs(t) && Refs(u)
  {
    && u.extractions == t.extractions
    && |t.sources| <= |u.sources| && (forall s :: 0 <= s < |t.sources| ==> u.sources[s].course == t.sources[s].course)
    && |t.claims| <= |u.claims| && (forall c :: 0 <= c < |t.claims| ==> u.claims[c].origin == t.claims[c].origin)
    && (forall c :: 0 <= c < |u.claims| && u.claims[c].origin.FromSource? && !ClaimIn(u, c, course) ==>
          c < |t.claims| && u.claims[c] == t.claims[c])
  }

  /** Nor are they switched on or off. */
  ghost predicate Confined(t: Tables, u: Tables, course: nat)
    requires Refs(t) && Refs(u)
  {
    && RowsConfined(t, u, course)
    && forall c :: 0 <= c < |t.claims| && t.claims[c].origin.FromSource? && !ClaimIn(t, c, course) ==>
         (ActiveClaim(u, c) <==> ActiveClaim(t, c))
  }

  /** So documents of other courses stay the same. */
  lemma ConfinedDocs(t: Tables, u: Tables, course: nat, render: Rendering, d: Document)
    requires Refs(t) && Refs(u) && Confined(t, u, course) && d.course != course
    ensures d in ClaimDocs(u, render) <==> d in ClaimDocs(t, render)
  {
    InClaimDocs(t, render, d);
    InClaimDocs(u, render, d);
    hide ActiveClaim;
  }

  lemma RowsConfinedTransitive(t: Tables, u: Tables, v: Tables, course: nat)
    requires Refs(t) && Refs(u) && Refs(v) && RowsConfined(t, u, course) && RowsConfined(u, v, course)
    ensures RowsConfined(t, v, course)
  {
  }

  lemma ConfinedTransitive(t: Tables, u: Tables, v: Tables, course: nat)
    requires Refs(t) && Refs(u) && Refs(v) && Confined(t, u, course) && Confined(u, v, course)
    ensures Confined(t, v, course)
  {
    RowsConfinedTransitive(t, u, v, course);
    hide ActiveClaim;
  }

  lemma ConfinedReflexive(t: Tables, course: nat)
    requires Refs(t)
    ensures Confined(t, t, course)
  {
    hide ActiveClaim;
  }

  /** A claim of another course is bound to another event. */
  lemma OtherCourseOtherEvent(lex: Lexicon, t: Tables, e: nat, c: nat)
    requires Sound(lex, t) && e < |t.events| && c < |t.claims| && t.claims[c].origin.FromSource?
    ensures Refs(t) && (!ClaimIn(t, c, t.events[e].course) ==> t.claims[c].event != Some(e))
  {
    assert ClaimOk(t, c) && SourceOk(lex, t, t.claims[c].origin.source);
  }

  lemma RecomputedConfined(lex: Lexicon, t: Tables, e: nat)
    requires Sound(lex, t) && e < |t.events| && Recomputed(lex, t, e).Some?
    ensures Refs(t) && Refs(Recomputed(lex, t, e).value)
    ensures Confined(t, Recomputed(lex, t, e).value, t.events[e].course)
  {
    hide Sound, Refs, Recomputed, ActiveClaim, Keeps;
    SoundRefs(lex, t);
    RecomputedRefs(lex, t, e);
    RecomputedSound(lex, t, e);
    RecomputedSameBut(lex, t, e);
    var v := Recomputed(lex, t, e).value;
    forall c | 0 <= c < |t.claims| && t.claims[c].origin.FromSource? && !ClaimIn(t, c, t.events[e].course)
      ensures v.claims[c] == t.claims[c] && (ActiveClaim(v, c) <==> ActiveClaim(t, c))
    {
      OtherCourseOtherEvent(lex, t, e, c);
      ClaimElsewhere(lex, t, e, c);
    }
  }

  lemma {:induction false} RecomputeAllConfined(lex: Lexicon, t: Tables, es: seq<nat>, course: nat)
    requires Sound(lex, t) && forall i :: 0 <= i < |es| ==> es[i] < |t.events| && t.events[es[i]].course == course
    ensures Refs(t)
    ensures RecomputeAll(lex, t, es).Some? ==> Confined(t, RecomputeAll(lex, t, es).value, course)
    decreases |es|
  {
    hide Sound, Refs, Recomputed, Confined, Keeps;
    SoundRefs(lex, t);
    if es == [] {
      ConfinedReflexive(t, course);
    } else {
      var n := |es| - 1;
      RecomputeAllConfined(lex, t, es[..n], course);
      RecomputeAllSound(lex, t, es[..n]);
      var before := RecomputeAll(lex, t, es[..n]);
      if before.Some? && Recomputed(lex, before.value, es[n]).Some? {
        CoursesKept(t, before.value);
        RecomputedConfined(lex, before.value, es[n]);
        ConfinedTransitive(t, before.value, Recomputed(lex, before.value, es[n]).value, course);
      }
    }
  }

  // ----- the run before recomputation

  lemma EnsureConfined(lex: Lexicon, t: Tables, k: nat, now: int, course: nat)
    requires Refs(t) && k < |t.candidates| && t.candidates[k].course == course
    ensures Refs(EnsureSource(lex, t, k, now)) && RowsConfined(t, EnsureSource(lex, t, k, now), course)
  {
    EnsureRefs(lex, t, k, now);
  }

  lemma {:induction false} EnsureAllConfined(lex: Lexicon, t: Tables, ks: seq<nat>, now: int, course: nat)
    requires Refs(t) && Known(t, ks) && forall i :: 0 <= i < |ks| ==> t.candidates[ks[i]].course == course
    ensures RowsConfined(t, EnsureAll(lex, t, ks, now), course)
    decreases |ks|
  {
    hide Refs, EnsureSource;
    if ks == [] {
      ConfinedReflexive(t, course);
    } else {
      var n := |ks| - 1;
      EnsureAllConfined(lex, t, ks[..n], now, course);
      var before := EnsureAll(lex, t, ks[..n], now);
      EnsureConfined(lex, before, ks[n], now, course);
      RowsConfinedTransitive(t, before, EnsureSource(lex, before, ks[n], now), course);
    }
  }

  lemma TreatedConfined(lex: Lexicon, t: Tables, ctx: Context, run: nat, s: nat, defer: bool)
    requires Refs(t) && s < |t.sources|
    ensures var u := Treated(t, run, s, TreatmentOf(lex, t, ctx, s, defer));
            Refs(u) && RowsConfined(t, u, t.sources[s].course)
  {
    hide TreatmentOf;
    TreatedRefs(lex, t, ctx, run, s, defer);
  }

  lemma {:induction false} FirstPassConfined(lex: Lexicon, t: Tables, ctx: Context, run: nat, ss: seq<nat>, course: nat)
    requires Refs(t) && InRange(t, ss) && InCourse(t, ss, course)
    ensures RowsConfined(t, FirstPass(lex, t, ctx, run, ss).0, course)
    decreases |ss|
  {
    hide Refs, Treated, TreatmentOf;
    if ss == [] {
      ConfinedReflexive(t, course);
    } else {
      var n := |ss| - 1;
      FirstPassConfined(lex, t, ctx, run, ss[..n], course);
      var before := FirstPass(lex, t, ctx, run, ss[..n]).0;
      TreatedConfined(lex, before, ctx, run, ss[n], true);
      RowsConfinedTransitive(t, before, Treated(before, run, ss[n], TreatmentOf(lex, before, ctx, ss[n], true)),
        course);
    }
  }

  lemma {:induction false} SecondPassConfined(lex: Lexicon, t: Tables, ctx: Context, run: nat, ss: seq<nat>,
                                              course: nat)
    requires Refs(t) && InRange(t, ss) && InCourse(t, ss, course)
    ensures RowsConfined(t, SecondPass(lex, t, ctx, run, ss), course)
    decreases |ss|
  {
    hide Refs, Treated, TreatmentOf;
    if ss == [] {
      ConfinedReflexive(t, course);
    } else {
      var n := |ss| - 1;
      SecondPassConfined(lex, t, ctx, run, ss[..n], course);
      var before := SecondPass(lex, t, ctx, run, ss[..n]);
      TreatedConfined(lex, before, ctx, run, ss[n], false);
      RowsConfinedTransitive(t, before, Treated(before, run, ss[n], TreatmentOf(lex, before, ctx, ss[n], false)),
        course);
    }
  }

  /** The passes of a run write rows of its course only. */
  lemma AssignedRows(lex: Lexicon, t: Tables, course: nat, version: string, ctx: Context, now: int)
    requires Sound(lex, t)
    ensures Refs(t) && RowsConfined(t, Assigned(lex, t, course, version, ctx, now), course)
  {
    hide Sound, Keeps, Refs, FirstPass, SecondPass, SourcesWhere, EnsureAll, RowsConfined, FingerprintOf, Ready;
    SoundRefs(lex, t);
    RunStarts(lex, t, course, version, ctx, now);
    var ks, run := EffectiveCandidates(t, course), |t.runs|;
    var begun := OpenRun(t, course, version, FingerprintOf(t, course));
    EffectiveInCourse(t, course);
    RunOpened(t, begun, course);
    var ensured := EnsureAll(lex, begun, ks, now);
    EnsureAllConfined(lex, begun, ks, now, course);
    var ordinary, changes := SourcesWhere(lex, ensured, ks, false), SourcesWhere(lex, ensured, ks, true);
    ReadyInCourse(ensured, run, ordinary, course);
    FirstPassConfined(lex, ensured, ctx, run, ordinary, course);
    var (first, deferred) := FirstPass(lex, ensured, ctx, run, ordinary);
    ReadyInCourse(first, run, changes + deferred, course);
    SecondPassConfined(lex, first, ctx, run, changes + deferred, course);
    RowsConfinedTransitive(t, begun, ensured, course);
    RowsConfinedTransitive(t, ensured, first, course);
    RowsConfinedTransitive(t, first, SecondPass(lex, first, ctx, run, changes + deferred), course);
  }

  lemma RunOpened(t: Tables, u: Tables, course: nat)
    requires Refs(t) && Refs(u) && u.claims == t.claims && u.sources == t.sources && u.extractions == t.extractions
    ensures RowsConfined(t, u, course)
  {
    hide Refs;
  }

  lemma ReadyInCourse(t: Tables, run: nat, ss: seq<nat>, course: nat)
    requires Ready(t, run, ss, course)
    ensures InCourse(t, ss, course)
  {
  }

  lemma ActivityKept(t: Tables, u: Tables, c: nat)
    requires Refs(t) && Refs(u) && Keeps(t, u) && c < |t.claims| && u.extractions == t.extractions
    requires u.manualFields == t.manualFields && u.manualIdentities == t.manualIdentities
    ensures ActiveClaim(u, c) <==> ActiveClaim(t, c)
  {
    forall s | 0 <= s < |t.sources| ensures EffectiveSource(u, s) == EffectiveSource(t, s) {
      assert u.sources[s].candidate == t.sources[s].candidate;
    }
    hide EffectiveSource;
    forall m | 0 <= m < |t.manualFields|
      ensures u.claims[u.manualFields[m].claim].origin == t.claims[t.manualFields[m].claim].origin {}
  }

  lemma RunConfined(lex: Lexicon, t: Tables, course: nat, version: string, ctx: Context, now: int)
    requires Sound(lex, t)
    ensures Refs(t)
    ensures FreshRun(lex, t, course, version, ctx, now).Some? ==>
              var v := FreshRun(lex, t, course, version, ctx, now).value; Refs(v) && Confined(t, v, course)
  {
    hide Sound, Refs, Keeps, Assigned, RecomputeAll, Audited, RowsConfined, ActiveClaim;
    SoundRefs(lex, t);
    AssignedFacts(lex, t, course, version, ctx, now);
    AssignedRows(lex, t, course, version, ctx, now);
    var u := Assigned(lex, t, course, version, ctx, now);
    PassedKeeps(lex, t, u, course);
    SameExtractions(t, u, course);
    forall c | 0 <= c < |t.claims| && t.claims[c].origin.FromSource? && !ClaimIn(t, c, course)
      ensures ActiveClaim(u, c) <==> ActiveClaim(t, c)
    {
      ActivityKept(t, u, c);
    }
    var es := EventsUpTo(u, course, |u.events|);
    forall i | 0 <= i < |es| ensures u.events[es[i]].course == course { assert es[i] in es; }
    RecomputeAllConfined(lex, u, es, course);
    if RecomputeAll(lex, u, es).Some? {
      ConfinedTransitive(t, u, RecomputeAll(lex, u, es).value, course);
    }
  }

  lemma SameExtractions(t: Tables, u: Tables, course: nat)
    requires Refs(t) && Refs(u) && RowsConfined(t, u, course)
    ensures u.extractions == t.extractions
  {
  }

  // ----- a manual decision

  /** A decision in force for a field concerns a source of the course of its event. */
  lemma DecisionInCourse(lex: Lexicon, t: Tables, m: nat, s: nat)
    requires Sound(lex, t) && m < |t.manualFields| && t.claims[t.manualFields[m].claim].origin == FromSource(s)
    ensures t.manualFields[m].event < |t.events| && s < |t.sources|
    ensures t.events[t.manualFields[m].event].course == t.sources[s].course
  {
    assert ManualFieldOk(t, m) && ClaimOk(t, t.manualFields[m].claim) && SourceOk(lex, t, s);
  }

  lemma DecidedConfined(lex: Lexicon, t: Tables, e: nat, f: Field, choice: Choice, now: int)
    requires Sound(lex, t) && FieldRequestOk(t, e, f, choice)
    ensures var d := FieldDecided(t, e, f, choice, now);
            Refs(t) && Refs(d) && Confined(t, d, t.events[e].course)
  {
    hide Sound, EffectiveSource;
    SoundRefs(lex, t);
    FieldDecidedRefs(t, e, f, choice, now);
    var d, course := FieldDecided(t, e, f, choice, now), t.events[e].course;
    forall c | 0 <= c < |t.claims| && t.claims[c].origin.FromSource? && !ClaimIn(t, c, course)
      ensures ActiveClaim(d, c) <==> ActiveClaim(t, c)
    {
      DecidedActivity(lex, t, e, f, choice, now, c);
    }
    hide ActiveClaim, Refs;
  }

  lemma DecidedActivity(lex: Lexicon, t: Tables, e: nat, f: Field, choice: Choice, now: int, c: nat)
    requires Sound(lex, t) && FieldRequestOk(t, e, f, choice) && c < |t.claims| && t.claims[c].origin.FromSource?
    requires Refs(t) && Refs(FieldDecided(t, e, f, choice, now)) && !ClaimIn(t, c, t.events[e].course)
    ensures ActiveClaim(FieldDecided(t, e, f, choice, now), c) <==> ActiveClaim(t, c)
  {
    hide Sound, EffectiveSource;
    var d, s := FieldDecided(t, e, f, choice, now), t.claims[c].origin.source;
    EffectiveKept(t, d, s);
    SoundParts(lex, t);
    FieldDecidedSound(lex, t, e, f, choice, now);
    forall m | 0 <= m < |d.manualFields| && d.claims[d.manualFields[m].claim].origin == FromSource(s)
      ensures m < |t.manualFields| && t.manualFields[m].event != e
    {
      DecisionInCourse(lex, d, m, s);
    }
    RecordingKeeps(t, e, f, choice, now);
    hide FieldDecided, Refs;
    assert IdentityChosen(d, s) == IdentityChosen(t, s);
    assert SomeClaimSelected(d, s) == SomeClaimSelected(t, s);
    assert ClaimSelected(d, c) == ClaimSelected(t, c);
  }

  lemma IdentityConfined(lex: Lexicon, t: Tables, s: nat, e: nat)
    requires Sound(lex, t) && IdentityRequestOk(t, s, e)
    ensures var d := IdentityRecorded(Bind(t, s, e), s, e);
            Refs(t) && Refs(d) && Confined(t, d, t.events[e].course)
  {
    hide Sound, EffectiveSource;
    SoundRefs(lex, t);
    IdentityRefs(t, s, e);
    var d, course := IdentityRecorded(Bind(t, s, e), s, e), t.events[e].course;
    forall c | 0 <= c < |t.claims| && t.claims[c].origin.FromSource? && !ClaimIn(t, c, course)
      ensures ActiveClaim(d, c) <==> ActiveClaim(t, c)
    {
      IdentityActivity(t, s, e, c);
    }
    hide ActiveClaim, Refs;
  }

  lemma IdentityActivity(t: Tables, s: nat, e: nat, c: nat)
    requires Refs(t) && IdentityRequestOk(t, s, e) && c < |t.claims| && t.claims[c].origin.FromSource?
    requires t.claims[c].origin.source != s
    ensures var d := IdentityRecorded(Bind(t, s, e), s, e); Refs(d) && (ActiveClaim(d, c) <==> ActiveClaim(t, c))
  {
    IdentityRefs(t, s, e);
    var d, r := IdentityRecorded(Bind(t, s, e), s, e), t.claims[c].origin.source;
    assert EffectiveSource(d, r) == EffectiveSource(t, r);
    hide EffectiveSource;
    forall m | 0 <= m < |t.manualIdentities| && t.manualIdentities[m].source == r
      ensures d.manualIdentities[m] == t.manualIdentities[m] {}
    assert IdentityChosen(d, r) == IdentityChosen(t, r);
    forall m | 0 <= m < |t.manualFields|
      ensures d.claims[d.manualFields[m].claim].origin == t.claims[t.manualFields[m].claim].origin {}
    assert SomeClaimSelected(d, r) == SomeClaimSelected(t, r);
    assert ClaimSelected(d, c) == ClaimSelected(t, c);
  }
}
