/** What the row of an event says once the event is recomputed (events/reconciliation.py:1350-1406), in terms of its
    claims, sources and projections; and that it stays so while other events are recomputed. */
module EventRows {
  import opened Basics
  import opened Matching
  import opened EventTables
  import opened Recompute
  import opened RecomputeFacts
  import opened RecomputeSound
  import opened Reconcile
  import opened ReconcileSound
  import opened RunSound
  import opened RunRaises
  import opened Manual
  import opened ManualSound
  import opened Histories
  import opened Ties

  /** The claims of active sources, or selected by hand, that are bound to the event. */
  ghost function Evidence(t: Tables, e: nat): set<nat>
    requires Refs(t)
  {
    set c | 0 <= c < |t.claims| && Speaks(t, e, c)
  }

  ghost function Total(t: Tables, S: set<nat>): real
    requires forall c :: c in S ==> c < |t.claims|
    decreases |S|
  {
    if S == {} then 0.0
    else
      var c :| c in S;
      t.claims[c].confidence + Total(t, S - {c})
  }

  /** An unbound current source that might belong to the event. */
  ghost predicate Hesitates(t: Tables, s: nat, e: nat)
    requires Refs(t)
  {
    s < |t.sources| && t.sources[s].event.None? && (s, e) in t.possible && ActiveSource(t, s)
  }

  ghost predicate ShowsProjections(t: Tables, e: nat, shown: map<Field, Json>) {
    forall f ::
      && (f in shown <==>
           f in CANONICAL && (e, f) in t.projections && (Temporal(f) || t.projections[(e, f)].value.Text?))
      && (f in shown ==> shown[f] == t.projections[(e, f)].value)
  }

  /** The confidence is the mean over the evidence, and zero without any. */
  ghost predicate IsMean(t: Tables, e: nat, confidence: real)
    requires Refs(t)
  {
    if Evidence(t, e) == {} then confidence == 0.0
    else confidence * (|Evidence(t, e)| as real) == Total(t, Evidence(t, e))
  }

  /** As many sources as there are different ones behind the evidence. */
  ghost predicate CountsSources(t: Tables, e: nat, n: nat)
    requires Refs(t)
  {
    n == |set c | c in Evidence(t, e) :: t.claims[c].origin|
  }

  /** What the row of the event says, but for the conflicts. */
  ghost predicate RowFits(t: Tables, e: nat, row: Event)
    requires Refs(t)
  {
    && ShowsProjections(t, e, row.shown) && IsMean(t, e, row.confidence) && CountsSources(t, e, row.sources)
    && (row.state.Ambiguous? ==> exists s :: Hesitates(t, s, e))
    && (row.state.Settled? ==> forall s :: !Hesitates(t, s, e))
  }

  // ----- sums over sets

  lemma {:induction false} TotalWithout(t: Tables, S: set<nat>, c: nat)
    requires (forall d :: d in S ==> d < |t.claims|) && c in S
    ensures Total(t, S) == t.claims[c].confidence + Total(t, S - {c})
    decreases |S|
  {
    var d :| d in S && Total(t, S) == t.claims[d].confidence + Total(t, S - {d});
    if d != c {
      TotalWithout(t, S - {d}, c);
      TotalWithout(t, S - {c}, d);
      assert S - {d} - {c} == S - {c} - {d};
    }
  }

  lemma TotalNone(t: Tables)
    ensures Total(t, {}) == 0.0
  {
  }

  ghost function EvidenceUpTo(t: Tables, e: nat, n: nat): set<nat>
    requires Refs(t) && n <= |t.claims|
  {
    set c | 0 <= c < n && Speaks(t, e, c)
  }

  lemma EvidenceGrows(t: Tables, e: nat, n: nat)
    requires Refs(t) && n < |t.claims|
    ensures var before, now := EvidenceUpTo(t, e, n), EvidenceUpTo(t, e, n + 1);
            if IsActiveSourceClaim(t, e, n) then now == before + {n} && now - {n} == before && n !in before
            else now == before
  {
    hide Refs, ActiveClaim;
  }

  lemma {:induction false} SumIsTotal(t: Tables, e: nat, n: nat)
    requires Refs(t) && n <= |t.claims|
    ensures ConfidenceSum(t, e, n) == (Total(t, EvidenceUpTo(t, e, n)), |EvidenceUpTo(t, e, n)|)
  {
    hide Refs, ActiveClaim, Speaks, Total, IsActiveSourceClaim;
    TotalNone(t);
    if n > 0 {
      SumIsTotal(t, e, n - 1);
      EvidenceGrows(t, e, n - 1);
      if IsActiveSourceClaim(t, e, n - 1) {
        TotalWithout(t, EvidenceUpTo(t, e, n), n - 1);
      }
    } else {
      assert EvidenceUpTo(t, e, 0) == {};
    }
  }

  lemma ConfidenceIsMean(t: Tables, e: nat)
    requires Refs(t)
    ensures IsMean(t, e, Confidence(t, e))
  {
    hide Refs, Speaks, Total;
    SumIsTotal(t, e, |t.claims|);
    assert Evidence(t, e) == EvidenceUpTo(t, e, |t.claims|);
    var n := |Evidence(t, e)|;
    if Evidence(t, e) != {} {
      assert n > 0;
      Quotient(Total(t, Evidence(t, e)), n as real);
    }
  }

  lemma Quotient(sum: real, n: real)
    requires n > 0.0
    ensures sum / n * n == sum
  {
  }

  /** So the confidence lies between those of the claims, and is that of a single one. */
  lemma MeanBetween(t: Tables, e: nat, confidence: real, least: real, greatest: real)
    requires Refs(t) && IsMean(t, e, confidence) && Evidence(t, e) != {}
    requires forall c :: c in Evidence(t, e) ==> least <= t.claims[c].confidence <= greatest
    ensures least <= confidence <= greatest
  {
    hide Refs, Speaks;
    var S := Evidence(t, e);
    TotalBetween(t, S, least, greatest);
    var n := |S| as real;
    assert n > 0.0 && least * n <= confidence * n <= greatest * n;
    Divided(least, confidence, n);
    Divided(confidence, greatest, n);
  }

  lemma Divided(a: real, b: real, n: real)
    requires n > 0.0 && a * n <= b * n
    ensures a <= b
  {
    assert a > b ==> (a - b) * n > 0.0;
  }

  lemma {:induction false} TotalBetween(t: Tables, S: set<nat>, least: real, greatest: real)
    requires forall c :: c in S ==> c < |t.claims| && least <= t.claims[c].confidence <= greatest
    ensures least * (|S| as real) <= Total(t, S) <= greatest * (|S| as real)
    decreases |S|
  {
    hide Total;
    TotalNone(t);
    if S != {} {
      var c :| c in S;
      var rest := S - {c};
      TotalWithout(t, S, c);
      TotalBetween(t, rest, least, greatest);
      Counts(S, c);
      Distributes(least, |rest| as real);
      Distributes(greatest, |rest| as real);
    } else {
      assert least * 0.0 == 0.0 == greatest * 0.0;
    }
  }

  lemma Counts(S: set<nat>, c: nat)
    requires c in S
    ensures |S| as real == (|S - {c}| as real) + 1.0
  {
  }

  lemma Distributes(a: real, n: real)
    ensures a * (n + 1.0) == a * n + a
  {
  }

  // ----- the row that is written

  lemma AmbiguityMeans(lex: Lexicon, t: Tables, e: nat)
    requires Sound(lex, t)
    ensures Refs(t) && (HasAmbiguity(t, e) <==> exists s :: Hesitates(t, s, e))
  {
    SoundParts(lex, t);
    hide Sound, Refs, ActiveSource;
    forall s | 0 <= s < |t.sources| ensures t.sources[s].state.Matched? <==> t.sources[s].event.Some? {
      assert SourceOk(lex, t, s);
    }
    if HasAmbiguity(t, e) {
      var s :| 0 <= s < |t.sources| && (s, e) in t.possible && !t.sources[s].state.Matched? && ActiveSource(t, s);
      assert Hesitates(t, s, e);
    }
    if s :| Hesitates(t, s, e) {
      assert HasAmbiguity(t, e);
    }
  }

  lemma SourcesCounted(t: Tables, e: nat)
    requires Refs(t)
    ensures CountsSources(t, e, |ActiveSources(t, e)|)
  {
    hide Refs, ActiveClaim;
    var origins := set c | c in Evidence(t, e) :: t.claims[c].origin;
    assert origins == set s | s in ActiveSources(t, e) :: FromSource(s) by {
      forall o | o in origins ensures o in set s | s in ActiveSources(t, e) :: FromSource(s) {
        var c :| c in Evidence(t, e) && o == t.claims[c].origin;
        assert IsActiveSourceClaim(t, e, c);
        assert o.source in ActiveSources(t, e);
      }
    }
    SameSize(ActiveSources(t, e), origins);
  }

  lemma {:induction false} SameSize(S: set<nat>, O: set<Origin>)
    requires O == set s | s in S :: FromSource(s)
    ensures |O| == |S|
    decreases |S|
  {
    if S != {} {
      var s :| s in S;
      assert O - {FromSource(s)} == set r | r in S - {s} :: FromSource(r);
      SameSize(S - {s}, O - {FromSource(s)});
    } else {
      assert O == {};
    }
  }

  lemma RowWritten(lex: Lexicon, u: Tables, e: nat)
    requires Sound(lex, u) && e < |u.events|
    ensures Refs(u) && RowFits(u, e, EventRow(u, e))
  {
    SoundRefs(lex, u);
    hide Sound, Refs, Confidence, ActiveSources, HasOpenConflict, HasAmbiguity, Evidence, Hesitates;
    ConfidenceIsMean(u, e);
    SourcesCounted(u, e);
    AmbiguityMeans(lex, u, e);
  }

  // ----- what a row depends on

  /** The two stores look the same to the row of the event. */
  ghost predicate SameToRow(t: Tables, v: Tables, d: nat)
    requires Refs(t) && Refs(v)
  {
    && |v.claims| == |t.claims| &&
         (forall c :: 0 <= c < |t.claims| ==> v.claims[c] == t.claims[c].(state := v.claims[c].state))
    && (forall c :: 0 <= c < |t.claims| && t.claims[c].event == Some(d) ==> (ActiveClaim(v, c) <==> ActiveClaim(t, c)))
    && v.sources == t.sources && v.possible == t.possible
    && (forall s :: 0 <= s < |t.sources| && t.sources[s].event.None? ==> (ActiveSource(v, s) <==> ActiveSource(t, s)))
    && (forall f :: (d, f) in t.projections <==> (d, f) in v.projections)
    && (forall f :: (d, f) in t.projections ==> v.projections[(d, f)] == t.projections[(d, f)])
  }

  lemma SameEvidenceSet(t: Tables, v: Tables, d: nat)
    requires Refs(t) && Refs(v) && SameToRow(t, v, d)
    ensures Evidence(v, d) == Evidence(t, d) && forall c :: c in Evidence(t, d) ==> c < |t.claims|
    ensures (set c | c in Evidence(t, d) :: t.claims[c].origin) == (set c | c in Evidence(v, d) :: v.claims[c].origin)
  {
    hide Refs, ActiveClaim, ActiveSource;
    forall c: nat | c < |t.claims| ensures Speaks(t, d, c) <==> Speaks(v, d, c) {}
  }

  lemma {:induction false} SameTotal(t: Tables, v: Tables, S: set<nat>)
    requires |v.claims| == |t.claims| && forall c :: 0 <= c < |t.claims| ==>
      v.claims[c].confidence == t.claims[c].confidence
    requires forall c :: c in S ==> c < |t.claims|
    ensures Total(v, S) == Total(t, S)
    decreases |S|
  {
    if S != {} {
      var c :| c in S;
      TotalWithout(t, S, c);
      TotalWithout(v, S, c);
      SameTotal(t, v, S - {c});
    }
  }

  lemma SameHesitation(t: Tables, v: Tables, d: nat)
    requires Refs(t) && Refs(v) && SameToRow(t, v, d)
    ensures forall s :: Hesitates(t, s, d) <==> Hesitates(v, s, d)
  {
    hide Refs, ActiveClaim, ActiveSource;
  }

  lemma SameRow(t: Tables, v: Tables, d: nat, row: Event)
    requires Refs(t) && Refs(v) && SameToRow(t, v, d) && RowFits(t, d, row)
    ensures RowFits(v, d, row)
  {
    hide Refs, ActiveClaim, ActiveSource, Evidence, Total, Hesitates;
    SameEvidenceSet(t, v, d);
    SameTotal(t, v, Evidence(t, d));
    SameHesitation(t, v, d);
  }

  lemma AfterRow(u: Tables, e: nat)
    requires Refs(u) && e < |u.events|
    ensures Refs(WithEventRow(u, e)) && SameToRow(u, WithEventRow(u, e), e)
  {
    hide Refs, EventRow, ActiveClaim, SameEvidence;
    EventRowEvidence(u, e);
    var v := WithEventRow(u, e);
    SameLength(u, v);
    forall c | 0 <= c < |u.claims| ensures ActiveClaim(v, c) <==> ActiveClaim(u, c) { SameActivity(u, v, c); }
    forall s | 0 <= s < |u.sources| ensures ActiveSource(v, s) <==> ActiveSource(u, s) { SameSourceActivity(u, v, s); }
  }

  lemma SameSourceActivity(t: Tables, u: Tables, s: nat)
    requires Refs(t) && Refs(u) && SameEvidence(t, u) && s < |t.sources|
    ensures ActiveSource(u, s) <==> ActiveSource(t, s)
  {
    EffectiveKept(t, u, s);
    hide EffectiveSource;
    forall m | 0 <= m < |t.manualFields|
      ensures t.claims[t.manualFields[m].claim].origin == u.claims[u.manualFields[m].claim].origin {}
  }

  /** No decision in force speaks for an unbound source. */
  lemma UnboundActivity(lex: Lexicon, t: Tables, s: nat)
    requires Sound(lex, t) && s < |t.sources| && t.sources[s].event.None?
    ensures Refs(t) && (ActiveSource(t, s) <==> EffectiveSource(t, s))
  {
    SoundParts(lex, t);
    hide Sound, EffectiveSource;
    forall m | 0 <= m < |t.manualFields| ensures t.claims[t.manualFields[m].claim].origin != FromSource(s) {
      assert ManualFieldOk(t, m) && ClaimOk(t, t.manualFields[m].claim);
    }
    forall m | 0 <= m < |t.manualIdentities| ensures t.manualIdentities[m].source != s {
      assert t.sources[t.manualIdentities[m].source].event == Some(t.manualIdentities[m].event);
    }
  }

  lemma RecomputedPossible(lex: Lexicon, t: Tables, e: nat)
    requires Refs(t) && e < |t.events| && Recomputed(lex, t, e).Some?
    ensures Recomputed(lex, t, e).value.possible == t.possible
  {
    hide Refs, StateOf, ProjectionsAfter, NewConflicts, NewEdges, EventRow, Blocked, ExpiredField, ExpiredIdentity;
  }

  /** Recomputing another event changes nothing the row of `d` says. */
  lemma RecomputedSameToRow(lex: Lexicon, t: Tables, e: nat, d: nat)
    requires Sound(lex, t) && e < |t.events| && d != e && Recomputed(lex, t, e).Some?
    ensures Refs(t) && Refs(Recomputed(lex, t, e).value) && SameToRow(t, Recomputed(lex, t, e).value, d)
  {
    hide Sound, Refs, Recomputed, ActiveClaim, ActiveSource, EffectiveSource, Keeps;
    SoundRefs(lex, t);
    RecomputedRefs(lex, t, e);
    RecomputedSound(lex, t, e);
    RecomputedSameBut(lex, t, e);
    RecomputedPossible(lex, t, e);
    var v := Recomputed(lex, t, e).value;
    forall c | 0 <= c < |t.claims| && t.claims[c].event == Some(d) ensures ActiveClaim(v, c) <==> ActiveClaim(t, c) {
      ClaimElsewhere(lex, t, e, c);
    }
    forall s | 0 <= s < |t.sources| && t.sources[s].event.None? ensures ActiveSource(v, s) <==> ActiveSource(t, s) {
      UnboundActivity(lex, t, s);
      UnboundActivity(lex, v, s);
      EffectiveKept(t, v, s);
    }
    forall f
      ensures (d, f) in t.projections <==> (d, f) in v.projections
      ensures (d, f) in t.projections ==> v.projections[(d, f)] == t.projections[(d, f)]
    {
      ProjectionElsewhere(lex, t, e, d, f);
    }
  }

  // ----- every recomputed event

  /** The event is settled, and its row says so: conflicting with a contended field, else ambiguous while a source
      hesitates, else resolved; with the projected values and the measures of its evidence. */
  ghost predicate RowRight(t: Tables, e: nat)
    requires Refs(t) && e < |t.events|
  {
    && EventSettled(t, e) && RowFits(t, e, t.events[e])
    && var contended := exists f :: f in CANONICAL && Contended(t, e, f);
       var hesitant := exists s :: Hesitates(t, s, e);
       && (t.events[e].state.InConflict? <==> contended)
       && (t.events[e].state.Ambiguous? <==> !contended && hesitant)
       && (t.events[e].state.Settled? <==> !contended && !hesitant)
  }

  lemma RightWhenFits(t: Tables, e: nat)
    requires Refs(t) && e < |t.events| && EventSettled(t, e) && RowFits(t, e, t.events[e])
    ensures RowRight(t, e)
  {
    hide Refs, FieldSettled, Contended, InactiveRejected, Hesitates, ShowsProjections, IsMean, CountsSources;
  }

  lemma RecomputedRowRight(lex: Lexicon, t: Tables, e: nat)
    requires Sound(lex, t) && e < |t.events| && Recomputed(lex, t, e).Some?
    ensures var v := Recomputed(lex, t, e).value; Refs(v) && e < |v.events| && RowRight(v, e)
  {
    hide Sound, Refs, Expire, Settle, OutcomeOf, EventRow, EventSettled, RowFits, SameToRow, Recomputed;
    SoundRefs(lex, t);
    RecomputedShape(lex, t, e);
    ExpireSound(lex, t, e);
    ExpireEvents(lex, t, e);
    var x := Expire(lex, t, e);
    CanonicalOnce();
    SettleSound(lex, x, e, CANONICAL);
    SettleEvents(lex, x, e);
    var u := Settle(lex, x, e, CANONICAL);
    RowWritten(lex, u, e);
    AfterRow(u, e);
    RecomputedSettles(lex, t, e);
    RecomputedRefs(lex, t, e);
    var v := WithEventRow(u, e);
    SameRow(u, v, e, EventRow(u, e));
    RightWhenFits(v, e);
  }

  lemma RowRightElsewhere(lex: Lexicon, t: Tables, e: nat, d: nat)
    requires Sound(lex, t) && e < |t.events| && d < |t.events| && d != e && Recomputed(lex, t, e).Some?
    ensures Refs(t) && Refs(Recomputed(lex, t, e).value) && d < |Recomputed(lex, t, e).value.events|
    ensures RowRight(t, d) ==> RowRight(Recomputed(lex, t, e).value, d)
  {
    hide Sound, Refs, EventSettled, RowFits, SameToRow, Recomputed;
    SoundRefs(lex, t);
    RecomputedRefs(lex, t, e);
    OtherEventRows(lex, t, e, d);
    if RowRight(t, d) {
      RecomputedSameToRow(lex, t, e, d);
      SameRow(t, Recomputed(lex, t, e).value, d, t.events[d]);
      RecomputedKeepsSettled(lex, t, e, d);
      RightWhenFits(Recomputed(lex, t, e).value, d);
    }
  }

  lemma {:induction false} RecomputeAllRowsRight(lex: Lexicon, t: Tables, es: seq<nat>)
    requires Sound(lex, t) && (forall i :: 0 <= i < |es| ==> es[i] < |t.events|) && NoDuplicates(es)
    ensures Refs(t)
    ensures var u := RecomputeAll(lex, t, es);
            u.Some? ==> Refs(u.value) && forall i :: 0 <= i < |es| ==>
              es[i] < |u.value.events| && RowRight(u.value, es[i])
    decreases |es|
  {
    hide Sound, Keeps, Refs, Recomputed, RowRight;
    SoundRefs(lex, t);
    if es != [] {
      var n := |es| - 1;
      RecomputeAllRowsRight(lex, t, es[..n]);
      RecomputeAllSound(lex, t, es[..n]);
      var before := RecomputeAll(lex, t, es[..n]);
      if before.Some? && Recomputed(lex, before.value, es[n]).Some? {
        RecomputedRefs(lex, before.value, es[n]);
        RecomputedRowRight(lex, before.value, es[n]);
        forall i | 0 <= i < n ensures RowRight(Recomputed(lex, before.value, es[n]).value, es[i]) {
          assert es[..n][i] == es[i];
          RowRightElsewhere(lex, before.value, es[n], es[i]);
        }
      }
    }
  }

  // ----- runs and decisions, in every history

  lemma RunRowsRight(lex: Lexicon, t: Tables, course: nat, version: string, ctx: Context, now: int)
    requires Sound(lex, t)
    ensures Refs(t)
    ensures FreshRun(lex, t, course, version, ctx, now).Some? ==>
              var v := FreshRun(lex, t, course, version, ctx, now).value;
              Refs(v) && forall e :: 0 <= e < |v.events| && v.events[e].course == course ==> RowRight(v, e)
  {
    hide Sound, Refs, Keeps, Assigned, RecomputeAll, Audited, OnlyCourse, RowRight;
    SoundRefs(lex, t);
    AssignedFacts(lex, t, course, version, ctx, now);
    var u := Assigned(lex, t, course, version, ctx, now);
    PassedKeeps(lex, t, u, course);
    var es := EventsUpTo(u, course, |u.events|);
    RecomputeAllRowsRight(lex, u, es);
    RecomputeAllSound(lex, u, es);
    var v := RecomputeAll(lex, u, es);
    if v.Some? {
      CoursesKept(u, v.value);
      forall e: nat | e < |v.value.events| && v.value.events[e].course == course ensures RowRight(v.value, e) {
        assert e in es;
        var i :| 0 <= i < |es| && es[i] == e;
      }
    }
  }

  lemma FieldRowRight(lex: Lexicon, t: Tables, e: nat, f: Field, choice: Choice, at: int)
    requires Sound(lex, t)
    ensures Refs(t)
    ensures FieldResolved(lex, t, e, f, choice, at).Some? ==>
              var v := FieldResolved(lex, t, e, f, choice, at).value; Refs(v) && e < |v.events| && RowRight(v, e)
  {
    SoundRefs(lex, t);
    if FieldResolved(lex, t, e, f, choice, at).Some? {
      FieldDecidedSound(lex, t, e, f, choice, at);
      RecordingKeeps(t, e, f, choice, at);
      hide Sound, Refs, Recomputed, FieldDecided, RowRight;
      RecomputedRowRight(lex, FieldDecided(t, e, f, choice, at), e);
    }
  }

  lemma IdentityRowRight(lex: Lexicon, t: Tables, s: nat, e: nat)
    requires Sound(lex, t)
    ensures Refs(t)
    ensures IdentityResolved(lex, t, s, e).Some? ==>
              var v := IdentityResolved(lex, t, s, e).value; Refs(v) && e < |v.events| && RowRight(v, e)
  {
    SoundRefs(lex, t);
    if IdentityResolved(lex, t, s, e).Some? {
      BoundSource(t, s, e);
      IdentityDecisions(t, s, e);
      hide Sound, Refs, Recomputed, Bind, IdentityRecorded, RowRight;
      BindSound(lex, t, s, e);
      IdentityRecordedSound(lex, Bind(t, s, e), s, e);
      RecomputedRowRight(lex, IdentityRecorded(Bind(t, s, e), s, e), e);
    }
  }

  /** The step recomputes the event: a run of its course that is not answered from the cache, or a decision on it. */
  ghost predicate Renews(t: Tables, v: Tables, step: Step, e: nat)
    requires Refs(t) && e < |v.events|
  {
    match step
    case Ingest(_, _) => false
    case ReconcileCourse(course, version, _, _) => !Cached(t, course, version) && v.events[e].course == course
    case DecideField(d, _, _, _) => d == e
    case DecideIdentity(_, d) => d == e
  }

  /** In every history, once a run or a decision returns, the rows of the events it recomputes are right. */
  lemma HistoryRows(lex: Lexicon, steps: seq<Step>, step: Step, e: nat)
    ensures var t := After(lex, steps); var v := After(lex, steps + [step]);
            && Refs(t) && Refs(v)
            && (Outcome(lex, t, step).Some? && e < |v.events| && Renews(t, v, step, e) ==> RowRight(v, e))
  {
    hide Sound, Refs, FreshRun, RowRight, Cached, FieldResolved, IdentityResolved;
    var t, v := After(lex, steps), After(lex, steps + [step]);
    assert (steps + [step])[..|steps|] == steps;
    SoundRefs(lex, t);
    SoundRefs(lex, v);
    match step
    case Ingest(_, _) =>
    case ReconcileCourse(course, version, ctx, now) => RunRowsRight(lex, t, course, version, ctx, now);
    case DecideField(d, f, choice, at) => FieldRowRight(lex, t, d, f, choice, at);
    case DecideIdentity(s, d) => IdentityRowRight(lex, t, s, d);
  }
}
