/** Exactly when a reconciliation run raises (events/reconciliation.py:198-202, 1246-1259): some event of the
    course has a decision in force that names a local claim as an existing one, on a field with current evidence. */
module RunRaises {
  import opened Basics
  import opened Matching
  import opened EventTables
  import opened Recompute
  import opened RecomputeFacts
  import opened RecomputeSound
  import opened ManualPrevails
  import opened Reconcile
  import opened RunSound
  import opened Titles

  /** Columns recomputing event `e` leaves alone. */
  ghost predicate SameBut(t: Tables, v: Tables, e: nat) {
    && t.extractions == v.extractions && t.candidates == v.candidates && t.sources == v.sources
    && |t.claims| == |v.claims| &&
         (forall c :: 0 <= c < |t.claims| ==> v.claims[c] == t.claims[c].(state := v.claims[c].state))
    && |t.manualFields| == |v.manualFields|
    && (forall m :: 0 <= m < |t.manualFields| ==>
          && v.manualFields[m] == t.manualFields[m].(active := v.manualFields[m].active)
          && (t.manualFields[m].event != e ==> v.manualFields[m] == t.manualFields[m]))
  }

  lemma ExpireSameBut(lex: Lexicon, t: Tables, e: nat)
    requires Refs(t)
    ensures SameBut(t, Expire(lex, t, e), e)
  {
    hide FieldOutdated, EffectiveSource;
  }

  lemma RecomputedSameBut(lex: Lexicon, t: Tables, e: nat)
    requires Refs(t) && e < |t.events| && Recomputed(lex, t, e).Some?
    ensures SameBut(t, Recomputed(lex, t, e).value, e)
  {
    hide Refs, Expire, Settle, Recomputed, WithEventRow, OutcomeOf, EventRow;
    RecomputedShape(lex, t, e);
    ExpireSameBut(lex, t, e);
    var x := Expire(lex, t, e);
    SettleEvidence(lex, x, e, CANONICAL);
    ExpireEvents(lex, t, e);
    SettleEvents(lex, x, e);
    EventRowEvidence(Settle(lex, x, e, CANONICAL), e);
  }

  /** The reason to raise at field `f` of event `d`. */
  ghost predicate Raises(lex: Lexicon, t: Tables, d: nat, f: Field)
    requires Refs(t)
  {
    f in CANONICAL && Misnamed(lex, t, d, f) && HasCurrentClaim(t, d, f)
  }

  /** Recomputing another event neither adds nor removes a reason. */
  lemma RaisesKept(lex: Lexicon, t: Tables, v: Tables, e: nat, d: nat, f: Field)
    requires Refs(t) && Refs(v) && SameBut(t, v, e) && d != e
    ensures Raises(lex, t, d, f) == Raises(lex, v, d, f)
  {
    hide HasCurrentClaim, Misnamed, Refs, SameBut;
    CurrentKept(t, v, e, d, f);
    MisnamedKept(lex, t, v, e, d, f);
  }

  lemma MisnamedKept(lex: Lexicon, t: Tables, v: Tables, e: nat, d: nat, f: Field)
    requires Refs(t) && Refs(v) && SameBut(t, v, e) && d != e
    ensures Misnamed(lex, t, d, f) == Misnamed(lex, v, d, f)
  {
    hide FieldOutdated, Refs;
    forall m | 0 <= m < |t.manualFields| ensures FieldOutdated(lex, t, m) == FieldOutdated(lex, v, m) {
      OutdatedKept(lex, t, v, m);
    }
    forall m | 0 <= m < |t.manualFields|
      ensures InForce(t, d, f, m) == InForce(v, d, f, m) && t.manualFields[m].local == v.manualFields[m].local
      ensures t.manualFields[m].claim == v.manualFields[m].claim {}
    OriginsKept(t, v, e);
  }

  lemma OriginsKept(t: Tables, v: Tables, e: nat)
    requires Refs(t) && SameBut(t, v, e)
    ensures forall c :: 0 <= c < |t.claims| ==> t.claims[c].origin == v.claims[c].origin
    ensures forall m :: 0 <= m < |t.manualFields| ==> t.manualFields[m].claim < |t.claims|
  {
  }

  lemma CurrentKept(t: Tables, v: Tables, e: nat, d: nat, f: Field)
    requires Refs(t) && Refs(v) && SameBut(t, v, e)
    ensures HasCurrentClaim(t, d, f) == HasCurrentClaim(v, d, f)
  {
    forall s | 0 <= s < |t.sources| {
      EffectiveKept(t, v, s);
    }
    hide EffectiveSource;
  }

  /** Events not recomputed keep their reasons through a whole pass. */
  lemma {:induction false} RaisesKeptThrough(lex: Lexicon, t: Tables, es: seq<nat>, d: nat, f: Field)
    requires Sound(lex, t) && (forall i :: 0 <= i < |es| ==> es[i] < |t.events|) && d !in es
    ensures Refs(t)
    ensures var u := RecomputeAll(lex, t, es);
            u.Some? ==> Refs(u.value) && Raises(lex, t, d, f) == Raises(lex, u.value, d, f)
    decreases |es|
  {
    hide Sound, Refs, Recomputed, Raises, Keeps, SameBut;
    SoundRefs(lex, t);
    if es != [] {
      var n := |es| - 1;
      RaisesKeptThrough(lex, t, es[..n], d, f);
      RecomputeAllSound(lex, t, es[..n]);
      var before := RecomputeAll(lex, t, es[..n]);
      if before.Some? && Recomputed(lex, before.value, es[n]).Some? {
        RecomputedSameBut(lex, before.value, es[n]);
        RecomputedRefs(lex, before.value, es[n]);
        assert d != es[n];
        RaisesKept(lex, before.value, Recomputed(lex, before.value, es[n]).value, es[n], d, f);
      }
    }
  }

  /** Recomputing a list of events raises exactly when one of them has a reason to. */
  lemma {:induction false} PassRaisesExactly(lex: Lexicon, t: Tables, es: seq<nat>)
    requires Sound(lex, t) && (forall i :: 0 <= i < |es| ==> es[i] < |t.events|) && NoDuplicates(es)
    ensures Refs(t)
    ensures RecomputeAll(lex, t, es).None? <==> exists i, f :: 0 <= i < |es| && Raises(lex, t, es[i], f)
    decreases |es|
  {
    hide Sound, Refs, Recomputed, Raises, Keeps;
    SoundRefs(lex, t);
    if es != [] {
      var n := |es| - 1;
      PassRaisesExactly(lex, t, es[..n]);
      RecomputeAllSound(lex, t, es[..n]);
      var before := RecomputeAll(lex, t, es[..n]);
      if before.Some? {
        RaisesAt(lex, before.value, es[n]);
        forall f ensures Raises(lex, t, es[n], f) == Raises(lex, before.value, es[n], f) {
          RaisesKeptThrough(lex, t, es[..n], es[n], f);
        }
      } else {
        var i, f :| 0 <= i < n && Raises(lex, t, es[..n][i], f);
        assert Raises(lex, t, es[i], f);
      }
    }
  }

  lemma RaisesAt(lex: Lexicon, t: Tables, e: nat)
    requires Sound(lex, t) && e < |t.events|
    ensures Refs(t) && (Recomputed(lex, t, e).None? <==> exists f :: Raises(lex, t, e, f))
  {
    hide Sound, Recomputed, Misnamed, HasCurrentClaim;
    RaisesExactly(lex, t, e);
    if Recomputed(lex, t, e).None? {
      var f :| f in CANONICAL && Misnamed(lex, t, e, f) && HasCurrentClaim(t, e, f);
      assert Raises(lex, t, e, f);
    }
  }

  /** `reconcile_course` raises exactly when, with all candidates assigned, an event of the course has a reason to. */
  lemma RunRaisesExactly(lex: Lexicon, t: Tables, course: nat, version: string, ctx: Context, now: int)
    requires Sound(lex, t)
    ensures Refs(t)
    ensures var u := Assigned(lex, t, course, version, ctx, now);
            FreshRun(lex, t, course, version, ctx, now).None? <==>
              exists e, f :: 0 <= e < |u.events| && u.events[e].course == course && Raises(lex, u, e, f)
  {
    hide Sound, Keeps, Refs, Assigned, RecomputeAll, OnlyCourse, TitlesShared, Audited, Raises;
    SoundRefs(lex, t);
    AssignedFacts(lex, t, course, version, ctx, now);
    var u := Assigned(lex, t, course, version, ctx, now);
    PassedKeeps(lex, t, u, course);
    var es := EventsUpTo(u, course, |u.events|);
    PassRaisesExactly(lex, u, es);
    forall e: nat | e < |u.events| && u.events[e].course == course ensures e in es {}
    if e, f :| 0 <= e < |u.events| && u.events[e].course == course && Raises(lex, u, e, f) {
      assert e in es;
      var i :| 0 <= i < |es| && es[i] == e;
      assert Raises(lex, u, es[i], f);
    }
    if i, f :| 0 <= i < |es| && Raises(lex, u, es[i], f) {
      assert es[i] in es && u.events[es[i]].course == course;
    }
  }

  // ----- a condition a caller can check before the run

  /** No decision in force on an event of the course names a local claim as an existing one. */
  ghost predicate NamesNoLocalIn(t: Tables, course: nat)
    requires Refs(t)
  {
    forall m :: 0 <= m < |t.manualFields| && t.manualFields[m].active && !t.manualFields[m].local &&
                t.events[t.manualFields[m].event].course == course ==>
      t.claims[t.manualFields[m].claim].origin.FromSource?
  }

  lemma CalmEvent(lex: Lexicon, t: Tables, u: Tables, course: nat, e: nat, f: Field)
    requires Refs(t) && Refs(u) && Keeps(t, u) && u.manualFields == t.manualFields && NamesNoLocalIn(t, course)
    requires e < |u.events| && u.events[e].course == course
    ensures !Misnamed(lex, u, e, f)
  {
    hide FieldOutdated;
    forall m | 0 <= m < |u.manualFields| && InForce(u, e, f, m) && !u.manualFields[m].local
      ensures u.claims[u.manualFields[m].claim].origin.FromSource?
    {
      assert t.manualFields[m].active && t.manualFields[m].event == e && e < |t.events|;
    }
  }

  /** On such a store the run cannot raise, whatever the candidates bring. */
  lemma CalmRunSucceeds(lex: Lexicon, t: Tables, course: nat, version: string, ctx: Context, now: int)
    requires Sound(lex, t)
    ensures Refs(t)
    ensures NamesNoLocalIn(t, course) ==> FreshRun(lex, t, course, version, ctx, now).Some?
  {
    hide Sound, Keeps, Refs, Assigned, FreshRun, OnlyCourse, TitlesShared, Audited, Misnamed, HasCurrentClaim,
      NamesNoLocalIn;
    SoundRefs(lex, t);
    AssignedFacts(lex, t, course, version, ctx, now);
    var u := Assigned(lex, t, course, version, ctx, now);
    PassedKeeps(lex, t, u, course);
    RunRaisesExactly(lex, t, course, version, ctx, now);
    if NamesNoLocalIn(t, course) {
      forall e, f | 0 <= e < |u.events| && u.events[e].course == course ensures !Raises(lex, u, e, f) {
        CalmEvent(lex, t, u, course, e, f);
      }
    }
  }
}
