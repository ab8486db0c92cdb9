/** What manual decisions guarantee: invariants, settled events, and when the decision prevails. */
module ManualSound {
  import opened Basics
  import opened Matching
  import opened EventTables
  import opened Recompute
  import opened RecomputeFacts
  import opened RecomputeSound
  import opened Reconcile
  import opened ReconcileSound
  import opened Manual

  // ----- invariants

  lemma FieldDecidedKeeps(t: Tables, e: nat, f: Field, choice: Choice, now: int)
    requires Refs(t) && FieldRequestOk(t, e, f, choice)
    ensures Refs(FieldDecided(t, e, f, choice, now)) && Keeps(t, FieldDecided(t, e, f, choice, now))
  {
    FieldDecidedRefs(t, e, f, choice, now);
  }

  lemma FieldDecidedSound(lex: Lexicon, t: Tables, e: nat, f: Field, choice: Choice, now: int)
    requires Sound(lex, t) && FieldRequestOk(t, e, f, choice)
    ensures Sound(lex, FieldDecided(t, e, f, choice, now))
  {
    FieldDecidedKeeps(t, e, f, choice, now);
    var u := FieldDecided(t, e, f, choice, now);
    CarriedOver(lex, t, u);
    FieldDecidedManual(t, e, f, choice, now);
    hide WellFormed, IsField, EdgesOk, ProjectionsOk, ConflictsOk, ManualFieldsOk;
    forall s | 0 <= s < |u.sources| ensures SourceOk(lex, u, s) { assert SourceOk(lex, t, s); }
    forall c | 0 <= c < |u.claims| ensures ClaimOk(u, c) {
      if c < |t.claims| { assert ClaimOk(t, c); }
    }
  }

  /** The new decision replaces the one in force for its field. */
  lemma FieldDecidedManual(t: Tables, e: nat, f: Field, choice: Choice, now: int)
    requires Refs(t) && ManualFieldsOk(t) && FieldRequestOk(t, e, f, choice)
    ensures Refs(FieldDecided(t, e, f, choice, now)) && ManualFieldsOk(FieldDecided(t, e, f, choice, now))
  {
    FieldDecidedRefs(t, e, f, choice, now);
    var u := FieldDecided(t, e, f, choice, now);
    hide WellFormed;
    forall m | 0 <= m < |u.manualFields| ensures ManualFieldOk(u, m) {
      if m < |t.manualFields| { assert ManualFieldOk(t, m); }
    }
    forall d, g, m, n | 0 <= m < n < |u.manualFields| ensures !(InForce(u, d, g, m) && InForce(u, d, g, n)) {
      if n < |t.manualFields| { assert !(InForce(t, d, g, m) && InForce(t, d, g, n)); }
    }
  }

  lemma FieldResolvedFacts(lex: Lexicon, t: Tables, e: nat, f: Field, choice: Choice, now: int)
    requires Committed(lex, t)
    ensures FieldResolved(lex, t, e, f, choice, now).Some? ==>
              var u := FieldResolved(lex, t, e, f, choice, now).value;
              Committed(lex, u) && Keeps(t, u) && e < |u.events| && EventSettled(u, e)
  {
    hide Sound, Keeps, Refs, Recomputed, FieldDecided, ProjectedAccepted, EventSettled;
    SoundRefs(lex, t);
    if FieldResolved(lex, t, e, f, choice, now).Some? {
      var d := FieldDecided(t, e, f, choice, now);
      FieldDecidedSound(lex, t, e, f, choice, now);
      FieldDecidedKeeps(t, e, f, choice, now);
      RecordingKeeps(t, e, f, choice, now);
      AcceptedCarried(lex, t, d);
      RecomputedCommitted(lex, d, e);
      KeepsTransitive(t, d, Recomputed(lex, d, e).value);
    }
  }

  /** Projections and claim states untouched so far: the accepted projections are still accepted. */
  lemma AcceptedCarried(lex: Lexicon, t: Tables, d: Tables)
    requires Committed(lex, t) && Sound(lex, d) && d.projections == t.projections
    requires |t.claims| <= |d.claims| && forall c :: 0 <= c < |t.claims| ==> d.claims[c].state == t.claims[c].state
    ensures ProjectedAccepted(d)
  {
    forall e, f | (e, f) in d.projections ensures d.claims[d.projections[(e, f)].claim].state.Accepted? {
      assert ProjectionOk(t, e, f);
    }
    hide Refs;
  }

  ghost predicate AcceptedElsewhere(t: Tables, e: nat)
    requires Refs(t) && ProjectionsOk(t)
  {
    forall d, f :: (d, f) in t.projections && d != e ==> ShowsAccepted(t, d, f)
  }

  /** Recomputing the one event whose claims were touched commits a sound, settled state. */
  lemma RecomputedCommits(lex: Lexicon, t: Tables, e: nat)
    requires Sound(lex, t) && e < |t.events| && Recomputed(lex, t, e).Some? && AcceptedElsewhere(t, e)
    ensures var u := Recomputed(lex, t, e).value;
            Committed(lex, u) && Keeps(t, u) && e < |u.events| && EventSettled(u, e)
  {
    hide Sound, Keeps, Refs, Recomputed, ShowsAccepted, EventSettled;
    SoundParts(lex, t);
    RecomputedSound(lex, t, e);
    RecomputedRefs(lex, t, e);
    RecomputedSettles(lex, t, e);
    var u := Recomputed(lex, t, e).value;
    SoundParts(lex, u);
    forall d, f | (d, f) in u.projections ensures ShowsAccepted(u, d, f) {
      if d != e {
        ProjectionElsewhere(lex, t, e, d, f);
      }
      RecomputedAccepted(lex, t, e, d, f);
    }
    ShownIsAccepted(u);
  }

  lemma ShownIsAccepted(t: Tables)
    requires Refs(t) && ProjectionsOk(t) && forall d, f :: (d, f) in t.projections ==> ShowsAccepted(t, d, f)
    ensures ProjectedAccepted(t)
  {
    forall d, f | (d, f) in t.projections ensures ProjectionOk(t, d, f) && ShowsAccepted(t, d, f) {}
    hide Refs;
  }

  lemma RecomputedCommitted(lex: Lexicon, t: Tables, e: nat)
    requires Committed(lex, t) && e < |t.events| && Recomputed(lex, t, e).Some?
    ensures var u := Recomputed(lex, t, e).value;
            Committed(lex, u) && Keeps(t, u) && e < |u.events| && EventSettled(u, e)
  {
    RecomputedCommits(lex, t, e);
    hide Refs, Recomputed, EventSettled;
  }

  lemma IdentityRecordedSound(lex: Lexicon, t: Tables, s: nat, e: nat)
    requires Sound(lex, t) && s < |t.sources| && t.sources[s].event == Some(e)
    ensures e < |t.events| && Sound(lex, IdentityRecorded(t, s, e)) && Keeps(t, IdentityRecorded(t, s, e))
  {
    var u := IdentityRecorded(t, s, e);
    CarriedOver(lex, t, u);
    hide WellFormed, IsField, EdgesOk, ProjectionsOk, ConflictsOk;
    forall r | 0 <= r < |u.sources| ensures SourceOk(lex, u, r) { assert SourceOk(lex, t, r); }
    forall c | 0 <= c < |u.claims| ensures ClaimOk(u, c) { assert ClaimOk(t, c); }
    forall m | 0 <= m < |u.manualFields| ensures ManualFieldOk(u, m) { assert ManualFieldOk(t, m); }
    forall d, g, m, n | 0 <= m < n < |u.manualFields| ensures !(InForce(u, d, g, m) && InForce(u, d, g, n)) {
      assert !(InForce(t, d, g, m) && InForce(t, d, g, n));
    }
  }

  lemma IdentityResolvedFacts(lex: Lexicon, t: Tables, s: nat, e: nat)
    requires Committed(lex, t)
    ensures IdentityResolved(lex, t, s, e).Some? ==>
              var u := IdentityResolved(lex, t, s, e).value;
              Committed(lex, u) && Keeps(t, u) && e < |u.events| && EventSettled(u, e)
  {
    if IdentityResolved(lex, t, s, e).Some? {
      SoundParts(lex, t);
      hide Sound, Keeps, Refs, Recomputed, EventSettled, ClaimsOk;
      var b := Bind(t, s, e);
      BindSound(lex, t, s, e);
      BindKeeps(t, s, e);
      IdentityRecordedSound(lex, b, s, e);
      var d := IdentityRecorded(b, s, e);
      SoundParts(lex, d);
      BoundElsewhere(lex, t, s, e);
      RecomputedCommits(lex, d, e);
      KeepsTransitive(t, b, d);
      KeepsTransitive(t, d, Recomputed(lex, d, e).value);
    }
  }

  lemma BoundElsewhere(lex: Lexicon, t: Tables, s: nat, e: nat)
    requires Committed(lex, t) && IdentityRequestOk(t, s, e)
    requires Sound(lex, IdentityRecorded(Bind(t, s, e), s, e))
    ensures AcceptedElsewhere(IdentityRecorded(Bind(t, s, e), s, e), e)
  {
    var u := IdentityRecorded(Bind(t, s, e), s, e);
    forall d, f | (d, f) in u.projections && d != e ensures ShowsAccepted(u, d, f) {
      assert ProjectionOk(t, d, f) && ProjectionOk(u, d, f);
      assert ClaimOk(t, t.projections[(d, f)].claim);
    }
    hide Refs, Sound;
  }
}
