/** Recomputing an event keeps every invariant of the event store. */
module RecomputeSound {
  import opened Basics
  import opened Matching
  import opened Grouping
  import opened EventTables
  import opened Recompute
  import opened RecomputeFacts

  // ----- expiry

  lemma ExpireKeeps(lex: Lexicon, t: Tables, e: nat)
    requires Refs(t)
    ensures Keeps(t, Expire(lex, t, e))
  {
    hide FieldOutdated, EffectiveSource;
  }

  lemma ExpireSound(lex: Lexicon, t: Tables, e: nat)
    requires Sound(lex, t)
    ensures Sound(lex, Expire(lex, t, e))
  {
    hide FieldOutdated, EffectiveSource, WellFormed, IsField;
    var x := Expire(lex, t, e);
    ExpireRefs(lex, t, e);
    assert SourcesOk(lex, x) by {
      forall s | 0 <= s < |x.sources| ensures SourceOk(lex, x, s) { assert SourceOk(lex, t, s); }
    }
    assert ClaimsOk(x) by { forall c | 0 <= c < |x.claims| ensures ClaimOk(x, c) { assert ClaimOk(t, c); } }
    assert ManualFieldsOk(x) by {
      forall m | 0 <= m < |x.manualFields| ensures ManualFieldOk(x, m) { assert ManualFieldOk(t, m); }
      forall d, f, m, n | 0 <= m < n < |x.manualFields| ensures !(InForce(x, d, f, m) && InForce(x, d, f, n)) {
        assert !(InForce(t, d, f, m) && InForce(t, d, f, n));
      }
    }
    assert EdgesOk(x) by {
      forall a, b | (a, b) in x.supersessions ensures EdgeOk(x, a, b) { assert EdgeOk(t, a, b); }
    }
    assert ConflictsOk(x) by {
      forall k | 0 <= k < |x.conflicts| ensures ConflictOk(x, k) { assert ConflictOk(t, k); }
      forall d, f, j, k | 0 <= j < k < |x.conflicts| ensures !(OpenFor(x, d, f, j) && OpenFor(x, d, f, k)) {
        assert !(OpenFor(t, d, f, j) && OpenFor(t, d, f, k));
      }
    }
    assert ProjectionsOk(x) by {
      forall d, f | (d, f) in x.projections ensures ProjectionOk(x, d, f) { assert ProjectionOk(t, d, f); }
    }
  }

  // ----- settling

  lemma SettleKeeps(lex: Lexicon, t: Tables, e: nat, done: seq<Field>)
    requires Refs(t)
    ensures Keeps(t, Settle(lex, t, e, done))
  {
    hide StateOf, NewConflicts, NewEdges, ProjectionsAfter, Refs;
  }

  /** What a winner supersedes goes down: the heart of acyclicity. */
  lemma NewEdgeGoesDown(lex: Lexicon, t: Tables, e: nat, f: Field, a: nat, b: nat)
    requires Refs(t) && Edge(lex, t, e, f, a, b)
    ensures EdgeOk(t, a, b)
  {
    OutcomeShape(lex, t, e, f);
    FieldRowsDistinct(t, e, f);
    var w := OutcomeOf(lex, t, e, f).row;
    assert RowOf(t, b) in FieldRows(t, e, f);
    assert RowOf(t, b) != w;
    hide OutcomeOf, ClassOf, ActiveClaim, RowOf;
  }

  lemma SettleClaims(lex: Lexicon, t: Tables, e: nat, done: seq<Field>)
    requires Sound(lex, t)
    ensures var u := Settle(lex, t, e, done);
            Refs(u) && SourcesOk(lex, u) && ClaimsOk(u) && ManualFieldsOk(u) && ManualIdentitiesOk(u) && PossibleOk(u)
  {
    SettleEvidence(lex, t, e, done);
    hide StateOf, NewConflicts, NewEdges, ProjectionsAfter, WellFormed, IsField;
    var u := Settle(lex, t, e, done);
    forall s | 0 <= s < |u.sources| ensures SourceOk(lex, u, s) { assert SourceOk(lex, t, s); }
    forall c | 0 <= c < |u.claims| ensures ClaimOk(u, c) { assert ClaimOk(t, c); }
    forall m | 0 <= m < |u.manualFields| ensures ManualFieldOk(u, m) { assert ManualFieldOk(t, m); }
    forall d, f, m, n | 0 <= m < n < |u.manualFields| ensures !(InForce(u, d, f, m) && InForce(u, d, f, n)) {
      assert !(InForce(t, d, f, m) && InForce(t, d, f, n));
    }
  }

  lemma SettleEdges(lex: Lexicon, t: Tables, e: nat, done: seq<Field>)
    requires Refs(t) && EdgesOk(t)
    ensures Refs(Settle(lex, t, e, done)) && EdgesOk(Settle(lex, t, e, done))
  {
    var u := Settle(lex, t, e, done);
    SettleEvidence(lex, t, e, done);
    SettleEdgeRows(lex, t, e, done);
    hide StateOf, NewConflicts, ProjectionsAfter, OutcomeOf, FieldClaims, RowOf, Refs, AcceptedBeside;
    forall a, b | (a, b) in u.supersessions ensures EdgeOk(u, a, b) {
      if (a, b) !in t.supersessions {
        var f :| Edge(lex, t, e, f, a, b);
        NewEdgeGoesDown(lex, t, e, f, a, b);
      }
      assert EdgeOk(t, a, b);
    }
  }

  lemma SettleEdgeRows(lex: Lexicon, t: Tables, e: nat, done: seq<Field>)
    requires Refs(t)
    ensures var u := Settle(lex, t, e, done);
            Refs(u) && forall c :: 0 <= c < |t.claims| ==> RowOf(u, c) == RowOf(t, c)
  {
    SettleEvidence(lex, t, e, done);
    var u := Settle(lex, t, e, done);
    SettleKeeps(lex, t, e, done);
    forall c | 0 <= c < |t.claims| {
      RowKept(t, u, c);
    }
    hide Refs, Keeps;
  }

  lemma SettleAlternatives(lex: Lexicon, t: Tables, e: nat, done: seq<Field>, k: nat)
    requires Refs(t) && ConflictsOk(t)
    requires k < |Settle(lex, t, e, done).conflicts|
    ensures Refs(Settle(lex, t, e, done)) && ConflictOk(Settle(lex, t, e, done), k)
  {
    SettleEvidence(lex, t, e, done);
    var u := Settle(lex, t, e, done);
    SameLength(t, u);
    if k < |t.conflicts| {
      assert ConflictOk(t, k);
    } else {
      NewConflictAt(lex, t, e, done, k - |t.conflicts|);
    }
    hide StatesAfter, NewEdges, ProjectionsAfter, OutcomeOf, ActiveClaim, Refs, SameEvidence, NewConflicts;
  }

  lemma OtherConflictsKept(lex: Lexicon, t: Tables, e: nat, done: seq<Field>, d: nat, f: Field, k: nat)
    requires Refs(t) && d != e && k < |Settle(lex, t, e, done).conflicts|
    ensures OpenFor(Settle(lex, t, e, done), d, f, k) <==> k < |t.conflicts| && OpenFor(t, d, f, k)
  {
    if k >= |t.conflicts| {
      NewConflictAt(lex, t, e, done, k - |t.conflicts|);
    }
    hide StatesAfter, NewEdges, ProjectionsAfter, OutcomeOf, ActiveClaim, Refs, NewConflicts;
  }

  lemma SettleConflicts(lex: Lexicon, t: Tables, e: nat, done: seq<Field>)
    requires Refs(t) && ConflictsOk(t) && NoDuplicates(done)
    ensures Refs(Settle(lex, t, e, done)) && ConflictsOk(Settle(lex, t, e, done))
  {
    hide Settle, OutcomeOf, Refs, ConflictOk, OpenFor;
    SettleEvidence(lex, t, e, done);
    var u := Settle(lex, t, e, done);
    forall k | 0 <= k < |u.conflicts| ensures ConflictOk(u, k) {
      SettleAlternatives(lex, t, e, done, k);
    }
    forall d, f, j, k | 0 <= j < k < |u.conflicts| ensures !(OpenFor(u, d, f, j) && OpenFor(u, d, f, k)) {
      if d == e {
        OpenAfter(lex, t, e, done, f);
      } else {
        OtherConflictsKept(lex, t, e, done, d, f, j);
        OtherConflictsKept(lex, t, e, done, d, f, k);
      }
    }
  }

  lemma SettleProjections(lex: Lexicon, t: Tables, e: nat, done: seq<Field>)
    requires Refs(t) && ProjectionsOk(t) && forall f :: f in done ==> f in CANONICAL
    ensures Refs(Settle(lex, t, e, done)) && ProjectionsOk(Settle(lex, t, e, done))
  {
    hide Settle, Refs, ProjectionOk, OutcomeOf;
    SettleEvidence(lex, t, e, done);
    var u := Settle(lex, t, e, done);
    forall d, f | (d, f) in u.projections ensures ProjectionOk(u, d, f) {
      ProjectionOrigin(lex, t, e, done, d, f);
      if d == e {
        NewProjectionOk(lex, t, e, done, f);
      } else {
        OldProjectionOk(t, u, d, f);
      }
    }
  }

  lemma ProjectionOrigin(lex: Lexicon, t: Tables, e: nat, done: seq<Field>, d: nat, f: Field)
    requires Refs(t) && (d, f) in Settle(lex, t, e, done).projections
    ensures var p := Settle(lex, t, e, done).projections[(d, f)];
            if d == e then f in done && OutcomeOf(lex, t, e, f).Chosen? &&
                           p == Projection(OutcomeOf(lex, t, e, f).row.key, OutcomeOf(lex, t, e, f).row.value)
            else (d, f) in t.projections && p == t.projections[(d, f)]
  {
    hide StatesAfter, NewEdges, NewConflicts, OutcomeOf, Refs;
  }

  lemma NewProjectionOk(lex: Lexicon, t: Tables, e: nat, done: seq<Field>, f: Field)
    requires Refs(t) && f in CANONICAL && (e, f) in Settle(lex, t, e, done).projections
    ensures Refs(Settle(lex, t, e, done)) && ProjectionOk(Settle(lex, t, e, done), e, f)
  {
    hide Settle, Refs, OutcomeOf, RowOf, FieldRows, ActiveClaim;
    SettleEvidence(lex, t, e, done);
    ProjectionOrigin(lex, t, e, done, e, f);
    OutcomeShape(lex, t, e, f);
    FieldClaimsInRange(t, e, f);
    ChosenValue(t, Settle(lex, t, e, done), OutcomeOf(lex, t, e, f));
  }

  lemma OldProjectionOk(t: Tables, u: Tables, d: nat, f: Field)
    requires Refs(t) && Refs(u) && SameEvidence(t, u) && (d, f) in t.projections && ProjectionOk(t, d, f)
    requires (d, f) in u.projections && u.projections[(d, f)] == t.projections[(d, f)]
    ensures ProjectionOk(u, d, f)
  {
    hide Refs;
  }

  lemma SettleSound(lex: Lexicon, t: Tables, e: nat, done: seq<Field>)
    requires Sound(lex, t) && NoDuplicates(done) && forall f :: f in done ==> f in CANONICAL
    ensures Sound(lex, Settle(lex, t, e, done))
  {
    SettleClaims(lex, t, e, done);
    SettleEdges(lex, t, e, done);
    SettleConflicts(lex, t, e, done);
    SettleProjections(lex, t, e, done);
    hide StatesAfter, NewEdges, NewConflicts, ProjectionsAfter, OutcomeOf, Refs, ClaimsOk, SourcesOk, EdgesOk,
      ConflictsOk, ProjectionsOk, ManualFieldsOk, ManualIdentitiesOk, PossibleOk;
  }

  // ----- the event row

  lemma EventRowSound(lex: Lexicon, t: Tables, e: nat)
    requires Sound(lex, t) && e < |t.events|
    ensures Sound(lex, WithEventRow(t, e)) && Keeps(t, WithEventRow(t, e))
  {
    hide WellFormed, IsField, HasOpenConflict, HasAmbiguity, Shown, Confidence, ActiveSources;
    var u := WithEventRow(t, e);
    EventRowEvidence(t, e);
    forall s | 0 <= s < |u.sources| ensures SourceOk(lex, u, s) { assert SourceOk(lex, t, s); }
    forall c | 0 <= c < |u.claims| ensures ClaimOk(u, c) { assert ClaimOk(t, c); }
    forall m | 0 <= m < |u.manualFields| ensures ManualFieldOk(u, m) { assert ManualFieldOk(t, m); }
    forall d, f, m, n | 0 <= m < n < |u.manualFields| ensures !(InForce(u, d, f, m) && InForce(u, d, f, n)) {
      assert !(InForce(t, d, f, m) && InForce(t, d, f, n));
    }
    forall a, b | (a, b) in u.supersessions ensures EdgeOk(u, a, b) { assert EdgeOk(t, a, b); }
    forall k | 0 <= k < |u.conflicts| ensures ConflictOk(u, k) { assert ConflictOk(t, k); }
    forall d, f, j, k | 0 <= j < k < |u.conflicts| ensures !(OpenFor(u, d, f, j) && OpenFor(u, d, f, k)) {
      assert !(OpenFor(t, d, f, j) && OpenFor(t, d, f, k));
    }
    forall d, f | (d, f) in u.projections ensures ProjectionOk(u, d, f) { assert ProjectionOk(t, d, f); }
  }

  /** `_recompute_event` keeps all invariants and rewrites no evidence. */
  lemma RecomputedSound(lex: Lexicon, t: Tables, e: nat)
    requires Sound(lex, t) && e < |t.events| && Recomputed(lex, t, e).Some?
    ensures Sound(lex, Recomputed(lex, t, e).value) && Keeps(t, Recomputed(lex, t, e).value)
  {
    hide Sound, Keeps, Expire, Settle, WithEventRow, Recomputed, Refs, OutcomeOf;
    SoundRefs(lex, t);
    RecomputedShape(lex, t, e);
    ExpireSound(lex, t, e);
    ExpireKeeps(lex, t, e);
    ExpireEvents(lex, t, e);
    var x := Expire(lex, t, e);
    CanonicalOnce();
    SettleSound(lex, x, e, CANONICAL);
    SettleKeeps(lex, x, e, CANONICAL);
    SettleEvents(lex, x, e);
    var u := Settle(lex, x, e, CANONICAL);
    EventRowSound(lex, u, e);
    KeepsTransitive(t, x, u);
    KeepsTransitive(t, u, WithEventRow(u, e));
  }

  lemma CanonicalOnce()
    ensures NoDuplicates(CANONICAL)
  {
  }

  // ----- other events

  /** Recomputing `e` cannot switch a claim of another event on or off. */
  lemma ExpireElsewhere(lex: Lexicon, t: Tables, e: nat, c: nat)
    requires Sound(lex, t) && c < |t.claims| && t.claims[c].event != Some(e)
    ensures Refs(Expire(lex, t, e)) && ActiveClaim(Expire(lex, t, e), c) == ActiveClaim(t, c)
  {
    hide FieldOutdated, WellFormed, IsField;
    ExpireRefs(lex, t, e);
    var x := Expire(lex, t, e);
    assert ClaimOk(t, c);
    forall m | 0 <= m < |t.manualFields|
      ensures ManualFieldOk(t, m) && ClaimOk(t, t.manualFields[m].claim)
      ensures t.manualFields[m].event != e ==> x.manualFields[m] == t.manualFields[m]
    {
    }
    forall m | 0 <= m < |t.manualIdentities| && t.manualIdentities[m].event != e
      ensures x.manualIdentities[m] == t.manualIdentities[m] {}
    if t.claims[c].origin.FromSource? {
      EffectiveKept(t, x, t.claims[c].origin.source);
    }
    hide EffectiveSource;
  }

  ghost predicate SameEvent(t: Tables, u: Tables, d: nat)
    requires Refs(t) && Refs(u)
  {
    && |t.claims| == |u.claims|
    && (forall c :: 0 <= c < |t.claims| ==> (t.claims[c].event == Some(d) <==> u.claims[c].event == Some(d)))
    && (forall c :: 0 <= c < |t.claims| && t.claims[c].event == Some(d) ==>
          u.claims[c] == t.claims[c] && ActiveClaim(u, c) == ActiveClaim(t, c))
    && (forall f :: (d, f) in t.projections <==> (d, f) in u.projections)
    && (forall f :: (d, f) in t.projections ==> t.projections[(d, f)] == u.projections[(d, f)])
    && |t.conflicts| <= |u.conflicts|
    && (forall f, k :: 0 <= k < |u.conflicts| ==> (OpenFor(u, d, f, k) <==> k < |t.conflicts| && OpenFor(t, d, f, k)))
    && (forall k :: 0 <= k < |t.conflicts| ==> u.conflicts[k].alternatives == t.conflicts[k].alternatives)
    && d < |t.events| && d < |u.events| && t.events[d] == u.events[d]
  }

  lemma SameEventClaims(t: Tables, u: Tables, d: nat, f: Field)
    requires Refs(t) && Refs(u) && SameEvent(t, u, d)
    ensures FieldClaims(t, d, f) == FieldClaims(u, d, f)
  {
    hide Refs, ActiveClaim, OpenFor;
    forall c | 0 <= c < |t.claims| ensures IsFieldClaim(t, d, f, c) == IsFieldClaim(u, d, f, c) {}
  }

  lemma SameEventField(t: Tables, u: Tables, d: nat, f: Field)
    requires Refs(t) && Refs(u) && SameEvent(t, u, d)
    ensures Contended(t, d, f) ==> Contended(u, d, f)
    ensures Projected(t, d, f) ==> Projected(u, d, f)
    ensures Silent(t, d, f) ==> Silent(u, d, f)
  {
    SameEventClaims(t, u, d, f);
    ClaimsOfEvent(t, d, f);
    hide Refs, ActiveClaim, OpenFor, FieldClaims;
  }

  lemma ClaimsOfEvent(t: Tables, d: nat, f: Field)
    requires Refs(t)
    ensures forall c :: c in FieldClaims(t, d, f) ==> c < |t.claims| && t.claims[c].event == Some(d)
  {
  }

  lemma SameEventBack(t: Tables, u: Tables, d: nat, f: Field)
    requires Refs(t) && Refs(u) && SameEvent(t, u, d)
    ensures Contended(u, d, f) ==> Contended(t, d, f)
  {
    SameEventClaims(t, u, d, f);
    ClaimsOfEvent(t, d, f);
    hide Refs, ActiveClaim, OpenFor, FieldClaims;
  }

  lemma SameEventSettled(t: Tables, u: Tables, d: nat)
    requires Refs(t) && Refs(u) && SameEvent(t, u, d) && EventSettled(t, d)
    ensures EventSettled(u, d)
  {
    hide Refs, ActiveClaim, OpenFor, FieldClaims, Contended, Projected, Silent, SameEvent;
    SameEventInactive(t, u, d);
    SameEventRow(t, u, d);
    hide InactiveRejected;
    forall f | f in CANONICAL ensures FieldSettled(u, d, f) {
      assert FieldSettled(t, d, f);
      SameEventClaims(t, u, d, f);
      SameEventField(t, u, d, f);
    }
    forall f ensures Contended(t, d, f) <==> Contended(u, d, f) {
      SameEventField(t, u, d, f);
      SameEventBack(t, u, d, f);
    }
    assert u.events[d].state.InConflict? <==> exists f :: f in CANONICAL && Contended(t, d, f);
  }

  lemma SameEventRow(t: Tables, u: Tables, d: nat)
    requires Refs(t) && Refs(u) && SameEvent(t, u, d)
    ensures d < |t.events| && d < |u.events| && t.events[d] == u.events[d]
  {
  }

  lemma SameEventInactive(t: Tables, u: Tables, d: nat)
    requires Refs(t) && Refs(u) && SameEvent(t, u, d) && InactiveRejected(t, d)
    ensures InactiveRejected(u, d)
  {
    hide Refs, ActiveClaim, OpenFor;
  }

  lemma ClaimElsewhere(lex: Lexicon, t: Tables, e: nat, c: nat)
    requires Sound(lex, t) && e < |t.events| && Recomputed(lex, t, e).Some?
    requires c < |t.claims| && t.claims[c].event != Some(e)
    ensures var v := Recomputed(lex, t, e).value;
            Refs(v) && |v.claims| == |t.claims| && v.claims[c] == t.claims[c] && ActiveClaim(v, c) == ActiveClaim(t, c)
  {
    ExpireElsewhere(lex, t, e, c);
    ExpireEvents(lex, t, e);
    var x := Expire(lex, t, e);
    SettleEvidence(lex, x, e, CANONICAL);
    SettleEvents(lex, x, e);
    var u := Settle(lex, x, e, CANONICAL);
    EventRowEvidence(u, e);
    SameActivity(x, u, c);
    SameActivity(u, WithEventRow(u, e), c);
    assert StateOf(lex, x, e, CANONICAL, c) == x.claims[c].state;
    hide StateOf, ActiveClaim, OutcomeOf, NewConflicts, NewEdges, EventRow, Refs, Sound, ProjectionsAfter, Expire;
  }

  lemma ProjectionElsewhere(lex: Lexicon, t: Tables, e: nat, d: nat, f: Field)
    requires Sound(lex, t) && e < |t.events| && Recomputed(lex, t, e).Some? && d != e
    ensures var v := Recomputed(lex, t, e).value;
            && ((d, f) in t.projections <==> (d, f) in v.projections)
            && ((d, f) in t.projections ==> t.projections[(d, f)] == v.projections[(d, f)])
  {
    ExpireRefs(lex, t, e);
    ExpireEvents(lex, t, e);
    hide StatesAfter, OutcomeOf, NewConflicts, NewEdges, EventRow, Refs, Sound, Expire, Blocked;
  }

  lemma ConflictsElsewhere(lex: Lexicon, t: Tables, e: nat)
    requires Sound(lex, t) && e < |t.events| && Recomputed(lex, t, e).Some?
    ensures var v := Recomputed(lex, t, e).value;
            && |t.conflicts| <= |v.conflicts|
            && (forall d, f, k :: d != e && 0 <= k < |v.conflicts| ==>
                  (OpenFor(v, d, f, k) <==> k < |t.conflicts| && OpenFor(t, d, f, k)))
            && (forall k :: 0 <= k < |t.conflicts| ==> v.conflicts[k].alternatives == t.conflicts[k].alternatives)
            && (forall d :: 0 <= d < |t.events| && d != e ==> d < |v.events| && v.events[d] == t.events[d])
  {
    ExpireRefs(lex, t, e);
    var x := Expire(lex, t, e);
    assert x.conflicts == t.conflicts && x.events == t.events;
    var v := Recomputed(lex, t, e).value;
    forall d: nat, f, k | d != e && 0 <= k < |v.conflicts|
      ensures OpenFor(v, d, f, k) <==> k < |t.conflicts| && OpenFor(t, d, f, k)
    {
      OtherConflictsKept(lex, x, e, CANONICAL, d, f, k);
    }
    hide StatesAfter, OutcomeOf, NewConflicts, NewEdges, EventRow, Refs, Sound, Expire, Blocked, ProjectionsAfter;
  }

  lemma RecomputedElsewhere(lex: Lexicon, t: Tables, e: nat, d: nat)
    requires Sound(lex, t) && e < |t.events| && d < |t.events| && d != e && Recomputed(lex, t, e).Some?
    ensures var v := Recomputed(lex, t, e).value;
            Refs(v) && SameEvent(t, v, d)
  {
    hide ActiveClaim, Refs, Sound, Keeps, Recomputed, OpenFor;
    SoundRefs(lex, t);
    RecomputedSound(lex, t, e);
    var v := Recomputed(lex, t, e).value;
    SoundRefs(lex, v);
    OtherEventRows(lex, t, e, d);
    ConflictsElsewhere(lex, t, e);
    ClaimsKept(lex, t, e);
    forall c | 0 <= c < |t.claims| && t.claims[c].event == Some(d)
      ensures v.claims[c] == t.claims[c] && ActiveClaim(v, c) == ActiveClaim(t, c)
    {
      ClaimElsewhere(lex, t, e, c);
    }
    forall f
      ensures (d, f) in t.projections <==> (d, f) in v.projections
      ensures (d, f) in t.projections ==> t.projections[(d, f)] == v.projections[(d, f)]
    {
      ProjectionElsewhere(lex, t, e, d, f);
    }
  }

  lemma OtherEventRows(lex: Lexicon, t: Tables, e: nat, d: nat)
    requires Refs(t) && e < |t.events| && d < |t.events| && d != e && Recomputed(lex, t, e).Some?
    ensures d < |Recomputed(lex, t, e).value.events| && Recomputed(lex, t, e).value.events[d] == t.events[d]
  {
    hide Refs, Expire, Settle, Recomputed, EventRow, OutcomeOf;
    RecomputedShape(lex, t, e);
    ExpireEvents(lex, t, e);
    SettleEvents(lex, Expire(lex, t, e), e);
  }

  lemma SoundRefs(lex: Lexicon, t: Tables)
    requires Sound(lex, t)
    ensures Refs(t)
  {
  }

  lemma ClaimsKept(lex: Lexicon, t: Tables, e: nat)
    requires Refs(t) && e < |t.events| && Recomputed(lex, t, e).Some?
    ensures var v := Recomputed(lex, t, e).value;
            |t.claims| == |v.claims| && forall c :: 0 <= c < |t.claims| ==> v.claims[c].event == t.claims[c].event
  {
    ExpireRefs(lex, t, e);
    ExpireEvents(lex, t, e);
    hide StateOf, OutcomeOf, NewConflicts, NewEdges, EventRow, Refs, Expire, Blocked, ProjectionsAfter;
  }

  lemma RecomputedKeepsSettled(lex: Lexicon, t: Tables, e: nat, d: nat)
    requires Sound(lex, t) && e < |t.events| && d < |t.events| && d != e && Recomputed(lex, t, e).Some?
    requires EventSettled(t, d)
    ensures var v := Recomputed(lex, t, e).value;
            Refs(v) && d < |v.events| && EventSettled(v, d)
  {
    RecomputedElsewhere(lex, t, e, d);
    SameEventSettled(t, Recomputed(lex, t, e).value, d);
    hide EventSettled, SameEvent;
  }

  // ----- projections show accepted claims

  ghost predicate ShowsAccepted(t: Tables, d: nat, f: Field)
    requires Refs(t) && ProjectionsOk(t)
  {
    (d, f) in t.projections && t.claims[t.projections[(d, f)].claim].state.Accepted?
  }

  /** Whatever an event showed before, after recomputation it shows accepted claims; others are not disturbed. */
  lemma RecomputedAccepted(lex: Lexicon, t: Tables, e: nat, d: nat, f: Field)
    requires Sound(lex, t) && e < |t.events| && Recomputed(lex, t, e).Some?
    requires (d, f) in Recomputed(lex, t, e).value.projections
    requires d == e || ShowsAccepted(t, d, f)
    ensures var v := Recomputed(lex, t, e).value;
            Refs(v) && ProjectionsOk(v) && ShowsAccepted(v, d, f)
  {
    hide Refs, Sound, Keeps, Recomputed, ActiveClaim, OpenFor;
    SoundParts(lex, t);
    RecomputedSound(lex, t, e);
    var v := Recomputed(lex, t, e).value;
    SoundParts(lex, v);
    RecomputedSettles(lex, t, e);
    if d == e {
      assert ProjectionOk(v, e, f);
      assert FieldSettled(v, e, f);
    } else {
      assert ProjectionOk(t, d, f);
      ProjectionElsewhere(lex, t, e, d, f);
      ClaimElsewhere(lex, t, e, t.projections[(d, f)].claim);
    }
  }

  lemma SoundParts(lex: Lexicon, t: Tables)
    requires Sound(lex, t)
    ensures Refs(t) && ProjectionsOk(t) && EdgesOk(t) && ManualFieldsOk(t) && ClaimsOk(t) && SourcesOk(lex, t)
    ensures ManualIdentitiesOk(t) && PossibleOk(t) && ConflictsOk(t) && DecisionsOk(t) && CandidatesOk(t)
  {
  }
}
