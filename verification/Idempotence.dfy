/** `_recompute_event` is idempotent (events/reconciliation.py:1213-1502). */
module Idempotence {
  import opened Matching
  import opened Grouping
  import opened EventTables
  import opened Recompute
  import opened RecomputeFacts

  /** A second expiry changes nothing. */
  lemma ExpireAgain(lex: Lexicon, t: Tables, v: Tables, e: nat)
    requires Refs(t) && Refs(v) && SameEvidence(Expire(lex, t, e), v)
    ensures Expire(lex, v, e) == v
  {
    hide FieldOutdated, EffectiveSource, Effective;
    var x := Expire(lex, t, e);
    ExpireRefs(lex, t, e);
    forall m | 0 <= m < |v.manualFields| ensures ExpiredField(lex, v, e, m) == v.manualFields[m] {
      OutdatedKept(lex, t, v, m);
    }
    forall m | 0 <= m < |v.manualIdentities| ensures ExpiredIdentity(v, e, m) == v.manualIdentities[m] {
      EffectiveKept(t, v, v.manualIdentities[m].source);
    }
    assert Expire(lex, v, e).manualFields == v.manualFields;
    assert Expire(lex, v, e).manualIdentities == v.manualIdentities;
  }

  lemma StatesAgain(lex: Lexicon, x: Tables, v: Tables, e: nat)
    requires Refs(x) && Refs(v) && SameEvidence(x, v)
    requires v.claims == StatesAfter(lex, x, e, CANONICAL)
    ensures StatesAfter(lex, v, e, CANONICAL) == v.claims
  {
    hide OutcomeOf, ActiveClaim, Refs, SameEvidence, AcceptedBeside;
    SameLength(x, v);
    forall c | 0 <= c < |v.claims| ensures StateOf(lex, v, e, CANONICAL, c) == v.claims[c].state {
      SameActivity(x, v, c);
      SameChoices(lex, x, v, e, v.claims[c].field);
    }
  }

  lemma ProjectionsAgain(lex: Lexicon, x: Tables, v: Tables, e: nat)
    requires Refs(x) && Refs(v) && SameEvidence(x, v)
    requires v.projections == ProjectionsAfter(lex, x, e, CANONICAL)
    ensures ProjectionsAfter(lex, v, e, CANONICAL) == v.projections
  {
    hide OutcomeOf, ActiveClaim, Refs, SameEvidence;
    forall f {
      SameChoices(lex, x, v, e, f);
    }
  }

  lemma EdgesAgain(lex: Lexicon, x: Tables, v: Tables, e: nat)
    requires Refs(x) && Refs(v) && SameEvidence(x, v)
    ensures NewEdges(lex, v, e, CANONICAL) == NewEdges(lex, x, e, CANONICAL)
  {
    hide OutcomeOf, ActiveClaim, Refs, SameEvidence, RowOf, AcceptedBeside, FieldClaims;
    SameLength(x, v);
    forall f
      ensures OutcomeOf(lex, x, e, f) == OutcomeOf(lex, v, e, f) && FieldClaims(x, e, f) == FieldClaims(v, e, f)
    {
      SameChoices(lex, x, v, e, f);
    }
    forall c | 0 <= c < |x.claims| ensures RowOf(x, c) == RowOf(v, c) {
      SameActivity(x, v, c);
    }
    forall f, b | b in FieldClaims(x, e, f) ensures b < |x.claims| {
      FieldClaimsInRange(x, e, f);
    }
    assert forall f, a, b :: Edge(lex, x, e, f, a, b) == Edge(lex, v, e, f, a, b);
  }

  lemma {:induction false} SumAgain(u: Tables, v: Tables, e: nat, n: nat)
    requires Refs(u) && Refs(v) && SameEvidence(u, v) && n <= |u.claims|
    ensures ConfidenceSum(u, e, n) == ConfidenceSum(v, e, n)
  {
    hide ActiveClaim, Refs;
    if n > 0 {
      SumAgain(u, v, e, n - 1);
      SameActivity(u, v, n - 1);
    }
  }

  lemma EventRowAgain(u: Tables, v: Tables, e: nat)
    requires Refs(u) && Refs(v) && SameEvidence(u, v) && e < |u.events| == |v.events|
    requires u.events[e].course == v.events[e].course && u.projections == v.projections && u.possible == v.possible
    requires HasOpenConflict(u, e) == HasOpenConflict(v, e)
    ensures EventRow(u, e) == EventRow(v, e)
  {
    hide ActiveClaim, Refs, HasOpenConflict, EffectiveSource;
    SameLength(u, v);
    SumAgain(u, v, e, |u.claims|);
    forall c | 0 <= c < |u.claims| ensures IsActiveSourceClaim(u, e, c) == IsActiveSourceClaim(v, e, c) {
      SameActivity(u, v, c);
    }
    assert ActiveSources(u, e) == ActiveSources(v, e);
    assert Shown(u, e) == Shown(v, e);
    forall s | 0 <= s < |u.sources| ensures ActiveSource(u, s) == ActiveSource(v, s) {
      ActiveSourceAgain(u, v, s);
    }
    assert HasAmbiguity(u, e) == HasAmbiguity(v, e);
  }

  lemma ActiveSourceAgain(u: Tables, v: Tables, s: nat)
    requires Refs(u) && Refs(v) && SameEvidence(u, v) && s < |u.sources|
    ensures ActiveSource(u, s) == ActiveSource(v, s)
  {
    EffectiveKept(u, v, s);
    forall m | 0 <= m < |u.manualFields|
      ensures u.claims[u.manualFields[m].claim].origin == v.claims[v.manualFields[m].claim].origin {}
    hide EffectiveSource;
  }

  /** The open conflicts of an event, without their row keys. */
  function OpenConflicts(t: Tables, e: nat): set<(Field, set<nat>)> {
    set k | 0 <= k < |t.conflicts| && t.conflicts[k].open && t.conflicts[k].event == e ::
      (t.conflicts[k].field, t.conflicts[k].alternatives)
  }

  /** The open conflicts after settling are the contested fields with their competing claims. */
  lemma OpenConflictsAfter(lex: Lexicon, t: Tables, e: nat)
    requires Refs(t)
    ensures forall f, a :: (f, a) in OpenConflicts(Settle(lex, t, e, CANONICAL), e) <==>
              f in CANONICAL && OutcomeOf(lex, t, e, f).Contested? && a == FieldClaims(t, e, f)
  {
    hide OutcomeOf, FieldClaims, Refs, Settle;
    var u := Settle(lex, t, e, CANONICAL);
    forall f, a
      ensures (f, a) in OpenConflicts(u, e) <==>
              f in CANONICAL && OutcomeOf(lex, t, e, f).Contested? && a == FieldClaims(t, e, f)
    {
      OpenAfter(lex, t, e, CANONICAL, f);
      if (f, a) in OpenConflicts(u, e) {
        var k :| 0 <= k < |u.conflicts| && OpenFor(u, e, f, k) && u.conflicts[k].alternatives == a;
      }
      if f in CANONICAL && OutcomeOf(lex, t, e, f).Contested? && a == FieldClaims(t, e, f) {
        var k :| 0 <= k < |u.conflicts| && OpenFor(u, e, f, k);
        assert (u.conflicts[k].field, u.conflicts[k].alternatives) in OpenConflicts(u, e);
      }
    }
  }

  lemma OpenConflictsAgain(lex: Lexicon, x: Tables, v: Tables, e: nat)
    requires Refs(x) && Refs(v) && SameEvidence(x, v)
    ensures OpenConflicts(Settle(lex, x, e, CANONICAL), e) == OpenConflicts(Settle(lex, v, e, CANONICAL), e)
    ensures HasOpenConflict(Settle(lex, x, e, CANONICAL), e) == HasOpenConflict(Settle(lex, v, e, CANONICAL), e)
  {
    hide OutcomeOf, FieldClaims, Refs, Settle, SameEvidence;
    forall f {
      SameChoices(lex, x, v, e, f);
    }
    OpenConflictsAfter(lex, x, e);
    OpenConflictsAfter(lex, v, e);
    var p, q := OpenConflicts(Settle(lex, x, e, CANONICAL), e), OpenConflicts(Settle(lex, v, e, CANONICAL), e);
    forall o ensures o in p <==> o in q {
      assert o == (o.0, o.1);
    }
    OpenIsNonempty(Settle(lex, x, e, CANONICAL), e);
    OpenIsNonempty(Settle(lex, v, e, CANONICAL), e);
  }

  lemma OpenIsNonempty(t: Tables, e: nat)
    ensures HasOpenConflict(t, e) <==> OpenConflicts(t, e) != {}
  {
    if HasOpenConflict(t, e) {
      var k :| 0 <= k < |t.conflicts| && t.conflicts[k].open && t.conflicts[k].event == e;
      assert (t.conflicts[k].field, t.conflicts[k].alternatives) in OpenConflicts(t, e);
    }
  }

  lemma SettleAgain(lex: Lexicon, x: Tables, e: nat)
    requires Refs(x) && e < |x.events|
    ensures var u := Settle(lex, x, e, CANONICAL);
            && Refs(u) && Refs(WithEventRow(u, e)) && SameEvidence(x, WithEventRow(u, e))
            && var v := WithEventRow(u, e);
               var w := Settle(lex, v, e, CANONICAL);
               w == v.(conflicts := w.conflicts) && OpenConflicts(w, e) == OpenConflicts(v, e) &&
                 HasOpenConflict(w, e) == HasOpenConflict(u, e)
  {
    SettleEvidence(lex, x, e, CANONICAL);
    var u := Settle(lex, x, e, CANONICAL);
    EventRowEvidence(u, e);
    var v := WithEventRow(u, e);
    hide OutcomeOf, Refs, EventRow, StatesAfter, ProjectionsAfter, NewEdges, NewConflicts, ActiveClaim, FieldClaims;
    assert SameEvidence(x, v);
    StatesAgain(lex, x, v, e);
    ProjectionsAgain(lex, x, v, e);
    EdgesAgain(lex, x, v, e);
    OpenConflictsAgain(lex, x, v, e);
    hide SameEvidence;
  }

  /** A second recomputation raises no error and changes nothing but the numbering of the conflict log. */
  lemma RecomputeIsIdempotent(lex: Lexicon, t: Tables, e: nat)
    requires Refs(t) && e < |t.events|
    ensures Recomputed(lex, t, e).Some? ==>
              var v := Recomputed(lex, t, e).value;
              && Refs(v) && e < |v.events| && Recomputed(lex, v, e).Some?
              && var w := Recomputed(lex, v, e).value;
                 w == v.(conflicts := w.conflicts) && OpenConflicts(w, e) == OpenConflicts(v, e)
  {
    hide Recomputed;
    if Recomputed(lex, t, e).Some? {
      RecomputedTwice(lex, t, e);
    }
  }

  lemma RecomputedTwice(lex: Lexicon, t: Tables, e: nat)
    requires Refs(t) && e < |t.events| && Recomputed(lex, t, e).Some?
    ensures var v := Recomputed(lex, t, e).value;
            && Refs(v) && e < |v.events| && Recomputed(lex, v, e).Some?
            && var w := Recomputed(lex, v, e).value;
               w == v.(conflicts := w.conflicts) && OpenConflicts(w, e) == OpenConflicts(v, e)
  {
    hide OutcomeOf, Refs, Settle, Expire, SameEvidence, Recomputed, EventRow, HasOpenConflict;
    RecomputedShape(lex, t, e);
    RecomputedRefs(lex, t, e);
    var x := Expire(lex, t, e);
    ExpireEvents(lex, t, e);
    SettleAgain(lex, x, e);
    var u := Settle(lex, x, e, CANONICAL);
    SettleEvents(lex, x, e);
    var v := WithEventRow(u, e);
    ExpireAgain(lex, t, v, e);
    forall f {
      SameChoices(lex, x, v, e, f);
    }
    RecomputedShape(lex, v, e);
    var w := Settle(lex, v, e, CANONICAL);
    EventRowTwice(lex, u, v, w, e);
    EventRowOpenConflicts(w, e);
  }

  lemma EventRowTwice(lex: Lexicon, u: Tables, v: Tables, w: Tables, e: nat)
    requires Refs(u) && e < |u.events| && v == WithEventRow(u, e) && Refs(v) && Refs(w) &&
      w == v.(conflicts := w.conflicts)
    requires HasOpenConflict(w, e) == HasOpenConflict(u, e)
    ensures EventRow(w, e) == EventRow(u, e) && WithEventRow(w, e) == v.(conflicts := w.conflicts)
  {
    hide Refs, HasOpenConflict, EventRow;
    EventRowEvidence(u, e);
    EventRowState(u, e);
    EventRowKeepsCourse(u, e);
    EventRowAgain(u, w, e);
  }

  lemma EventRowKeepsCourse(u: Tables, e: nat)
    requires Refs(u) && e < |u.events|
    ensures WithEventRow(u, e).events[e].course == u.events[e].course && WithEventRow(u, e).possible == u.possible
  {
    hide HasOpenConflict, HasAmbiguity, Shown, Confidence, ActiveSources;
  }

  lemma EventRowOpenConflicts(w: Tables, e: nat)
    requires Refs(w) && e < |w.events|
    ensures OpenConflicts(WithEventRow(w, e), e) == OpenConflicts(w, e)
  {
    hide EventRow;
  }
}
