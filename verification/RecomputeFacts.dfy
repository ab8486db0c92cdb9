/** Consequences of recomputing an event: the projection-or-conflict dichotomy, idempotence, the exact
    condition under which it raises, and the events it leaves alone. */
module RecomputeFacts {
  import opened Basics
  import opened Matching
  import opened Grouping
  import opened EventTables
  import opened Recompute

  // ----- activity and choices do not depend on what settling writes

  ghost predicate SameEvidence(t: Tables, u: Tables) {
    && t.extractions == u.extractions && t.candidates == u.candidates && t.sources == u.sources
    && t.manualFields == u.manualFields && t.manualIdentities == u.manualIdentities
    && |t.claims| == |u.claims|
    && (forall c :: 0 <= c < |t.claims| ==> u.claims[c] == t.claims[c].(state := u.claims[c].state))
  }

  lemma SameActivity(t: Tables, u: Tables, c: nat)
    requires Refs(t) && Refs(u) && SameEvidence(t, u) && c < |t.claims|
    ensures ActiveClaim(t, c) == ActiveClaim(u, c) && RowOf(t, c) == RowOf(u, c)
  {
    forall s ensures SomeClaimSelected(t, s) == SomeClaimSelected(u, s) {
      forall m | 0 <= m < |t.manualFields|
        ensures t.claims[t.manualFields[m].claim].origin == u.claims[u.manualFields[m].claim].origin {}
    }
  }

  lemma SameChoices(lex: Lexicon, t: Tables, u: Tables, e: nat, f: Field)
    requires Refs(t) && Refs(u) && SameEvidence(t, u)
    ensures FieldClaims(t, e, f) == FieldClaims(u, e, f)
    ensures FieldRows(t, e, f) == FieldRows(u, e, f)
    ensures OutcomeOf(lex, t, e, f) == OutcomeOf(lex, u, e, f)
  {
    hide ActiveClaim, RowOf, SameEvidence, Decide;
    SameLength(t, u);
    forall c | 0 <= c < |t.claims|
      ensures IsFieldClaim(t, e, f, c) == IsFieldClaim(u, e, f, c) && RowOf(t, c) == RowOf(u, c)
    {
      SameActivity(t, u, c);
    }
    SameManual(t, u, e, f, |t.manualFields|);
    assert FieldRows(t, e, f) == FieldRows(u, e, f);
  }

  lemma SameLength(t: Tables, u: Tables)
    requires SameEvidence(t, u)
    ensures |t.claims| == |u.claims| && t.manualFields == u.manualFields
    ensures forall c :: 0 <= c < |t.claims| ==>
              u.claims[c].event == t.claims[c].event && u.claims[c].field == t.claims[c].field
  {
  }

  lemma {:induction false} SameManual(t: Tables, u: Tables, e: nat, f: Field, n: nat)
    requires SameEvidence(t, u) && n <= |t.manualFields|
    ensures ChoiceUpTo(t, e, f, n) == ChoiceUpTo(u, e, f, n)
  {
    if n > 0 {
      SameManual(t, u, e, f, n - 1);
    }
  }

  lemma SettleEvidence(lex: Lexicon, t: Tables, e: nat, done: seq<Field>)
    requires Refs(t)
    ensures SameEvidence(t, Settle(lex, t, e, done)) && Refs(Settle(lex, t, e, done))
  {
  }

  // ----- when recomputation raises

  /** A decision in force that names, as an existing claim, one made for an earlier local decision. */
  ghost predicate NamesLocalClaim(t: Tables, e: nat, f: Field)
    requires Refs(t)
  {
    exists m :: 0 <= m < |t.manualFields| && InForce(t, e, f, m) && !t.manualFields[m].local &&
                t.claims[t.manualFields[m].claim].origin.LocalDecision?
  }

  /** The claim of a decision in force competes unless it is a local claim named as an existing one. */
  lemma ChosenClaimCompetes(t: Tables, e: nat, f: Field, m: nat)
    requires Refs(t) && ManualFieldsOk(t) && m < |t.manualFields| && InForce(t, e, f, m)
    ensures t.manualFields[m].claim in FieldClaims(t, e, f) <==>
            t.manualFields[m].local || t.claims[t.manualFields[m].claim].origin.FromSource?
  {
    var c := t.manualFields[m].claim;
    assert ManualFieldOk(t, m);
    if !t.manualFields[m].local && t.claims[c].origin.LocalDecision? {
      forall n | 0 <= n < |t.manualFields| && t.manualFields[n].active && t.manualFields[n].claim == c
        ensures !t.manualFields[n].local
      {
        assert ManualFieldOk(t, n) && InForce(t, e, f, n);
      }
    }
  }

  /** The error of the field loop, exactly: some claim competes and the decision in force names a local claim
      as if it were an existing one. */
  lemma MissingExactly(lex: Lexicon, t: Tables, e: nat, f: Field)
    requires Refs(t) && ManualFieldsOk(t)
    ensures OutcomeOf(lex, t, e, f).ManualMissing? <==> FieldClaims(t, e, f) != {} && NamesLocalClaim(t, e, f)
  {
    hide ManualFieldsOk, IsFieldClaim, RowOf, OutcomeOf, FieldClaims, FieldRows;
    OutcomeMissing(lex, t, e, f);
    ChoiceIsInForce(t, e, f, |t.manualFields|);
    if ManualChoice(t, e, f).Some? {
      var m :| 0 <= m < |t.manualFields| && InForce(t, e, f, m) &&
        ManualChoice(t, e, f) == Some(t.manualFields[m].claim);
      ChosenClaimCompetes(t, e, f, m);
      OneInForce(t, e, f, m);
    }
  }

  lemma OutcomeMissing(lex: Lexicon, t: Tables, e: nat, f: Field)
    requires Refs(t)
    ensures var choice := ManualChoice(t, e, f);
            OutcomeOf(lex, t, e, f).ManualMissing? <==>
              FieldClaims(t, e, f) != {} && choice.Some? && choice.value !in FieldClaims(t, e, f)
  {
    hide FieldClaims, RowOf, ManualChoice, Refs, Decide;
    FieldRowsDistinct(t, e, f);
    NoRowsNoClaims(t, e, f);
    DecideMissing(lex, f, FieldRows(t, e, f), ManualChoice(t, e, f));
  }

  lemma DecideMissing(lex: Lexicon, f: Field, R: set<Row>, manual: Option<nat>)
    requires DistinctKeys(R)
    ensures Decide(lex, f, R, manual).ManualMissing? <==>
      R != {} && manual.Some? && forall r :: r in R ==> r.key != manual.value
  {
    hide OneClass, IsSuccessor, IsBest, SpecificHeads;
  }

  lemma OneInForce(t: Tables, e: nat, f: Field, m: nat)
    requires Refs(t) && ManualFieldsOk(t) && m < |t.manualFields| && InForce(t, e, f, m)
    ensures forall n :: 0 <= n < |t.manualFields| && InForce(t, e, f, n) ==> n == m
  {
    assert forall n :: 0 <= n < |t.manualFields| && n < m ==> !(InForce(t, e, f, n) && InForce(t, e, f, m));
  }

  // ----- open conflicts after settling

  lemma {:induction false} NewConflictAt(lex: Lexicon, t: Tables, e: nat, done: seq<Field>, k: nat)
    requires Refs(t) && k < |NewConflicts(lex, t, e, done)|
    ensures var q := NewConflicts(lex, t, e, done)[k];
            q.field in done && OutcomeOf(lex, t, e, q.field).Contested? &&
            q == Conflict(e, q.field, true, FieldClaims(t, e, q.field))
  {
    hide OutcomeOf, FieldClaims;
    var rest := done[..|done| - 1];
    if k < |NewConflicts(lex, t, e, rest)| {
      NewConflictAt(lex, t, e, rest, k);
    }
  }

  lemma {:induction false} ContestedHasConflict(lex: Lexicon, t: Tables, e: nat, done: seq<Field>, f: Field)
    returns (k: nat)
    requires Refs(t) && f in done && OutcomeOf(lex, t, e, f).Contested?
    ensures k < |NewConflicts(lex, t, e, done)|
    ensures NewConflicts(lex, t, e, done)[k] == Conflict(e, f, true, FieldClaims(t, e, f))
  {
    hide OutcomeOf, FieldClaims;
    var n := |done| - 1;
    if done[n] == f {
      k := |NewConflicts(lex, t, e, done[..n])|;
    } else {
      k := ContestedHasConflict(lex, t, e, done[..n], f);
    }
  }

  lemma {:induction false} NewConflictsDiffer(lex: Lexicon, t: Tables, e: nat, done: seq<Field>, j: nat, k: nat)
    requires Refs(t) && NoDuplicates(done) && j < k < |NewConflicts(lex, t, e, done)|
    ensures NewConflicts(lex, t, e, done)[j].field != NewConflicts(lex, t, e, done)[k].field
  {
    hide OutcomeOf, FieldClaims;
    var rest := done[..|done| - 1];
    if k < |NewConflicts(lex, t, e, rest)| {
      NewConflictsDiffer(lex, t, e, rest, j, k);
    } else {
      NewConflictAt(lex, t, e, rest, j);
    }
  }

  /** The open conflicts of the event are the contested fields among those decided. */
  lemma OpenAfter(lex: Lexicon, t: Tables, e: nat, done: seq<Field>, f: Field)
    requires Refs(t) && NoDuplicates(done)
    ensures var u := Settle(lex, t, e, done);
            && (forall k :: 0 <= k < |u.conflicts| && OpenFor(u, e, f, k) ==>
                  f in done && OutcomeOf(lex, t, e, f).Contested? &&
                    u.conflicts[k].alternatives == FieldClaims(t, e, f))
            && (f in done && OutcomeOf(lex, t, e, f).Contested? ==>
                  exists k :: 0 <= k < |u.conflicts| && OpenFor(u, e, f, k))
            && (forall j, k :: 0 <= j < k < |u.conflicts| ==> !(OpenFor(u, e, f, j) && OpenFor(u, e, f, k)))
  {
    hide OutcomeOf, FieldClaims, StatesAfter, ProjectionsAfter, NewEdges;
    var u := Settle(lex, t, e, done);
    var n := |t.conflicts|;
    forall k | 0 <= k < |u.conflicts| && OpenFor(u, e, f, k)
      ensures n <= k && f in done && OutcomeOf(lex, t, e, f).Contested? &&
        u.conflicts[k].alternatives == FieldClaims(t, e, f)
    {
      if n <= k {
        NewConflictAt(lex, t, e, done, k - n);
      }
    }
    forall j, k | 0 <= j < k < |u.conflicts| ensures !(OpenFor(u, e, f, j) && OpenFor(u, e, f, k)) {
      if n <= j {
        NewConflictsDiffer(lex, t, e, done, j - n, k - n);
      }
    }
    if f in done && OutcomeOf(lex, t, e, f).Contested? {
      var k := ContestedHasConflict(lex, t, e, done, f);
      assert OpenFor(u, e, f, n + k);
    }
  }

  // ----- the dichotomy

  ghost predicate Projected(t: Tables, e: nat, f: Field)
    requires Refs(t)
  {
    && (e, f) in t.projections
    && t.projections[(e, f)].claim in FieldClaims(t, e, f)
    && t.claims[t.projections[(e, f)].claim].state.Accepted?
    && t.claims[t.projections[(e, f)].claim].value == t.projections[(e, f)].value
    && forall k :: 0 <= k < |t.conflicts| ==> !OpenFor(t, e, f, k)
  }

  ghost predicate Contended(t: Tables, e: nat, f: Field)
    requires Refs(t)
  {
    && (e, f) !in t.projections
    && (forall c :: c in FieldClaims(t, e, f) ==> t.claims[c].state.Conflicting?)
    && (exists k :: 0 <= k < |t.conflicts| && OpenFor(t, e, f, k) &&
         t.conflicts[k].alternatives == FieldClaims(t, e, f))
    && (forall j, k :: 0 <= j < k < |t.conflicts| ==> !(OpenFor(t, e, f, j) && OpenFor(t, e, f, k)))
  }

  ghost predicate Silent(t: Tables, e: nat, f: Field) {
    (e, f) !in t.projections && forall k :: 0 <= k < |t.conflicts| ==> !OpenFor(t, e, f, k)
  }

  /** A field without competing claims shows nothing; any other shows one accepted competing claim or is one
      open conflict over exactly the competing claims. */
  ghost predicate FieldSettled(t: Tables, e: nat, f: Field)
    requires Refs(t)
  {
    if FieldClaims(t, e, f) == {} then Silent(t, e, f) else Projected(t, e, f) || Contended(t, e, f)
  }

  ghost predicate InactiveRejected(t: Tables, e: nat)
    requires Refs(t)
  {
    forall c | 0 <= c < |t.claims| && t.claims[c].event == Some(e) && t.claims[c].origin.FromSource? ::
      ActiveClaim(t, c) || t.claims[c].state.Rejected?
  }

  ghost predicate EventSettled(t: Tables, e: nat)
    requires Refs(t) && e < |t.events|
  {
    && (forall f :: f in CANONICAL ==> FieldSettled(t, e, f))
    && InactiveRejected(t, e)
    && (t.events[e].state.InConflict? <==> exists f :: f in CANONICAL && Contended(t, e, f))
  }

  /** What a decision says about its rows: a chosen row competes; no decision means no rows. */
  lemma OutcomeShape(lex: Lexicon, t: Tables, e: nat, f: Field)
    requires Refs(t)
    ensures var o := OutcomeOf(lex, t, e, f);
            && (o.NoClaims? <==> FieldClaims(t, e, f) == {})
            && (o.Chosen? ==>
                 o.row in FieldRows(t, e, f) && o.row.key in FieldClaims(t, e, f) && o.row == RowOf(t, o.row.key))
            && (o.Chosen? && o.supersede ==> IsSuccessor(lex, f, FieldRows(t, e, f), o.row))
  {
    FieldRowsDistinct(t, e, f);
    NoRowsNoClaims(t, e, f);
    DecideShape(lex, f, FieldRows(t, e, f), ManualChoice(t, e, f));
    hide FieldRows, FieldClaims, RowOf, ChoiceUpTo, IsSuccessor, Decide;
  }

  lemma NoRowsNoClaims(t: Tables, e: nat, f: Field)
    requires Refs(t)
    ensures FieldRows(t, e, f) == {} <==> FieldClaims(t, e, f) == {}
  {
    FieldRowsDistinct(t, e, f);
    if FieldClaims(t, e, f) != {} {
      var c :| c in FieldClaims(t, e, f);
      assert RowOf(t, c) in FieldRows(t, e, f);
    }
  }

  lemma StateSettles(lex: Lexicon, t: Tables, e: nat, f: Field, c: nat)
    requires Refs(t) && f in CANONICAL && c in FieldClaims(t, e, f)
    ensures Settle(lex, t, e, CANONICAL).claims[c].state ==
            DecidedState(lex, f, OutcomeOf(lex, t, e, f), RowOf(t, c), ResetState(t, c))
  {
    hide OutcomeOf, ActiveClaim, Refs, NewConflicts, NewEdges, ProjectionsAfter;
  }

  lemma ProjectionSettles(lex: Lexicon, t: Tables, e: nat, f: Field)
    requires Refs(t) && f in CANONICAL
    ensures var p := Settle(lex, t, e, CANONICAL).projections; var o := OutcomeOf(lex, t, e, f);
            && ((e, f) in p <==> o.Chosen?)
            && (o.Chosen? ==> p[(e, f)] == Projection(o.row.key, o.row.value))
  {
    hide OutcomeOf, ActiveClaim, Refs, NewConflicts, NewEdges, StatesAfter;
  }

  lemma ChosenIsProjected(lex: Lexicon, t: Tables, e: nat, f: Field)
    requires Refs(t) && f in CANONICAL && OutcomeOf(lex, t, e, f).Chosen?
    ensures Refs(Settle(lex, t, e, CANONICAL)) && Projected(Settle(lex, t, e, CANONICAL), e, f)
  {
    hide OutcomeOf, FieldRows, FieldClaims, ActiveClaim, Refs, ResetState, Settle, SameEvidence, RowOf, OpenFor;
    var u := Settle(lex, t, e, CANONICAL);
    var o := OutcomeOf(lex, t, e, f);
    SettleEvidence(lex, t, e, CANONICAL);
    SameLength(t, u);
    SameChoices(lex, t, u, e, f);
    OutcomeShape(lex, t, e, f);
    OpenAfter(lex, t, e, CANONICAL, f);
    ProjectionSettles(lex, t, e, f);
    FieldClaimsInRange(t, e, f);
    StateSettles(lex, t, e, f, o.row.key);
    ChosenValue(t, u, o);
  }

  lemma ContestedIsContended(lex: Lexicon, t: Tables, e: nat, f: Field)
    requires Refs(t) && f in CANONICAL && OutcomeOf(lex, t, e, f).Contested?
    ensures Refs(Settle(lex, t, e, CANONICAL)) && Contended(Settle(lex, t, e, CANONICAL), e, f)
  {
    hide OutcomeOf, FieldRows, FieldClaims, ActiveClaim, Refs, ResetState, Settle, SameEvidence, RowOf, OpenFor;
    var u := Settle(lex, t, e, CANONICAL);
    SettleEvidence(lex, t, e, CANONICAL);
    SameChoices(lex, t, u, e, f);
    OpenAfter(lex, t, e, CANONICAL, f);
    ProjectionSettles(lex, t, e, f);
    FieldClaimsInRange(u, e, f);
    forall c | c in FieldClaims(t, e, f) ensures u.claims[c].state.Conflicting? {
      StateSettles(lex, t, e, f, c);
    }
  }

  lemma NoClaimsIsSilent(lex: Lexicon, t: Tables, e: nat, f: Field)
    requires Refs(t) && f in CANONICAL && OutcomeOf(lex, t, e, f).NoClaims?
    ensures Silent(Settle(lex, t, e, CANONICAL), e, f)
  {
    hide OutcomeOf, Refs, Settle, OpenFor;
    OpenAfter(lex, t, e, CANONICAL, f);
    ProjectionSettles(lex, t, e, f);
  }

  lemma FieldSettles(lex: Lexicon, t: Tables, e: nat, f: Field)
    requires Refs(t) && f in CANONICAL && !OutcomeOf(lex, t, e, f).ManualMissing?
    ensures Refs(Settle(lex, t, e, CANONICAL))
    ensures FieldSettled(Settle(lex, t, e, CANONICAL), e, f)
    ensures Contended(Settle(lex, t, e, CANONICAL), e, f) <==> OutcomeOf(lex, t, e, f).Contested?
  {
    var u := Settle(lex, t, e, CANONICAL);
    SettleEvidence(lex, t, e, CANONICAL);
    SameChoices(lex, t, u, e, f);
    OutcomeShape(lex, t, e, f);
    match OutcomeOf(lex, t, e, f)
    case Chosen(_, _) => ChosenIsProjected(lex, t, e, f);
    case Contested => ContestedIsContended(lex, t, e, f);
    case NoClaims => NoClaimsIsSilent(lex, t, e, f);
    hide OutcomeOf, FieldRows, FieldClaims, ActiveClaim, Refs, Settle, SameEvidence, OpenFor;
  }

  lemma FieldClaimsInRange(t: Tables, e: nat, f: Field)
    requires Refs(t)
    ensures forall c :: c in FieldClaims(t, e, f) ==> c < |t.claims|
  {
  }

  lemma ChosenValue(t: Tables, u: Tables, o: Outcome)
    requires Refs(t) && Refs(u) && SameEvidence(t, u)
    ensures o.Chosen? && o.row.key < |t.claims| && o.row == RowOf(t, o.row.key) ==>
      u.claims[o.row.key].value == o.row.value
  {
  }

  // ----- the whole event

  lemma InactiveSettles(lex: Lexicon, t: Tables, e: nat)
    requires Refs(t)
    ensures Refs(Settle(lex, t, e, CANONICAL)) && InactiveRejected(Settle(lex, t, e, CANONICAL), e)
  {
    hide OutcomeOf, Refs, ActiveClaim, RowOf, NewConflicts, NewEdges, ProjectionsAfter, SameEvidence;
    var u := Settle(lex, t, e, CANONICAL);
    SettleEvidence(lex, t, e, CANONICAL);
    SameLength(t, u);
    forall c | 0 <= c < |u.claims| {
      SameActivity(t, u, c);
    }
  }

  lemma ConflictMeansContended(lex: Lexicon, t: Tables, e: nat)
    requires Refs(t) && !Blocked(lex, t, e)
    ensures var u := Settle(lex, t, e, CANONICAL);
            Refs(u) && (HasOpenConflict(u, e) <==> exists f :: f in CANONICAL && Contended(u, e, f))
  {
    hide OutcomeOf, Refs, Settle, SameEvidence;
    var u := Settle(lex, t, e, CANONICAL);
    SettleEvidence(lex, t, e, CANONICAL);
    if HasOpenConflict(u, e) {
      var k :| 0 <= k < |u.conflicts| && u.conflicts[k].open && u.conflicts[k].event == e;
      var f := u.conflicts[k].field;
      OpenAfter(lex, t, e, CANONICAL, f);
      assert OpenFor(u, e, f, k);
      FieldSettles(lex, t, e, f);
    }
  }

  lemma EventRowEvidence(u: Tables, e: nat)
    requires Refs(u) && e < |u.events|
    ensures var v := WithEventRow(u, e);
            && Refs(v) && SameEvidence(u, v)
            && v.claims == u.claims && v.projections == u.projections && v.conflicts == u.conflicts
  {
    hide EventRow;
  }

  /** The two stores look the same to a field of an event. */
  ghost predicate SameField(u: Tables, v: Tables, e: nat, f: Field)
    requires Refs(u) && Refs(v)
  {
    && v.claims == u.claims && v.projections == u.projections && v.conflicts == u.conflicts
    && FieldClaims(v, e, f) == FieldClaims(u, e, f)
  }

  lemma SameFieldProjected(u: Tables, v: Tables, e: nat, f: Field)
    requires Refs(u) && Refs(v) && SameField(u, v, e, f)
    ensures Projected(v, e, f) == Projected(u, e, f) && Silent(v, e, f) == Silent(u, e, f)
  {
    hide FieldClaims, Refs, OpenFor;
    forall k | 0 <= k < |u.conflicts| ensures OpenFor(u, e, f, k) == OpenFor(v, e, f, k) { SameOpen(u, v, e, f, k); }
  }

  lemma SameOpen(u: Tables, v: Tables, e: nat, f: Field, k: nat)
    requires v.conflicts == u.conflicts && k < |u.conflicts|
    ensures OpenFor(u, e, f, k) == OpenFor(v, e, f, k)
  {
  }

  lemma SameFieldContended(u: Tables, v: Tables, e: nat, f: Field)
    requires Refs(u) && Refs(v) && SameField(u, v, e, f) && Contended(u, e, f)
    ensures Contended(v, e, f)
  {
    hide FieldClaims, Refs, OpenFor;
    forall k | 0 <= k < |u.conflicts| ensures OpenFor(u, e, f, k) == OpenFor(v, e, f, k) { SameOpen(u, v, e, f, k); }
    var k :| 0 <= k < |u.conflicts| && OpenFor(u, e, f, k) && u.conflicts[k].alternatives == FieldClaims(u, e, f);
    assert OpenFor(v, e, f, k) && v.conflicts[k].alternatives == FieldClaims(v, e, f);
  }

  lemma EventRowSameField(lex: Lexicon, u: Tables, e: nat, f: Field)
    requires Refs(u) && e < |u.events|
    ensures Refs(WithEventRow(u, e)) && SameField(u, WithEventRow(u, e), e, f)
  {
    hide *;
    EventRowEvidence(u, e);
    SameChoices(lex, u, WithEventRow(u, e), e, f);
    SameFieldFrom(u, WithEventRow(u, e), e, f);
  }

  lemma SameFieldFrom(u: Tables, v: Tables, e: nat, f: Field)
    requires Refs(u) && Refs(v) && FieldClaims(v, e, f) == FieldClaims(u, e, f)
    requires v.claims == u.claims && v.projections == u.projections && v.conflicts == u.conflicts
    ensures SameField(u, v, e, f) && SameField(v, u, e, f)
  {
    hide Refs, FieldClaims;
  }

  /** Writing the event row changes nothing the dichotomy speaks about. */
  lemma EventRowKeepsFields(lex: Lexicon, u: Tables, e: nat, f: Field)
    requires Refs(u) && e < |u.events|
    ensures var v := WithEventRow(u, e);
            && Refs(v)
            && FieldSettled(v, e, f) == FieldSettled(u, e, f)
            && Contended(v, e, f) == Contended(u, e, f)
            && InactiveRejected(v, e) == InactiveRejected(u, e)
  {
    hide EventRow, FieldClaims, ActiveClaim, Refs, WithEventRow, Contended, Projected, Silent, InactiveRejected;
    var v := WithEventRow(u, e);
    EventRowSameField(lex, u, e, f);
    SameFieldFrom(u, v, e, f);
    SameFieldProjected(u, v, e, f);
    if Contended(u, e, f) {
      SameFieldContended(u, v, e, f);
    }
    if Contended(v, e, f) {
      SameFieldContended(v, u, e, f);
    }
    EventRowInactive(u, e);
  }

  lemma EventRowInactive(u: Tables, e: nat)
    requires Refs(u) && e < |u.events|
    ensures Refs(WithEventRow(u, e)) && InactiveRejected(WithEventRow(u, e), e) == InactiveRejected(u, e)
  {
    hide EventRow, ActiveClaim, Refs, WithEventRow, SameEvidence;
    var v := WithEventRow(u, e);
    EventRowEvidence(u, e);
    forall c | 0 <= c < |u.claims| ensures ActiveClaim(u, c) == ActiveClaim(v, c) {
      SameActivity(u, v, c);
    }
  }

  lemma EventRowState(u: Tables, e: nat)
    requires Refs(u) && e < |u.events|
    ensures WithEventRow(u, e).events[e].state.InConflict? <==> HasOpenConflict(u, e)
    ensures |WithEventRow(u, e).events| == |u.events|
  {
    hide HasOpenConflict, HasAmbiguity, Shown, Confidence, ActiveSources;
  }

  lemma SettledAfterRow(lex: Lexicon, x: Tables, e: nat)
    requires Refs(x) && e < |x.events| && !Blocked(lex, x, e)
    ensures var u := Settle(lex, x, e, CANONICAL);
            Refs(u) && Refs(WithEventRow(u, e)) && EventSettled(WithEventRow(u, e), e)
  {
    hide OutcomeOf, Refs, Settle, SameEvidence, FieldSettled, Contended, InactiveRejected, HasOpenConflict,
      WithEventRow;
    var u := Settle(lex, x, e, CANONICAL);
    SettleEvidence(lex, x, e, CANONICAL);
    SettleEvents(lex, x, e);
    EventRowState(u, e);
    var v := WithEventRow(u, e);
    EventRowEvidence(u, e);
    forall f | f in CANONICAL ensures FieldSettled(v, e, f) {
      FieldSettles(lex, x, e, f);
      EventRowKeepsFields(lex, u, e, f);
    }
    InactiveSettles(lex, x, e);
    ConflictMeansContended(lex, x, e);
    EventRowKeepsFields(lex, u, e, Title);
    assert InactiveRejected(v, e);
    forall f ensures Contended(u, e, f) == Contended(v, e, f) {
      EventRowKeepsFields(lex, u, e, f);
    }
    assert v.events[e].state.InConflict? <==> exists f :: f in CANONICAL && Contended(u, e, f);
  }

  lemma SettleEvents(lex: Lexicon, t: Tables, e: nat)
    requires Refs(t)
    ensures Settle(lex, t, e, CANONICAL).events == t.events
  {
  }

  /** Recomputation fails at the first field whose decision names a missing claim, and otherwise settles every field. */
  lemma RecomputedShape(lex: Lexicon, t: Tables, e: nat)
    requires Refs(t) && e < |t.events|
    ensures var x := Expire(lex, t, e);
            && Refs(x)
            && (Recomputed(lex, t, e).None? <==>
                 exists j :: 0 <= j < |CANONICAL| && OutcomeOf(lex, x, e, CANONICAL[j]).ManualMissing?)
            && (Recomputed(lex, t, e).Some? ==>
                  && Refs(Settle(lex, x, e, CANONICAL))
                  && Recomputed(lex, t, e).value == WithEventRow(Settle(lex, x, e, CANONICAL), e))
  {
    ExpireRefs(lex, t, e);
    var x := Expire(lex, t, e);
    hide OutcomeOf, Settle, Expire, Refs, WithEventRow;
    SettleRefs(lex, x, e, CANONICAL);
    if Blocked(lex, x, e) {
      var f :| f in CANONICAL && OutcomeOf(lex, x, e, f).ManualMissing?;
      var j :| 0 <= j < |CANONICAL| && CANONICAL[j] == f;
      assert OutcomeOf(lex, x, e, CANONICAL[j]).ManualMissing?;
    }
  }

  /** After `_recompute_event` every canonical field of the event is settled one way or the other. */
  lemma RecomputedSettles(lex: Lexicon, t: Tables, e: nat)
    requires Refs(t) && e < |t.events|
    ensures Recomputed(lex, t, e).Some? ==>
      Refs(Recomputed(lex, t, e).value) && EventSettled(Recomputed(lex, t, e).value, e)
  {
    hide Settle, Expire, OutcomeOf, WithEventRow, EventSettled, Refs, Recomputed;
    RecomputedShape(lex, t, e);
    if Recomputed(lex, t, e).Some? {
      UnblockedByFields(lex, Expire(lex, t, e), e);
      ExpireEvents(lex, t, e);
      SettledAfterRow(lex, Expire(lex, t, e), e);
    }
  }

  lemma UnblockedByFields(lex: Lexicon, x: Tables, e: nat)
    requires Refs(x) && forall j :: 0 <= j < |CANONICAL| ==> !OutcomeOf(lex, x, e, CANONICAL[j]).ManualMissing?
    ensures !Blocked(lex, x, e)
  {
    hide OutcomeOf;
  }

  lemma RecomputedRefs(lex: Lexicon, t: Tables, e: nat)
    requires Refs(t) && e < |t.events| && Recomputed(lex, t, e).Some?
    ensures Refs(Recomputed(lex, t, e).value) && |Recomputed(lex, t, e).value.events| == |t.events|
  {
    hide Refs, Expire, Settle, EventRow, Recomputed, SameEvidence, OutcomeOf, WithEventRow;
    RecomputedShape(lex, t, e);
    var x := Expire(lex, t, e);
    ExpireEvents(lex, t, e);
    SettleEvents(lex, x, e);
    EventRowEvidence(Settle(lex, x, e, CANONICAL), e);
    EventRowState(Settle(lex, x, e, CANONICAL), e);
  }

  lemma ExpireEvents(lex: Lexicon, t: Tables, e: nat)
    requires Refs(t)
    ensures Expire(lex, t, e).events == t.events && Expire(lex, t, e).projections == t.projections
    ensures Expire(lex, t, e).claims == t.claims
  {
  }

  // ----- recomputing twice

  lemma EffectiveKept(t: Tables, u: Tables, s: nat)
    requires Refs(t) && Refs(u) && s < |t.sources|
    requires t.extractions == u.extractions && t.candidates == u.candidates && t.sources == u.sources
    ensures EffectiveSource(t, s) == EffectiveSource(u, s)
  {
  }

  /** Expiry looks only at evidence, never at what it or settling has written. */
  lemma OutdatedKept(lex: Lexicon, t: Tables, u: Tables, m: nat)
    requires Refs(t) && Refs(u) && m < |t.manualFields| == |u.manualFields|
    requires t.extractions == u.extractions && t.candidates == u.candidates && t.sources == u.sources
    requires |t.claims| == |u.claims|
    requires forall c :: 0 <= c < |t.claims| ==> u.claims[c] == t.claims[c].(state := u.claims[c].state)
    requires u.manualFields[m] == t.manualFields[m].(active := u.manualFields[m].active)
    ensures FieldOutdated(lex, t, m) == FieldOutdated(lex, u, m)
  {
    forall s | 0 <= s < |t.sources| {
      EffectiveKept(t, u, s);
    }
    hide ManualCompatible, Effective, Refs;
    forall c | 0 <= c < |t.claims| ensures Displaces(lex, t, m, c) == Displaces(lex, u, m, c) {
      CompatibleKept(lex, t.manualFields[m].field, t.claims[t.manualFields[m].claim], u.claims[t.manualFields[m].claim],
                     t.claims[c], u.claims[c]);
    }
  }

  lemma CompatibleKept(lex: Lexicon, f: Field, a: Claim, a': Claim, b: Claim, b': Claim)
    requires a' == a.(state := a'.state) && b' == b.(state := b'.state)
    ensures ManualCompatible(lex, f, a, b) == ManualCompatible(lex, f, a', b')
  {
  }

  // ----- the standing of every competing claim

  /** Beside the projected claim: accepted are exactly the claims that agree with it at its precision; the others are
      rejected, or all superseded, each by an edge from the projected claim. */
  ghost predicate StandingsExplained(lex: Lexicon, t: Tables, e: nat, f: Field)
    requires Refs(t) && (e, f) in t.projections && t.projections[(e, f)].claim < |t.claims|
  {
    var w := t.projections[(e, f)].claim;
    && (forall c :: c in FieldClaims(t, e, f) ==>
          && c < |t.claims|
          && (t.claims[c].state.Accepted? <==> AcceptedBeside(lex, f, RowOf(t, w), RowOf(t, c)))
          && (t.claims[c].state.Accepted? || t.claims[c].state.Rejected? || t.claims[c].state.Superseded?)
          && (t.claims[c].state.Superseded? ==>
               (w, c) in t.supersessions && IsSuccessor(lex, f, FieldRows(t, e, f), RowOf(t, w))))
    && (forall c, d :: c in FieldClaims(t, e, f) && d in FieldClaims(t, e, f) ==>
          c < |t.claims| && d < |t.claims| && !(t.claims[c].state.Superseded? && t.claims[d].state.Rejected?))
  }

  lemma SettledStandings(lex: Lexicon, t: Tables, e: nat, f: Field)
    requires Refs(t) && f in CANONICAL && OutcomeOf(lex, t, e, f).Chosen?
    ensures var u := Settle(lex, t, e, CANONICAL);
            && Refs(u) && (e, f) in u.projections && u.projections[(e, f)].claim < |u.claims|
            && StandingsExplained(lex, u, e, f)
  {
    hide OutcomeOf, Refs, Settle, FieldClaims, FieldRows, RowOf, AcceptedBeside, IsSuccessor, SameEvidence;
    ChosenStanding(lex, t, e, f);
    forall c | c in FieldClaims(t, e, f) {
      StandingAt(lex, t, e, f, c);
    }
  }

  /** The projected claim is the chosen one, and the store after settling has the same competitors. */
  lemma ChosenStanding(lex: Lexicon, t: Tables, e: nat, f: Field)
    requires Refs(t) && f in CANONICAL && OutcomeOf(lex, t, e, f).Chosen?
    ensures var u, o := Settle(lex, t, e, CANONICAL), OutcomeOf(lex, t, e, f);
            && Refs(u) && (e, f) in u.projections && u.projections[(e, f)].claim == o.row.key < |u.claims|
            && RowOf(u, o.row.key) == o.row
            && FieldClaims(u, e, f) == FieldClaims(t, e, f) && FieldRows(u, e, f) == FieldRows(t, e, f)
            && (o.supersede ==> IsSuccessor(lex, f, FieldRows(t, e, f), o.row))
  {
    hide OutcomeOf, Refs, Settle, FieldClaims, FieldRows, RowOf, IsSuccessor, SameEvidence;
    var u, o := Settle(lex, t, e, CANONICAL), OutcomeOf(lex, t, e, f);
    SettleEvidence(lex, t, e, CANONICAL);
    SameLength(t, u);
    SameChoices(lex, t, u, e, f);
    OutcomeShape(lex, t, e, f);
    FieldClaimsInRange(t, e, f);
    ProjectionSettles(lex, t, e, f);
    SameActivity(t, u, o.row.key);
  }

  lemma StandingAt(lex: Lexicon, t: Tables, e: nat, f: Field, c: nat)
    requires Refs(t) && f in CANONICAL && c in FieldClaims(t, e, f) && OutcomeOf(lex, t, e, f).Chosen?
    ensures var u, o := Settle(lex, t, e, CANONICAL), OutcomeOf(lex, t, e, f);
            && Refs(u) && c < |t.claims| && c < |u.claims| && RowOf(u, c) == RowOf(t, c)
            && var accepted := AcceptedBeside(lex, f, o.row, RowOf(t, c));
               && u.claims[c].state == (if accepted then Accepted else if o.supersede then Superseded else Rejected)
               && (o.supersede && !accepted ==> (o.row.key, c) in u.supersessions)
  {
    hide OutcomeOf, Refs, Settle, FieldClaims, RowOf, AcceptedBeside, SameEvidence;
    SettleEvidence(lex, t, e, CANONICAL);
    SameLength(t, Settle(lex, t, e, CANONICAL));
    FieldClaimsInRange(t, e, f);
    SameActivity(t, Settle(lex, t, e, CANONICAL), c);
    StateSettles(lex, t, e, f, c);
    LoserHasEdge(lex, t, e, f, c);
  }

  lemma LoserHasEdge(lex: Lexicon, t: Tables, e: nat, f: Field, c: nat)
    requires Refs(t) && f in CANONICAL && c in FieldClaims(t, e, f) && c < |t.claims| && OutcomeOf(lex, t, e, f).Chosen?
    ensures var o := OutcomeOf(lex, t, e, f);
            o.supersede && !AcceptedBeside(lex, f, o.row, RowOf(t, c)) ==>
              (o.row.key, c) in Settle(lex, t, e, CANONICAL).supersessions
  {
    hide OutcomeOf, Refs, FieldClaims, RowOf, AcceptedBeside, StatesAfter, ProjectionsAfter, NewConflicts;
    var o := OutcomeOf(lex, t, e, f);
    if o.supersede && !AcceptedBeside(lex, f, o.row, RowOf(t, c)) {
      assert Edge(lex, t, e, f, o.row.key, c);
    }
  }

  lemma RowStandings(lex: Lexicon, u: Tables, e: nat, f: Field)
    requires Refs(u) && e < |u.events| && (e, f) in u.projections && u.projections[(e, f)].claim < |u.claims|
    ensures var v := WithEventRow(u, e);
            && Refs(v) && v.projections == u.projections && v.claims == u.claims
            && (StandingsExplained(lex, u, e, f) ==> StandingsExplained(lex, v, e, f))
  {
    hide EventRow, Refs, FieldClaims, FieldRows, AcceptedBeside, IsSuccessor, RowOf, OutcomeOf, SameEvidence;
    var v := WithEventRow(u, e);
    EventRowEvidence(u, e);
    SameChoices(lex, u, v, e, f);
    FieldClaimsInRange(u, e, f);
    assert v.supersessions == u.supersessions;
    SameActivity(u, v, u.projections[(e, f)].claim);
    forall c | c in FieldClaims(u, e, f) ensures RowOf(u, c) == RowOf(v, c) {
      SameActivity(u, v, c);
    }
  }

  /** After recomputation no competing claim of a projected field is left undecided, and every state is explained. */
  lemma RecomputedStandings(lex: Lexicon, t: Tables, e: nat, f: Field)
    requires Refs(t) && e < |t.events| && f in CANONICAL
    ensures Recomputed(lex, t, e).Some? && (e, f) in Recomputed(lex, t, e).value.projections ==>
              var v := Recomputed(lex, t, e).value;
              Refs(v) && v.projections[(e, f)].claim < |v.claims| && StandingsExplained(lex, v, e, f)
  {
    hide Settle, Expire, OutcomeOf, WithEventRow, Refs, Recomputed, StandingsExplained, EventRow;
    RecomputedShape(lex, t, e);
    if Recomputed(lex, t, e).Some? {
      var x := Expire(lex, t, e);
      ExpireEvents(lex, t, e);
      SettleEvents(lex, x, e);
      ProjectionSettles(lex, x, e, f);
      EventRowEvidence(Settle(lex, x, e, CANONICAL), e);
      if OutcomeOf(lex, x, e, f).Chosen? {
        SettledStandings(lex, x, e, f);
        RowStandings(lex, Settle(lex, x, e, CANONICAL), e, f);
      }
    }
  }

  lemma SettledState(lex: Lexicon, x: Tables, e: nat, c: nat)
    requires Refs(x) && c < |x.claims| && x.claims[c].event == Some(e) && x.claims[c].origin.LocalDecision?
    ensures !ActiveClaim(x, c) ==> Settle(lex, x, e, CANONICAL).claims[c].state == x.claims[c].state
  {
    hide OutcomeOf, ActiveClaim, Refs, NewConflicts, NewEdges, ProjectionsAfter;
  }

  /** A local claim whose decision is no longer in force stays as it was last left. */
  lemma RetiredClaimsRest(lex: Lexicon, t: Tables, e: nat, c: nat)
    requires Refs(t) && e < |t.events| && Recomputed(lex, t, e).Some?
    requires c < |t.claims| && t.claims[c].event == Some(e) && t.claims[c].origin.LocalDecision?
    ensures var v := Recomputed(lex, t, e).value;
            && Refs(v) && c < |v.claims| && (!ActiveClaim(v, c) ==> v.claims[c].state == t.claims[c].state)
  {
    hide Settle, OutcomeOf, WithEventRow, Refs, Recomputed, EventRow, ActiveClaim, SameEvidence, ExpiredField,
      ExpiredIdentity;
    RecomputedShape(lex, t, e);
    var x := Expire(lex, t, e);
    ExpireEvents(lex, t, e);
    var u := Settle(lex, x, e, CANONICAL);
    SettleEvidence(lex, x, e, CANONICAL);
    SameLength(x, u);
    SettleEvents(lex, x, e);
    EventRowEvidence(u, e);
    SettledState(lex, x, e, c);
    SameActivity(x, u, c);
    SameActivity(u, WithEventRow(u, e), c);
  }

  // ----- the confidence of an event

  lemma {:induction false} SumInRange(t: Tables, e: nat, n: nat)
    requires Refs(t) && n <= |t.claims| && forall c :: 0 <= c < n ==> InUnit(t.claims[c].confidence)
    ensures 0.0 <= ConfidenceSum(t, e, n).0 <= ConfidenceSum(t, e, n).1 as real
  {
    if n > 0 {
      SumInRange(t, e, n - 1);
      hide IsActiveSourceClaim;
    }
  }

  /** The mean written to the event row meets the range the schema demands. */
  lemma ConfidenceInRange(t: Tables, e: nat)
    requires Refs(t) && ClaimsOk(t)
    ensures InUnit(Confidence(t, e))
  {
    hide WellFormed, IsField, Refs;
    forall c | 0 <= c < |t.claims| ensures InUnit(t.claims[c].confidence) {
      assert ClaimOk(t, c);
    }
    SumInRange(t, e, |t.claims|);
    var (sum, count) := ConfidenceSum(t, e, |t.claims|);
    if count > 0 {
      Mean(sum, count as real);
    }
  }

  lemma Mean(sum: real, count: real)
    requires 0.0 <= sum <= count && count > 0.0
    ensures 0.0 <= sum / count <= 1.0
  {
  }
}
