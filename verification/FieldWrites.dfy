/** The writes `_recompute_event` makes for one field, claim by claim: what a loop over the competing
    rows has written after any number of them (events/reconciliation.py, `_select_claim_group`). */
module FieldWrites {
  import opened Basics
  import opened Matching
  import opened Grouping
  import opened ClaimGroups
  import opened EventTables
  import opened Recompute
  import opened RecomputeFacts
  import opened Settling
  import opened Supersession
  import opened RecomputeSound

  ghost function Keys(rows: seq<Row>): set<nat> {
    set r | r in rows :: r.key
  }

  /** The claims once those in `done` carry their decided state. */
  ghost function Marked(lex: Lexicon, t: Tables, f: Field, o: Outcome, done: set<nat>): seq<Claim>
    requires Refs(t)
  {
    seq(|t.claims|, c requires 0 <= c < |t.claims| =>
      t.claims[c].(state :=
        if c in done then DecidedState(lex, f, o, RowOf(t, c), t.claims[c].state) else t.claims[c].state))
  }

  ghost function Losers(lex: Lexicon, f: Field, chosen: Row, rows: seq<Row>): set<(nat, nat)> {
    set r | r in rows && !AcceptedBeside(lex, f, chosen, r) :: (chosen.key, r.key)
  }

  /** The rows a query for the claims of a field returns. */
  ghost predicate Delivers(t: Tables, e: nat, f: Field, rows: seq<Row>)
    requires Refs(t)
  {
    InKeyOrder(rows) && Elements(rows) == FieldRows(t, e, f)
  }

  lemma DeliveredRow(t: Tables, e: nat, f: Field, rows: seq<Row>, i: nat)
    requires Refs(t) && Delivers(t, e, f, rows) && i < |rows|
    ensures rows[i].key < |t.claims| && rows[i] == RowOf(t, rows[i].key) && rows[i].key in FieldClaims(t, e, f)
    ensures t.claims[rows[i].key].event == Some(e) && t.claims[rows[i].key].field == f
    ensures rows[i].key !in Keys(rows[..i])
  {
    FieldRowsDistinct(t, e, f);
    assert rows[i] in Elements(rows);
    hide RowOf, ActiveClaim, Refs, FieldRows;
  }

  lemma KeysStep(rows: seq<Row>, i: nat)
    requires i < |rows|
    ensures Keys(rows[..i + 1]) == Keys(rows[..i]) + {rows[i].key}
  {
    assert rows[..i + 1] == rows[..i] + [rows[i]];
  }

  lemma LosersStep(lex: Lexicon, f: Field, chosen: Row, rows: seq<Row>, i: nat)
    requires i < |rows|
    ensures Losers(lex, f, chosen, rows[..i + 1]) ==
            Losers(lex, f, chosen, rows[..i]) +
              (if AcceptedBeside(lex, f, chosen, rows[i]) then {} else {(chosen.key, rows[i].key)})
  {
    assert rows[..i + 1] == rows[..i] + [rows[i]];
    hide AcceptedBeside;
  }

  lemma LoserIsEdge(lex: Lexicon, f: Field, chosen: Row, rows: seq<Row>, i: nat)
    requires i < |rows| && !AcceptedBeside(lex, f, chosen, rows[i])
    ensures (chosen.key, rows[i].key) in Losers(lex, f, chosen, rows)
    ensures Losers(lex, f, chosen, rows[..i]) <= Losers(lex, f, chosen, rows)
  {
    hide AcceptedBeside;
  }

  lemma MarkedStep(lex: Lexicon, t: Tables, f: Field, o: Outcome, done: set<nat>, c: nat)
    requires Refs(t) && c < |t.claims|
    ensures Marked(lex, t, f, o, done + {c}) ==
            Marked(lex, t, f, o, done)[c :=
              t.claims[c].(state := DecidedState(lex, f, o, RowOf(t, c), t.claims[c].state))]
  {
    hide RowOf, DecidedState;
  }

  /** The store after the first rows of a chosen group. */
  ghost function Selecting(lex: Lexicon, t: Tables, f: Field, chosen: Row, supersede: bool, rows: seq<Row>): Tables
    requires Refs(t)
  {
    t.(claims := Marked(lex, t, f, Chosen(chosen, supersede), Keys(rows)),
       supersessions := t.supersessions + (if supersede then Losers(lex, f, chosen, rows) else {}))
  }

  function Standing(accepted: bool, supersede: bool): ClaimState {
    if accepted then Accepted else if supersede then Superseded else Rejected
  }

  lemma SelectingStep(lex: Lexicon, t: Tables, e: nat, f: Field, chosen: Row, supersede: bool, rows: seq<Row>, i: nat)
    requires Refs(t) && Delivers(t, e, f, rows) && i < |rows|
    ensures var s, c, accepted :=
      Selecting(lex, t, f, chosen, supersede, rows[..i]), rows[i].key, AcceptedBeside(lex, f, chosen, rows[i]);
            && c < |s.claims| == |t.claims| && s.claims[c] == t.claims[c]
            && Selecting(lex, t, f, chosen, supersede, rows[..i + 1]) ==
               s.(claims := s.claims[c := s.claims[c].(state := Standing(accepted, supersede))],
                  supersessions := s.supersessions + (if supersede && !accepted then {(chosen.key, c)} else {}))
  {
    DeliveredRow(t, e, f, rows, i);
    KeysStep(rows, i);
    LosersStep(lex, f, chosen, rows, i);
    MarkedStep(lex, t, f, Chosen(chosen, supersede), Keys(rows[..i]), rows[i].key);
    var c := rows[i].key;
    MarkedElsewhere(lex, t, f, Chosen(chosen, supersede), Keys(rows[..i]), c);
    hide Refs, RowOf, FieldClaims, FieldRows, Marked, Keys, Losers, Delivers, AcceptedBeside;
  }

  lemma MarkedElsewhere(lex: Lexicon, t: Tables, f: Field, o: Outcome, done: set<nat>, c: nat)
    requires Refs(t) && c < |t.claims| && c !in done
    ensures |Marked(lex, t, f, o, done)| == |t.claims| && Marked(lex, t, f, o, done)[c] == t.claims[c]
  {
    hide RowOf, DecidedState;
  }

  /** A column of a claim other than its state. */
  lemma MarkedClaim(lex: Lexicon, t: Tables, f: Field, o: Outcome, done: set<nat>, c: nat)
    requires Refs(t) && c < |t.claims|
    ensures |Marked(lex, t, f, o, done)| == |t.claims|
    ensures Marked(lex, t, f, o, done)[c] == t.claims[c].(state := Marked(lex, t, f, o, done)[c].state)
    ensures c in done && o.Chosen? && RowOf(t, c) == o.row ==> Marked(lex, t, f, o, done)[c].state.Accepted?
  {
    hide RowOf;
  }

  lemma SelectingAll(lex: Lexicon, t: Tables, e: nat, f: Field, chosen: Row, supersede: bool, rows: seq<Row>)
    requires Refs(t) && Delivers(t, e, f, rows)
    ensures Selecting(lex, t, f, chosen, supersede, []) == t
    ensures var s := Selecting(lex, t, f, chosen, supersede, rows);
            Applied(lex, t, e, f, Chosen(chosen, supersede)) ==
            s.(projections := t.projections[(e, f) := Projection(chosen.key, chosen.value)])
  {
    AllKeys(t, e, f, rows);
    AllLosers(lex, t, e, f, chosen, rows);
    MarkedAll(lex, t, e, f, Chosen(chosen, supersede));
    MarkedNone(lex, t, f, Chosen(chosen, supersede));
    assert Keys([]) == {};
    assert Losers(lex, f, chosen, []) == {};
    hide Refs, RowOf, FieldClaims, FieldRows, Marked, Keys, Losers, EdgesFrom, DecidedClaims, Delivers;
  }

  /** After all claims the chosen one may be projected. */
  lemma SelectedClaim(lex: Lexicon, t: Tables, e: nat, f: Field, chosen: Row, supersede: bool, rows: seq<Row>)
    requires Refs(t) && Delivers(t, e, f, rows) && chosen in rows
    ensures var s := Selecting(lex, t, f, chosen, supersede, rows);
            && s.projections == t.projections && chosen.key < |s.claims|
            && s.claims[chosen.key].event == Some(e) && s.claims[chosen.key].field == f
            && s.claims[chosen.key].state.Accepted? && s.claims[chosen.key].value == chosen.value
  {
    var at :| 0 <= at < |rows| && rows[at] == chosen;
    DeliveredRow(t, e, f, rows, at);
    MarkedClaim(lex, t, f, Chosen(chosen, supersede), Keys(rows), chosen.key);
    assert chosen.key in Keys(rows);
    assert t.claims[chosen.key].value == chosen.value;
    hide Refs, RowOf, FieldClaims, FieldRows, Delivers, Losers, Marked, Keys;
  }

  lemma AllKeys(t: Tables, e: nat, f: Field, rows: seq<Row>)
    requires Refs(t) && Delivers(t, e, f, rows)
    ensures Keys(rows) == FieldClaims(t, e, f)
  {
    FieldRowsDistinct(t, e, f);
    hide RowOf, FieldClaims, Refs;
    forall c | c in FieldClaims(t, e, f) ensures c in Keys(rows) {
      assert RowOf(t, c) in Elements(rows);
    }
    forall c | c in Keys(rows) ensures c in FieldClaims(t, e, f) {
      var r :| r in rows && r.key == c;
      assert r in Elements(rows);
    }
  }

  lemma MarkedAll(lex: Lexicon, t: Tables, e: nat, f: Field, o: Outcome)
    requires Refs(t)
    ensures Marked(lex, t, f, o, FieldClaims(t, e, f)) == DecidedClaims(lex, t, e, f, o)
  {
    forall c | 0 <= c < |t.claims| ensures c in FieldClaims(t, e, f) <==> IsFieldClaim(t, e, f, c) {}
    hide IsFieldClaim, FieldClaims, Refs, RowOf, DecidedState;
  }

  lemma MarkedNone(lex: Lexicon, t: Tables, f: Field, o: Outcome)
    requires Refs(t)
    ensures Marked(lex, t, f, o, {}) == t.claims
  {
    hide DecidedState, RowOf;
  }

  lemma AllLosers(lex: Lexicon, t: Tables, e: nat, f: Field, chosen: Row, rows: seq<Row>)
    requires Refs(t) && Delivers(t, e, f, rows)
    ensures Losers(lex, f, chosen, rows) == EdgesFrom(lex, t, e, f, chosen)
  {
    FieldRowsDistinct(t, e, f);
    FieldClaimsInRange(t, e, f);
    hide RowOf, FieldClaims, Refs, AcceptedBeside;
    forall b | b in FieldClaims(t, e, f) ensures RowOf(t, b) in rows {
      assert RowOf(t, b) in Elements(rows);
    }
    forall r | r in rows ensures r.key in FieldClaims(t, e, f) && r == RowOf(t, r.key) {
      assert r in Elements(rows);
    }
  }

  /** Inside a set of sound edges no insertion finds a way back. */
  lemma GuardHolds(u: Tables, edges: set<(nat, nat)>, a: nat, b: nat)
    requires Refs(u) && EdgesOk(u) && (a, b) in u.supersessions && edges <= u.supersessions
    ensures !Reaches(edges, b, a)
  {
    GuardNeverFires(u, a, b);
    forall path | IsPath(edges, path) && path[0] == b ensures path[|path| - 1] != a {
      assert IsPath(u.supersessions, path);
    }
    assert Reaches(edges, b, a) ==> a != b;
  }

  /** The store after the first rows of a contested field. */
  ghost function Contesting(lex: Lexicon, t: Tables, e: nat, f: Field, rows: seq<Row>): Tables
    requires Refs(t)
  {
    t.(claims := Marked(lex, t, f, Contested, Keys(rows)),
       conflicts := t.conflicts + [Conflict(e, f, true, Keys(rows))])
  }

  lemma ContestingStep(lex: Lexicon, t: Tables, e: nat, f: Field, rows: seq<Row>, i: nat)
    requires Refs(t) && Delivers(t, e, f, rows) && i < |rows|
    ensures var s, c, k := Contesting(lex, t, e, f, rows[..i]), rows[i].key, |t.conflicts|;
            && c < |s.claims| == |t.claims| && s.claims[c] == t.claims[c]
            && t.claims[c].event == Some(e) && t.claims[c].field == f
            && k < |s.conflicts| && s.conflicts[k].event == e && s.conflicts[k].field == f &&
                 c !in s.conflicts[k].alternatives
            && Contesting(lex, t, e, f, rows[..i + 1]) ==
               s.(claims := s.claims[c := s.claims[c].(state := Conflicting)],
                  conflicts := s.conflicts[k := s.conflicts[k].(alternatives := s.conflicts[k].alternatives + {c})])
  {
    DeliveredRow(t, e, f, rows, i);
    KeysStep(rows, i);
    MarkedStep(lex, t, f, Contested, Keys(rows[..i]), rows[i].key);
    MarkedElsewhere(lex, t, f, Contested, Keys(rows[..i]), rows[i].key);
    hide Refs, RowOf, FieldClaims, FieldRows, Marked, Keys, Delivers;
  }

  lemma ContestingAll(lex: Lexicon, t: Tables, e: nat, f: Field, rows: seq<Row>)
    requires Refs(t) && Delivers(t, e, f, rows)
    ensures Contesting(lex, t, e, f, []) == t.(conflicts := t.conflicts + [Conflict(e, f, true, {})])
    ensures Contesting(lex, t, e, f, rows) == Applied(lex, t, e, f, Contested)
  {
    AllKeys(t, e, f, rows);
    MarkedAll(lex, t, e, f, Contested);
    MarkedNone(lex, t, f, Contested);
    assert Keys([]) == {};
    hide Refs, RowOf, FieldClaims, FieldRows, Marked, Keys, DecidedClaims, Delivers;
  }

  /** What the field loop relies on before it decides field number `i`. */
  lemma BeforeField(lex: Lexicon, x: Tables, e: nat, i: nat)
    requires Sound(lex, x) && i < |CANONICAL|
    ensures var u, f := Settle(lex, x, e, CANONICAL[..i]), CANONICAL[i];
            && Sound(lex, u) && Refs(x) && OutcomeOf(lex, u, e, f) == OutcomeOf(lex, x, e, f)
            && (e, f) !in u.projections
            && (forall k :: 0 <= k < |u.conflicts| ==> !OpenFor(u, e, f, k))
            && (!OutcomeOf(lex, x, e, f).ManualMissing? ==>
                  && Applied(lex, u, e, f, OutcomeOf(lex, u, e, f)) == Settle(lex, x, e, CANONICAL[..i + 1])
                  && Sound(lex, Settle(lex, x, e, CANONICAL[..i + 1])))
  {
    hide Sound, Settle, OutcomeOf, Refs, Applied, SameEvidence, FieldClaims, FieldRows, OpenFor;
    var done, f := CANONICAL[..i], CANONICAL[i];
    FieldsBefore(i);
    SoundRefs(lex, x);
    SettleSound(lex, x, e, done);
    SettleEvidence(lex, x, e, done);
    SameChoices(lex, x, Settle(lex, x, e, done), e, f);
    OpenAfter(lex, x, e, done, f);
    NotYetProjected(lex, x, e, done, f);
    if !OutcomeOf(lex, x, e, f).ManualMissing? {
      SettleStep(lex, x, e, done, f);
      SettleSound(lex, x, e, done + [f]);
    }
  }

  lemma FieldsBefore(i: nat)
    requires i < |CANONICAL|
    ensures var done, f := CANONICAL[..i], CANONICAL[i];
            && f !in done && f in CANONICAL && CANONICAL[..i + 1] == done + [f]
            && NoDuplicates(done) && NoDuplicates(done + [f])
            && (forall g :: g in done ==> g in CANONICAL) && (forall g :: g in done + [f] ==> g in CANONICAL)
  {
    assert NoDuplicates(CANONICAL);
  }

  lemma NotYetProjected(lex: Lexicon, x: Tables, e: nat, done: seq<Field>, f: Field)
    requires Refs(x) && f !in done
    ensures (e, f) !in Settle(lex, x, e, done).projections
  {
    hide OutcomeOf, StatesAfter, NewEdges, NewConflicts, Refs;
  }

  /** The claims an append of the next claim adds to a query result. */
  ghost predicate DeliversUpTo(t: Tables, e: nat, f: Field, rows: seq<Row>, n: nat)
    requires Refs(t) && n <= |t.claims|
  {
    && (forall i :: 0 <= i < |rows| ==>
         rows[i].key < n && IsFieldClaim(t, e, f, rows[i].key) && rows[i] == RowOf(t, rows[i].key))
    && (forall c :: 0 <= c < n && IsFieldClaim(t, e, f, c) ==> RowOf(t, c) in rows)
  }

  lemma RowKey(t: Tables, c: nat)
    requires Refs(t) && c < |t.claims|
    ensures RowOf(t, c).key == c
  {
  }

  lemma NothingDelivered(t: Tables, e: nat, f: Field)
    requires Refs(t)
    ensures InKeyOrder([]) && DeliversUpTo(t, e, f, [], 0)
  {
  }

  lemma DeliversSkip(t: Tables, e: nat, f: Field, rows: seq<Row>, c: nat)
    requires Refs(t) && c < |t.claims| && DeliversUpTo(t, e, f, rows, c) && !IsFieldClaim(t, e, f, c)
    ensures DeliversUpTo(t, e, f, rows, c + 1)
  {
    hide RowOf, IsFieldClaim, Refs;
  }

  lemma DeliversNext(t: Tables, e: nat, f: Field, rows: seq<Row>, c: nat)
    requires Refs(t) && c < |t.claims| && InKeyOrder(rows) && DeliversUpTo(t, e, f, rows, c) && IsFieldClaim(t, e, f, c)
    ensures InKeyOrder(rows + [RowOf(t, c)]) && DeliversUpTo(t, e, f, rows + [RowOf(t, c)], c + 1)
  {
    hide RowOf, IsFieldClaim, Refs;
    RowKey(t, c);
    var next := rows + [RowOf(t, c)];
    assert forall i :: 0 <= i < |rows| ==> next[i] == rows[i];
    assert next[|rows|] == RowOf(t, c);
    forall d | 0 <= d < c + 1 && IsFieldClaim(t, e, f, d) ensures RowOf(t, d) in next {
      assert d == c || RowOf(t, d) in rows;
    }
  }

  lemma DeliveredAll(t: Tables, e: nat, f: Field, rows: seq<Row>)
    requires Refs(t) && InKeyOrder(rows) && DeliversUpTo(t, e, f, rows, |t.claims|)
    ensures Delivers(t, e, f, rows)
  {
    hide RowOf, IsFieldClaim, Refs;
    var fieldRows := FieldRows(t, e, f);
    forall r ensures r in Elements(rows) <==> r in fieldRows {
      if r in rows {
        var i :| 0 <= i < |rows| && rows[i] == r;
        assert r.key in FieldClaims(t, e, f);
      }
    }
  }

  lemma RowsWellFormedIn(t: Tables, e: nat, f: Field, rows: seq<Row>)
    requires Refs(t) && ClaimsOk(t) && Delivers(t, e, f, rows)
    ensures RowsWellFormed(f, Elements(rows))
  {
    FieldRowsDistinct(t, e, f);
    forall r | r in Elements(rows) ensures WellFormed(f, r.value, r.precision) {
      assert r.key in FieldClaims(t, e, f) && ClaimOk(t, r.key);
    }
  }

  // ----- pieces of the field loop

  lemma OutcomeOfRows(lex: Lexicon, t: Tables, e: nat, f: Field, rows: seq<Row>)
    requires Refs(t) && ClaimsOk(t) && Delivers(t, e, f, rows)
    ensures InKeyOrder(rows) && NoDuplicates(rows) && RowsWellFormed(f, Elements(rows)) && DistinctKeys(Elements(rows))
    ensures OutcomeOf(lex, t, e, f) == Decide(lex, f, Elements(rows), ManualChoice(t, e, f))
  {
    RowsWellFormedIn(t, e, f, rows);
    FieldRowsDistinct(t, e, f);
    KeyOrderDistinct(rows);
    hide RowsWellFormed, FieldRows, Decide, ClaimsOk, Refs;
  }

  lemma ChosenInRows(lex: Lexicon, f: Field, rows: seq<Row>, manual: Option<nat>)
    requires DistinctKeys(Elements(rows)) && Decide(lex, f, Elements(rows), manual).Chosen?
    ensures Decide(lex, f, Elements(rows), manual).row in rows
  {
    DecideShape(lex, f, Elements(rows), manual);
    hide Decide, DistinctKeys;
  }

  lemma AppliedNothing(lex: Lexicon, t: Tables, e: nat, f: Field)
    requires Refs(t)
    ensures Applied(lex, t, e, f, NoClaims) == t
  {
  }

  lemma EventsUnchanged(lex: Lexicon, t: Tables, e: nat, done: seq<Field>)
    requires Refs(t)
    ensures Settle(lex, t, e, done).events == t.events
  {
  }

  lemma EventRowCourse(t: Tables, e: nat)
    requires Refs(t) && e < |t.events|
    ensures EventRow(t, e).course == t.events[e].course
  {
    hide HasOpenConflict, HasAmbiguity, Shown, Confidence, ActiveSources;
  }

  lemma RecomputeStarts(lex: Lexicon, t: Tables, e: nat)
    requires Sound(lex, t) && e < |t.events|
    ensures Refs(t) && Refs(Expire(lex, t, e)) && Sound(lex, Expire(lex, t, e)) && Expire(lex, t, e).events == t.events
    ensures Refs(Settle(lex, Expire(lex, t, e), e, CANONICAL))
  {
    SoundRefs(lex, t);
    ExpireSound(lex, t, e);
    ExpireRefs(lex, t, e);
    ExpireEvents(lex, t, e);
    SettleRefs(lex, Expire(lex, t, e), e, CANONICAL);
    hide Sound, Refs, Expire, Settle;
  }

  /** What the statements for one claim of a chosen group require and write. */
  lemma ClaimMaySettle(lex: Lexicon, t: Tables, e: nat, f: Field, rows: seq<Row>, i: nat, chosen: Row, supersede: bool)
    requires Refs(t) && Delivers(t, e, f, rows) && i < |rows| && chosen in rows
    requires var u := Applied(lex, t, e, f, Chosen(chosen, supersede)); Refs(u) && EdgesOk(u)
    ensures var s, c, a := Selecting(lex, t, f, chosen, supersede, rows[..i]), rows[i].key, chosen.key;
            var accepted := AcceptedBeside(lex, f, chosen, rows[i]);
            && c < |s.claims| && a < |s.claims|
            && s.claims[a].event == Some(e) && s.claims[c].event == Some(e) && s.claims[a].field == f &&
                 s.claims[c].field == f
            && (supersede && !accepted ==> !Reaches(s.supersessions, c, a))
            && Selecting(lex, t, f, chosen, supersede, rows[..i + 1]) ==
               s.(claims := s.claims[c := s.claims[c].(state := Standing(accepted, supersede))],
                  supersessions := s.supersessions + (if supersede && !accepted then {(a, c)} else {}))
  {
    hide Refs, RowOf, FieldClaims, FieldRows, EdgesOk, Reaches, AcceptedBeside, Delivers, Losers, Marked, Applied,
      Keys;
    var at :| 0 <= at < |rows| && rows[at] == chosen;
    DeliveredRow(t, e, f, rows, at);
    DeliveredRow(t, e, f, rows, i);
    SelectingStep(lex, t, e, f, chosen, supersede, rows, i);
    SelectingAll(lex, t, e, f, chosen, supersede, rows);
    MarkedClaim(lex, t, f, Chosen(chosen, supersede), Keys(rows[..i]), chosen.key);
    if supersede && !AcceptedBeside(lex, f, chosen, rows[i]) {
      LoserIsEdge(lex, f, chosen, rows, i);
      GuardHolds(Applied(lex, t, e, f, Chosen(chosen, supersede)),
                 Selecting(lex, t, f, chosen, supersede, rows[..i]).supersessions, chosen.key, rows[i].key);
    }
  }

  // ----- expiry, row by row

  function ExpiredIdentities(t: Tables, e: nat): seq<ManualIdentity>
    requires Refs(t)
  {
    seq(|t.manualIdentities|, m requires 0 <= m < |t.manualIdentities| => ExpiredIdentity(t, e, m))
  }

  /** The store once the first field decisions are examined. */
  ghost function ExpiredUpTo(lex: Lexicon, t: Tables, e: nat, i: nat): Tables
    requires Refs(t)
  {
    t.(manualIdentities := ExpiredIdentities(t, e),
       manualFields := seq(|t.manualFields|, m requires 0 <= m < |t.manualFields| =>
         if m < i then ExpiredField(lex, t, e, m) else t.manualFields[m]))
  }

  lemma ExpireStarts(lex: Lexicon, t: Tables, e: nat)
    requires Refs(t)
    ensures ExpiredUpTo(lex, t, e, 0) == t.(manualIdentities := ExpiredIdentities(t, e))
  {
    hide ExpiredField, ExpiredIdentities, Refs;
  }

  lemma ExpireEnds(lex: Lexicon, t: Tables, e: nat)
    requires Refs(t)
    ensures ExpiredUpTo(lex, t, e, |t.manualFields|) == Expire(lex, t, e)
  {
    hide ExpiredField, ExpiredIdentity;
  }

  /** Examining a decision in place sees what was there before expiry began. */
  lemma ExpireStep(lex: Lexicon, t: Tables, e: nat, i: nat)
    requires Refs(t) && i < |t.manualFields|
    ensures var u := ExpiredUpTo(lex, t, e, i);
            && Refs(u) && |u.manualFields| == |t.manualFields|
            && ExpiredUpTo(lex, t, e, i + 1) ==
               var manual := u.manualFields[i];
               if manual.active && manual.event == e && FieldOutdated(lex, u, i)
               then u.(manualFields := u.manualFields[i := manual.(active := false)]) else u
  {
    hide FieldOutdated, EffectiveSource;
    OutdatedKept(lex, t, ExpiredUpTo(lex, t, e, i), i);
  }
}
