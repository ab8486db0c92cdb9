/** Deciding one more field: the step that the field loop of `_recompute_event` takes. */
module Settling {
  import opened Basics
  import opened Matching
  import opened Grouping
  import opened EventTables
  import opened Recompute
  import opened RecomputeFacts

  /** The claims of a field after its decision. */
  ghost function DecidedClaims(lex: Lexicon, t: Tables, e: nat, f: Field, o: Outcome): seq<Claim>
    requires Refs(t)
  {
    seq(|t.claims|, c requires 0 <= c < |t.claims| =>
      t.claims[c].(state := if IsFieldClaim(t, e, f, c) then DecidedState(lex, f, o, RowOf(t, c), t.claims[c].state)
                            else t.claims[c].state))
  }

  ghost function EdgesFrom(lex: Lexicon, t: Tables, e: nat, f: Field, chosen: Row): set<(nat, nat)>
    requires Refs(t)
  {
    set b | b in FieldClaims(t, e, f) && !AcceptedBeside(lex, f, chosen, RowOf(t, b)) :: (chosen.key, b)
  }

  /** The writes for one decided field. */
  ghost function Applied(lex: Lexicon, t: Tables, e: nat, f: Field, o: Outcome): Tables
    requires Refs(t)
  {
    match o
    case Chosen(chosen, supersede) =>
      t.(claims := DecidedClaims(lex, t, e, f, o),
         supersessions := t.supersessions + (if supersede then EdgesFrom(lex, t, e, f, chosen) else {}),
         projections := t.projections[(e, f) := Projection(chosen.key, chosen.value)])
    case Contested =>
      t.(claims := DecidedClaims(lex, t, e, f, o),
         conflicts := t.conflicts + [Conflict(e, f, true, FieldClaims(t, e, f))])
    case _ => t
  }

  lemma SettleNone(lex: Lexicon, t: Tables, e: nat)
    requires Refs(t)
    ensures var u := Settle(lex, t, e, []);
            && u.claims == seq(|t.claims|, c requires 0 <= c < |t.claims| =>
                 t.claims[c].(state := if t.claims[c].event == Some(e) then ResetState(t, c) else t.claims[c].state))
            && u.projections == (map p | p in t.projections && p.0 != e :: t.projections[p])
            && u == t.(claims := u.claims, projections := u.projections, conflicts := Closed(t.conflicts, e))
  {
    hide OutcomeOf;
    assert NewEdges(lex, t, e, []) == {};
    assert ProjectionsAfter(lex, t, e, []) == (map p | p in t.projections && p.0 != e :: t.projections[p]);
  }

  lemma StatesStep(lex: Lexicon, t: Tables, e: nat, done: seq<Field>, f: Field)
    requires Refs(t) && f !in done && !OutcomeOf(lex, t, e, f).ManualMissing?
    ensures var u := Settle(lex, t, e, done);
            Refs(u) && StatesAfter(lex, t, e, done + [f]) == DecidedClaims(lex, u, e, f, OutcomeOf(lex, t, e, f))
  {
    hide OutcomeOf, ActiveClaim, Refs, RowOf, Settle, SameEvidence, FieldRows, AcceptedBeside, DecidedState;
    SettleEvidence(lex, t, e, done);
    var u := Settle(lex, t, e, done);
    SameLength(t, u);
    SettledClaims(lex, t, e, done);
    forall c | 0 <= c < |t.claims|
      ensures StatesAfter(lex, t, e, done + [f])[c] == DecidedClaims(lex, u, e, f, OutcomeOf(lex, t, e, f))[c]
    {
      StateStep(lex, t, e, done, f, c);
      SameActivity(t, u, c);
    }
  }

  lemma SettledClaims(lex: Lexicon, t: Tables, e: nat, done: seq<Field>)
    requires Refs(t)
    ensures Settle(lex, t, e, done).claims == StatesAfter(lex, t, e, done)
  {
  }

  /** One claim: deciding the field touches it only if it competes there. */
  lemma StateStep(lex: Lexicon, t: Tables, e: nat, done: seq<Field>, f: Field, c: nat)
    requires Refs(t) && f !in done && c < |t.claims| && !OutcomeOf(lex, t, e, f).ManualMissing?
    ensures var s := StateOf(lex, t, e, done, c);
            StateOf(lex, t, e, done + [f], c) ==
            if IsFieldClaim(t, e, f, c) then DecidedState(lex, f, OutcomeOf(lex, t, e, f), RowOf(t, c), s) else s
  {
    hide OutcomeOf, Refs, RowOf, ActiveClaim;
    if IsFieldClaim(t, e, f, c) {
      CompetitorDecided(lex, t, e, f, c);
    }
  }

  lemma CompetitorDecided(lex: Lexicon, t: Tables, e: nat, f: Field, c: nat)
    requires Refs(t) && c < |t.claims| && IsFieldClaim(t, e, f, c)
    ensures !OutcomeOf(lex, t, e, f).NoClaims?
  {
    hide OutcomeOf, Refs, RowOf, ActiveClaim;
    OutcomeShape(lex, t, e, f);
    assert c in FieldClaims(t, e, f);
  }

  lemma EdgesStep(lex: Lexicon, t: Tables, e: nat, done: seq<Field>, f: Field)
    requires Refs(t)
    ensures var o := OutcomeOf(lex, t, e, f);
            NewEdges(lex, t, e, done + [f]) ==
            NewEdges(lex, t, e, done) + (if o.Chosen? && o.supersede then EdgesFrom(lex, t, e, f, o.row) else {})
  {
    hide OutcomeOf, RowOf, FieldClaims, AcceptedBeside, Refs;
    FieldClaimsInRange(t, e, f);
    var o := OutcomeOf(lex, t, e, f);
    var left, right := NewEdges(lex, t, e, done + [f]),
      NewEdges(lex, t, e, done) + (if o.Chosen? && o.supersede then EdgesFrom(lex, t, e, f, o.row) else {});
    forall p ensures p in left <==> p in right {
      if p in left {
        var g :| g in done + [f] && p.1 in FieldClaims(t, e, g) && OutcomeOf(lex, t, e, g).Chosen? &&
                 p.0 == OutcomeOf(lex, t, e, g).row.key && Edge(lex, t, e, g, p.0, p.1);
        if g in done {
          assert p in NewEdges(lex, t, e, done);
        }
      }
      if p in right && p !in NewEdges(lex, t, e, done) {
        assert Edge(lex, t, e, f, p.0, p.1);
        assert f in done + [f];
      }
    }
  }

  lemma ProjectionsStep(lex: Lexicon, t: Tables, e: nat, done: seq<Field>, f: Field)
    requires Refs(t)
    ensures var o := OutcomeOf(lex, t, e, f);
            ProjectionsAfter(lex, t, e, done + [f]) ==
            if o.Chosen? then ProjectionsAfter(lex, t, e, done)[(e, f) := Projection(o.row.key, o.row.value)]
            else ProjectionsAfter(lex, t, e, done)
  {
    hide OutcomeOf, Refs;
  }

  lemma ConflictsStep(lex: Lexicon, t: Tables, e: nat, done: seq<Field>, f: Field)
    requires Refs(t)
    ensures NewConflicts(lex, t, e, done + [f]) ==
            NewConflicts(lex, t, e, done) +
            (if OutcomeOf(lex, t, e, f).Contested? then [Conflict(e, f, true, FieldClaims(t, e, f))] else [])
  {
    hide OutcomeOf, Refs, FieldClaims;
    assert (done + [f])[..|done|] == done;
  }

  lemma SameEdges(lex: Lexicon, t: Tables, u: Tables, e: nat, f: Field, chosen: Row)
    requires Refs(t) && Refs(u) && SameEvidence(t, u)
    ensures FieldClaims(t, e, f) == FieldClaims(u, e, f)
    ensures EdgesFrom(lex, t, e, f, chosen) == EdgesFrom(lex, u, e, f, chosen)
  {
    SameChoices(lex, t, u, e, f);
    SameLength(t, u);
    FieldClaimsInRange(t, e, f);
    forall b | b in FieldClaims(t, e, f) ensures RowOf(t, b) == RowOf(u, b) {
      SameActivity(t, u, b);
    }
    hide RowOf, FieldClaims, AcceptedBeside, SameEvidence, Refs, OutcomeOf;
  }

  lemma NothingDecided(lex: Lexicon, t: Tables, e: nat, f: Field)
    requires Refs(t) && OutcomeOf(lex, t, e, f).NoClaims?
    ensures DecidedClaims(lex, t, e, f, OutcomeOf(lex, t, e, f)) == t.claims
  {
    hide OutcomeOf, Refs, RowOf, ActiveClaim;
  }

  lemma NewEdgesUnion(a: set<(nat, nat)>, b: set<(nat, nat)>, c: set<(nat, nat)>)
    ensures a + (b + c) == (a + b) + c
  {
  }

  /** Deciding one more field is exactly applying its outcome. */
  lemma SettleStep(lex: Lexicon, t: Tables, e: nat, done: seq<Field>, f: Field)
    requires Refs(t) && f !in done && !OutcomeOf(lex, t, e, f).ManualMissing?
    ensures var u := Settle(lex, t, e, done);
            Refs(u) && Settle(lex, t, e, done + [f]) == Applied(lex, u, e, f, OutcomeOf(lex, u, e, f))
  {
    hide OutcomeOf, Refs, Settle, SameEvidence, FieldClaims, FieldRows, RowOf;
    var u, o := Settle(lex, t, e, done), OutcomeOf(lex, t, e, f);
    SettleEvidence(lex, t, e, done);
    SameChoices(lex, t, u, e, f);
    match o {
      case Chosen(chosen, supersede) => ChosenStep(lex, t, e, done, f);
      case Contested => ContestedStep(lex, t, e, done, f);
      case NoClaims => NoClaimsStep(lex, t, e, done, f);
      case ManualMissing =>
    }
  }

  /** What settling writes, column by column. */
  lemma Columns(lex: Lexicon, t: Tables, e: nat, done: seq<Field>)
    requires Refs(t)
    ensures Settle(lex, t, e, done) ==
            t.(claims := StatesAfter(lex, t, e, done), projections := ProjectionsAfter(lex, t, e, done),
               conflicts := Closed(t.conflicts, e) + NewConflicts(lex, t, e, done),
               supersessions := t.supersessions + NewEdges(lex, t, e, done))
  {
  }

  lemma ChosenStep(lex: Lexicon, t: Tables, e: nat, done: seq<Field>, f: Field)
    requires Refs(t) && f !in done && OutcomeOf(lex, t, e, f).Chosen?
    ensures var u := Settle(lex, t, e, done);
            Refs(u) && Settle(lex, t, e, done + [f]) == Applied(lex, u, e, f, OutcomeOf(lex, t, e, f))
  {
    hide OutcomeOf, Refs, Settle, SameEvidence, StatesAfter, NewEdges, NewConflicts, ProjectionsAfter, DecidedClaims,
      EdgesFrom, FieldClaims, Closed;
    var u, o := Settle(lex, t, e, done), OutcomeOf(lex, t, e, f);
    Columns(lex, t, e, done);
    Columns(lex, t, e, done + [f]);
    StatesStep(lex, t, e, done, f);
    EdgesStep(lex, t, e, done, f);
    ProjectionsStep(lex, t, e, done, f);
    ConflictsStep(lex, t, e, done, f);
    SettleEvidence(lex, t, e, done);
    SameEdges(lex, t, u, e, f, o.row);
    NewEdgesUnion(t.supersessions, NewEdges(lex, t, e, done),
                  if o.supersede then EdgesFrom(lex, t, e, f, o.row) else {});
  }

  lemma ContestedStep(lex: Lexicon, t: Tables, e: nat, done: seq<Field>, f: Field)
    requires Refs(t) && f !in done && OutcomeOf(lex, t, e, f).Contested?
    ensures var u := Settle(lex, t, e, done);
            Refs(u) && Settle(lex, t, e, done + [f]) == Applied(lex, u, e, f, OutcomeOf(lex, t, e, f))
  {
    hide OutcomeOf, Refs, Settle, SameEvidence, StatesAfter, NewEdges, NewConflicts, ProjectionsAfter, DecidedClaims,
      FieldClaims, FieldRows, Closed;
    Columns(lex, t, e, done);
    Columns(lex, t, e, done + [f]);
    StatesStep(lex, t, e, done, f);
    EdgesStep(lex, t, e, done, f);
    ProjectionsStep(lex, t, e, done, f);
    ConflictsStep(lex, t, e, done, f);
    SettleEvidence(lex, t, e, done);
    SameChoices(lex, t, Settle(lex, t, e, done), e, f);
  }

  lemma NoClaimsStep(lex: Lexicon, t: Tables, e: nat, done: seq<Field>, f: Field)
    requires Refs(t) && f !in done && OutcomeOf(lex, t, e, f).NoClaims?
    ensures var u := Settle(lex, t, e, done);
            Refs(u) && Settle(lex, t, e, done + [f]) == Applied(lex, u, e, f, OutcomeOf(lex, t, e, f))
  {
    hide OutcomeOf, Refs, Settle, SameEvidence, StatesAfter, NewEdges, NewConflicts, ProjectionsAfter, DecidedClaims,
      FieldClaims, FieldRows, Closed;
    Columns(lex, t, e, done);
    Columns(lex, t, e, done + [f]);
    StatesStep(lex, t, e, done, f);
    EdgesStep(lex, t, e, done, f);
    ProjectionsStep(lex, t, e, done, f);
    ConflictsStep(lex, t, e, done, f);
    SettleEvidence(lex, t, e, done);
    SameChoices(lex, t, Settle(lex, t, e, done), e, f);
    NothingDecided(lex, Settle(lex, t, e, done), e, f);
  }
}
