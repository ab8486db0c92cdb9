/** The event reconciler as an object that updates the store statement by statement
    (events/reconciliation.py, class `EventReconciler`). Every method is proved equal to the table
    function that specifies it; what those functions guarantee is proved in the other modules. */
module Reconciler {
  import opened Basics
  import opened Matching
  import opened Grouping
  import opened ClaimGroups
  import opened FieldDecision
  import opened EventTables
  import opened Recompute
  import opened RecomputeFacts
  import opened RecomputeSound
  import opened Settling
  import opened FieldWrites
  import opened EventStore
  import opened Reconcile
  import opened ReconcileSound
  import opened RunSound
  import opened RunSteps
  import opened Manual
  import opened ManualSound

  class EventReconciler {
    const db: Store
    const lex: Lexicon
    const version: string

    constructor (db: Store, lex: Lexicon, version: string)
      ensures this.db == db && this.lex == lex && this.version == version
    {
      this.db := db;
      this.lex := lex;
      this.version := version;
    }

    /** `_expire_outdated_manual_resolutions`. */
    method ExpireOutdated(e: nat)
      requires Refs(db.tables)
      modifies db
      ensures db.tables == Expire(lex, old(db.tables), e)
    {
      hide *;
      ghost var t := db.tables;
      var before := db.tables;
      db.tables := before.(manualIdentities := ExpiredIdentities(before, e));
      ExpireStarts(lex, t, e);
      var i := 0;
      while i < |db.tables.manualFields|
        invariant 0 <= i <= |t.manualFields| == |db.tables.manualFields|
        invariant db.tables == ExpiredUpTo(lex, t, e, i)
      {
        ExpireStep(lex, t, e, i);
        var manual := db.tables.manualFields[i];
        if manual.active && manual.event == e {
          if FieldOutdated(lex, db.tables, i) {
            db.RetireManualField(i);
          }
        }
        i := i + 1;
      }
      ExpireEnds(lex, t, e);
    }

    /** Claims, projections and conflicts of the event before its fields are decided. */
    method Reset(e: nat)
      requires Refs(db.tables)
      modifies db
      ensures db.tables == Settle(lex, old(db.tables), e, [])
    {
      ghost var t := db.tables;
      SettleNone(lex, t, e);
      hide Settle, ResetState, Refs;
      var before := db.tables;
      db.tables := before.(claims := seq(|before.claims|, c requires 0 <= c < |before.claims| =>
        before.claims[c].(state :=
          if before.claims[c].event == Some(e) then ResetState(before, c) else before.claims[c].state)));
      db.DeleteProjections(e);
      db.tables := db.tables.(conflicts := Closed(db.tables.conflicts, e));
    }

    /** The active claims of a field joined with their sources, in key order. */
    method QueryRows(e: nat, f: Field) returns (rows: seq<Row>)
      requires Refs(db.tables)
      ensures Delivers(db.tables, e, f, rows)
    {
      var t := db.tables;
      hide *;
      rows := [];
      NothingDelivered(t, e, f);
      var c := 0;
      while c < |t.claims|
        invariant 0 <= c <= |t.claims|
        invariant InKeyOrder(rows) && DeliversUpTo(t, e, f, rows, c)
      {
        if IsFieldClaim(t, e, f, c) {
          DeliversNext(t, e, f, rows, c);
          rows := rows + [RowOf(t, c)];
        } else {
          DeliversSkip(t, e, f, rows, c);
        }
        c := c + 1;
      }
      DeliveredAll(t, e, f, rows);
    }

    /** One claim of a chosen group: its state, and the supersession edge to it. */
    method SettleClaim(e: nat, f: Field, rows: seq<Row>, i: nat, chosen: Row, supersede: bool, ghost t: Tables)
      requires Refs(t) && Delivers(t, e, f, rows) && i < |rows| && chosen in rows
      requires db.tables == Selecting(lex, t, f, chosen, supersede, rows[..i])
      requires var u := Applied(lex, t, e, f, Chosen(chosen, supersede)); Refs(u) && EdgesOk(u)
      modifies db
      ensures db.tables == Selecting(lex, t, f, chosen, supersede, rows[..i + 1])
    {
      hide *;
      ClaimMaySettle(lex, t, e, f, rows, i, chosen, supersede);
      var c := rows[i].key;
      var accepted := AcceptedBeside(lex, f, chosen, rows[i]);
      db.SetClaimState(c, Standing(accepted, supersede));
      if !accepted && supersede {
        db.InsertSupersession(chosen.key, c);
      }
    }

    /** `_select_claim_group`: states and supersession edges claim by claim, then the projection. */
    method SelectClaimGroup(e: nat, f: Field, rows: seq<Row>, chosen: Row, supersede: bool)
      requires Refs(db.tables) && Delivers(db.tables, e, f, rows) && chosen in rows
      requires f in CANONICAL && (e, f) !in db.tables.projections
      requires var u := Applied(lex, db.tables, e, f, Chosen(chosen, supersede)); Refs(u) && EdgesOk(u)
      modifies db
      ensures db.tables == Applied(lex, old(db.tables), e, f, Chosen(chosen, supersede))
    {
      ghost var t := db.tables;
      SelectingAll(lex, t, e, f, chosen, supersede, rows);
      SelectedClaim(lex, t, e, f, chosen, supersede, rows);
      hide Refs, RowOf, FieldClaims, FieldRows, EdgesOk, Delivers, Losers, Marked, Applied, Selecting, Keys;
      assert rows[..0] == [];
      var i := 0;
      while i < |rows|
        invariant 0 <= i <= |rows|
        invariant db.tables == Selecting(lex, t, f, chosen, supersede, rows[..i])
      {
        SettleClaim(e, f, rows, i, chosen, supersede, t);
        i := i + 1;
      }
      assert rows[..|rows|] == rows;
      db.InsertProjection(e, f, Projection(chosen.key, chosen.value));
    }

    /** Nothing wins: every competing claim is an alternative of one open conflict. */
    method RecordConflict(e: nat, f: Field, rows: seq<Row>)
      requires Refs(db.tables) && Delivers(db.tables, e, f, rows) && e < |db.tables.events|
      requires forall k :: 0 <= k < |db.tables.conflicts| ==> !OpenFor(db.tables, e, f, k)
      modifies db
      ensures db.tables == Applied(lex, old(db.tables), e, f, Contested)
    {
      ghost var t := db.tables;
      ContestingAll(lex, t, e, f, rows);
      hide Refs, RowOf, FieldClaims, FieldRows, Delivers, Marked, Applied, Contesting, Keys, OpenFor;
      var k := db.InsertConflict(e, f);
      assert rows[..0] == [];
      var i := 0;
      while i < |rows|
        invariant 0 <= i <= |rows|
        invariant db.tables == Contesting(lex, t, e, f, rows[..i])
      {
        ContestingStep(lex, t, e, f, rows, i);
        db.SetClaimState(rows[i].key, Conflicting);
        db.InsertAlternative(k, rows[i].key);
        i := i + 1;
      }
      assert rows[..|rows|] == rows;
    }

    /** One turn of the field loop of `_recompute_event`; false where the program raises. */
    method ReconcileField(e: nat, i: nat, ghost x: Tables) returns (ok: bool)
      requires Sound(lex, x) && e < |x.events| && i < |CANONICAL| && db.tables == Settle(lex, x, e, CANONICAL[..i])
      modifies db
      ensures Refs(x) && (ok <==> !OutcomeOf(lex, x, e, CANONICAL[i]).ManualMissing?)
      ensures ok ==> db.tables == Settle(lex, x, e, CANONICAL[..i + 1])
    {
      var f := CANONICAL[i];
      BeforeField(lex, x, e, i);
      SoundParts(lex, db.tables);
      EventsUnchanged(lex, x, e, CANONICAL[..i]);
      hide Sound, Settle, Refs, Applied, FieldRows, ManualChoice, OpenFor, EdgesOk, ClaimsOk, Delivers, OutcomeOf;
      var rows := QueryRows(e, f);
      OutcomeOfRows(lex, db.tables, e, f, rows);
      var outcome := DecideField(lex, f, rows, ManualChoice(db.tables, e, f));
      match outcome
      case NoClaims =>
        AppliedNothing(lex, db.tables, e, f);
        ok := true;
      case ManualMissing =>
        ok := false;
      case Chosen(chosen, supersede) =>
        SoundParts(lex, Settle(lex, x, e, CANONICAL[..i + 1]));
        ChosenInRows(lex, f, rows, ManualChoice(db.tables, e, f));
        SelectClaimGroup(e, f, rows, chosen, supersede);
        ok := true;
      case Contested =>
        RecordConflict(e, f, rows);
        ok := true;
    }

    /** `_recompute_event`. */
    method RecomputeEvent(e: nat) returns (ok: bool)
      requires Sound(lex, db.tables) && e < |db.tables.events|
      modifies db
      ensures Refs(old(db.tables)) && (ok <==> Recomputed(lex, old(db.tables), e).Some?)
      ensures ok ==> db.tables == Recomputed(lex, old(db.tables), e).value
    {
      hide Sound, Settle, Refs, Expire, OutcomeOf, Recomputed, EventRow, CANONICAL;
      ghost var t := db.tables;
      RecomputeStarts(lex, t, e);
      ghost var x := Expire(lex, t, e);
      RecomputedShape(lex, t, e);
      ExpireOutdated(e);
      Reset(e);
      assert CANONICAL[..0] == [];
      var i := 0;
      while i < |CANONICAL|
        invariant 0 <= i <= |CANONICAL|
        invariant db.tables == Settle(lex, x, e, CANONICAL[..i])
        invariant forall j :: 0 <= j < i ==> !OutcomeOf(lex, x, e, CANONICAL[j]).ManualMissing?
      {
        var settled := ReconcileField(e, i, x);
        if !settled {
          return false;
        }
        i := i + 1;
      }
      assert CANONICAL[..|CANONICAL|] == CANONICAL;
      EventsUnchanged(lex, x, e, CANONICAL);
      EventRowCourse(db.tables, e);
      db.UpdateEvent(e, EventRow(db.tables, e));
      return true;
    }

    // ----- sources and identity

    /** `_ensure_source_and_claims`. */
    method EnsureSourceAndClaims(k: nat, now: int) returns (s: nat)
      requires Sound(lex, db.tables) && k < |db.tables.candidates|
      modifies db
      ensures db.tables == EnsureSource(lex, old(db.tables), k, now)
      ensures s < |db.tables.sources| && db.tables.sources[s].candidate == k
    {
      if HasSource(db.tables, k) {
        return SourceOf(db.tables, k);
      }
      ghost var t := db.tables;
      hide HasSource, Sound;
      var candidate := db.tables.candidates[k];
      s := db.InsertSource(NewSource(lex, k, candidate));
      ghost var sources := db.tables.sources;
      var i := 0;
      while i < |candidate.fields|
        invariant 0 <= i <= |candidate.fields|
        invariant db.tables == t.(sources := sources, claims := db.tables.claims)
        invariant db.tables.claims ==
          t.claims + seq(i, j requires 0 <= j < i => NewClaim(s, candidate, candidate.fields[j], now))
      {
        var claim := NewClaim(s, candidate, candidate.fields[i], now);
        assert candidate.fields[i] == FieldData(claim.field, claim.value, claim.precision);
        var c := db.InsertClaim(claim);
        i := i + 1;
      }
    }

    /** `_bind_source`. */
    method BindSource(s: nat, e: nat)
      requires s < |db.tables.sources| && e < |db.tables.events| &&
        db.tables.events[e].course == db.tables.sources[s].course
      modifies db
      ensures db.tables == Bind(old(db.tables), s, e)
    {
      db.AssignSource(s, e);
      db.AssignClaims(s, e);
      db.DeletePossible(s);
    }

    /** The source stays unbound, and its possible matches are replaced. */
    method LeaveSource(s: nat, state: SourceState, plausible: seq<nat>)
      requires s < |db.tables.sources| && NoDuplicates(plausible)
      requires forall i :: 0 <= i < |plausible| ==> plausible[i] < |db.tables.events|
      modifies db
      ensures db.tables == Leave(old(db.tables), s, state, Elements(plausible))
    {
      ghost var t := db.tables;
      db.SetSourceState(s, state);
      db.DeletePossible(s);
      ghost var kept := db.tables.possible;
      var i := 0;
      while i < |plausible|
        invariant 0 <= i <= |plausible|
        invariant db.tables ==
          t.(sources := t.sources[s := t.sources[s].(state := state)], possible := db.tables.possible)
        invariant db.tables.possible == kept + set j | 0 <= j < i :: (s, plausible[j])
      {
        db.InsertPossible(s, plausible[i]);
        i := i + 1;
      }
      PairsOf(s, plausible);
    }

    static lemma PairsOf(s: nat, plausible: seq<nat>)
      ensures (set j | 0 <= j < |plausible| :: (s, plausible[j])) == (set e | e in Elements(plausible) :: (s, e))
    {
      forall e | e in plausible ensures (s, e) in (set j | 0 <= j < |plausible| :: (s, plausible[j])) {
        var j :| 0 <= j < |plausible| && plausible[j] == e;
      }
    }

    /** `_candidate_matches`: the events of the course a source resembles, and those it may join, in key order. */
    method CandidateMatches(ctx: Context, s: nat) returns (plausible: seq<nat>, mergeable: seq<nat>)
      requires Refs(db.tables) && s < |db.tables.sources|
      ensures Enumerates(plausible, PlausibleEvents(lex, db.tables, s), |db.tables.events|)
      ensures Enumerates(mergeable, MergeEvents(lex, db.tables, ctx, s), |db.tables.events|)
    {
      hide *;
      var t := db.tables;
      plausible, mergeable := [], [];
      NothingEnumerated(PlausibleEvents(lex, t, s));
      NothingEnumerated(MergeEvents(lex, t, ctx, s));
      var e := 0;
      while e < |t.events|
        invariant 0 <= e <= |t.events|
        invariant Enumerates(plausible, PlausibleEvents(lex, t, s), e)
        invariant Enumerates(mergeable, MergeEvents(lex, t, ctx, s), e)
      {
        EnumeratesStep(plausible, PlausibleEvents(lex, t, s), e);
        EnumeratesStep(mergeable, MergeEvents(lex, t, ctx, s), e);
        MatchesAt(lex, t, ctx, s, e);
        if t.events[e].course == t.sources[s].course && Plausible(lex, t, s, e) {
          plausible := plausible + [e];
          if Merges(lex, t, ctx, s, e) {
            mergeable := mergeable + [e];
          }
        }
        e := e + 1;
      }
    }

    /** `_reconcile_candidate`; false when the candidate is put off. */
    method ReconcileCandidate(ctx: Context, run: nat, s: nat, defer: bool) returns (handled: bool)
      requires Sound(lex, db.tables) && s < |db.tables.sources| && run < |db.tables.runs|
      requires Unaudited(db.tables, run, db.tables.sources[s].candidate)
      modifies db
      ensures Refs(old(db.tables))
      ensures db.tables == Treated(old(db.tables), run, s, TreatmentOf(lex, old(db.tables), ctx, s, defer))
      ensures handled <==> !TreatmentOf(lex, old(db.tables), ctx, s, defer).Defer?
    {
      hide *;
      ghost var t := db.tables;
      SoundRefs(lex, t);
      TreatmentFacts(lex, t, ctx, s, defer);
      CandidateKnown(lex, t, ctx, s);
      TreatmentCases(lex, t, ctx, s, defer);
      var source := db.tables.sources[s];
      var manual := ManualIdentityOf(db.tables, s);
      if manual.Some? {
        AssignTo(run, s, manual.value, ManualRetained);
        return true;
      }
      if source.event.Some? {
        KeepBinding(run, s);
        return true;
      }
      var plausible, mergeable := CandidateMatches(ctx, s);
      Singleton(mergeable, MergeEvents(lex, t, ctx, s), |t.events|);
      Same(plausible, PlausibleEvents(lex, t, s), |t.events|);
      if |mergeable| == 1 {
        assert MergeEvents(lex, t, ctx, s) == {mergeable[0]};
        AssignTo(run, s, mergeable[0], Merged);
        return true;
      }
      if plausible != [] || source.change != NoChange {
        if defer && source.change == NoChange {
          KeepDeferred(t, run, s);
          return false;
        }
        var state := if source.change != NoChange then RelatedChange else Unresolved;
        ParkSource(run, s, state, plausible);
        return true;
      }
      FoundEvent(run, s);
      return true;
    }

    method AssignTo(run: nat, s: nat, e: nat, verdict: Verdict)
      requires Refs(db.tables) && s < |db.tables.sources| && run < |db.tables.runs| && e < |db.tables.events|
      requires db.tables.events[e].course == db.tables.sources[s].course
      requires Unaudited(db.tables, run, db.tables.sources[s].candidate)
      modifies db
      ensures db.tables == Treated(old(db.tables), run, s, Assign(e, verdict))
    {
      var k := db.tables.sources[s].candidate;
      BindSource(s, e);
      db.InsertDecision(Decision(run, k, Some(e), verdict));
    }

    method KeepBinding(run: nat, s: nat)
      requires Refs(db.tables) && s < |db.tables.sources| && run < |db.tables.runs| && db.tables.sources[s].event.Some?
      requires Unaudited(db.tables, run, db.tables.sources[s].candidate)
      modifies db
      ensures db.tables == Treated(old(db.tables), run, s, Keep(old(db.tables).sources[s].event.value))
    {
      db.InsertDecision(Decision(run, db.tables.sources[s].candidate, db.tables.sources[s].event, Retained));
    }

    method ParkSource(run: nat, s: nat, state: SourceState, plausible: seq<nat>)
      requires Refs(db.tables) && s < |db.tables.sources| && run < |db.tables.runs| && NoDuplicates(plausible)
      requires forall i :: 0 <= i < |plausible| ==> plausible[i] < |db.tables.events|
      requires Unaudited(db.tables, run, db.tables.sources[s].candidate)
      modifies db
      ensures db.tables == Treated(old(db.tables), run, s, Park(state, Elements(plausible)))
    {
      var k := db.tables.sources[s].candidate;
      LeaveSource(s, state, plausible);
      db.InsertDecision(Decision(run, k, None, if state.RelatedChange? then LeftRelated else LeftUnresolved));
    }

    method FoundEvent(run: nat, s: nat)
      requires Refs(db.tables) && s < |db.tables.sources| && run < |db.tables.runs|
      requires Unaudited(db.tables, run, db.tables.sources[s].candidate)
      modifies db
      ensures db.tables == Treated(old(db.tables), run, s, Found)
    {
      var source := db.tables.sources[s];
      var e := db.InsertEvent(Event(source.course, Ambiguous, map[], db.tables.candidates[source.candidate].confidence,
        0));
      BindSource(s, e);
      db.InsertDecision(Decision(run, source.candidate, Some(e), Created));
    }

    // ----- a run

    /** A source and its claims for each candidate; the dictionary from candidates to sources. */
    method EnsureSources(ks: seq<nat>, now: int) returns (sources: map<nat, nat>)
      requires Sound(lex, db.tables) && Known(db.tables, ks)
      modifies db
      ensures Refs(old(db.tables)) && db.tables == EnsureAll(lex, old(db.tables), ks, now) && Sound(lex, db.tables)
      ensures forall i :: 0 <= i < |ks| ==>
        HasSource(db.tables, ks[i]) && ks[i] in sources && sources[ks[i]] == SourceOf(db.tables, ks[i])
    {
      ghost var t := db.tables;
      SoundRefs(lex, t);
      hide Sound, Refs, EnsureSource, SourcesKnown, HasSource, SourceOf, EnsureAll;
      sources := map[];
      assert ks[..0] == [];
      EnsureStarts(lex, t, ks, now);
      var i := 0;
      while i < |ks|
        invariant 0 <= i <= |ks|
        invariant db.tables == EnsureAll(lex, t, ks[..i], now) && Sound(lex, db.tables)
        invariant SourcesKnown(db.tables, sources, ks, i)
      {
        EnsureStep(lex, t, ks, now, i);
        ghost var before := db.tables;
        EnsureSound(lex, before, ks[i], now);
        EnsureExtends(lex, before, ks[i], now);
        var s := EnsureSourceAndClaims(ks[i], now);
        SourcesKnownNext(before, db.tables, sources, ks, i, s);
        sources := sources[ks[i] := s];
        i := i + 1;
      }
      assert ks[..|ks|] == ks;
      SourcesKnownAll(lex, db.tables, sources, ks);
    }

    static lemma EnsureStarts(lex: Lexicon, t: Tables, ks: seq<nat>, now: int)
      requires Refs(t)
      ensures EnsureAll(lex, t, [], now) == t && SourcesKnown(t, map[], ks, 0)
    {
    }

    /** The dictionary knows the source of each of the first candidates. */
    static ghost predicate SourcesKnown(t: Tables, sources: map<nat, nat>, ks: seq<nat>, n: nat) {
      n <= |ks| && forall j :: 0 <= j < n ==>
        ks[j] in sources && sources[ks[j]] < |t.sources| && t.sources[sources[ks[j]]].candidate == ks[j]
    }

    static lemma SourcesKnownNext(t: Tables, u: Tables, sources: map<nat, nat>, ks: seq<nat>, i: nat, s: nat)
      requires SourcesKnown(t, sources, ks, i) && i < |ks| && t.sources <= u.sources
      requires s < |u.sources| && u.sources[s].candidate == ks[i]
      ensures SourcesKnown(u, sources[ks[i] := s], ks, i + 1)
    {
    }

    static lemma SourcesKnownAll(lex: Lexicon, t: Tables, sources: map<nat, nat>, ks: seq<nat>)
      requires Sound(lex, t) && SourcesKnown(t, sources, ks, |ks|)
      ensures forall i :: 0 <= i < |ks| ==>
        HasSource(t, ks[i]) && ks[i] in sources && sources[ks[i]] == SourceOf(t, ks[i])
    {
      hide Sound, SourceOf;
      forall i | 0 <= i < |ks| ensures HasSource(t, ks[i]) && sources[ks[i]] == SourceOf(t, ks[i]) {
        SourceUnique(lex, t, ks[i], sources[ks[i]]);
      }
    }

    static lemma EnsureExtends(lex: Lexicon, t: Tables, k: nat, now: int)
      requires Sound(lex, t) && k < |t.candidates|
      ensures t.sources <= EnsureSource(lex, t, k, now).sources
    {
      SoundRefs(lex, t);
      EnsureRefs(lex, t, k, now);
    }

    /** Candidates apart by wording: ordinary ones and announced changes, in key order. */
    method SplitByWording(ks: seq<nat>, sources: map<nat, nat>) returns (ordinary: seq<nat>, changes: seq<nat>)
      requires Known(db.tables, ks)
      requires forall i :: 0 <= i < |ks| ==>
        HasSource(db.tables, ks[i]) && ks[i] in sources && sources[ks[i]] == SourceOf(db.tables, ks[i])
      ensures ordinary == SourcesWhere(lex, db.tables, ks, false) && changes == SourcesWhere(lex, db.tables, ks, true)
    {
      hide HasSource, SourceOf;
      var t := db.tables;
      ordinary, changes := [], [];
      assert ks[..0] == [];
      var i := 0;
      while i < |ks|
        invariant 0 <= i <= |ks|
        invariant ordinary == SourcesWhere(lex, t, ks[..i], false) && changes == SourcesWhere(lex, t, ks[..i], true)
      {
        SourcesWhereStep(lex, t, ks, false, i);
        SourcesWhereStep(lex, t, ks, true, i);
        if lex.classify(t.candidates[ks[i]].wording) == NoChange {
          ordinary := ordinary + [sources[ks[i]]];
        } else {
          changes := changes + [sources[ks[i]]];
        }
        i := i + 1;
      }
      assert ks[..|ks|] == ks;
    }

    /** The first pass; returns the sources put off. */
    method RunFirstPass(ctx: Context, run: nat, ss: seq<nat>, ghost course: nat) returns (deferred: seq<nat>)
      requires Sound(lex, db.tables) && Ready(db.tables, run, ss, course)
      modifies db
      ensures Refs(old(db.tables)) && InRange(old(db.tables), ss)
      ensures (db.tables, deferred) == FirstPass(lex, old(db.tables), ctx, run, ss)
    {
      ghost var t := db.tables;
      SoundRefs(lex, t);
      ReadyInRange(t, run, ss, course);
      hide Sound, Refs, Unaudited, Treated, TreatmentOf, Ready, InRange;
      deferred := [];
      assert ss[..0] == [];
      var i := 0;
      while i < |ss|
        invariant 0 <= i <= |ss|
        invariant (db.tables, deferred) == FirstPass(lex, t, ctx, run, ss[..i])
      {
        FirstPassStep(lex, t, ctx, run, ss, course, i);
        var handled := ReconcileCandidate(ctx, run, ss[i], true);
        if !handled {
          deferred := deferred + [ss[i]];
        }
        i := i + 1;
      }
      assert ss[..|ss|] == ss;
    }

    /** The second pass: changes and deferred candidates. */
    method RunSecondPass(ctx: Context, run: nat, ss: seq<nat>, ghost course: nat)
      requires Sound(lex, db.tables) && Ready(db.tables, run, ss, course)
      modifies db
      ensures Refs(old(db.tables)) && InRange(old(db.tables), ss)
      ensures db.tables == SecondPass(lex, old(db.tables), ctx, run, ss)
    {
      ghost var t := db.tables;
      SoundRefs(lex, t);
      hide Sound, Refs, Unaudited, Treated, TreatmentOf, AllUnaudited, NoDuplicates;
      assert ss[..0] == [];
      var i := 0;
      while i < |ss|
        invariant 0 <= i <= |ss|
        invariant db.tables == SecondPass(lex, t, ctx, run, ss[..i])
      {
        SecondPassStep(lex, t, ctx, run, ss, course, i);
        var handled := ReconcileCandidate(ctx, run, ss[i], false);
        i := i + 1;
      }
      assert ss[..|ss|] == ss;
    }

    /** Every event of the course, in key order; false as soon as one raises. */
    method RecomputeEvents(es: seq<nat>) returns (ok: bool)
      requires Sound(lex, db.tables) && forall i :: 0 <= i < |es| ==> es[i] < |db.tables.events|
      modifies db
      ensures Refs(old(db.tables)) && (ok <==> RecomputeAll(lex, old(db.tables), es).Some?)
      ensures ok ==> db.tables == RecomputeAll(lex, old(db.tables), es).value
    {
      ghost var t := db.tables;
      SoundRefs(lex, t);
      hide Sound, Refs, Recomputed;
      assert es[..0] == [];
      var i := 0;
      while i < |es|
        invariant 0 <= i <= |es|
        invariant RecomputeAll(lex, t, es[..i]) == Some(db.tables)
      {
        RecomputeAllStep(lex, t, es, i);
        var settled := RecomputeEvent(es[i]);
        if !settled {
          RecomputeAllStuck(lex, t, es, i + 1);
          return false;
        }
        i := i + 1;
      }
      assert es[..|es|] == es;
      return true;
    }

    /** `reconcile_course`: answered from the cache, or one transaction that is rolled back if it raises. */
    method ReconcileCourse(course: nat, ctx: Context, now: int) returns (ok: bool)
      requires Sound(lex, db.tables)
      modifies db
      ensures Refs(old(db.tables)) && (ok <==> Reconciled(lex, old(db.tables), course, version, ctx, now).Some?)
      ensures db.tables == if ok then Reconciled(lex, old(db.tables), course, version, ctx, now).value
        else old(db.tables)
    {
      var t := db.tables;
      SoundRefs(lex, t);
      var ks := EffectiveCandidates(t, course);
      if Run(course, version, FingerprintOf(t, course)) in t.runs {
        return true;
      }
      ghost var begun := OpenRun(t, course, version, FingerprintOf(t, course));
      RunStarts(lex, t, course, version, ctx, now);
      hide Sound, Refs, EnsureAll, FirstPass, SecondPass, SourcesWhere, RecomputeAll, Ready, FingerprintOf;
      var run := db.InsertRun(course, version, FingerprintOf(t, course));
      var sources := EnsureSources(ks, now);
      var ordinary, changes := SplitByWording(ks, sources);
      var deferred := RunFirstPass(ctx, run, ordinary, course);
      RunSecondPass(ctx, run, changes + deferred, course);
      var es := EventsUpTo(db.tables, course, |db.tables.events|);
      ok := RecomputeEvents(es);
      if !ok {
        db.tables := t;
      }
    }

    // ----- manual decisions

    /** The decision of `resolve_field`, in force instead of any earlier one for the field. */
    method RecordDecision(e: nat, f: Field, choice: Choice, now: int)
      requires Refs(db.tables) && FieldRequestOk(db.tables, e, f, choice)
      modifies db
      ensures db.tables == FieldDecided(old(db.tables), e, f, choice, now)
    {
      ghost var t := db.tables;
      hide *;
      DecisionMayBeRecorded(t, e, f, choice, now);
      var claim := if choice.Existing? then choice.claim else |db.tables.claims|;
      if choice.Local? {
        claim := db.InsertClaim(LocalClaim(e, f, choice, now));
      }
      db.tables := db.tables.(manualFields := Retired(db.tables, e, f));
      db.InsertManualField(ManualField(e, f, claim, choice.Local?, now, true));
    }

    /** `resolve_field`: false, with nothing changed, when the request is refused or recomputation raises. */
    method ResolveField(e: nat, f: Field, choice: Choice, now: int) returns (ok: bool)
      requires Sound(lex, db.tables)
      modifies db
      ensures Refs(old(db.tables)) && (ok <==> FieldResolved(lex, old(db.tables), e, f, choice, now).Some?)
      ensures db.tables == if ok then FieldResolved(lex, old(db.tables), e, f, choice, now).value else old(db.tables)
    {
      var t := db.tables;
      SoundRefs(lex, t);
      if !FieldRequestOk(t, e, f, choice) {
        return false;
      }
      FieldDecidedSound(lex, t, e, f, choice, now);
      FieldDecidedRefs(t, e, f, choice, now);
      hide Sound, Refs, Recomputed;
      RecordDecision(e, f, choice, now);
      ok := RecomputeEvent(e);
      if !ok {
        db.tables := t;
      }
    }

    /** `resolve_event_source`: false, with nothing changed, when the request is refused or recomputation raises. */
    method ResolveEventSource(s: nat, e: nat) returns (ok: bool)
      requires Sound(lex, db.tables)
      modifies db
      ensures Refs(old(db.tables)) && (ok <==> IdentityResolved(lex, old(db.tables), s, e).Some?)
      ensures db.tables == if ok then IdentityResolved(lex, old(db.tables), s, e).value else old(db.tables)
    {
      var t := db.tables;
      SoundRefs(lex, t);
      if !IdentityRequestOk(t, s, e) {
        return false;
      }
      BindSound(lex, t, s, e);
      IdentityRecordedSound(lex, Bind(t, s, e), s, e);
      IdentityRefs(t, s, e);
      hide Sound, Refs, Recomputed;
      BindSource(s, e);
      db.RetireManualIdentities(s);
      db.InsertManualIdentity(s, e);
      assert db.tables == IdentityRecorded(Bind(t, s, e), s, e);
      ok := RecomputeEvent(e);
      if !ok {
        db.tables := t;
      }
    }
  }
}
