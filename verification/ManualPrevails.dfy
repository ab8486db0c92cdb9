/** When a manual field decision prevails, and when the program raises instead
    (events/reconciliation.py:1247-1270, 1435-1502; events/_manual.py:192-267). */
module ManualPrevails {
  import opened Basics
  import opened Matching
  import opened Grouping
  import opened EventTables
  import opened Recompute
  import opened RecomputeFacts
  import opened RecomputeSound
  import opened Manual
  import opened ManualSound

  /** The clock does not run backwards: no claim is younger than `now`. */
  ghost predicate ClockOk(t: Tables, now: int) {
    forall c :: 0 <= c < |t.claims| ==> t.claims[c].createdAt <= now
  }

  /** A decision in force whose claim competes decides its field. */
  lemma InForceDecides(lex: Lexicon, t: Tables, e: nat, f: Field, m: nat)
    requires Refs(t) && ManualFieldsOk(t) && m < |t.manualFields| && InForce(t, e, f, m)
    requires t.manualFields[m].claim in FieldClaims(t, e, f)
    ensures t.manualFields[m].claim < |t.claims|
    ensures OutcomeOf(lex, t, e, f) == Chosen(RowOf(t, t.manualFields[m].claim), false)
  {
    var c := t.manualFields[m].claim;
    FieldRowsDistinct(t, e, f);
    ChoiceIsInForce(t, e, f, |t.manualFields|);
    OneInForce(t, e, f, m);
    assert ManualChoice(t, e, f) == Some(c);
    assert RowOf(t, c) in FieldRows(t, e, f);
    hide ManualFieldsOk, IsFieldClaim, RowOf, ChoiceUpTo, OneClass, IsSuccessor, IsBest, SpecificHeads;
  }

  /** The new decision survives expiry exactly if the claim it names is current. */
  lemma NewDecisionSurvives(lex: Lexicon, t: Tables, e: nat, f: Field, choice: Choice, now: int)
    requires Sound(lex, t) && ClockOk(t, now) && FieldRequestOk(t, e, f, choice)
    ensures var d := FieldDecided(t, e, f, choice, now); var m := |t.manualFields|;
            && Refs(d) && |d.manualFields| == m + 1 && d.manualFields[m].claim < |d.claims|
            && (InForce(Expire(lex, d, e), e, f, m) <==> SelectionCurrent(d, m))
  {
    var d := FieldDecided(t, e, f, choice, now);
    FieldDecidedRefs(t, e, f, choice, now);
    var m := |t.manualFields|;
    forall c | 0 <= c < |d.claims| ensures !Displaces(lex, d, m, c) {}
    hide EffectiveSource, ManualCompatible, Sound;
  }

  lemma Settles(lex: Lexicon, t: Tables, e: nat, f: Field, choice: Choice, now: int)
    requires Sound(lex, t) && FieldResolved(lex, t, e, f, choice, now).Some? && f in CANONICAL
    ensures var d := FieldDecided(t, e, f, choice, now); var u := FieldResolved(lex, t, e, f, choice, now).value;
            && Refs(d) && Refs(Expire(lex, d, e)) && ManualFieldsOk(Expire(lex, d, e))
            && Refs(u) && |u.claims| == |d.claims| && FieldSettled(u, e, f)
            && var o := OutcomeOf(lex, Expire(lex, d, e), e, f);
               && ((e, f) in u.projections <==> o.Chosen?)
               && (o.Chosen? ==> u.projections[(e, f)] == Projection(o.row.key, o.row.value))
  {
    var d := FieldDecided(t, e, f, choice, now);
    FieldDecidedSound(lex, t, e, f, choice, now);
    SoundParts(lex, d);
    ExpireRefs(lex, d, e);
    ExpireSound(lex, d, e);
    var x := Expire(lex, d, e);
    SoundParts(lex, x);
    ProjectionSettles(lex, x, e, f);
    RecomputedSettles(lex, d, e);
    ClaimsKept(lex, d, e);
    hide Sound, Refs, ManualFieldsOk, OutcomeOf, FieldSettled, FieldDecided, Settle, Expire, EventRow;
  }

  /** A local value, once the call returns, is what the event shows, and the field has no open conflict. */
  lemma LocalDecisionPrevails(lex: Lexicon, t: Tables, e: nat, f: Field, choice: Choice, now: int)
    requires Sound(lex, t) && ClockOk(t, now) && choice.Local?
    ensures FieldResolved(lex, t, e, f, choice, now).Some? ==>
            var u := FieldResolved(lex, t, e, f, choice, now).value;
            && (e, f) in u.projections && u.projections[(e, f)] == Projection(|t.claims|, choice.value)
            && Refs(u) && Projected(u, e, f)
  {
    if FieldResolved(lex, t, e, f, choice, now).Some? {
      var d, m := FieldDecided(t, e, f, choice, now), |t.manualFields|;
      NewDecisionSurvives(lex, t, e, f, choice, now);
      Settles(lex, t, e, f, choice, now);
      var x := Expire(lex, d, e);
      ChosenClaimCompetes(x, e, f, m);
      InForceDecides(lex, x, e, f, m);
      hide Sound, Refs, ManualFieldsOk, OutcomeOf, FieldClaims, EffectiveSource, FieldOutdated;
    }
  }

  // ----- after expiry, only current evidence competes

  lemma SelectionsExpire(lex: Lexicon, t: Tables, e: nat, s: nat)
    requires Sound(lex, t) && s < |t.sources| && t.sources[s].event == Some(e) && !EffectiveSource(t, s)
    ensures var x := Expire(lex, t, e);
            && Refs(x) && !IdentityChosen(x, s) && !SomeClaimSelected(x, s)
  {
    var x := Expire(lex, t, e);
    ExpireRefs(lex, t, e);
    forall m | 0 <= m < |x.manualFields| && x.claims[x.manualFields[m].claim].origin == FromSource(s)
      ensures !x.manualFields[m].active
    {
      assert ManualFieldOk(t, m) && ClaimOk(t, t.manualFields[m].claim);
    }
    forall m | 0 <= m < |x.manualIdentities| && x.manualIdentities[m].source == s
      ensures !x.manualIdentities[m].active {}
    hide EffectiveSource, WellFormed, IsField;
  }

  /** Once outdated decisions of an event are expired, its active source claims are the effective ones. */
  lemma ExpiredActivity(lex: Lexicon, t: Tables, e: nat, c: nat)
    requires Sound(lex, t) && c < |t.claims| && t.claims[c].event == Some(e) && t.claims[c].origin.FromSource?
    ensures Refs(Expire(lex, t, e))
    ensures ActiveClaim(Expire(lex, t, e), c) <==> EffectiveSource(t, t.claims[c].origin.source)
  {
    var x, s := Expire(lex, t, e), t.claims[c].origin.source;
    ExpireRefs(lex, t, e);
    ExpireEvents(lex, t, e);
    EffectiveKept(t, x, s);
    assert ClaimOk(t, c);
    if !EffectiveSource(t, s) {
      SelectionsExpire(lex, t, e, s);
    }
    hide EffectiveSource, FieldOutdated, Refs, Sound;
  }

  /** Selecting an existing claim prevails exactly if it is a source claim of an effective extraction. */
  lemma ExistingDecisionPrevails(lex: Lexicon, t: Tables, e: nat, f: Field, choice: Choice, now: int)
    requires Sound(lex, t) && ClockOk(t, now) && choice.Existing?
    ensures Refs(t)
    ensures FieldResolved(lex, t, e, f, choice, now).Some? ==>
            && choice.claim < |t.claims|
            && var u := FieldResolved(lex, t, e, f, choice, now).value; var origin := t.claims[choice.claim].origin;
                ((e, f) in u.projections && u.projections[(e, f)].claim == choice.claim <==>
                origin.FromSource? && EffectiveSource(t, origin.source))
  {
    SoundParts(lex, t);
    if FieldResolved(lex, t, e, f, choice, now).Some? {
      var d, m, c := FieldDecided(t, e, f, choice, now), |t.manualFields|, choice.claim;
      SoundParts(lex, t);
      NewDecisionSurvives(lex, t, e, f, choice, now);
      Settles(lex, t, e, f, choice, now);
      FieldDecidedSound(lex, t, e, f, choice, now);
      var x := Expire(lex, d, e);
      ExpireEvents(lex, d, e);
      var origin := t.claims[c].origin;
      OutcomeShape(lex, x, e, f);
      if origin.FromSource? {
        EffectiveKept(t, d, origin.source);
        ExpiredActivity(lex, d, e, c);
        if EffectiveSource(t, origin.source) {
          ChosenClaimCompetes(x, e, f, m);
          InForceDecides(lex, x, e, f, m);
        } else {
          assert c !in FieldClaims(x, e, f);
        }
      } else {
        LocalNotCompeting(lex, t, e, f, choice, now);
      }
      hide Sound, Refs, ManualFieldsOk, OutcomeOf, FieldClaims, EffectiveSource, FieldOutdated, FieldDecided, Expire;
    }
  }

  /** A local claim selected as an existing one does not compete: only its own decision would make it active. */
  lemma LocalNotCompeting(lex: Lexicon, t: Tables, e: nat, f: Field, choice: Choice, now: int)
    requires Sound(lex, t) && choice.Existing? && FieldRequestOk(t, e, f, choice)
    requires t.claims[choice.claim].origin.LocalDecision?
    ensures var x := Expire(lex, FieldDecided(t, e, f, choice, now), e);
            Refs(x) && forall c :: c in FieldClaims(x, e, f) ==> x.claims[c].origin.FromSource?
  {
    var d := FieldDecided(t, e, f, choice, now);
    FieldDecidedSound(lex, t, e, f, choice, now);
    SoundParts(lex, d);
    var x := Expire(lex, d, e);
    ExpireRefs(lex, d, e);
    forall n | 0 <= n < |x.manualFields|
      ensures x.manualFields[n].active && x.manualFields[n].local ==>
                x.claims[x.manualFields[n].claim].event != Some(e) || x.claims[x.manualFields[n].claim].field != f
    {
      assert ManualFieldOk(d, n);
    }
    hide FieldOutdated, EffectiveSource, Sound;
  }

  // ----- when the program raises

  /** Current source evidence for a field of an event. */
  ghost predicate HasCurrentClaim(t: Tables, e: nat, f: Field)
    requires Refs(t)
  {
    exists c :: 0 <= c < |t.claims| && t.claims[c].event == Some(e) && t.claims[c].field == f &&
                t.claims[c].origin.FromSource? && EffectiveSource(t, t.claims[c].origin.source)
  }

  /** A decision that survives expiry and names, as an existing claim, one made for an earlier local decision. */
  ghost predicate Misnamed(lex: Lexicon, t: Tables, e: nat, f: Field)
    requires Refs(t)
  {
    exists m :: 0 <= m < |t.manualFields| && InForce(t, e, f, m) && !FieldOutdated(lex, t, m) &&
                !t.manualFields[m].local && t.claims[t.manualFields[m].claim].origin.LocalDecision?
  }

  lemma MisnamedIsNamed(lex: Lexicon, t: Tables, e: nat, f: Field)
    requires Refs(t)
    ensures Refs(Expire(lex, t, e)) && (Misnamed(lex, t, e, f) <==> NamesLocalClaim(Expire(lex, t, e), e, f))
  {
    ExpireRefs(lex, t, e);
    var x := Expire(lex, t, e);
    forall m | 0 <= m < |t.manualFields|
      ensures InForce(x, e, f, m) <==> InForce(t, e, f, m) && !FieldOutdated(lex, t, m) {}
    hide FieldOutdated, Refs;
  }

  /** Under a misnaming decision the claims that compete are the current source claims. */
  lemma CompetingUnderMisnaming(lex: Lexicon, t: Tables, e: nat, f: Field)
    requires Sound(lex, t) && Misnamed(lex, t, e, f)
    ensures var x := Expire(lex, t, e);
            Refs(x) && (FieldClaims(x, e, f) != {} <==> HasCurrentClaim(t, e, f))
  {
    var x := Expire(lex, t, e);
    ExpireRefs(lex, t, e);
    ExpireEvents(lex, t, e);
    ExpireSound(lex, t, e);
    SoundParts(lex, x);
    MisnamedIsNamed(lex, t, e, f);
    var m :| 0 <= m < |x.manualFields| && InForce(x, e, f, m) && !x.manualFields[m].local &&
             x.claims[x.manualFields[m].claim].origin.LocalDecision?;
    OneInForce(x, e, f, m);
    forall c | 0 <= c < |t.claims| && t.claims[c].event == Some(e) && t.claims[c].field == f
      ensures ActiveClaim(x, c) <==> t.claims[c].origin.FromSource? && EffectiveSource(t, t.claims[c].origin.source)
    {
      if t.claims[c].origin.FromSource? {
        ExpiredActivity(lex, t, e, c);
      } else {
        LocalInactive(x, e, f, m, c);
      }
    }
    hide ActiveClaim, EffectiveSource, Sound, Refs, Expire;
    if HasCurrentClaim(t, e, f) {
      var c :| 0 <= c < |t.claims| && t.claims[c].event == Some(e) && t.claims[c].field == f &&
               t.claims[c].origin.FromSource? && EffectiveSource(t, t.claims[c].origin.source);
      assert c in FieldClaims(x, e, f);
    }
  }

  lemma LocalInactive(x: Tables, e: nat, f: Field, m: nat, c: nat)
    requires Refs(x) && ManualFieldsOk(x) && m < |x.manualFields| && !x.manualFields[m].local
    requires forall n :: 0 <= n < |x.manualFields| && InForce(x, e, f, n) ==> n == m
    requires c < |x.claims| && x.claims[c].event == Some(e) && x.claims[c].field == f &&
      x.claims[c].origin.LocalDecision?
    ensures !ActiveClaim(x, c)
  {
    forall n | 0 <= n < |x.manualFields| ensures x.manualFields[n].active && x.manualFields[n].claim == c ==> n == m {
      assert ManualFieldOk(x, n);
      assert x.manualFields[n].active && x.manualFields[n].claim == c ==> InForce(x, e, f, n);
    }
    hide Refs;
  }

  /** `_recompute_event` raises exactly when a misnaming decision meets current evidence for its field. */
  lemma RaisesExactly(lex: Lexicon, t: Tables, e: nat)
    requires Sound(lex, t) && e < |t.events|
    ensures Refs(t)
    ensures Recomputed(lex, t, e).None? <==>
            exists f :: f in CANONICAL && Misnamed(lex, t, e, f) && HasCurrentClaim(t, e, f)
  {
    SoundRefs(lex, t);
    ExpireRefs(lex, t, e);
    ExpireSound(lex, t, e);
    var x := Expire(lex, t, e);
    SoundParts(lex, x);
    hide Refs, Sound, Misnamed, HasCurrentClaim, NamesLocalClaim, OutcomeOf, FieldClaims, Expire, ManualFieldsOk,
      Settle, WithEventRow;
    forall f
      ensures OutcomeOf(lex, x, e, f).ManualMissing? <==> Misnamed(lex, t, e, f) && HasCurrentClaim(t, e, f)
    {
      MissingExactly(lex, x, e, f);
      MisnamedIsNamed(lex, t, e, f);
      if Misnamed(lex, t, e, f) {
        CompetingUnderMisnaming(lex, t, e, f);
      }
    }
  }

  /** No decision ever recorded names a local claim as an existing one. */
  ghost predicate NamesNoLocal(t: Tables)
    requires Refs(t)
  {
    forall m :: 0 <= m < |t.manualFields| && !t.manualFields[m].local ==>
      t.claims[t.manualFields[m].claim].origin.FromSource?
  }

  /** With that discipline the program never raises. */
  lemma DisciplineNeverRaises(lex: Lexicon, t: Tables, e: nat)
    requires Sound(lex, t) && e < |t.events| && NamesNoLocal(t)
    ensures Refs(t) && Recomputed(lex, t, e).Some?
  {
    RaisesExactly(lex, t, e);
    hide Recomputed, Sound;
  }

  /** `resolve_field` on a disciplined store is refused by recomputation exactly when it selects a local claim
      of a field that current evidence also speaks about. */
  lemma SelectionRaisesExactly(lex: Lexicon, t: Tables, e: nat, f: Field, choice: Choice, now: int)
    requires Sound(lex, t) && ClockOk(t, now) && NamesNoLocal(t) && FieldRequestOk(t, e, f, choice)
    ensures Refs(t)
    ensures FieldResolved(lex, t, e, f, choice, now).None? <==>
            choice.Existing? && t.claims[choice.claim].origin.LocalDecision? && HasCurrentClaim(t, e, f)
  {
    var d, m := FieldDecided(t, e, f, choice, now), |t.manualFields|;
    FieldDecidedSound(lex, t, e, f, choice, now);
    SoundParts(lex, d);
    NewDecisionSurvives(lex, t, e, f, choice, now);
    RaisesExactly(lex, d, e);
    CurrentClaimsKept(t, e, f, choice, now);
    MisnamedAfter(lex, t, e, f, choice, now);
    hide Recomputed, Sound, Refs, HasCurrentClaim, Misnamed, FieldDecided;
  }

  lemma CurrentClaimsKept(t: Tables, e: nat, f: Field, choice: Choice, now: int)
    requires Refs(t) && FieldRequestOk(t, e, f, choice)
    ensures var d := FieldDecided(t, e, f, choice, now);
            Refs(d) && (HasCurrentClaim(d, e, f) <==> HasCurrentClaim(t, e, f))
  {
    hide EffectiveSource, FieldDecided, FieldRequestOk, Refs;
    var d := FieldDecided(t, e, f, choice, now);
    FieldDecidedRefs(t, e, f, choice, now);
    RecordingKeeps(t, e, f, choice, now);
    SourcesInRange(t);
    forall s | 0 <= s < |t.sources| ensures EffectiveSource(d, s) == EffectiveSource(t, s) {
      EffectiveKept(t, d, s);
    }
    if HasCurrentClaim(t, e, f) {
      var c :| 0 <= c < |t.claims| && t.claims[c].event == Some(e) && t.claims[c].field == f &&
               t.claims[c].origin.FromSource? && EffectiveSource(t, t.claims[c].origin.source);
      assert d.claims[c] == t.claims[c];
    }
  }

  lemma SourcesInRange(t: Tables)
    requires Refs(t)
    ensures forall c :: 0 <= c < |t.claims| && t.claims[c].origin.FromSource? ==>
      t.claims[c].origin.source < |t.sources|
  {
  }

  lemma MisnamedAfter(lex: Lexicon, t: Tables, e: nat, f: Field, choice: Choice, now: int)
    requires Sound(lex, t) && ClockOk(t, now) && NamesNoLocal(t) && FieldRequestOk(t, e, f, choice)
    ensures var d := FieldDecided(t, e, f, choice, now);
            && Refs(d)
            && forall g :: Misnamed(lex, d, e, g) <==>
                 g == f && choice.Existing? && t.claims[choice.claim].origin.LocalDecision?
  {
    var d, m := FieldDecided(t, e, f, choice, now), |t.manualFields|;
    FieldDecidedRefs(t, e, f, choice, now);
    forall c | 0 <= c < |d.claims| ensures !Displaces(lex, d, m, c) {}
    assert forall n :: 0 <= n < m ==>
      d.manualFields[n].claim == t.manualFields[n].claim && d.manualFields[n].local == t.manualFields[n].local;
    hide Displaces, EffectiveSource, Sound;
    forall g
      ensures Misnamed(lex, d, e, g) <==> g == f && choice.Existing? && t.claims[choice.claim].origin.LocalDecision?
    {
      if g == f && choice.Existing? && t.claims[choice.claim].origin.LocalDecision? {
        assert InForce(d, e, f, m);
      }
    }
  }
}
