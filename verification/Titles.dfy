/** Automatic identity keeps titles together: all title claims bound to one event share one normalised
    title identity (events/reconciliation.py:967-1094, events/_matching.py:29-60). */
module Titles {
  import opened Basics
  import opened Matching
  import opened Grouping
  import opened EventTables
  import opened Recompute
  import opened RecomputeSound
  import opened Reconcile
  import opened ReconcileSound

  predicate IsTitleClaim(t: Tables, c: nat)
    requires c < |t.claims|
  {
    t.claims[c].origin.FromSource? && t.claims[c].field.Title? && t.claims[c].event.Some?
  }

  function TitleOf(lex: Lexicon, t: Tables, c: nat): string
    requires c < |t.claims|
  {
    TitleIdentity(lex, t.claims[c].value).0
  }

  ghost predicate TitlesShared(lex: Lexicon, t: Tables) {
    forall c, d | 0 <= c < |t.claims| && 0 <= d < |t.claims| && IsTitleClaim(t, c) && IsTitleClaim(t, d) ::
      t.claims[c].event == t.claims[d].event ==> TitleOf(lex, t, c) == TitleOf(lex, t, d)
  }

  lemma {:induction false} FieldValueFound(fields: seq<FieldData>, i: nat)
    requires i < |fields| && forall j, k :: 0 <= j < k < |fields| ==> fields[j].name != fields[k].name
    ensures FieldValue(fields, fields[i].name) == Some(fields[i].value)
    decreases i
  {
    if i > 0 {
      FieldValueFound(fields[1..], i - 1);
    }
  }

  /** A source has one title: the one it is matched by. */
  lemma ClaimTitleIsCandidateTitle(lex: Lexicon, t: Tables, c: nat)
    requires Sound(lex, t) && c < |t.claims| && t.claims[c].origin.FromSource? && t.claims[c].field.Title?
    ensures Refs(t) && t.claims[c].origin.source < |t.sources|
    ensures TitleOf(lex, t, c) == CandidateTitle(lex, t, t.claims[c].origin.source).0
  {
    var s := t.claims[c].origin.source;
    assert ClaimOk(t, c);
    var fields := CandidateOf(t, s).fields;
    assert CandidateOk(CandidateOf(t, s));
    var i :| 0 <= i < |fields| && fields[i] == FieldData(Title, t.claims[c].value, t.claims[c].precision);
    FieldValueFound(fields, i);
    hide Sound, Refs;
  }

  /** A matched event has one title already, which an active claim of the event shares. */
  lemma MatchedTitle(lex: Lexicon, t: Tables, s: nat, e: nat, c: nat)
    requires Refs(t) && TitlesShared(lex, t) && s < |t.sources| && TitleMatch(lex, t, s, e)
    requires c < |t.claims| && IsTitleClaim(t, c) && t.claims[c].event == Some(e)
    ensures TitleOf(lex, t, c) == CandidateTitle(lex, t, s).0
  {
    hide ActiveClaim, TitleIdentity, CandidateTitle, Refs;
    var d :| 0 <= d < |t.claims| && IsActiveSourceClaim(t, e, d) && t.claims[d].field.Title? &&
             TitleIdentity(lex, t.claims[d].value).0 == CandidateTitle(lex, t, s).0;
    assert IsTitleClaim(t, d);
  }

  /** Binding a source to an event it matches by title, to a new event, or again, keeps titles together. */
  lemma BindTitles(lex: Lexicon, t: Tables, s: nat, e: nat)
    requires Sound(lex, t) && TitlesShared(lex, t) && s < |t.sources| && e < |t.events| && t.sources[s].event.None?
    requires TitleMatch(lex, t, s, e) || forall c :: 0 <= c < |t.claims| ==> t.claims[c].event != Some(e)
    ensures TitlesShared(lex, Bind(t, s, e))
  {
    hide Sound, Refs, TitleMatch, TitleIdentity, CandidateTitle;
    SoundRefs(lex, t);
    var u := Bind(t, s, e);
    forall c | 0 <= c < |t.claims| && t.claims[c].origin == FromSource(s) && t.claims[c].field.Title?
      ensures TitleOf(lex, t, c) == CandidateTitle(lex, t, s).0
    {
      ClaimTitleIsCandidateTitle(lex, t, c);
    }
    forall c | 0 <= c < |t.claims| && IsTitleClaim(t, c) && t.claims[c].event == Some(e)
      ensures TitleOf(lex, t, c) == CandidateTitle(lex, t, s).0
    {
      MatchedTitle(lex, t, s, e, c);
    }
    forall c | 0 <= c < |t.claims|
      ensures IsTitleClaim(u, c) && u.claims[c].event == Some(e) ==> TitleOf(lex, u, c) == CandidateTitle(lex, t, s).0
      ensures IsTitleClaim(u, c) && u.claims[c].event != Some(e) ==> IsTitleClaim(t, c) && u.claims[c] == t.claims[c]
    {
    }
  }

  lemma TitlesByClaims(lex: Lexicon, t: Tables, u: Tables)
    requires TitlesShared(lex, t) && u.claims == t.claims
    ensures TitlesShared(lex, u)
  {
    forall c | 0 <= c < |t.claims| ensures IsTitleClaim(u, c) == IsTitleClaim(t, c) {}
    hide TitleIdentity;
  }

  lemma FoundTitles(lex: Lexicon, t: Tables, s: nat, confidence: real)
    requires Sound(lex, t) && TitlesShared(lex, t) && s < |t.sources| && t.sources[s].event.None?
    ensures TitlesShared(lex, Bind(CreateEvent(t, t.sources[s].course, confidence), s, |t.events|))
  {
    var founded := CreateEvent(t, t.sources[s].course, confidence);
    CreateEventSound(lex, t, t.sources[s].course, confidence);
    TitlesByClaims(lex, t, founded);
    forall c | 0 <= c < |founded.claims| ensures founded.claims[c].event != Some(|t.events|) {
      assert ClaimRefs(t);
    }
    hide Sound, Refs, TitlesShared;
    BindTitles(lex, founded, s, |t.events|);
  }

  lemma TreatedTitles(lex: Lexicon, t: Tables, ctx: Context, run: nat, s: nat, defer: bool)
    requires Sound(lex, t) && TitlesShared(lex, t) && s < |t.sources| && t.manualIdentities == []
    ensures Refs(t) && TitlesShared(lex, Treated(t, run, s, TreatmentOf(lex, t, ctx, s, defer)))
  {
    SoundRefs(lex, t);
    TreatmentFacts(lex, t, ctx, s, defer);
    hide Sound, TreatmentOf, Refs, TitlesShared, TitleMatch, NumberConflict, ExactType, GenericCompatible, Bind,
      CreateEvent;
    var treatment := TreatmentOf(lex, t, ctx, s, defer);
    var u := Treated(t, run, s, treatment);
    match treatment
    case Assign(e, verdict) =>
      BindTitles(lex, t, s, e);
      TitlesByClaims(lex, Bind(t, s, e), u);
    case Found =>
      var founded := CreateEvent(t, t.sources[s].course, CandidateOf(t, s).confidence);
      FoundTitles(lex, t, s, CandidateOf(t, s).confidence);
      TitlesByClaims(lex, Bind(founded, s, |t.events|), u);
    case _ => TitlesByClaims(lex, t, u);
  }

  lemma EnsureTitles(lex: Lexicon, t: Tables, k: nat, now: int)
    requires TitlesShared(lex, t) && k < |t.candidates|
    ensures TitlesShared(lex, EnsureSource(lex, t, k, now))
  {
    var u := EnsureSource(lex, t, k, now);
    forall c | 0 <= c < |u.claims| && IsTitleClaim(u, c) ensures c < |t.claims| && u.claims[c] == t.claims[c] {}
    hide EnsureSource, TitleIdentity;
  }

  /** With shared titles the title of an event is never contested. */
  lemma TitleNeverContested(lex: Lexicon, t: Tables, e: nat)
    requires Sound(lex, t) && TitlesShared(lex, t)
    ensures Refs(t) && !OutcomeOf(lex, t, e, Title).Contested?
  {
    SoundParts(lex, t);
    FieldRowsDistinct(t, e, Title);
    ChoiceIsInForce(t, e, Title, |t.manualFields|);
    var R := FieldRows(t, e, Title);
    if ManualChoice(t, e, Title).None? {
      forall c | c in FieldClaims(t, e, Title) ensures IsTitleClaim(t, c) {
        if t.claims[c].origin.LocalDecision? {
          NoLocalWithoutDecision(t, e, Title, c);
        }
      }
      forall r | r in R
        ensures IsTitleClaim(t, r.key) && t.claims[r.key].event == Some(e) && r.value == t.claims[r.key].value {}
      forall r, s | r in R && s in R ensures ClassOf(lex, Title, R, r) == ClassOf(lex, Title, R, s) {
        assert TitleOf(lex, t, r.key) == TitleOf(lex, t, s.key);
      }
    }
    hide Sound, Refs, RowOf, FieldRows, IsSuccessor, IsBest, SpecificHeads, ClassOf, TitlesShared;
  }

  lemma NoLocalWithoutDecision(t: Tables, e: nat, f: Field, c: nat)
    requires Refs(t) && ManualFieldsOk(t) && c in FieldClaims(t, e, f) && t.claims[c].origin.LocalDecision?
    ensures exists m :: 0 <= m < |t.manualFields| && InForce(t, e, f, m)
  {
    var m :| 0 <= m < |t.manualFields| && t.manualFields[m].active && t.manualFields[m].local &&
      t.manualFields[m].claim == c;
    assert ManualFieldOk(t, m);
    assert InForce(t, e, f, m);
  }
}
