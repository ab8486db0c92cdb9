/** What ties a source to an event, said of the claims on either side (events/reconciliation.py:967-1094): the claims
    of the source itself, and the claims of other sources that currently speak for the event. */
module Ties {
  import opened Basics
  import opened Matching
  import opened EventTables
  import opened Recompute
  import opened Reconcile
  import opened ReconcileSound
  import opened Titles

  /** A claim the source itself makes. */
  predicate Own(t: Tables, s: nat, a: int) {
    0 <= a < |t.claims| && t.claims[a].origin == FromSource(s)
  }

  /** A claim of an active source, or one selected by hand, that is bound to the event. */
  predicate Speaks(t: Tables, e: nat, b: int)
    requires Refs(t)
  {
    0 <= b < |t.claims| && t.claims[b].event == Some(e) && t.claims[b].origin.FromSource? && ActiveClaim(t, b)
  }

  /** Own claim `a` and claim `b` of the event are about one field. */
  predicate Meet(t: Tables, s: nat, e: nat, a: int, b: int)
    requires Refs(t)
  {
    Own(t, s, a) && Speaks(t, e, b) && t.claims[a].field == t.claims[b].field
  }

  ghost predicate SharesTitle(lex: Lexicon, t: Tables, s: nat, e: nat)
    requires Refs(t)
  {
    exists a, b :: Meet(t, s, e, a, b) && t.claims[a].field.Title? &&
      TitleIdentity(lex, t.claims[a].value).0 == TitleIdentity(lex, t.claims[b].value).0 != ""
  }

  ghost predicate NumbersAgree(lex: Lexicon, t: Tables, s: nat, e: nat)
    requires Refs(t)
  {
    forall a, b :: Meet(t, s, e, a, b) && t.claims[a].field.Title? ==>
      var (own, other) := (TitleIdentity(lex, t.claims[a].value).1, TitleIdentity(lex, t.claims[b].value).1);
      own.Some? && other.Some? ==> own == other
  }

  ghost predicate SameType(t: Tables, s: nat, e: nat)
    requires Refs(t)
  {
    exists a, b :: Meet(t, s, e, a, b) && t.claims[a].field.EventType? &&
      StringOf(t.claims[a].value) == StringOf(t.claims[b].value)
  }

  ghost predicate SomeGeneric(t: Tables, s: nat, e: nat)
    requires Refs(t)
  {
    exists c :: (Own(t, s, c) || Speaks(t, e, c)) && t.claims[c].field.EventType? &&
      StringOf(t.claims[c].value) == GENERIC
  }

  /** Another current source of the event comes from the same object, or shares a word of context. */
  ghost predicate Related(t: Tables, ctx: Context, s: nat, e: nat)
    requires Refs(t) && s < |t.sources|
  {
    exists r :: 0 <= r < |t.sources| && t.sources[r].event == Some(e) && ActiveSource(t, r) &&
      (t.sources[r].objectKey == t.sources[s].objectKey || exists word :: word in ctx(r) && word in ctx(s))
  }

  ghost predicate SameTime(t: Tables, s: nat, e: nat)
    requires Refs(t)
  {
    exists a, b :: Meet(t, s, e, a, b) && Temporal(t.claims[a].field) &&
      TemporalAgrees(t.claims[a].value, t.claims[b].value)
  }

  /** A time of the source that the event also has a time for, none of them agreeing. */
  ghost predicate TimesClash(t: Tables, s: nat, e: nat)
    requires Refs(t)
  {
    exists a, b :: Meet(t, s, e, a, b) && Temporal(t.claims[a].field) &&
      forall c :: Meet(t, s, e, a, c) ==> !TemporalAgrees(t.claims[a].value, t.claims[c].value)
  }

  /** The source might be about the event. */
  ghost predicate Resembles(lex: Lexicon, t: Tables, s: nat, e: nat)
    requires Refs(t)
  {
    SharesTitle(lex, t, s, e) && NumbersAgree(lex, t, s, e) && (SameType(t, s, e) || SomeGeneric(t, s, e))
  }

  /** The source is about the event: a shared title is never enough. */
  ghost predicate Tied(lex: Lexicon, t: Tables, ctx: Context, s: nat, e: nat)
    requires Refs(t) && s < |t.sources|
  {
    && Resembles(lex, t, s, e)
    && (SameTime(t, s, e) || Related(t, ctx, s, e) || t.sources[s].change != NoChange)
    && (SameType(t, s, e) || Related(t, ctx, s, e))
    && (TimesClash(t, s, e) ==> Related(t, ctx, s, e) || t.sources[s].change != NoChange)
  }

  // ----- the claims of a source are the fields of its candidate

  lemma OwnIsField(lex: Lexicon, t: Tables, s: nat, a: int)
    requires Sound(lex, t) && Own(t, s, a)
    ensures Refs(t) && s < |t.sources|
    ensures FieldValue(CandidateOf(t, s).fields, t.claims[a].field) == Some(t.claims[a].value)
    ensures exists i :: FieldAt(CandidateOf(t, s).fields, i, t.claims[a].field, t.claims[a].value)
  {
    assert ClaimOk(t, a);
    var fields := CandidateOf(t, s).fields;
    assert CandidateOk(CandidateOf(t, s));
    var i :| 0 <= i < |fields| && fields[i] == FieldData(t.claims[a].field, t.claims[a].value, t.claims[a].precision);
    FieldValueFound(fields, i);
    assert FieldAt(fields, i, t.claims[a].field, t.claims[a].value);
  }

  predicate FieldAt(fields: seq<FieldData>, i: int, f: Field, value: Json) {
    0 <= i < |fields| && fields[i].name == f && fields[i].value == value
  }

  lemma FieldIsOwn(t: Tables, s: nat, i: nat)
    requires Refs(t) && Claimed(t) && s < |t.sources| && i < |CandidateOf(t, s).fields|
    ensures exists a :: Own(t, s, a) && t.claims[a].field == CandidateOf(t, s).fields[i].name &&
                        t.claims[a].value == CandidateOf(t, s).fields[i].value
  {
    hide Refs;
    assert HasClaim(t, s, CandidateOf(t, s).fields[i]);
    var c :| 0 <= c < |t.claims| && t.claims[c].origin == FromSource(s) &&
             CandidateOf(t, s).fields[i] == FieldData(t.claims[c].field, t.claims[c].value, t.claims[c].precision);
    assert Own(t, s, c);
  }

  lemma {:induction false} FieldValueIs(fields: seq<FieldData>, f: Field)
    ensures FieldValue(fields, f).Some? ==> exists i :: FieldAt(fields, i, f, FieldValue(fields, f).value)
    decreases |fields|
  {
    if fields != [] {
      if fields[0].name == f {
        assert FieldAt(fields, 0, f, fields[0].value);
      } else {
        FieldValueIs(fields[1..], f);
        if FieldValue(fields, f).Some? {
          var i :| FieldAt(fields[1..], i, f, FieldValue(fields, f).value);
          assert FieldAt(fields, i + 1, f, FieldValue(fields, f).value);
        }
      }
    }
  }

  /** The value of a field of the candidate is the value of the source's own claim about it. */
  lemma ValueIsOwn(lex: Lexicon, t: Tables, s: nat, f: Field)
    requires Sound(lex, t) && Refs(t) && Claimed(t) && s < |t.sources|
    ensures var value := FieldValue(CandidateOf(t, s).fields, f);
            && (forall a :: Own(t, s, a) && t.claims[a].field == f ==> value == Some(t.claims[a].value))
            && (value.Some? ==> exists a :: Own(t, s, a) && t.claims[a].field == f && t.claims[a].value == value.value)
  {
    hide Sound, Refs, Claimed;
    var fields := CandidateOf(t, s).fields;
    forall a | Own(t, s, a) && t.claims[a].field == f ensures FieldValue(fields, f) == Some(t.claims[a].value) {
      OwnIsField(lex, t, s, a);
    }
    FieldValueIs(fields, f);
    if FieldValue(fields, f).Some? {
      var i :| FieldAt(fields, i, f, FieldValue(fields, f).value);
      FieldIsOwn(t, s, i);
    }
  }

  // ----- the signals of the program mean just this

  lemma TitlesMean(lex: Lexicon, t: Tables, s: nat, e: nat)
    requires Sound(lex, t) && Refs(t) && Claimed(t) && s < |t.sources|
    ensures TitleMatch(lex, t, s, e) <==> SharesTitle(lex, t, s, e)
    ensures NumberConflict(lex, t, s, e) <==> !NumbersAgree(lex, t, s, e)
  {
    hide Sound, Refs, Claimed, ActiveClaim, TitleIdentity, FieldValue;
    ValueIsOwn(lex, t, s, Title);
    if TitleMatch(lex, t, s, e) {
      var a :| Own(t, s, a) && t.claims[a].field.Title? &&
        TitleIdentity(lex, t.claims[a].value) == CandidateTitle(lex, t, s);
      var b :| 0 <= b < |t.claims| && IsActiveSourceClaim(t, e, b) && t.claims[b].field.Title? &&
               TitleIdentity(lex, t.claims[b].value).0 == CandidateTitle(lex, t, s).0;
      assert Meet(t, s, e, a, b);
    }
    if SharesTitle(lex, t, s, e) {
      var a, b :| Meet(t, s, e, a, b) && t.claims[a].field.Title? &&
                  TitleIdentity(lex, t.claims[a].value).0 == TitleIdentity(lex, t.claims[b].value).0 != "";
      assert IsActiveSourceClaim(t, e, b);
    }
    if NumberConflict(lex, t, s, e) {
      var a :| Own(t, s, a) && t.claims[a].field.Title? &&
        TitleIdentity(lex, t.claims[a].value) == CandidateTitle(lex, t, s);
      var b :| 0 <= b < |t.claims| && IsActiveSourceClaim(t, e, b) && t.claims[b].field.Title? &&
               TitleIdentity(lex, t.claims[b].value).1.Some? &&
               TitleIdentity(lex, t.claims[b].value).1 != CandidateTitle(lex, t, s).1;
      assert Meet(t, s, e, a, b);
    }
    if !NumbersAgree(lex, t, s, e) {
      var a, b :| Meet(t, s, e, a, b) && t.claims[a].field.Title? &&
                  TitleIdentity(lex, t.claims[a].value).1.Some? && TitleIdentity(lex, t.claims[b].value).1.Some? &&
                  TitleIdentity(lex, t.claims[a].value).1 != TitleIdentity(lex, t.claims[b].value).1;
      assert IsActiveSourceClaim(t, e, b);
    }
  }

  lemma TypesMean(lex: Lexicon, t: Tables, s: nat, e: nat)
    requires Sound(lex, t) && Refs(t) && Claimed(t) && s < |t.sources|
    ensures ExactType(t, s, e) <==> SameType(t, s, e)
    ensures GenericCompatible(t, s, e) <==> SomeGeneric(t, s, e)
  {
    hide Sound, Refs, Claimed, ActiveClaim, FieldValue, StringOf;
    ValueIsOwn(lex, t, s, EventType);
    if ExactType(t, s, e) {
      var a :| Own(t, s, a) && t.claims[a].field.EventType? && Some(StringOf(t.claims[a].value)) == CandidateType(t, s);
      var b :| 0 <= b < |t.claims| && IsActiveSourceClaim(t, e, b) && t.claims[b].field.EventType? &&
               StringOf(t.claims[b].value) == CandidateType(t, s).value;
      assert Meet(t, s, e, a, b);
    }
    if SameType(t, s, e) {
      var a, b :| Meet(t, s, e, a, b) && t.claims[a].field.EventType? &&
                  StringOf(t.claims[a].value) == StringOf(t.claims[b].value);
      assert IsActiveSourceClaim(t, e, b);
    }
    if GenericCompatible(t, s, e) {
      if HasType(t, e, GENERIC) {
        var b :| 0 <= b < |t.claims| && IsActiveSourceClaim(t, e, b) && t.claims[b].field.EventType? &&
                 StringOf(t.claims[b].value) == GENERIC;
        assert Speaks(t, e, b);
      }
    }
    if SomeGeneric(t, s, e) {
      var c :| (Own(t, s, c) || Speaks(t, e, c)) && t.claims[c].field.EventType? &&
        StringOf(t.claims[c].value) == GENERIC;
      assert Speaks(t, e, c) ==> IsActiveSourceClaim(t, e, c);
    }
  }

  lemma RelatedMeans(t: Tables, ctx: Context, s: nat, e: nat)
    requires Refs(t) && s < |t.sources|
    ensures Relational(t, ctx, s, e) <==> Related(t, ctx, s, e)
  {
    hide Refs, ActiveSource;
    if Relational(t, ctx, s, e) {
      var r :| 0 <= r < |t.sources| && t.sources[r].event == Some(e) && ActiveSource(t, r) &&
               (t.sources[r].objectKey == t.sources[s].objectKey || ctx(r) * ctx(s) != {});
      if ctx(r) * ctx(s) != {} {
        var word :| word in ctx(r) * ctx(s);
        assert word in ctx(r) && word in ctx(s);
      }
    }
    if Related(t, ctx, s, e) {
      var r :| 0 <= r < |t.sources| && t.sources[r].event == Some(e) && ActiveSource(t, r) &&
               (t.sources[r].objectKey == t.sources[s].objectKey || exists word :: word in ctx(r) && word in ctx(s));
      if word :| word in ctx(r) && word in ctx(s) {
        assert word in ctx(r) * ctx(s);
      }
    }
  }

  lemma SameTimeMeans(lex: Lexicon, t: Tables, s: nat, e: nat)
    requires Sound(lex, t) && Refs(t) && Claimed(t) && s < |t.sources|
    ensures MatchingTime(t, s, e) <==> SameTime(t, s, e)
  {
    hide Sound, Refs, Claimed, ActiveClaim, TemporalAgrees, Temporal;
    var fields := CandidateOf(t, s).fields;
    if MatchingTime(t, s, e) {
      var i :| 0 <= i < |fields| && Temporal(fields[i].name) && AgreesAt(t, e, fields[i]);
      FieldIsOwn(t, s, i);
      var a :| Own(t, s, a) && t.claims[a].field == fields[i].name && t.claims[a].value == fields[i].value;
      var b :| 0 <= b < |t.claims| && IsActiveSourceClaim(t, e, b) && t.claims[b].field == fields[i].name &&
               TemporalAgrees(fields[i].value, t.claims[b].value);
      assert Meet(t, s, e, a, b);
    }
    if SameTime(t, s, e) {
      var a, b :| Meet(t, s, e, a, b) && Temporal(t.claims[a].field) &&
                  TemporalAgrees(t.claims[a].value, t.claims[b].value);
      OwnIsField(lex, t, s, a);
      var i :| FieldAt(fields, i, t.claims[a].field, t.claims[a].value);
      assert IsActiveSourceClaim(t, e, b);
      assert AgreesAt(t, e, fields[i]);
    }
  }

  /** One time of the source against the times of the event. */
  lemma ClashAt(t: Tables, s: nat, e: nat, a: int, field: FieldData)
    requires Refs(t) && Own(t, s, a) && t.claims[a].field == field.name && t.claims[a].value == field.value
    ensures ComparableAt(t, e, field) <==> exists b :: Meet(t, s, e, a, b)
    ensures AgreesAt(t, e, field) <==>
              exists c :: Meet(t, s, e, a, c) && TemporalAgrees(t.claims[a].value, t.claims[c].value)
  {
    hide Refs, ActiveClaim, TemporalAgrees;
    forall c: int
      ensures Meet(t, s, e, a, c) <==>
        0 <= c < |t.claims| && IsActiveSourceClaim(t, e, c) && t.claims[c].field == field.name {}
  }

  lemma ClashMeans(lex: Lexicon, t: Tables, s: nat, e: nat)
    requires Sound(lex, t) && Refs(t) && Claimed(t) && s < |t.sources|
    ensures ConflictingTime(t, s, e) <==> TimesClash(t, s, e)
  {
    hide Sound, Refs, Claimed, ActiveClaim, TemporalAgrees, Temporal, AgreesAt, ComparableAt, Meet, Own;
    var fields := CandidateOf(t, s).fields;
    MeetIn(t, s, e);
    if ConflictingTime(t, s, e) {
      var i :| 0 <= i < |fields| && Temporal(fields[i].name) && !AgreesAt(t, e, fields[i]) &&
        ComparableAt(t, e, fields[i]);
      FieldIsOwn(t, s, i);
      var a :| Own(t, s, a) && t.claims[a].field == fields[i].name && t.claims[a].value == fields[i].value;
      ClashAt(t, s, e, a, fields[i]);
    }
    if TimesClash(t, s, e) {
      var a, b :| Meet(t, s, e, a, b) && Temporal(t.claims[a].field) &&
                  forall c :: Meet(t, s, e, a, c) ==> !TemporalAgrees(t.claims[a].value, t.claims[c].value);
      OwnIsField(lex, t, s, a);
      var i :| FieldAt(fields, i, t.claims[a].field, t.claims[a].value);
      ClashAt(t, s, e, a, fields[i]);
    }
  }

  lemma MeetIn(t: Tables, s: nat, e: nat)
    requires Refs(t)
    ensures forall a, b :: Meet(t, s, e, a, b) ==> 0 <= a < |t.claims| && 0 <= b < |t.claims| && Own(t, s, a)
    ensures forall a :: Own(t, s, a) ==> 0 <= a < |t.claims|
  {
    hide Refs, ActiveClaim;
  }

  /** The program finds an event plausible, or merges into it, exactly for these reasons. */
  lemma SignalsMean(lex: Lexicon, t: Tables, ctx: Context, s: nat, e: nat)
    requires Sound(lex, t) && Refs(t) && Claimed(t) && s < |t.sources|
    ensures Plausible(lex, t, s, e) <==> Resembles(lex, t, s, e)
    ensures Merges(lex, t, ctx, s, e) <==> Tied(lex, t, ctx, s, e)
  {
    hide Sound, Refs, Claimed, TitleMatch, SharesTitle, NumberConflict, NumbersAgree, ExactType, SameType,
      GenericCompatible, SomeGeneric, Relational, Related, MatchingTime, SameTime, ConflictingTime, TimesClash;
    TitlesMean(lex, t, s, e);
    TypesMean(lex, t, s, e);
    RelatedMeans(t, ctx, s, e);
    SameTimeMeans(lex, t, s, e);
    ClashMeans(lex, t, s, e);
  }
}
