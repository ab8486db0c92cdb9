/** How agreeing claims are told apart and which one an event shows, said of their values, precisions, confidences,
    change kinds and times alone (events/reconciliation.py:1236-1327, 1505-1631; events/_matching.py:63-163). */
module Choices {
  import opened Basics
  import opened Matching
  import opened Grouping

  // ----- times

  predicate HasInstant(x: Json) { x.Object? && x.instant.Some? }

  predicate HasDay(x: Json) { x.Object? && x.instant.None? && x.date.Some? }

  predicate HasWeek(x: Json) { x.Object? && x.instant.None? && x.date.None? && x.week.Some? }

  predicate HasTime(x: Json) { HasInstant(x) || HasDay(x) || HasWeek(x) }

  /** The instant lies on the day: its first ten characters are the date. */
  predicate LiesOn(at: string, day: string) {
    if |at| < 10 then at == day else at[..10] == day
  }

  /** Both values give the same instant, the same day or the same week. */
  predicate SameMoment(x: Json, y: Json) {
    || (HasInstant(x) && HasInstant(y) && x.instant == y.instant)
    || (HasDay(x) && HasDay(y) && x.date == y.date)
    || (HasWeek(x) && HasWeek(y) && x.week == y.week)
  }

  predicate InstantOnDay(x: Json, y: Json) {
    HasInstant(x) && HasDay(y) && LiesOn(x.instant.value, y.date.value)
  }

  /** Two times agree if they are the same, or one is an instant of the day the other gives. */
  lemma AgreementMeans(x: Json, y: Json)
    ensures TemporalAgrees(x, y) <==> SameMoment(x, y) || InstantOnDay(x, y) || InstantOnDay(y, x)
  {
  }

  // ----- agreeing rows

  /** No other instant among the rows lies on the day. */
  ghost predicate OnlyInstant(R: set<Row>, at: string, day: string) {
    LiesOn(at, day) && forall r :: r in R && HasInstant(r.value) && LiesOn(r.value.instant.value, day) ==>
      r.value.instant.value == at
  }

  ghost predicate SameWhen(R: set<Row>, x: Json, y: Json) {
    || SameMoment(x, y)
    || (!HasTime(x) && !HasTime(y))
    || (HasInstant(x) && HasDay(y) && OnlyInstant(R, x.instant.value, y.date.value))
    || (HasInstant(y) && HasDay(x) && OnlyInstant(R, y.instant.value, x.date.value))
  }

  /** The same title identity, the same text but for its case, or the same value. */
  predicate SameContent(lex: Lexicon, f: Field, x: Json, y: Json) {
    if f.Title? then TitleIdentity(lex, x).0 == TitleIdentity(lex, y).0
    else if x.Text? && y.Text? then lex.fold(x.text) == lex.fold(y.text)
    else x == y
  }

  /** Two rows agree among the rows. */
  ghost predicate Agree(lex: Lexicon, f: Field, R: set<Row>, a: Row, b: Row) {
    match f
    case StartTime | EndTime | DueTime => SameWhen(R, a.value, b.value)
    case _ => SameContent(lex, f, a.value, b.value)
  }

  lemma InstantsMean(R: set<Row>, day: string, x: Row)
    requires x in R && HasInstant(x.value)
    ensures InstantsOn(R, day) == {x.value.instant.value} <==> OnlyInstant(R, x.value.instant.value, day)
  {
    var at := x.value.instant.value;
    forall r | r in R ensures r.value.Object? && r.value.instant.Some? && DayOf(r.value.instant.value) == day ==>
                                r.value.instant.value in InstantsOn(R, day) {
      assert SignatureOf(r).Some? && SignatureOf(r).value.Instant? && DayOf(SignatureOf(r).value.at) == day ==>
          SignatureOf(r).value.at in InstantsOn(R, day);
    }
    if OnlyInstant(R, at, day) {
      assert at in InstantsOn(R, day);
      forall b | b in InstantsOn(R, day) ensures b == at {
        var r :| r in R && SignatureOf(r).Some? && SignatureOf(r).value.Instant? &&
                 DayOf(SignatureOf(r).value.at) == day && SignatureOf(r).value.at == b;
        assert HasInstant(r.value) && LiesOn(r.value.instant.value, day);
      }
    }
    if InstantsOn(R, day) == {at} {
      assert at in InstantsOn(R, day);
      forall r | r in R && HasInstant(r.value) && LiesOn(r.value.instant.value, day)
        ensures r.value.instant.value == at
      {
        assert r.value.instant.value in InstantsOn(R, day);
      }
    }
  }

  /** The signature a day folds to is that of an instant exactly if this is its only one. */
  lemma FoldMeans(R: set<Row>, a: Row, b: Row)
    requires a in R && b in R && HasInstant(a.value) && HasDay(b.value)
    ensures Fold(R, SignatureOf(b)) == SignatureOf(a) <==> OnlyInstant(R, a.value.instant.value, b.value.date.value)
  {
    var at, day := a.value.instant.value, b.value.date.value;
    assert SignatureOf(b) == Some(Day(day)) && SignatureOf(a) == Some(Instant(at));
    InstantsMean(R, day, a);
    hide InstantsOn, OnlyInstant;
    if Fold(R, SignatureOf(b)) == SignatureOf(a) {
      var i :| InstantsOn(R, day) == {i} && Fold(R, SignatureOf(b)) == Some(Instant(i));
    }
    if InstantsOn(R, day) == {at} {
      var i :| InstantsOn(R, day) == {i} && Fold(R, SignatureOf(b)) == Some(Instant(i));
      assert i in {at};
    }
  }

  /** Days fold together exactly if they are the same day. */
  lemma DaysFold(R: set<Row>, a: Row, b: Row)
    requires a in R && b in R && HasDay(a.value) && HasDay(b.value)
    ensures Fold(R, SignatureOf(a)) == Fold(R, SignatureOf(b)) <==> a.value.date == b.value.date
  {
    var d, e := a.value.date.value, b.value.date.value;
    assert SignatureOf(a) == Some(Day(d)) && SignatureOf(b) == Some(Day(e));
    if Fold(R, SignatureOf(a)) == Fold(R, SignatureOf(b)) && Fold(R, SignatureOf(a)).value.Instant? {
      FoldedInstant(R, d);
      FoldedInstant(R, e);
    }
  }

  lemma FoldedInstant(R: set<Row>, day: string)
    ensures var s := Fold(R, Some(Day(day)));
            s.Some? && (s.value.Instant? ==> DayOf(s.value.at) == day) && (!s.value.Instant? ==> s == Some(Day(day)))
  {
    hide SignatureOf;
    var s := Fold(R, Some(Day(day)));
    if s.value.Instant? {
      var i :| InstantsOn(R, day) == {i} && s == Some(Instant(i));
      assert i in InstantsOn(R, day);
    }
  }

  lemma TimeClasses(R: set<Row>, a: Row, b: Row)
    requires a in R && b in R
    ensures Fold(R, SignatureOf(a)) == Fold(R, SignatureOf(b)) <==> SameWhen(R, a.value, b.value)
  {
    FoldKinds(R, a);
    FoldKinds(R, b);
    hide Fold, OnlyInstant;
    if HasInstant(a.value) && HasDay(b.value) {
      FoldMeans(R, a, b);
    } else if HasDay(a.value) && HasInstant(b.value) {
      FoldMeans(R, b, a);
    } else if HasDay(a.value) && HasDay(b.value) {
      DaysFold(R, a, b);
    }
  }

  lemma FoldKinds(R: set<Row>, a: Row)
    ensures !HasDay(a.value) ==> Fold(R, SignatureOf(a)) == SignatureOf(a)
    ensures HasDay(a.value) ==> var s := Fold(R, SignatureOf(a)); s.Some? && !s.value.Week?
    ensures HasInstant(a.value) <==> SignatureOf(a).Some? && SignatureOf(a).value.Instant?
    ensures HasWeek(a.value) <==> SignatureOf(a).Some? && SignatureOf(a).value.Week?
    ensures !HasTime(a.value) <==> SignatureOf(a).None?
  {
    if HasDay(a.value) {
      FoldedInstant(R, a.value.date.value);
    }
  }

  /** Rows are in one class exactly if they agree. */
  lemma ClassMeans(lex: Lexicon, f: Field, R: set<Row>, a: Row, b: Row)
    requires a in R && b in R
    ensures ClassOf(lex, f, R, a) == ClassOf(lex, f, R, b) <==> Agree(lex, f, R, a, b)
  {
    hide Fold, SameWhen, TitleIdentity, SignatureOf;
    TimeClasses(R, a, b);
  }

  // ----- preference

  /** A finer precision: an exact time before a date, a date before a week, any of them before none. */
  predicate Finer(p: Option<Precision>, q: Option<Precision>) {
    match q
    case Some(ExactTime) => false
    case Some(DateOnly) => p == Some(ExactTime)
    case Some(WeekOnly) => p == Some(ExactTime) || p == Some(DateOnly)
    case _ => p == Some(ExactTime) || p == Some(DateOnly) || p == Some(WeekOnly)
  }

  /** Finer, else surer, else earlier recorded. */
  predicate Better(a: Row, b: Row) {
    || Finer(a.precision, b.precision)
    || (!Finer(b.precision, a.precision) &&
      (a.confidence > b.confidence || (a.confidence == b.confidence && a.key < b.key)))
  }

  /** The source announces a change of this very field, and is dated. */
  predicate Announces(f: Field, r: Row) {
    && r.timestamp.Some?
    && match r.change
       case Some(Move) => f == StartTime || f == EndTime || f == DueTime
       case Some(Cancellation) => f == Status
       case Some(VenueChange) => f == Location
       case _ => false
  }

  lemma PreferenceMeans(a: Row, b: Row)
    ensures Preferred(a, b) <==> Better(a, b)
    ensures PrecisionRank(a.precision) <= PrecisionRank(b.precision) <==> !Finer(a.precision, b.precision)
  {
  }

  lemma ChangeMeans(f: Field, r: Row)
    ensures ExplicitChange(f, r) <==> Announces(f, r)
  {
  }

  // ----- the choice

  ghost predicate BestOf(R: set<Row>, r: Row) {
    r in R && forall s :: s in R && s != r ==> Better(r, s)
  }

  /** The announced change is newer than everything it disagrees with, no coarser in time, and the last of its kind. */
  ghost predicate Overrules(lex: Lexicon, f: Field, R: set<Row>, w: Row) {
    && w in R && Announces(f, w)
    && (exists r :: r in R && !Agree(lex, f, R, r, w))
    && (forall r :: r in R && !Agree(lex, f, R, r, w) ==>
          && r.timestamp.Some? && r.timestamp.value < w.timestamp.value
          && (f == StartTime || f == EndTime || f == DueTime ==> !Finer(r.precision, w.precision)))
    && (forall r :: r in R && r != w && Agree(lex, f, R, r, w) && Announces(f, r) ==>
          w.timestamp.value > r.timestamp.value || (w.timestamp == r.timestamp && Better(w, r)))
  }

  /** The earliest of the rows it agrees with, naming a specific event type. */
  ghost predicate Specific(lex: Lexicon, R: set<Row>, h: Row) {
    h in R && StringOf(h.value) != GENERIC && forall r :: r in R && Agree(lex, EventType, R, r, h) ==> h.key <= r.key
  }

  ghost predicate OnlySpecific(lex: Lexicon, R: set<Row>, h: Row) {
    Specific(lex, R, h) && forall g :: Specific(lex, R, g) ==> g == h
  }

  ghost predicate AllAgree(lex: Lexicon, f: Field, R: set<Row>) {
    forall a, b :: a in R && b in R ==> Agree(lex, f, R, a, b)
  }

  /** What the evidence alone decides: the one specific type, the best of agreeing claims, an announced change that
      overrules the others, or nothing. */
  ghost predicate Decided(lex: Lexicon, f: Field, R: set<Row>, o: Outcome) {
    if R == {} then o.NoClaims?
    else if f.EventType? && exists h :: OnlySpecific(lex, R, h) then
      o.Chosen? && !o.supersede && OnlySpecific(lex, R, o.row)
    else if AllAgree(lex, f, R) then o.Chosen? && !o.supersede && BestOf(R, o.row)
    else if exists w :: Overrules(lex, f, R, w) then o.Chosen? && o.supersede && Overrules(lex, f, R, o.row)
    else o.Contested?
  }

  lemma BestMeans(R: set<Row>, r: Row)
    ensures IsBest(R, r) <==> BestOf(R, r)
  {
    forall s ensures Preferred(r, s) <==> Better(r, s) { PreferenceMeans(r, s); }
    hide Preferred, Better;
  }

  lemma SuccessorMeans(lex: Lexicon, f: Field, R: set<Row>, w: Row)
    ensures IsSuccessor(lex, f, R, w) <==> Overrules(lex, f, R, w)
  {
    hide Preferred, Better, PrecisionRank, Finer, ChangeApplies, ClassOf, Agree;
    ChangeMeans(f, w);
    forall r ensures Preferred(w, r) <==> Better(w, r) { PreferenceMeans(w, r); }
    forall r: Row
      ensures PrecisionRank(r.precision) <= PrecisionRank(w.precision) <==> !Finer(r.precision, w.precision)
    {
      PreferenceMeans(r, w);
    }
    forall r ensures ExplicitChange(f, r) <==> Announces(f, r) { ChangeMeans(f, r); }
    if w in R {
      forall r | r in R ensures ClassOf(lex, f, R, r) == ClassOf(lex, f, R, w) <==> Agree(lex, f, R, r, w) {
        ClassMeans(lex, f, R, r, w);
      }
    }
  }

  lemma SpecificMeans(lex: Lexicon, R: set<Row>, h: Row)
    ensures h in SpecificHeads(lex, R) <==> Specific(lex, R, h)
  {
    if h in R {
      forall r | r in R
        ensures ClassOf(lex, EventType, R, r) == ClassOf(lex, EventType, R, h) <==> Agree(lex, EventType, R, r, h)
      {
        ClassMeans(lex, EventType, R, r, h);
      }
    }
    hide ClassOf, Agree, StringOf;
  }

  lemma OnlySpecificMeans(lex: Lexicon, R: set<Row>, h: Row)
    ensures SpecificHeads(lex, R) == {h} <==> OnlySpecific(lex, R, h)
  {
    forall g ensures g in SpecificHeads(lex, R) <==> Specific(lex, R, g) { SpecificMeans(lex, R, g); }
    hide SpecificHeads, Specific;
    if SpecificHeads(lex, R) == {h} {
      assert h in SpecificHeads(lex, R);
    }
    if OnlySpecific(lex, R, h) {
      forall g | g in SpecificHeads(lex, R) ensures g == h {}
      assert h in SpecificHeads(lex, R);
    }
  }

  lemma OneClassMeans(lex: Lexicon, f: Field, R: set<Row>)
    ensures OneClass(lex, f, R) <==> AllAgree(lex, f, R)
  {
    forall a, b | a in R && b in R ensures ClassOf(lex, f, R, a) == ClassOf(lex, f, R, b) <==> Agree(lex, f, R, a, b) {
      ClassMeans(lex, f, R, a, b);
    }
    hide ClassOf, Agree;
  }

  /** The decision on the rows is this one. */
  lemma DecisionMeans(lex: Lexicon, f: Field, R: set<Row>)
    requires DistinctKeys(R)
    ensures Decided(lex, f, R, Decide(lex, f, R, None))
  {
    hide OneClass, AllAgree, IsSuccessor, Overrules, IsBest, BestOf, SpecificHeads, OnlySpecific, DistinctKeys;
    OneClassMeans(lex, f, R);
    forall w ensures IsSuccessor(lex, f, R, w) <==> Overrules(lex, f, R, w) { SuccessorMeans(lex, f, R, w); }
    forall r ensures IsBest(R, r) <==> BestOf(R, r) { BestMeans(R, r); }
    forall h ensures SpecificHeads(lex, R) == {h} <==> OnlySpecific(lex, R, h) { OnlySpecificMeans(lex, R, h); }
    if R != {} {
      BestExists(R);
    }
  }

  /** And there is no other. */
  lemma DecidedOnce(lex: Lexicon, f: Field, R: set<Row>, o: Outcome)
    requires DistinctKeys(R) && Decided(lex, f, R, o)
    ensures o == Decide(lex, f, R, None)
  {
    DecisionMeans(lex, f, R);
    var d := Decide(lex, f, R, None);
    hide Decide, AllAgree, Overrules, BestOf, DistinctKeys, Specific;
    if d.Chosen? && o.Chosen? {
      if Overrules(lex, f, R, d.row) && Overrules(lex, f, R, o.row) {
        SuccessorMeans(lex, f, R, d.row);
        SuccessorMeans(lex, f, R, o.row);
        SuccessorUnique(lex, f, R, d.row, o.row);
      }
      if BestOf(R, d.row) && BestOf(R, o.row) {
        BestMeans(R, d.row);
        BestMeans(R, o.row);
        BestUnique(R, d.row, o.row);
      }
    }
  }

  /** A claim keeps its standing beside the chosen one exactly if it says the same, at the same precision for times. */
  lemma BesideMeans(lex: Lexicon, f: Field, chosen: Row, r: Row)
    requires WellFormed(f, chosen.value, chosen.precision) && WellFormed(f, r.value, r.precision)
    ensures AcceptedBeside(lex, f, chosen, r) <==>
              || r.key == chosen.key
              || if f == StartTime || f == EndTime || f == DueTime
                 then r.precision == chosen.precision && SameMoment(chosen.value, r.value)
                 else SameContent(lex, f, chosen.value, r.value)
  {
    hide TitleIdentity;
    AgreementMeans(chosen.value, r.value);
  }

  /** Different names of event types stay different. */
  lemma NamesDiffer(a: string, b: string)
    ensures StringOf(Text(a)) == StringOf(Text(b)) <==> a == b
    ensures StringOf(Text(a)) == a
  {
  }
}
