/** Grouping of the competing claims of one event field and the choice between the groups
    (events/reconciliation.py, `_claim_groups`, `_explicit_successor` and the field loop of
    `_recompute_event`).

    The specification works on the *set* of claim rows, so nothing in it can depend on the order in
    which rows arrive; the methods work on lists, as the program does. */
module Grouping {
  import opened Basics
  import opened Matching

  /** The immutable evidence of one claim joined with its source. */
  datatype Row = Row(
    key: nat,
    value: Json,
    precision: Option<Precision>,
    confidence: real,
    change: Option<ChangeKind>,
    timestamp: Option<int>)

  datatype Outcome =
    | NoClaims
    | Chosen(row: Row, supersede: bool)
    | Contested
    | ManualMissing

  ghost predicate DistinctKeys(R: set<Row>) {
    forall r, s :: r in R && s in R && r.key == s.key ==> r == s
  }

  ghost predicate RowsWellFormed(f: Field, R: set<Row>) {
    forall r :: r in R ==> WellFormed(f, r.value, r.precision)
  }

  function SignatureOf(r: Row): Option<Signature> {
    TemporalSignature(r.value)
  }

  // ----- the classes of agreeing claims

  /** The instants among the rows that fall on a day. */
  ghost function InstantsOn(R: set<Row>, day: string): set<string> {
    set r | r in R && SignatureOf(r).Some? && SignatureOf(r).value.Instant? && DayOf(SignatureOf(r).value.at) == day
      :: SignatureOf(r).value.at
  }

  /** A day joins an instant exactly when it is the only instant of that day. */
  ghost function Fold(R: set<Row>, signature: Option<Signature>): Option<Signature> {
    if signature.Some? && signature.value.Day? && exists at :: InstantsOn(R, signature.value.day) == {at}
    then
      var at :| InstantsOn(R, signature.value.day) == {at};
      Some(Instant(at))
    else signature
  }

  ghost function ClassOf(lex: Lexicon, f: Field, R: set<Row>, r: Row): Semantic {
    if Temporal(f) then Moment(Fold(R, SignatureOf(r))) else SemanticValue(lex, f, r.value)
  }

  ghost predicate OneClass(lex: Lexicon, f: Field, R: set<Row>) {
    forall r, s :: r in R && s in R ==> ClassOf(lex, f, R, r) == ClassOf(lex, f, R, s)
  }

  /** The lists `groups` are the classes of the rows, each row once. */
  ghost predicate IsPartition(lex: Lexicon, f: Field, R: set<Row>, groups: seq<seq<Row>>) {
    && (forall i :: 0 <= i < |groups| ==> groups[i] != [] && NoDuplicates(groups[i]))
    && (forall i, r :: 0 <= i < |groups| && r in groups[i] ==> r in R)
    && (forall r :: r in R ==> Placed(groups, r))
    && (forall i, j, r, s :: 0 <= i < |groups| && 0 <= j < |groups| && r in groups[i] && s in groups[j] ==>
          (i == j <==> ClassOf(lex, f, R, r) == ClassOf(lex, f, R, s)))
  }

  ghost predicate Placed(groups: seq<seq<Row>>, r: Row) {
    exists i :: 0 <= i < |groups| && r in groups[i]
  }

  // ----- the choice among the classes

  /** Order of preference inside agreeing claims: precision, confidence, earlier claim. */
  predicate Preferred(a: Row, b: Row) {
    || PrecisionRank(a.precision) > PrecisionRank(b.precision)
    || (PrecisionRank(a.precision) == PrecisionRank(b.precision) &&
        (a.confidence > b.confidence || (a.confidence == b.confidence && a.key < b.key)))
  }

  /** Order of explicit changes: newer source first, then `Preferred`. */
  predicate Above(a: Row, b: Row)
    requires a.timestamp.Some? && b.timestamp.Some?
  {
    || a.timestamp.value > b.timestamp.value
    || (a.timestamp.value == b.timestamp.value && Preferred(a, b))
  }

  predicate ExplicitChange(f: Field, r: Row) {
    r.change.Some? && ChangeApplies(r.change.value, f) && r.timestamp.Some?
  }

  ghost predicate IsBest(R: set<Row>, r: Row) {
    r in R && forall s :: s in R && s != r ==> Preferred(r, s)
  }

  ghost predicate IsSuccessor(lex: Lexicon, f: Field, R: set<Row>, w: Row) {
    && w in R
    && ExplicitChange(f, w)
    && (forall r :: r in R && r != w && ExplicitChange(f, r) && ClassOf(lex, f, R, r) == ClassOf(lex, f, R, w) ==>
          Above(w, r))
    && (exists r :: r in R && ClassOf(lex, f, R, r) != ClassOf(lex, f, R, w))
    && (forall r :: r in R && ClassOf(lex, f, R, r) != ClassOf(lex, f, R, w) ==>
          && r.timestamp.Some? && r.timestamp.value < w.timestamp.value
          && (Temporal(f) ==> PrecisionRank(r.precision) <= PrecisionRank(w.precision)))
  }

  /** The first claim of a class. */
  ghost predicate IsHead(lex: Lexicon, f: Field, R: set<Row>, h: Row) {
    h in R && forall r :: r in R && ClassOf(lex, f, R, r) == ClassOf(lex, f, R, h) ==> h.key <= r.key
  }

  /** First claims of the classes that name a specific event type. */
  ghost function SpecificHeads(lex: Lexicon, R: set<Row>): set<Row> {
    set h | h in R && IsHead(lex, EventType, R, h) && StringOf(h.value) != GENERIC
  }

  ghost function Decide(lex: Lexicon, f: Field, R: set<Row>, manual: Option<nat>): Outcome
    requires DistinctKeys(R)
  {
    if R == {} then NoClaims
    else if manual.Some? then
      if exists r :: r in R && r.key == manual.value
      then var r :| r in R && r.key == manual.value; Chosen(r, false)
      else ManualMissing
    else if f.EventType? && exists h :: SpecificHeads(lex, R) == {h} then
      var h :| SpecificHeads(lex, R) == {h}; Chosen(h, false)
    else if OneClass(lex, f, R) then
      BestExists(R);
      var r :| IsBest(R, r); Chosen(r, false)
    else if exists w :: IsSuccessor(lex, f, R, w) then
      var w :| IsSuccessor(lex, f, R, w); Chosen(w, true)
    else Contested
  }

  /** A claim keeps its standing beside the chosen one. */
  predicate AcceptedBeside(lex: Lexicon, f: Field, chosen: Row, r: Row) {
    || r.key == chosen.key
    || if Temporal(f) then TemporalAgrees(chosen.value, r.value) && r.precision == chosen.precision
       else SemanticValue(lex, f, chosen.value) == SemanticValue(lex, f, r.value)
  }

  // ----- facts about the choice

  lemma {:induction false} BestExists(R: set<Row>)
    requires R != {} && DistinctKeys(R)
    ensures exists r :: IsBest(R, r)
  {
    var x :| x in R;
    var rest := R - {x};
    assert forall s :: s in R && s != x <==> s in rest;
    if rest == {} {
      assert IsBest(R, x);
    } else {
      BestExists(rest);
      var y :| IsBest(rest, y);
      if Preferred(x, y) {
        assert IsBest(R, x);
      } else {
        assert x.key != y.key;
        assert IsBest(R, y);
      }
    }
  }

  lemma BestUnique(R: set<Row>, a: Row, b: Row)
    requires IsBest(R, a) && IsBest(R, b)
    ensures a == b
  {
  }

  /** At most one claim can win against all other classes, whatever the classes are. */
  lemma SuccessorUnique(lex: Lexicon, f: Field, R: set<Row>, v: Row, w: Row)
    requires IsSuccessor(lex, f, R, v) && IsSuccessor(lex, f, R, w)
    ensures v == w
  {
  }

  /** A decision chooses among the rows, and supersedes only on behalf of a successor. */
  lemma DecideShape(lex: Lexicon, f: Field, R: set<Row>, manual: Option<nat>)
    requires DistinctKeys(R)
    ensures var o := Decide(lex, f, R, manual);
            && (o.NoClaims? <==> R == {})
            && (o.Chosen? ==> o.row in R)
            && (o.Chosen? && o.supersede ==> IsSuccessor(lex, f, R, o.row))
  {
    hide OneClass, ClassOf;
    if R != {} {
      BestExists(R);
    }
  }
}
