/** Pure comparisons of claim values (events/_matching.py).

    Regular expressions and Unicode case folding are the business of a `Lexicon`, whose
    functions are arbitrary: every statement of the model holds for all of them. */
module Matching {
  import opened Basics

  datatype Field =
    | Title | EventType | StartTime | EndTime | DueTime
    | OpenAt | CloseAt | AvailableFrom | AvailableUntil | PublishedAt
    | Location | Status

  datatype Precision = ExactTime | DateOnly | WeekOnly | UnknownPrecision

  datatype ChangeKind = NoChange | Move | Cancellation | VenueChange

  /** A decoded JSON value; for objects only the temporal members matter, the rest is kept whole. */
  datatype Json =
    | Text(text: string)
    | Object(instant: Option<string>, date: Option<string>, week: Option<int>, rest: string)
    | Other(raw: string)

  datatype Token = Word(text: string) | Digits(text: string, number: nat)

  datatype Lexicon = Lexicon(
    tokens: string -> seq<Token>,
    fold: string -> string,
    classify: string -> ChangeKind)

  datatype Signature = Instant(at: string) | Day(day: string) | Week(week: int)

  datatype Semantic =
    | Identity(title: string)
    | Moment(signature: Option<Signature>)
    | Folded(text: string)
    | Exactly(value: Json)

  /** The fields an event row projects, in the order they are reconciled. */
  const CANONICAL: seq<Field> := [Title, EventType, StartTime, EndTime, DueTime, Location, Status]

  const GENERIC := "generic_course_event"

  const EVENT_WORDS: set<string> :=
    {"assignment", "homework", "quiz", "test", "exam", "presentation", "tutorial", "lab", "lecture", "submission"}

  predicate Temporal(f: Field) {
    f.StartTime? || f.EndTime? || f.DueTime?
  }

  function Decimal(n: nat): string {
    if n < 10 then ["0123456789"[n]] else Decimal(n / 10) + ["0123456789"[n % 10]]
  }

  function Join(tokens: seq<Token>): string {
    if tokens == [] then ""
    else if |tokens| == 1 then tokens[0].text
    else tokens[0].text + " " + Join(tokens[1..])
  }

  function FirstNumber(tokens: seq<Token>): Option<nat> {
    if tokens == [] then None
    else if tokens[0].Digits? then Some(tokens[0].number)
    else FirstNumber(tokens[1..])
  }

  function FirstEventWord(tokens: seq<Token>): Option<string> {
    if tokens == [] then None
    else if tokens[0].text in EVENT_WORDS then Some(tokens[0].text)
    else FirstEventWord(tokens[1..])
  }

  function TitleIdentity(lex: Lexicon, value: Json): (string, Option<nat>) {
    if !value.Text? then ("", None)
    else
      var tokens := lex.tokens(value.text);
      var number, word := FirstNumber(tokens), FirstEventWord(tokens);
      if word.Some? && number.Some? then
        var shown := if word.value == "homework" then "assignment" else word.value;
        (shown + " " + Decimal(number.value), number)
      else (Join(tokens), number)
  }

  function DayOf(instant: string): string {
    if |instant| <= 10 then instant else instant[..10]
  }

  function TemporalSignature(value: Json): Option<Signature> {
    if !value.Object? then None
    else if value.instant.Some? then Some(Instant(value.instant.value))
    else if value.date.Some? then Some(Day(value.date.value))
    else if value.week.Some? then Some(Week(value.week.value))
    else None
  }

  predicate SignaturesAgree(left: Option<Signature>, right: Option<Signature>) {
    if left.None? || right.None? then false
    else if left == right then true
    else if left.value.Instant? && right.value.Day? then DayOf(left.value.at) == right.value.day
    else if left.value.Day? && right.value.Instant? then left.value.day == DayOf(right.value.at)
    else false
  }

  predicate TemporalAgrees(left: Json, right: Json) {
    SignaturesAgree(TemporalSignature(left), TemporalSignature(right))
  }

  function SemanticValue(lex: Lexicon, f: Field, value: Json): Semantic {
    if f.Title? then Identity(TitleIdentity(lex, value).0)
    else if Temporal(f) then Moment(TemporalSignature(value))
    else if value.Text? then Folded(lex.fold(value.text))
    else Exactly(value)
  }

  predicate ChangeApplies(change: ChangeKind, f: Field) {
    match change
    case Move => Temporal(f)
    case Cancellation => f.Status?
    case VenueChange => f.Location?
    case NoChange => false
  }

  function PrecisionRank(p: Option<Precision>): nat {
    match p
    case Some(ExactTime) => 3
    case Some(DateOnly) => 2
    case Some(WeekOnly) => 1
    case _ => 0
  }

  function StringOf(value: Json): string {
    match value
    case Text(t) => t
    case Object(_, _, _, rest) => rest
    case Other(raw) => raw
  }

  /** A temporal claim value carries an instant exactly when its precision is an exact time. */
  predicate WellFormed(f: Field, value: Json, precision: Option<Precision>) {
    Temporal(f) ==> value.Object? && (value.instant.Some? <==> precision == Some(ExactTime))
  }
}
