/** Manual decisions (events/_manual.py): validation of a local value, and the two transactional steps. */
module Manual {
  import opened Basics
  import opened Matching
  import opened EventTables
  import opened Recompute
  import opened Reconcile

  // ----- a local temporal value (`_temporal_value`)

  /** A member of the supplied JSON object. */
  datatype Member = Absent | Str(text: string) | Int(number: int) | Bool(flag: bool) | Else(shown: string)

  datatype Supplied = Supplied(
    precision: Member, instant: Member, date: Member, week: Member, sourceText: Member, timezone: Member)

  /** Foreign calls of the validation: trimming, ISO parsing, `str`. */
  datatype Parsers = Parsers(
    strip: string -> string,
    instant: string -> Option<string>,
    date: string -> Option<string>,
    shownInt: int -> string,
    serialized: Supplied -> string)

  function PrecisionNamed(name: string): Option<Precision> {
    if name == "EXACT_TIME" then Some(ExactTime)
    else if name == "DATE_ONLY" then Some(DateOnly)
    else if name == "WEEK_ONLY" then Some(WeekOnly)
    else if name == "UNKNOWN" then Some(UnknownPrecision)
    else None
  }

  function Shown(p: Parsers, m: Member): string {
    match m
    case Str(text) => text
    case Int(number) => p.shownInt(number)
    case Bool(flag) => if flag then "True" else "False"
    case Else(shown) => shown
    case Absent => ""
  }

  /** The precision in force: embedded, requested, or implied by the members present. */
  function EffectivePrecision(p: Parsers, requested: Option<Precision>, v: Supplied): Option<Precision> {
    if !v.precision.Absent? then
      var embedded := PrecisionNamed(Shown(p, v.precision));
      if embedded.None? || (requested.Some? && embedded != requested) then None else embedded
    else if requested.Some? then requested
    else if v.instant.Str? then Some(ExactTime)
    else if v.date.Str? then Some(DateOnly)
    else if v.week.Int? || v.week.Bool? then Some(WeekOnly)
    else None
  }

  predicate Bounded(p: Parsers, text: string, maximum: nat) {
    0 < |p.strip(text)| <= maximum
  }

  /** The zone in force: `Some(None)` is "no zone", `None` an inconsistent or invalid one. */
  function EffectiveZone(p: Parsers, requested: Option<string>, v: Supplied): Option<Option<string>> {
    if !(v.timezone.Absent? || v.timezone.Str?) then None
    else if requested.Some? && v.timezone.Str? && p.strip(requested.value) != p.strip(v.timezone.text) then None
    else if requested.None? && v.timezone.Absent? then Some(None)
    else
      var zone := if requested.Some? then requested.value else v.timezone.text;
      if Bounded(p, zone, 200) then Some(Some(p.strip(zone))) else None
  }

  function TemporalValue(p: Parsers, requested: Option<Precision>, zone: Option<string>, originalText: string,
                         v: Supplied)
    : Option<(Json, Precision)>
  {
    var precision := EffectivePrecision(p, requested, v);
    var text := if v.sourceText.Absent? then Str(originalText) else v.sourceText;
    var effectiveZone := EffectiveZone(p, zone, v);
    if precision.None? || !text.Str? || !Bounded(p, text.text, 4096) || effectiveZone.None? then None
    else
      match precision.value
      case ExactTime =>
        if !v.instant.Str? || effectiveZone.value.None? || p.instant(v.instant.text).None? then None
        else Some((Object(p.instant(v.instant.text), None, None, p.serialized(v)), ExactTime))
      case DateOnly =>
        if effectiveZone.value.Some? || !v.date.Str? || p.date(v.date.text).None? then None
        else Some((Object(None, p.date(v.date.text), None, p.serialized(v)), DateOnly))
      case WeekOnly =>
        if effectiveZone.value.Some? || !v.week.Int? || !(1 <= v.week.number <= 53) then None
        else Some((Object(None, None, Some(v.week.number), p.serialized(v)), WeekOnly))
      case UnknownPrecision => None
  }

  /** Every accepted local time is well formed and has a signature of exactly its precision, so it agrees with
      itself and takes part in grouping. */
  lemma TemporalValueIsExact(p: Parsers, requested: Option<Precision>, zone: Option<string>, originalText: string,
                             v: Supplied, f: Field)
    requires TemporalValue(p, requested, zone, originalText, v).Some?
    ensures var (value, precision) := TemporalValue(p, requested, zone, originalText, v).value;
            && WellFormed(f, value, Some(precision)) && TemporalAgrees(value, value)
            && (requested.Some? ==> precision == requested.value)
            && match precision
               case ExactTime => TemporalSignature(value).value.Instant?
               case DateOnly => TemporalSignature(value).value.Day?
               case WeekOnly => TemporalSignature(value).value.Week? && 1 <= TemporalSignature(value).value.week <= 53
               case UnknownPrecision => false
  {
  }

  /** How a precision is written. */
  function NameOf(precision: Precision): string {
    match precision
    case ExactTime => "EXACT_TIME"
    case DateOnly => "DATE_ONLY"
    case WeekOnly => "WEEK_ONLY"
    case UnknownPrecision => "UNKNOWN"
  }

  /** Whoever says what precision is meant says this one; if nobody does, the first member present implies it. */
  predicate IsMeant(p: Parsers, requested: Option<Precision>, v: Supplied, precision: Precision) {
    && (requested.Some? ==> requested.value == precision)
    && (!v.precision.Absent? ==> Shown(p, v.precision) == NameOf(precision))
    && (requested.None? && v.precision.Absent? ==>
          match precision
          case ExactTime => v.instant.Str?
          case DateOnly => !v.instant.Str? && v.date.Str?
          case WeekOnly => !v.instant.Str? && !v.date.Str? && (v.week.Int? || v.week.Bool?)
          case UnknownPrecision => false)
  }

  /** Request and value name this zone, one of them or both; without a zone, neither names any. */
  predicate IsZoned(p: Parsers, requested: Option<string>, v: Supplied, zone: Option<string>) {
    && (v.timezone.Absent? || v.timezone.Str?)
    && (zone.Some? <==> requested.Some? || v.timezone.Str?)
    && (zone.Some? ==> 1 <= |zone.value| <= 200)
    && (zone.Some? && requested.Some? ==> p.strip(requested.value) == zone.value)
    && (zone.Some? && v.timezone.Str? ==> p.strip(v.timezone.text) == zone.value)
  }

  /** The supplied member of this precision can be read, and this is the value it stands for. */
  predicate IsRead(p: Parsers, v: Supplied, precision: Precision, zone: Option<string>, value: Json) {
    match precision
    case ExactTime =>
      && zone.Some? && v.instant.Str? && p.instant(v.instant.text).Some?
      && value == Object(p.instant(v.instant.text), None, None, p.serialized(v))
    case DateOnly =>
      && zone.None? && v.date.Str? && p.date(v.date.text).Some?
      && value == Object(None, p.date(v.date.text), None, p.serialized(v))
    case WeekOnly =>
      && zone.None? && v.week.Int? && 1 <= v.week.number && v.week.number <= 53
      && value == Object(None, None, Some(v.week.number), p.serialized(v))
    case UnknownPrecision => false
  }

  /** The text of the source, if given, is a text; given or not, something of at most 4096 characters is left of it. */
  predicate IsTold(p: Parsers, originalText: string, v: Supplied) {
    (v.sourceText.Absent? && 1 <= |p.strip(originalText)| <= 4096) ||
    (v.sourceText.Str? && 1 <= |p.strip(v.sourceText.text)| <= 4096)
  }

  /** Exactly which local times are accepted, and as what. */
  lemma TemporalValueAccepts(p: Parsers, requested: Option<Precision>, zone: Option<string>, originalText: string,
                             v: Supplied, value: Json, precision: Precision)
    ensures TemporalValue(p, requested, zone, originalText, v) == Some((value, precision)) <==>
              && IsTold(p, originalText, v) && IsMeant(p, requested, v, precision)
              && exists z :: IsZoned(p, zone, v, z) && IsRead(p, v, precision, z, value)
  {
    PrecisionMeant(p, requested, v);
    ZoneNamed(p, zone, v);
    hide IsMeant, EffectivePrecision, IsZoned, EffectiveZone;
    var effective := EffectiveZone(p, zone, v);
    if TemporalValue(p, requested, zone, originalText, v) == Some((value, precision)) {
      assert IsZoned(p, zone, v, effective.value) && IsRead(p, v, precision, effective.value, value);
    }
  }

  lemma PrecisionMeant(p: Parsers, requested: Option<Precision>, v: Supplied)
    ensures forall precision ::
              EffectivePrecision(p, requested, v) == Some(precision) <==> IsMeant(p, requested, v, precision)
  {
    hide Shown;
  }

  lemma ZoneNamed(p: Parsers, requested: Option<string>, v: Supplied)
    ensures forall zone :: EffectiveZone(p, requested, v) == Some(zone) <==> IsZoned(p, requested, v, zone)
  {
  }

  // ----- `resolve_field`

  datatype Choice = Existing(claim: nat) | Local(value: Json, precision: Option<Precision>, confidence: real)

  predicate LocalOk(f: Field, choice: Choice) {
    choice.Local? ==> WellFormed(f, choice.value, choice.precision) && InUnit(choice.confidence)
  }

  function LocalClaim(e: nat, f: Field, choice: Choice, now: int): Claim
    requires choice.Local?
  {
    Claim(Some(e), LocalDecision, f, choice.value, choice.precision, choice.confidence, now, Undecided)
  }

  predicate FieldRequestOk(t: Tables, e: nat, f: Field, choice: Choice) {
    && f in CANONICAL && e < |t.events| && LocalOk(f, choice)
    && (choice.Existing? ==>
         choice.claim < |t.claims| && t.claims[choice.claim].event == Some(e) && t.claims[choice.claim].field == f)
  }

  function Retired(t: Tables, e: nat, f: Field): seq<ManualField> {
    seq(|t.manualFields|, m requires 0 <= m < |t.manualFields| =>
      t.manualFields[m].(active := t.manualFields[m].active && !InForce(t, e, f, m)))
  }

  /** The decision recorded, before recomputation. */
  function FieldDecided(t: Tables, e: nat, f: Field, choice: Choice, now: int): Tables {
    var chosen := if choice.Existing? then choice.claim else |t.claims|;
    t.(claims := if choice.Local? then t.claims + [LocalClaim(e, f, choice, now)] else t.claims,
       manualFields := Retired(t, e, f) + [ManualField(e, f, chosen, choice.Local?, now, true)])
  }

  lemma FieldDecidedRefs(t: Tables, e: nat, f: Field, choice: Choice, now: int)
    requires Refs(t) && FieldRequestOk(t, e, f, choice)
    ensures Refs(FieldDecided(t, e, f, choice, now))
  {
  }

  /** What the statements that record a decision require and write. */
  lemma DecisionMayBeRecorded(t: Tables, e: nat, f: Field, choice: Choice, now: int)
    requires Refs(t) && FieldRequestOk(t, e, f, choice)
    ensures f in CANONICAL && e < |t.events|
    ensures choice.Local? ==>
      LocalClaim(e, f, choice, now).event == Some(e) && LocalClaim(e, f, choice, now).origin.LocalDecision?
    ensures var u := if choice.Local? then t.(claims := t.claims + [LocalClaim(e, f, choice, now)]) else t;
            var claim := if choice.Existing? then choice.claim else |t.claims|;
            var v := u.(manualFields := Retired(u, e, f));
            && claim < |v.claims| && v.claims[claim].event == Some(e) && v.claims[claim].field == f
            && (choice.Local? ==> v.claims[claim].origin.LocalDecision?)
            && (forall m :: 0 <= m < |v.manualFields| ==> !InForce(v, e, f, m))
            && FieldDecided(t, e, f, choice, now) ==
                 v.(manualFields := v.manualFields + [ManualField(e, f, claim, choice.Local?, now, true)])
  {
  }

  /** Recording a decision changes no evidence, and no decision for another event. */
  lemma RecordingKeeps(t: Tables, e: nat, f: Field, choice: Choice, now: int)
    requires Refs(t) && FieldRequestOk(t, e, f, choice)
    ensures var d := FieldDecided(t, e, f, choice, now);
            && d.sources == t.sources && d.extractions == t.extractions && d.candidates == t.candidates
            && d.events == t.events && d.projections == t.projections
            && t.claims <= d.claims && (forall c :: |t.claims| <= c < |d.claims| ==> d.claims[c].origin.LocalDecision?)
            && d.manualIdentities == t.manualIdentities && |d.manualFields| == |t.manualFields| + 1
            && (forall m :: 0 <= m < |t.manualFields| ==>
                  d.manualFields[m].claim == t.manualFields[m].claim && t.manualFields[m].claim < |t.claims|)
            && (forall m :: 0 <= m < |t.manualFields| && t.manualFields[m].event != e ==>
                  d.manualFields[m] == t.manualFields[m])
  {
  }

  /** `resolve_field`; no result when the request is refused or recomputation raises (nothing is committed then). */
  ghost function FieldResolved(lex: Lexicon, t: Tables, e: nat, f: Field, choice: Choice, now: int): Option<Tables>
    requires Refs(t)
  {
    if !FieldRequestOk(t, e, f, choice) then None
    else
      FieldDecidedRefs(t, e, f, choice, now);
      Recomputed(lex, FieldDecided(t, e, f, choice, now), e)
  }

  // ----- `resolve_event_source`

  predicate IdentityRequestOk(t: Tables, s: nat, e: nat) {
    && s < |t.sources| && e < |t.events|
    && t.sources[s].course == t.events[e].course
    && (t.sources[s].event.None? || t.sources[s].event == Some(e))
  }

  function IdentityRecorded(t: Tables, s: nat, e: nat): Tables {
    t.(manualIdentities :=
         seq(|t.manualIdentities|, m requires 0 <= m < |t.manualIdentities| =>
           t.manualIdentities[m].(active := t.manualIdentities[m].active && t.manualIdentities[m].source != s)) +
         [ManualIdentity(s, e, true)])
  }

  lemma IdentityRefs(t: Tables, s: nat, e: nat)
    requires Refs(t) && s < |t.sources| && e < |t.events|
    ensures Refs(IdentityRecorded(Bind(t, s, e), s, e))
  {
  }

  /** `resolve_event_source`; no result when the request is refused or recomputation raises. */
  ghost function IdentityResolved(lex: Lexicon, t: Tables, s: nat, e: nat): Option<Tables>
    requires Refs(t)
  {
    if !IdentityRequestOk(t, s, e) then None
    else
      IdentityRefs(t, s, e);
      Recomputed(lex, IdentityRecorded(Bind(t, s, e), s, e), e)
  }
}
