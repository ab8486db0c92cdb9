/** The claims in the search index over whole histories (index/fts.py:165-236; storage/database.py:94-129;
    storage/migrations/0007_event_reconciliation.sql:436-480). Every step of a history is one transaction: its writes
    mark courses through triggers, and the marked courses are refreshed before the commit. */
module IndexHistories {
  import opened Basics
  import opened Matching
  import opened EventTables
  import opened Recompute
  import opened RecomputeSound
  import opened Reconcile
  import opened ReconcileSound
  import opened RunSound
  import opened Manual
  import opened ManualSound
  import opened Histories
  import opened SearchDocuments
  import opened ClaimDocuments
  import opened Reselection

  // ----- which courses a step marks

  ghost predicate HasEvent(u: Tables, course: nat) {
    exists e :: 0 <= e < |u.events| && u.events[e].course == course
  }

  /** A run that commits updates every event of its course and inserts claims of the course; either sets the mark. */
  ghost predicate RunMarks(t: Tables, u: Tables, course: nat) {
    |u.claims| > |t.claims| || HasEvent(u, course)
  }

  lemma BoundMeansEvent(lex: Lexicon, u: Tables, course: nat, c: nat)
    requires Sound(lex, u) && c < |u.claims| && u.claims[c].origin.FromSource?
    ensures ClaimIn(u, c, course) && u.claims[c].event.Some? ==> HasEvent(u, course)
  {
    assert ClaimOk(u, c) && SourceOk(lex, u, u.claims[c].origin.source);
    if ClaimIn(u, c, course) && u.claims[c].event.Some? {
      assert u.events[u.claims[c].event.value].course == course;
    }
  }

  /** The step commits and leaves a mark on the course. A decision updates the row of its event. */
  ghost predicate MarksCourse(lex: Lexicon, t: Tables, step: Step, course: nat)
    requires Refs(t)
  {
    match step
    case Ingest(_, _) => false
    case ReconcileCourse(c, version, ctx, now) =>
      c == course && !Cached(t, c, version) && Outcome(lex, t, step).Some? &&
        RunMarks(t, Outcome(lex, t, step).value, c)
    case DecideField(e, _, _, _) => Outcome(lex, t, step).Some? && e < |t.events| && t.events[e].course == course
    case DecideIdentity(_, e) => Outcome(lex, t, step).Some? && e < |t.events| && t.events[e].course == course
  }

  /** A run that marks nothing has changed no claim. */
  lemma UnmarkedRunClaims(lex: Lexicon, t: Tables, u: Tables, course: nat, c: nat)
    requires Sound(lex, t) && Passed(lex, t, u, course) && Refs(t) && Refs(u) && RowsConfined(t, u, course)
    requires !RunMarks(t, u, course) && c < |t.claims| && t.claims[c].origin.FromSource?
    ensures u.claims[c] == t.claims[c]
  {
    hide Sound, Refs, HasEvent;
    BoundMeansEvent(lex, u, course, c);
    assert ClaimKept(t.claims[c], u.claims[c]);
  }

  lemma ListedEvent(u: Tables, course: nat)
    ensures EventsUpTo(u, course, |u.events|) != [] ==> HasEvent(u, course)
  {
    var es := EventsUpTo(u, course, |u.events|);
    if es != [] {
      assert es[0] in es;
    }
  }

  lemma NoEventNoRecompute(lex: Lexicon, u: Tables, course: nat)
    requires Refs(u) && !HasEvent(u, course)
    ensures EventsUpTo(u, course, |u.events|) == [] && RecomputeAll(lex, u, []) == Some(u)
  {
    ListedEvent(u, course);
    hide HasEvent, EventsUpTo, Refs;
  }

  lemma UnmarkedRun(lex: Lexicon, t: Tables, course: nat, version: string, ctx: Context, now: int, render: Rendering)
    requires Sound(lex, t)
    ensures Refs(t)
    ensures FreshRun(lex, t, course, version, ctx, now).Some? ==>
              var v := FreshRun(lex, t, course, version, ctx, now).value;
              Refs(v) && (!RunMarks(t, v, course) ==> ClaimDocs(v, render) == ClaimDocs(t, render))
  {
    hide Sound, Refs, Keeps, Assigned, RecomputeAll, Audited, RowsConfined, ActiveClaim, Passed;
    SoundRefs(lex, t);
    AssignedFacts(lex, t, course, version, ctx, now);
    AssignedRows(lex, t, course, version, ctx, now);
    var u := Assigned(lex, t, course, version, ctx, now);
    PassedKeeps(lex, t, u, course);
    var es := EventsUpTo(u, course, |u.events|);
    RecomputeAllSound(lex, u, es);
    RunConfined(lex, t, course, version, ctx, now);
    var v := RecomputeAll(lex, u, es);
    if v.Some? && !RunMarks(t, v.value, course) {
      EventsKept(u, v.value, course);
      SameCounts(t, u, v.value, course);
      NoEventNoRecompute(lex, u, course);
      UnmarkedRunDocs(lex, t, u, course, render);
    }
  }

  lemma EventsKept(u: Tables, v: Tables, course: nat)
    requires Keeps(u, v) && !HasEvent(v, course)
    ensures !HasEvent(u, course)
  {
    CoursesKept(u, v);
    hide Keeps;
  }

  lemma SameCounts(t: Tables, u: Tables, v: Tables, course: nat)
    requires Refs(t) && Refs(u) && RowsConfined(t, u, course) && Keeps(u, v) && |v.claims| <= |t.claims|
    ensures |u.claims| == |t.claims|
  {
    hide Refs;
  }

  lemma UnmarkedRunDocs(lex: Lexicon, t: Tables, u: Tables, course: nat, render: Rendering)
    requires Sound(lex, t) && Passed(lex, t, u, course) && Refs(t) && Refs(u) && RowsConfined(t, u, course)
    requires !RunMarks(t, u, course)
    ensures ClaimDocs(u, render) == ClaimDocs(t, render)
  {
    hide Sound, Refs, ActiveClaim, RunMarks;
    PassedKeeps(lex, t, u, course);
    RunMarksCount(t, u, course);
    forall c | 0 <= c < |t.claims| && t.claims[c].origin.FromSource?
      ensures u.claims[c] == t.claims[c] && (ActiveClaim(u, c) <==> ActiveClaim(t, c))
    {
      UnmarkedRunClaims(lex, t, u, course, c);
      ActivityKept(t, u, c);
    }
    SameDocs(t, u, course, render);
  }

  lemma SameDocs(t: Tables, u: Tables, course: nat, render: Rendering)
    requires Refs(t) && Refs(u) && RowsConfined(t, u, course) && |u.claims| == |t.claims|
    requires forall c :: 0 <= c < |t.claims| && t.claims[c].origin.FromSource? ==>
               u.claims[c] == t.claims[c] && (ActiveClaim(u, c) <==> ActiveClaim(t, c))
    ensures ClaimDocs(u, render) == ClaimDocs(t, render)
  {
    hide ActiveClaim;
    forall d ensures d in ClaimDocs(u, render) <==> d in ClaimDocs(t, render) {
      InClaimDocs(t, render, d);
      InClaimDocs(u, render, d);
    }
  }

  lemma RunMarksCount(t: Tables, u: Tables, course: nat)
    requires Refs(t) && Refs(u) && RowsConfined(t, u, course) && !RunMarks(t, u, course)
    ensures |u.claims| == |t.claims|
  {
    hide Refs;
  }

  /** A step changes claim documents of the courses it marks only; an extraction marks none. */
  lemma SteppedMarks(lex: Lexicon, t: Tables, step: Step, render: Rendering, d: Document)
    requires Committed(lex, t) && !step.Ingest?
    ensures Refs(t) && Refs(Stepped(lex, t, step))
    ensures !MarksCourse(lex, t, step, d.course) ==>
              (d in ClaimDocs(Stepped(lex, t, step), render) <==> d in ClaimDocs(t, render))
  {
    hide Sound, Refs, FreshRun, FieldDecided, Recomputed, Bind, IdentityRecorded, RunMarks, Confined, Cached,
      FieldRequestOk, IdentityRequestOk, ClaimDocs;
    SteppedFacts(lex, t, step);
    SoundRefs(lex, t);
    SoundRefs(lex, Stepped(lex, t, step));
    if !MarksCourse(lex, t, step, d.course) {
      match step
      case ReconcileCourse(c, version, ctx, now) => RunDocs(lex, t, c, version, ctx, now, render, d);
      case DecideField(e, f, choice, at) => FieldDocs(lex, t, e, f, choice, at, render, d);
      case DecideIdentity(s, e) => IdentityDocs(lex, t, s, e, render, d);
    }
  }

  lemma RunDocs(lex: Lexicon, t: Tables, course: nat, version: string, ctx: Context, now: int, render: Rendering,
                d: Document)
    requires Sound(lex, t)
    ensures Refs(t)
    ensures FreshRun(lex, t, course, version, ctx, now).Some? ==>
              var v := FreshRun(lex, t, course, version, ctx, now).value;
              Refs(v) && (d.course != course || !RunMarks(t, v, course) ==>
                (d in ClaimDocs(v, render) <==> d in ClaimDocs(t, render)))
  {
    hide Sound, Refs, FreshRun, RunMarks, Confined, ClaimDocs;
    UnmarkedRun(lex, t, course, version, ctx, now, render);
    RunConfined(lex, t, course, version, ctx, now);
    var v := FreshRun(lex, t, course, version, ctx, now);
    if v.Some? && d.course != course {
      ConfinedDocs(t, v.value, course, render, d);
    }
  }

  lemma FieldDocs(lex: Lexicon, t: Tables, e: nat, f: Field, choice: Choice, at: int, render: Rendering, d: Document)
    requires Sound(lex, t)
    ensures Refs(t)
    ensures FieldResolved(lex, t, e, f, choice, at).Some? ==>
              var v := FieldResolved(lex, t, e, f, choice, at).value;
              && Refs(v) && e < |t.events|
              && (d.course != t.events[e].course ==> (d in ClaimDocs(v, render) <==> d in ClaimDocs(t, render)))
  {
    hide Sound, Refs, Recomputed, Confined, ClaimDocs;
    SoundRefs(lex, t);
    if FieldResolved(lex, t, e, f, choice, at).Some? {
      var b := FieldDecided(t, e, f, choice, at);
      DecidedConfined(lex, t, e, f, choice, at);
      FieldDecidedSound(lex, t, e, f, choice, at);
      RecomputedConfined(lex, b, e);
      ConfinedTransitive(t, b, Recomputed(lex, b, e).value, t.events[e].course);
      if d.course != t.events[e].course {
        ConfinedDocs(t, Recomputed(lex, b, e).value, t.events[e].course, render, d);
      }
    }
  }

  lemma IdentityDocs(lex: Lexicon, t: Tables, s: nat, e: nat, render: Rendering, d: Document)
    requires Sound(lex, t)
    ensures Refs(t)
    ensures IdentityResolved(lex, t, s, e).Some? ==>
              var v := IdentityResolved(lex, t, s, e).value;
              && Refs(v) && e < |t.events|
              && (d.course != t.events[e].course ==> (d in ClaimDocs(v, render) <==> d in ClaimDocs(t, render)))
  {
    hide Sound, Refs, Recomputed, Confined, ClaimDocs;
    SoundRefs(lex, t);
    if IdentityResolved(lex, t, s, e).Some? {
      var b := IdentityRecorded(Bind(t, s, e), s, e);
      IdentityConfined(lex, t, s, e);
      BindSound(lex, t, s, e);
      IdentityRecordedSound(lex, Bind(t, s, e), s, e);
      RecomputedConfined(lex, b, e);
      ConfinedTransitive(t, b, Recomputed(lex, b, e).value, t.events[e].course);
      if d.course != t.events[e].course {
        ConfinedDocs(t, Recomputed(lex, b, e).value, t.events[e].course, render, d);
      }
    }
  }

  // ----- the index along a history

  /** The writes of a step to the claim documents. */
  ghost function Writes(lex: Lexicon, t: Tables, step: Step, render: Rendering): seq<Write>
    requires Committed(lex, t)
  {
    SteppedFacts(lex, t, step);
    SoundRefs(lex, Stepped(lex, t, step));
    var docs := ClaimDocs(Stepped(lex, t, step), render);
    if step.Ingest? then [Unmarked(ClaimDocs(t, render) - docs, {})]
    else if exists course :: MarksCourse(lex, t, step, course) then
      var course :| MarksCourse(lex, t, step, course);
      [WriteCourse(course, In(docs, course))]
    else []
  }

  const CREATED := State({}, map[], {}, {}, {}, 0, 0)

  /** Rows, index and marks after a history, each step refreshed before its commit. */
  ghost function IndexAfter(lex: Lexicon, steps: seq<Step>, render: Rendering): State
    decreases |steps|
  {
    if steps == [] then CREATED
    else
      var n := |steps| - 1;
      Refreshed(AfterAll(IndexAfter(lex, steps[..n], render), Writes(lex, After(lex, steps[..n]), steps[n], render)))
  }

  /** Indexed documents belong to source claims, in the course of their source. */
  ghost predicate Placed(t: Tables, docs: set<Document>)
    requires Refs(t)
  {
    forall d :: d in docs ==>
      && d.kind.ClaimDoc? && d.origin == "metadata" && d.entity < |t.claims| && t.claims[d.entity].origin.FromSource?
      && ClaimIn(t, d.entity, d.course)
  }

  /** The index holds every document a rebuild would insert; nothing is marked and the generations agree. */
  ghost predicate Covers(t: Tables, s: State, render: Rendering)
    requires Refs(t)
  {
    && s.rows == ClaimDocs(t, render) && s.owner == map[] && s.rows <= s.docs && Placed(t, s.docs)
    && s.indexed >= 0 && Consistent(s)
  }

  lemma DocsPlaced(t: Tables, render: Rendering)
    requires Refs(t)
    ensures Placed(t, ClaimDocs(t, render)) && RowsOk(ClaimDocs(t, render), map[])
  {
    forall d | d in ClaimDocs(t, render) ensures DocumentOf(t, render, d) {
      InClaimDocs(t, render, d);
    }
    hide ActiveClaim, ClaimDocs;
  }

  lemma PlacedKept(t: Tables, u: Tables, docs: set<Document>)
    requires Refs(t) && Refs(u) && Keeps(t, u) && Placed(t, docs)
    ensures Placed(u, docs)
  {
    forall d | d in docs
      ensures ClaimIn(u, d.entity, d.course) && u.claims[d.entity].origin.FromSource? && d.entity < |u.claims|
    {
      assert ClaimKept(t.claims[d.entity], u.claims[d.entity]);
      var s := t.claims[d.entity].origin.source;
      assert SourceKept(t.sources[s], u.sources[s]);
    }
  }

  /** Documents with one key are of one course. */
  lemma PlacedKeys(t: Tables, a: Document, b: Document)
    requires Refs(t) && Placed(t, {a, b}) && KeyOf(a) == KeyOf(b)
    ensures a.course == b.course
  {
    assert a in {a, b} && b in {a, b};
  }

  /** An extraction: the retired documents stay indexed. */
  lemma IngestCovers(t: Tables, u: Tables, s: State, render: Rendering)
    requires Refs(t) && Refs(u) && Keeps(t, u) && Covers(t, s, render) && ClaimDocs(u, render) <= ClaimDocs(t, render)
    ensures var writes := [Unmarked(ClaimDocs(t, render) - ClaimDocs(u, render), {})];
            var v := Refreshed(AfterAll(s, writes));
            && AllAdmissible(s, writes) && !Refuses(AfterAll(s, writes)) && Covers(u, v, render) && v.docs == s.docs
  {
    hide ClaimDocs, Refs, Keeps;
    var w := Unmarked(ClaimDocs(t, render) - ClaimDocs(u, render), {});
    assert [w][..0] == [] && AfterAll(s, []) == s;
    assert AfterAll(s, [w]) == Written(s, w);
    assert RowsAfter(s, w) == ClaimDocs(u, render);
    DocsPlaced(u, render);
    PlacedKept(t, u, s.docs);
  }

  /** A step that marks a course: its documents become exactly the ones a rebuild would insert. */
  lemma MarkCovers(t: Tables, u: Tables, s: State, render: Rendering, course: nat)
    requires Refs(t) && Refs(u) && Keeps(t, u) && Covers(t, s, render)
    requires forall d: Document :: d.course != course ==> (d in ClaimDocs(u, render) <==> d in ClaimDocs(t, render))
    ensures var writes := [WriteCourse(course, In(ClaimDocs(u, render), course))];
            var v := Refreshed(AfterAll(s, writes));
            && AllAdmissible(s, writes) && !Refuses(AfterAll(s, writes)) && Covers(u, v, render)
            && forall d: Document :: d in v.docs <==>
                 if d.course == course then d in ClaimDocs(u, render) else d in s.docs
  {
    hide ClaimDocs, Refs, Keeps;
    var w := WriteCourse(course, In(ClaimDocs(u, render), course));
    assert [w][..0] == [] && AfterAll(s, []) == s;
    var m := AfterAll(s, [w]);
    assert m == Written(s, w);
    assert RowsAfter(s, w) == ClaimDocs(u, render);
    assert Affected(m) == {course};
    DocsPlaced(u, render);
    PlacedKept(t, u, s.docs);
    forall a, b | a in m.docs && b in m.rows && KeyOf(a) == KeyOf(b) ensures a.course == b.course {
      PlacedKeys(u, a, b);
    }
    assert !Clashes(m);
    ReplacedUnique(m);
    var v := Refreshed(m);
    assert v.docs == Replaced(m, {course});
  }

  lemma QuietCovers(t: Tables, u: Tables, s: State, render: Rendering)
    requires Refs(t) && Refs(u) && Keeps(t, u) && Covers(t, s, render) && ClaimDocs(u, render) == ClaimDocs(t, render)
    ensures AllAdmissible(s, []) && AfterAll(s, []) == s == Refreshed(s) && !Refuses(s) && Covers(u, s, render)
  {
    hide ClaimDocs, Refs, Keeps;
    PlacedKept(t, u, s.docs);
  }

  lemma MarksOne(lex: Lexicon, t: Tables, step: Step, a: nat, b: nat)
    requires Refs(t) && MarksCourse(lex, t, step, a) && MarksCourse(lex, t, step, b)
    ensures a == b
  {
    hide Outcome, RunMarks, Cached, Refs;
  }

  /** A document of the index that a rebuild would not insert. */
  predicate Left(s: State, d: Document) {
    d in s.docs && d !in s.rows
  }

  /** The step removes the document of a claim without a mark. */
  ghost predicate Retires(lex: Lexicon, t: Tables, step: Step, render: Rendering, d: Document)
    requires Committed(lex, t)
  {
    SteppedFacts(lex, t, step);
    SoundRefs(lex, Stepped(lex, t, step));
    step.Ingest? && d in ClaimDocs(t, render) && d !in ClaimDocs(Stepped(lex, t, step), render)
  }

  /** A step never misses a document; what it leaves behind is what it retires, and what was left behind in courses it
      does not mark. */
  lemma StepCovers(lex: Lexicon, t: Tables, step: Step, s: State, render: Rendering)
    requires Committed(lex, t) && Refs(t) && Covers(t, s, render)
    ensures var u, writes := Stepped(lex, t, step), Writes(lex, t, step, render);
            var v := Refreshed(AfterAll(s, writes));
            && Refs(u) && AllAdmissible(s, writes) && !Refuses(AfterAll(s, writes)) && Covers(u, v, render)
            && forall d :: Left(v, d) <==>
                 (Left(s, d) && !MarksCourse(lex, t, step, d.course)) || Retires(lex, t, step, render, d)
  {
    hide Committed, ClaimDocs, Refs, Keeps, Covers, Stepped, MarksCourse, AfterAll, Refreshed, Refuses, AllAdmissible,
      In;
    SteppedFacts(lex, t, step);
    var u := Stepped(lex, t, step);
    CommittedSound(lex, u);
    if step.Ingest? {
      IngestRows(lex, t, step, render);
      IngestCovers(t, u, s, render);
      NoMark(lex, t, step);
      LeftByIngest(t, u, s, Refreshed(AfterAll(s, Writes(lex, t, step, render))), render);
    } else {
      forall d: Document
        ensures !MarksCourse(lex, t, step, d.course) ==> (d in ClaimDocs(u, render) <==> d in ClaimDocs(t, render))
      {
        SteppedMarks(lex, t, step, render, d);
      }
      if exists course :: MarksCourse(lex, t, step, course) {
        var course :| MarksCourse(lex, t, step, course) &&
          Writes(lex, t, step, render) == [WriteCourse(course, In(ClaimDocs(u, render), course))];
        forall other | MarksCourse(lex, t, step, other)
          ensures other == course { MarksOne(lex, t, step, other, course); }
        MarkCovers(t, u, s, render, course);
        LeftByMark(t, u, s, Refreshed(AfterAll(s, Writes(lex, t, step, render))), render, course);
      } else {
        assert ClaimDocs(u, render) == ClaimDocs(t, render);
        QuietCovers(t, u, s, render);
        LeftByIngest(t, u, s, s, render);
      }
    }
  }

  lemma IngestRows(lex: Lexicon, t: Tables, step: Step, render: Rendering)
    requires Committed(lex, t) && step.Ingest?
    ensures Refs(t) && Refs(Stepped(lex, t, step)) && ClaimDocs(Stepped(lex, t, step), render) <= ClaimDocs(t, render)
  {
    hide ClaimDocs, Committed, Refs, Ingested;
    CommittedSound(lex, t);
    IngestRetires(lex, t, step.extraction, step.candidates, render);
  }

  lemma NoMark(lex: Lexicon, t: Tables, step: Step)
    requires Refs(t) && step.Ingest?
    ensures forall course :: !MarksCourse(lex, t, step, course)
  {
  }

  lemma LeftByIngest(t: Tables, u: Tables, s: State, v: State, render: Rendering)
    requires Refs(t) && Refs(u) && Covers(t, s, render) && Covers(u, v, render) && v.docs == s.docs
    requires ClaimDocs(u, render) <= ClaimDocs(t, render)
    ensures forall d :: Left(v, d) <==> Left(s, d) || (d in ClaimDocs(t, render) && d !in ClaimDocs(u, render))
  {
    hide ClaimDocs, Refs;
  }

  lemma LeftByMark(t: Tables, u: Tables, s: State, v: State, render: Rendering, course: nat)
    requires Refs(t) && Refs(u) && Covers(t, s, render) && Covers(u, v, render)
    requires forall d: Document :: d.course != course ==> (d in ClaimDocs(u, render) <==> d in ClaimDocs(t, render))
    requires forall d: Document :: d in v.docs <==>
      if d.course == course then d in ClaimDocs(u, render) else d in s.docs
    ensures forall d :: Left(v, d) <==> Left(s, d) && d.course != course
  {
    hide ClaimDocs, Refs;
  }

  // ----- every history

  ghost predicate MarkedAt(lex: Lexicon, steps: seq<Step>, j: nat, course: nat)
    requires j < |steps|
  {
    SoundRefs(lex, After(lex, steps[..j]));
    MarksCourse(lex, After(lex, steps[..j]), steps[j], course)
  }

  /** Step `i` is an extraction that retires the document, and no later step marks its course. */
  ghost predicate Overdue(lex: Lexicon, steps: seq<Step>, render: Rendering, d: Document, i: nat) {
    && i < |steps| && Retires(lex, After(lex, steps[..i]), steps[i], render, d)
    && forall j :: i < j < |steps| ==> !MarkedAt(lex, steps, j, d.course)
  }

  lemma OverdueStep(lex: Lexicon, steps: seq<Step>, render: Rendering, d: Document)
    requires steps != []
    ensures var n := |steps| - 1;
            (exists i :: Overdue(lex, steps, render, d, i)) <==>
              ((exists i :: Overdue(lex, steps[..n], render, d, i)) && !MarkedAt(lex, steps, n, d.course))
              || Retires(lex, After(lex, steps[..n]), steps[n], render, d)
  {
    hide Retires, After, MarksCourse;
    var n := |steps| - 1;
    var before := steps[..n];
    forall j: nat | j < n
      ensures before[..j] == steps[..j] && MarkedAt(lex, before, j, d.course) == MarkedAt(lex, steps, j, d.course)
    {
      assert before[..j] == steps[..j];
    }
    forall i: nat | i < n
      ensures Overdue(lex, steps, render, d, i) <==>
        Overdue(lex, before, render, d, i) && !MarkedAt(lex, steps, n, d.course)
    {
      assert before[i] == steps[i] && before[..i] == steps[..i];
    }
    if Retires(lex, After(lex, before), steps[n], render, d) {
      assert Overdue(lex, steps, render, d, n);
    }
  }

  lemma CreatedCovers(render: Rendering)
    ensures Refs(EMPTY) && Covers(EMPTY, CREATED, render) && forall d :: !Left(CREATED, d)
  {
  }

  /** After every history the index holds every claim document a rebuild would insert, with equal generations and no
      marks; besides, it holds exactly the documents that an extraction retired and whose course no later step
      marked. */
  lemma {:induction false} HistoryIndex(lex: Lexicon, steps: seq<Step>, render: Rendering)
    ensures var t, s := After(lex, steps), IndexAfter(lex, steps, render);
            && Refs(t) && Covers(t, s, render)
            && forall d :: Left(s, d) <==> exists i :: Overdue(lex, steps, render, d, i)
    decreases |steps|
  {
    hide Covers, Left, Overdue, Committed, Refs, Writes, Refreshed, AfterAll, Stepped, MarkedAt, Retires;
    if steps == [] {
      CreatedCovers(render);
      NothingOverdue(lex, render);
    } else {
      var n := |steps| - 1;
      var before := steps[..n];
      HistoryIndex(lex, before, render);
      StepCovers(lex, After(lex, before), steps[n], IndexAfter(lex, before, render), render);
      forall d ensures Left(IndexAfter(lex, steps, render), d) <==> exists i :: Overdue(lex, steps, render, d, i) {
        OverdueStep(lex, steps, render, d);
        MarkedIs(lex, steps, n, d.course);
      }
    }
  }

  lemma NothingOverdue(lex: Lexicon, render: Rendering)
    ensures forall d, i :: !Overdue(lex, [], render, d, i)
  {
  }

  lemma MarkedIs(lex: Lexicon, steps: seq<Step>, j: nat, course: nat)
    requires j < |steps|
    ensures Refs(After(lex, steps[..j])) &&
      (MarkedAt(lex, steps, j, course) <==> MarksCourse(lex, After(lex, steps[..j]), steps[j], course))
  {
    hide MarksCourse, Refs, Sound;
    SoundRefs(lex, After(lex, steps[..j]));
  }

  /** So the index is what a rebuild would make exactly if every extraction that retires a claim is followed by a step
      that marks the course of the claim: a run that commits while the course has an event, or a decision. */
  lemma HistoryCurrentExactly(lex: Lexicon, steps: seq<Step>, render: Rendering)
    ensures Current(IndexAfter(lex, steps, render)) <==> forall d, i :: !Overdue(lex, steps, render, d, i)
  {
    hide Overdue, IndexAfter, Refs, ClaimDocs;
    HistoryIndex(lex, steps, render);
    var s := IndexAfter(lex, steps, render);
    CoversMeans(After(lex, steps), s, render);
    if Current(s) {
      forall d, i ensures !Overdue(lex, steps, render, d, i) {
        assert !Left(s, d);
      }
    }
  }

  lemma CoversMeans(t: Tables, s: State, render: Rendering)
    requires Refs(t) && Covers(t, s, render)
    ensures s.rows <= s.docs && s.indexed == s.source && s.dirtyCourses == {} && s.dirtyResources == {}
    ensures Current(s) <==> forall d :: !Left(s, d)
  {
    hide ClaimDocs, Refs, Placed;
    if forall d :: !Left(s, d) {
      forall d: Document | d in s.docs ensures d in s.rows {
        assert !Left(s, d);
      }
      assert s.docs == s.rows;
    }
  }

  // ----- a history after which the index is not current

  /** One announcement is extracted and reconciled, and extracted once more with nothing found. */
  function Reextraction(wording: string, version: string, ctx: Context): seq<Step> {
    Correction(wording, version, ctx)[..2] + [Ingest(FIRST, [])]
  }

  lemma FirstClaimRetires(lex: Lexicon, t: Tables, render: Rendering)
    requires Committed(lex, t) && OneEvent(t) && t.manualIdentities == []
    ensures Refs(t) && |t.claims| == 1 && t.claims[0].origin.FromSource?
    ensures Retires(lex, t, Ingest(FIRST, []), render, ClaimDocument(t, render, 0))
  {
    IngestRetires(lex, t, FIRST, [], render);
    hide Committed, Refs, EffectiveSource, Ingested;
    var d := ClaimDocument(t, render, 0);
    assert Accepts(t, []);
    assert Documented(t, 0) && ReplacesSource(t, FIRST, 0) && Unselected(t, 0);
    assert d in RetiredBy(t, render, FIRST);
    InClaimDocs(t, render, d);
  }

  /** Then the document of the event's only claim stays in the index, for every lexicon, version and context. */
  lemma ReextractionLeavesClaim(lex: Lexicon, wording: string, version: string, ctx: Context, render: Rendering)
    requires lex.classify(wording) == NoChange
    ensures var steps := Reextraction(wording, version, ctx);
            && (exists d :: Left(IndexAfter(lex, steps, render), d)) && !Current(IndexAfter(lex, steps, render))
  {
    hide Committed, Refs, OneEvent, Left, Current, IndexAfter, Retires, After, ClaimDocument, Correction;
    var steps := Reextraction(wording, version, ctx);
    var before := Correction(wording, version, ctx)[..2];
    assert steps[..2] == before;
    FirstRun(lex, wording, version, ctx);
    CorrectionQuiet(lex, wording, version, ctx);
    FirstClaimRetires(lex, After(lex, before), render);
    var d := ClaimDocument(After(lex, before), render, 0);
    assert Overdue(lex, steps, render, d, 2);
    HistoryIndex(lex, steps, render);
    assert Left(IndexAfter(lex, steps, render), d);
    HistoryCurrentExactly(lex, steps, render);
  }

  lemma CorrectionQuiet(lex: Lexicon, wording: string, version: string, ctx: Context)
    ensures After(lex, Correction(wording, version, ctx)[..2]).manualIdentities == []
  {
    HistoryTitles(lex, Correction(wording, version, ctx)[..2]);
    hide After;
  }
}
