/** The search projection as values: canonical documents, indexed documents, and the marks that writes
    leave (storage/migrations/0005_search.sql to 0007; index/fts.py).

    `rows` is what a full rebuild would insert: the union of the nine per-kind queries. Each query filters on
    the course alone, so the same query for one course is the restriction of `rows` to that course. */
module SearchDocuments {
  import opened Basics

  datatype Kind =
    | CourseDoc | ContentDoc | AnnouncementDoc | AssessmentDoc | EventDoc | ClaimDoc | MaterialDoc | ChunkDoc

  datatype Document = Document(kind: Kind, entity: nat, origin: string, course: nat, resource: Option<nat>,
                               body: string)

  /** The unique key of the document table. */
  function KeyOf(d: Document): (Kind, nat, string) {
    (d.kind, d.entity, d.origin)
  }

  /** Material and chunk documents belong to a resource; events and claims may merely name one. */
  predicate OwnedBy(d: Document, r: nat) {
    (d.kind.MaterialDoc? || d.kind.ChunkDoc?) && d.resource == Some(r)
  }

  ghost predicate Unique(docs: set<Document>) {
    forall a, b :: a in docs && b in docs && KeyOf(a) == KeyOf(b) ==> a == b
  }

  function In(docs: set<Document>, course: nat): set<Document> {
    set d | d in docs && d.course == course
  }

  function Without(docs: set<Document>, r: nat): set<Document> {
    set d | d in docs && !OwnedBy(d, r)
  }

  /** The store of one database: source rows, indexed documents, marks and generations. */
  datatype State = State(
    rows: set<Document>, owner: map<nat, nat>,
    docs: set<Document>, dirtyCourses: set<nat>, dirtyResources: set<nat>,
    source: nat, indexed: int)

  ghost predicate RowsOk(rows: set<Document>, owner: map<nat, nat>) {
    && Unique(rows)
    && forall d :: d in rows && (d.kind.MaterialDoc? || d.kind.ChunkDoc?) ==>
         d.resource.Some? && d.resource.value in owner && owner[d.resource.value] == d.course
  }

  /** A document not owned by any dirty resource. */
  predicate Settled(s: State, d: Document) {
    !((d.kind.MaterialDoc? || d.kind.ChunkDoc?) && d.resource.Some? && d.resource.value in s.dirtyResources)
  }

  /** Where index and rows differ. */
  function Stale(s: State): set<Document> {
    (s.docs - s.rows) + (s.rows - s.docs)
  }

  /** At any point of a transaction; equal generations mean that nothing is marked. */
  ghost predicate Kept(s: State) {
    && RowsOk(s.rows, s.owner) && Unique(s.docs)
    && s.indexed <= s.source
    && (s.indexed == s.source ==> s.dirtyCourses == {} && s.dirtyResources == {})
  }

  /** Apart from the documents `missed`, index and rows differ only under a mark. */
  ghost predicate Tracked(s: State, missed: set<Document>) {
    && Kept(s)
    && forall d :: d in Stale(s) ==> d in missed || d.course in s.dirtyCourses || !Settled(s, d)
  }

  /** Between transactions: nothing is marked and the generations agree, but documents may be stale. */
  ghost predicate Consistent(s: State) {
    && RowsOk(s.rows, s.owner)
    && (s.indexed >= 0 ==> Kept(s) && s.indexed == s.source)
  }

  /** The index is what a rebuild would make. */
  ghost predicate Current(s: State) {
    s.docs == s.rows && s.indexed == s.source && s.dirtyCourses == {} && s.dirtyResources == {}
  }

  // ----- writes and the marks their triggers set

  /** `Unmarked` are writes without a trigger: an extraction record or the metadata of a visual description makes
      documents of earlier rows leave the projection, a manual decision makes claims enter or leave it. */
  datatype Write =
    | WriteCourse(course: nat, documents: set<Document>)
    | WriteResource(resource: nat, course: nat, documents: set<Document>)
    | DeleteResource(resource: nat)
    | Unmarked(gone: set<Document>, added: set<Document>)

  /** Keys of source rows are primary keys, so documents of different rows never share a key. */
  ghost predicate Admissible(s: State, w: Write) {
    RowsOk(RowsAfter(s, w), OwnerAfter(s, w)) &&
    match w
    case WriteCourse(c, documents) => forall d :: d in documents ==> d.course == c
    case WriteResource(r, c, documents) => forall d :: d in documents ==> OwnedBy(d, r) && d.course == c
    case DeleteResource(r) => true
    case Unmarked(gone, added) => gone <= s.rows && added !! s.rows
  }

  function RowsAfter(s: State, w: Write): set<Document> {
    match w
    case WriteCourse(c, documents) => (s.rows - In(s.rows, c)) + documents
    case WriteResource(r, c, documents) => Without(s.rows, r) + documents
    case DeleteResource(r) => Without(s.rows, r)
    case Unmarked(gone, added) => (s.rows - gone) + added
  }

  function OwnerAfter(s: State, w: Write): map<nat, nat> {
    match w
    case WriteResource(r, c, _) => s.owner[r := c]
    case DeleteResource(r) => s.owner - {r}
    case _ => s.owner
  }

  /** A marked write marks the course or the resource it touches and raises the source generation. */
  function Written(s: State, w: Write): State {
    var u := s.(rows := RowsAfter(s, w), owner := OwnerAfter(s, w));
    match w
    case WriteCourse(c, _) => u.(source := s.source + 1, dirtyCourses := s.dirtyCourses + {c})
    case WriteResource(r, _, _) => u.(source := s.source + 1, dirtyResources := s.dirtyResources + {r})
    case DeleteResource(r) => u.(source := s.source + 1, dirtyResources := s.dirtyResources + {r})
    case Unmarked(_, _) => u
  }

  /** Documents a write changes without a mark. */
  function MissedBy(w: Write): set<Document> {
    if w.Unmarked? then w.gone + w.added else {}
  }

  /** The marks cover every difference that a marked write makes. */
  lemma WrittenTracked(s: State, w: Write, missed: set<Document>)
    requires Tracked(s, missed) && Admissible(s, w)
    ensures Tracked(Written(s, w), missed + MissedBy(w))
  {
    var u := Written(s, w);
    forall d | d in Stale(u) ensures d in missed + MissedBy(w) || d.course in u.dirtyCourses || !Settled(u, d) {
      assert d in Stale(s) ==> d in missed || d.course in s.dirtyCourses || !Settled(s, d);
    }
  }

  // ----- what a refresh must do

  /** Courses a refresh replaces: dirty ones, owners of dirty resources, and where these are indexed. */
  ghost function Affected(s: State): set<nat> {
    s.dirtyCourses
    + (set r | r in s.dirtyResources && r in s.owner :: s.owner[r])
    + (set d | d in s.docs && d.resource.Some? && d.resource.value in s.dirtyResources :: d.course)
  }

  /** Stale documents a refresh does not reach. */
  ghost function Uncovered(s: State): set<Document> {
    set d | d in Stale(s) && d.course !in Affected(s)
  }

  /** A refresh reaches everything under a mark. */
  lemma UncoveredWasMissed(s: State, missed: set<Document>)
    requires Tracked(s, missed)
    ensures Uncovered(s) <= missed
  {
    forall d | d in Uncovered(s) ensures d in missed {
      if !Settled(s, d) {
        UnsettledIsAffected(s, d);
      }
    }
  }

  lemma UnsettledIsAffected(s: State, d: Document)
    requires RowsOk(s.rows, s.owner) && !Settled(s, d)
    ensures d in s.docs || d in s.rows ==> d.course in Affected(s)
  {
    var r := d.resource.value;
    if d in s.docs {
      assert d.resource.Some? && d.resource.value in s.dirtyResources;
    }
    if d in s.rows {
      assert r in s.dirtyResources && r in s.owner && s.owner[r] == d.course;
    }
  }

  /** Inserting the rows of an affected course meets a document with the same key: one of a course that is not replaced,
      or of a higher course that is replaced later. */
  ghost predicate ClashAt(s: State, c: nat) {
    exists a, b :: a in s.docs && b in s.rows && KeyOf(a) == KeyOf(b) && b.course == c && a.course != c &&
                   (a.course !in Affected(s) || c < a.course)
  }

  ghost predicate Clashes(s: State) {
    exists c :: c in Affected(s) && ClashAt(s, c)
  }

  /** Some document is to appear in a lower course than the one it is still indexed in. */
  ghost predicate MovesDown(s: State) {
    exists a, b :: a in s.docs && b in s.rows && KeyOf(a) == KeyOf(b) && b.course < a.course
  }

  /** If no stale document escapes the refresh, it clashes exactly when a document moves down. */
  lemma ClashIsMoveDown(s: State)
    requires Kept(s) && Uncovered(s) == {}
    ensures Clashes(s) <==> MovesDown(s)
  {
    hide Affected;
    forall d: Document ensures d.course !in Affected(s) ==> (d in s.docs <==> d in s.rows) {
      assert d !in Uncovered(s);
    }
    if MovesDown(s) {
      var a, b :| a in s.docs && b in s.rows && KeyOf(a) == KeyOf(b) && b.course < a.course;
      assert b.course in Affected(s);
      assert ClashAt(s, b.course);
    }
  }

  /** The documents once the courses `done` are replaced. */
  ghost function Replaced(s: State, done: set<nat>): set<Document> {
    (set d | d in s.docs && d.course !in done) + (set d | d in s.rows && d.course in done)
  }

  /** Replacing the affected courses leaves exactly the uncovered documents stale. */
  lemma ReplacedLeaves(s: State)
    ensures var docs := Replaced(s, Affected(s)); (docs - s.rows) + (s.rows - docs) == Uncovered(s)
  {
    hide Affected;
  }

  /** Without a clash the unique key still holds afterwards. */
  lemma ReplacedUnique(s: State)
    requires Kept(s) && !Clashes(s)
    ensures Unique(Replaced(s, Affected(s)))
  {
    hide Affected;
    var docs := Replaced(s, Affected(s));
    forall a, b | a in docs && b in docs && KeyOf(a) == KeyOf(b) ensures a == b {
      NoClash(s, a, b);
      NoClash(s, b, a);
    }
  }

  lemma NoClash(s: State, a: Document, b: Document)
    requires !Clashes(s) && KeyOf(a) == KeyOf(b)
    ensures !(a in s.docs && a.course !in Affected(s) && b in s.rows && b.course in Affected(s))
  {
    hide Affected;
    assert a in s.docs && b in s.rows && b.course in Affected(s) && a.course !in Affected(s) ==> ClashAt(s, b.course);
  }

  /** In ascending order, the insertion of course `c` is refused exactly if it clashes. */
  lemma ClashExactly(s: State, done: set<nat>, c: nat)
    requires Kept(s) && c in Affected(s) && c !in done && done <= Affected(s)
    requires forall x :: x in done ==> x < c
    requires forall x :: x in Affected(s) && x < c ==> x in done
    ensures (exists a, b :: a in Replaced(s, done) && a.course != c && b in In(s.rows, c) && KeyOf(a) == KeyOf(b)) <==>
            ClashAt(s, c)
  {
    hide Affected;
  }

  // ----- the refresh before a commit

  predicate Marks(s: State) {
    s.dirtyCourses != {} || s.dirtyResources != {}
  }

  /** The store after a refresh that is not refused: equal generations refresh nothing, an index from before the marks
      is rebuilt, and otherwise the affected courses are replaced. */
  ghost function Refreshed(s: State): State {
    if s.source == s.indexed then s
    else
      s.(docs := if s.indexed < 0 || !Marks(s) then s.rows else Replaced(s, Affected(s)),
         dirtyCourses := {}, dirtyResources := {}, indexed := s.source)
  }

  ghost predicate Refuses(s: State) {
    s.source != s.indexed && s.indexed >= 0 && Marks(s) && Clashes(s)
  }

  function MissedIn(writes: seq<Write>): set<Document> {
    if writes == [] then {} else MissedIn(writes[..|writes| - 1]) + MissedBy(writes[|writes| - 1])
  }

  ghost function AfterAll(s: State, writes: seq<Write>): State {
    if writes == [] then s else Written(AfterAll(s, writes[..|writes| - 1]), writes[|writes| - 1])
  }

  ghost predicate AllAdmissible(s: State, writes: seq<Write>) {
    forall i :: 0 <= i < |writes| ==> Admissible(AfterAll(s, writes[..i]), writes[i])
  }

  lemma AdmissiblePrefix(s: State, writes: seq<Write>)
    requires writes != [] && AllAdmissible(s, writes)
    ensures var n := |writes| - 1;
            AllAdmissible(s, writes[..n]) && Admissible(AfterAll(s, writes[..n]), writes[n])
  {
    hide Admissible, AfterAll;
    var n := |writes| - 1;
    forall i | 0 <= i < n ensures Admissible(AfterAll(s, writes[..n][..i]), writes[..n][i]) {
      assert writes[..n][..i] == writes[..i];
    }
  }

  /** Through any writes, what is stale was stale before, changed without a mark, or lies under a mark. */
  lemma {:induction false} AfterAllTracked(s: State, writes: seq<Write>)
    requires Consistent(s) && AllAdmissible(s, writes)
    ensures var t := AfterAll(s, writes);
            && RowsOk(t.rows, t.owner) && t.indexed == s.indexed
            && (s.indexed >= 0 ==> Tracked(t, Stale(s) + MissedIn(writes)))
    decreases |writes|
  {
    hide Stale;
    if writes != [] {
      var n := |writes| - 1;
      AdmissiblePrefix(s, writes);
      AfterAllTracked(s, writes[..n]);
      if s.indexed >= 0 {
        WrittenTracked(AfterAll(s, writes[..n]), writes[n], Stale(s) + MissedIn(writes[..n]));
        assert (Stale(s) + MissedIn(writes[..n])) + MissedBy(writes[n]) == Stale(s) + MissedIn(writes);
      }
    }
  }

  /** The index is right after a refresh exactly if nothing stale escaped it. */
  lemma RefreshedCurrent(t: State)
    requires Kept(t) && t.indexed >= 0
    ensures Current(Refreshed(t)) <==> (t.source == t.indexed || Marks(t) ==> Uncovered(t) == {})
  {
    if t.source == t.indexed {
      assert Affected(t) == {};
      assert Uncovered(t) == Stale(t);
    } else {
      ReplacedLeaves(t);
      hide Affected;
    }
  }

  /** From a current index, a commit leaves the index current exactly if each document changed without a mark is
      unchanged on balance or lies in a course that the refresh replaces. */
  lemma CurrentExactly(s: State, writes: seq<Write>)
    requires Consistent(s) && Current(s) && AllAdmissible(s, writes)
    ensures var t := AfterAll(s, writes);
            Current(Refreshed(t)) <==>
              forall d :: d in MissedIn(writes) && d in Stale(t) ==> d.course in Affected(t)
  {
    hide Affected, Refreshed, Admissible;
    var t := AfterAll(s, writes);
    AfterAllTracked(s, writes);
    assert Stale(s) == {};
    UncoveredWasMissed(t, Stale(s) + MissedIn(writes));
    RefreshedCurrent(t);
    UnchangedGeneration(s, writes);
    assert Uncovered(t) == {} <==> forall d :: d in MissedIn(writes) && d in Stale(t) ==> d.course in Affected(t);
  }

  /** A generation that moved left a mark. */
  lemma {:induction false} UnchangedGeneration(s: State, writes: seq<Write>)
    requires s.source == s.indexed
    ensures var t := AfterAll(s, writes);
            t.indexed == s.indexed && t.source >= s.source && (t.source != t.indexed ==> Marks(t))
    decreases |writes|
  {
    if writes != [] {
      UnchangedGeneration(s, writes[..|writes| - 1]);
    }
  }

  /** Writes that leave a mark commit a current index. */
  lemma MarkedCommitsAreCurrent(s: State, writes: seq<Write>)
    requires Consistent(s) && Current(s) && AllAdmissible(s, writes) && forall i :: 0 <= i < |writes| ==>
      !writes[i].Unmarked?
    ensures Current(Refreshed(AfterAll(s, writes)))
  {
    NothingMissed(writes);
    CurrentExactly(s, writes);
  }

  lemma {:induction false} NothingMissed(writes: seq<Write>)
    requires forall i :: 0 <= i < |writes| ==> !writes[i].Unmarked?
    ensures MissedIn(writes) == {}
    decreases |writes|
  {
    if writes != [] {
      NothingMissed(writes[..|writes| - 1]);
    }
  }

  /** The condition before an unmarked write: the index stays right exactly if all documents that enter or leave lie in
      courses the transaction is going to replace anyway. */
  lemma UnmarkedExactly(s: State, writes: seq<Write>, gone: set<Document>, added: set<Document>)
    requires Consistent(s) && Current(s) && AllAdmissible(s, writes + [Unmarked(gone, added)])
    requires forall i :: 0 <= i < |writes| ==> !writes[i].Unmarked?
    ensures Current(Refreshed(AfterAll(s, writes + [Unmarked(gone, added)]))) <==>
              forall d :: d in gone + added ==> d.course in Affected(AfterAll(s, writes))
  {
    hide Affected, Refreshed;
    var all := writes + [Unmarked(gone, added)];
    assert all[..|writes|] == writes;
    AdmissiblePrefix(s, all);
    NothingMissed(writes);
    AfterAllTracked(s, writes);
    var t := AfterAll(s, writes);
    assert Stale(s) == {};
    UncoveredWasMissed(t, Stale(s) + MissedIn(writes));
    CurrentExactly(s, all);
    SameAffected(t, gone, added);
    var u := Written(t, Unmarked(gone, added));
    forall d | d in gone + added && d.course !in Affected(t) ensures d in Stale(u) {
      assert d !in Uncovered(t);
    }
  }

  lemma SameAffected(t: State, gone: set<Document>, added: set<Document>)
    ensures Affected(Written(t, Unmarked(gone, added))) == Affected(t)
  {
  }

  /** A description of a chunk stored together with its metadata: the representation marks the resource, and the
      metadata concerns documents of that resource only, so the index stays right. */
  lemma MetadataIsCovered(s: State, r: nat, course: nat, documents: set<Document>, gone: set<Document>,
                          added: set<Document>)
    requires Consistent(s) && Current(s)
    requires AllAdmissible(s, [WriteResource(r, course, documents)] + [Unmarked(gone, added)])
    requires forall d :: d in gone + added ==> OwnedBy(d, r)
    ensures Current(Refreshed(AfterAll(s, [WriteResource(r, course, documents)] + [Unmarked(gone, added)])))
  {
    var w := WriteResource(r, course, documents);
    var all := [w] + [Unmarked(gone, added)];
    assert all[..1] == [w] && [w][..0] == [] && AfterAll(s, []) == s;
    var t := AfterAll(s, [w]);
    assert t == Written(s, w);
    AdmissiblePrefix(s, all);
    hide Refreshed, Consistent, Current, AllAdmissible;
    assert r in t.dirtyResources && r in t.owner && t.owner[r] == course;
    forall d | d in gone + added ensures d.course in Affected(t) {
      assert d in t.rows || d in RowsAfter(t, Unmarked(gone, added));
    }
    UnmarkedExactly(s, [w], gone, added);
  }

  /** A transaction that inserts one extraction record: the claim document of the extraction it replaces stays. */
  lemma RetiredClaimStaysIndexed()
    ensures var claim := Document(ClaimDoc, 1, "metadata", 1, None, "");
            var s, writes := State({claim}, map[], {claim}, {}, {}, 1, 1), [Unmarked({claim}, {})];
            && Consistent(s) && Current(s) && AllAdmissible(s, writes)
            && var u := Refreshed(AfterAll(s, writes));
               !Refuses(AfterAll(s, writes)) && Consistent(u) && u.source == u.indexed && u.rows == {} &&
                 u.docs == {claim}
  {
    var claim := Document(ClaimDoc, 1, "metadata", 1, None, "");
    var s, writes := State({claim}, map[], {claim}, {}, {}, 1, 1), [Unmarked({claim}, {})];
    assert writes[..0] == [];
    assert AfterAll(s, []) == s;
    assert AfterAll(s, writes) == Written(s, writes[0]);
    assert {claim} - {claim} + {} == {};
  }

  // ----- a resource deleted and stored again under a lower course key, in one transaction

  const THERE := Document(MaterialDoc, 1, "metadata", 2, Some(1), "")
  const HERE := THERE.(course := 1)
  const HELD := State({THERE}, map[1 := 2], {THERE}, {}, {}, 1, 1)
  const DELETED := State({}, map[], {THERE}, {}, {1}, 2, 1)
  const MOVED := State({HERE}, map[1 := 1], {THERE}, {}, {1}, 3, 1)

  lemma MoveSteps()
    ensures Written(HELD, DeleteResource(1)) == DELETED && Written(DELETED, WriteResource(1, 1, {HERE})) == MOVED
  {
    assert HELD.owner - {1} == map[];
    assert Without(HELD.rows, 1) == {};
    assert Without(DELETED.rows, 1) + {HERE} == {HERE};
  }

  lemma MoveRefuses()
    ensures MovesDown(MOVED) && Refuses(MOVED)
  {
    assert THERE in MOVED.docs && HERE in MOVED.rows && KeyOf(THERE) == KeyOf(HERE);
    assert 1 in Affected(MOVED) by {
      assert 1 in MOVED.dirtyResources && 1 in MOVED.owner && MOVED.owner[1] == 1;
    }
    assert ClashAt(MOVED, 1);
  }

  /** No immutability trigger refuses these writes, but the refresh is refused. */
  lemma MovingDownIsPossible()
    ensures var writes := [DeleteResource(1), WriteResource(1, 1, {HERE})];
            && Consistent(HELD) && Current(HELD) && AllAdmissible(HELD, writes)
            && AfterAll(HELD, writes) == MOVED && MovesDown(MOVED) && Refuses(MOVED)
  {
    hide Refuses, MovesDown;
    MoveSteps();
    MoveRefuses();
    var writes := [DeleteResource(1), WriteResource(1, 1, {HERE})];
    assert writes[..1] == [writes[0]] && writes[..0] == [] && writes[..1][..0] == [];
    assert AfterAll(HELD, writes[..0]) == HELD;
    assert AfterAll(HELD, writes[..1]) == DELETED;
    assert AfterAll(HELD, writes) == MOVED;
    forall i | 0 <= i < |writes| ensures Admissible(AfterAll(HELD, writes[..i]), writes[i]) {
      assert i == 0 || i == 1;
    }
  }
}
