/** The search index kept by the transactions of the database (index/fts.py, `SearchIndex`;
    storage/database.py, `Database.transaction` and `_refresh_search_index`). */
module SearchIndex {
  import opened Basics
  import opened SearchDocuments

  ghost predicate Ascending(q: seq<nat>) {
    forall i, j :: 0 <= i < j < |q| ==> q[i] < q[j]
  }

  lemma {:induction false} Least(s: set<nat>) returns (m: nat)
    requires s != {}
    ensures m in s && forall x :: x in s ==> m <= x
  {
    m :| m in s;
    var rest := s - {m};
    assert forall x :: x in s ==> x == m || x in rest;
    if rest != {} {
      var n := Least(rest);
      m := if n < m then n else m;
    }
  }

  /** `sorted(courses)`. */
  method Sorted(courses: set<nat>) returns (q: seq<nat>)
    ensures Ascending(q) && Elements(q) == courses
  {
    hide *;
    q := [];
    var rest := courses;
    SplitStarts(courses);
    while rest != {}
      invariant Split(q, rest, courses)
      decreases |rest|
    {
      ghost var least := Least(rest);
      var m :| m in rest && forall x :: x in rest ==> m <= x;
      SplitStep(q, rest, courses, m);
      q := q + [m];
      rest := rest - {m};
    }
    SplitEnds(q, courses);
  }

  /** The sorted part lies below what remains. */
  ghost predicate Split(q: seq<nat>, rest: set<nat>, courses: set<nat>) {
    && Ascending(q) && Elements(q) + rest == courses
    && forall i, x :: 0 <= i < |q| && x in rest ==> q[i] < x
  }

  lemma SplitStarts(courses: set<nat>)
    ensures Split([], courses, courses)
  {
  }

  lemma SplitStep(q: seq<nat>, rest: set<nat>, courses: set<nat>, m: nat)
    requires Split(q, rest, courses) && m in rest && forall x :: x in rest ==> m <= x
    ensures Split(q + [m], rest - {m}, courses)
  {
    assert Elements(q + [m]) == Elements(q) + {m};
    assert (Elements(q) + {m}) + (rest - {m}) == courses;
  }

  lemma SplitEnds(q: seq<nat>, courses: set<nat>)
    ensures Split(q, {}, courses) ==> Ascending(q) && Elements(q) == courses
  {
    assert Elements(q) + {} == Elements(q);
  }

  lemma ElementsStep(q: seq<nat>, i: nat)
    requires Ascending(q) && i < |q|
    ensures Elements(q[..i + 1]) == Elements(q[..i]) + {q[i]}
    ensures q[i] !in Elements(q[..i]) && q[i] in Elements(q)
    ensures forall x :: x in Elements(q[..i]) ==> x < q[i]
    ensures forall x :: x in Elements(q) && x < q[i] ==> x in Elements(q[..i])
  {
    assert q[..i + 1] == q[..i] + [q[i]];
    forall x | x in Elements(q) && x < q[i] ensures x in Elements(q[..i]) {
      var j :| 0 <= j < |q| && q[j] == x;
      assert j < i;
      assert q[..i][j] == x;
    }
  }

  class Database {
    var state: State

    constructor (rows: set<Document>, owner: map<nat, nat>)
      requires RowsOk(rows, owner)
      ensures Consistent(state) && state == State(rows, owner, {}, {}, {}, 0, -1)
    {
      state := State(rows, owner, {}, {}, {}, 0, -1);
    }

    method Write(w: Write)
      modifies this
      ensures state == Written(old(state), w)
    {
      state := Written(state, w);
    }

    /** The affected courses, gathered resource by resource. */
    method AffectedCourses() returns (affected: set<nat>)
      ensures affected == Affected(state)
    {
      hide Affected;
      affected := state.dirtyCourses;
      var rest := state.dirtyResources;
      NoResources(state);
      assert state.dirtyResources - rest == {};
      while rest != {}
        invariant rest <= state.dirtyResources
        invariant affected == Affected(state.(dirtyResources := state.dirtyResources - rest))
        decreases |rest|
      {
        var r :| r in rest;
        ghost var done := state.dirtyResources - rest;
        affected := affected + set d | d in state.docs && d.resource == Some(r) :: d.course;
        if r in state.owner {
          affected := affected + {state.owner[r]};
        }
        rest := rest - {r};
        OneMore(state, done, r);
        assert state.dirtyResources - rest == done + {r};
      }
      assert state.(dirtyResources := state.dirtyResources - {}) == state;
    }

    static lemma NoResources(s: State)
      ensures Affected(s.(dirtyResources := {})) == s.dirtyCourses
    {
    }

    static lemma OneMore(s: State, done: set<nat>, r: nat)
      ensures Affected(s.(dirtyResources := done + {r})) ==
              Affected(s.(dirtyResources := done)) + (set d | d in s.docs && d.resource == Some(r) :: d.course) +
              (if r in s.owner then {s.owner[r]} else {})
    {
      var before, after := s.(dirtyResources := done), s.(dirtyResources := done + {r});
      forall c ensures c in Affected(after) <==>
                       c in Affected(before) || c in (set d | d in s.docs && d.resource == Some(r) :: d.course) ||
                         (r in s.owner && c == s.owner[r])
      {
        if d :| d in s.docs && d.resource.Some? && d.resource.value in done + {r} && d.course == c {
          assert d.resource.value in done || d.resource == Some(r);
        }
      }
    }

    /** Deletes the documents of a course and inserts its projection; false when the unique key refuses one. */
    method ReplaceCourse(course: nat) returns (ok: bool)
      modifies this
      ensures ok <==> forall a, b :: a in old(state).docs && a.course != course && b in In(old(state).rows, course) ==>
        KeyOf(a) != KeyOf(b)
      ensures ok ==>
        state == old(state).(docs := (set d | d in old(state).docs && d.course != course) + In(old(state).rows, course))
    {
      var kept := set d | d in state.docs && d.course != course;
      var projection := In(state.rows, course);
      if a, b :| a in kept && b in projection && KeyOf(a) == KeyOf(b) {
        return false;
      }
      state := state.(docs := kept + projection);
      return true;
    }

    /** `_rebuild_documents`: every row, whatever was indexed before. */
    method Rebuild()
      requires RowsOk(state.rows, state.owner)
      modifies this
      ensures Current(state) && state.rows == old(state).rows && state.owner == old(state).owner &&
        state.source == old(state).source
    {
      state := state.(docs := state.rows, indexed := state.source, dirtyCourses := {}, dirtyResources := {});
    }

    /** `refresh_dirty`: rebuilds or replaces the affected courses; refused exactly when an insertion clashes. */
    method RefreshDirty() returns (ok: bool)
      requires RowsOk(state.rows, state.owner) && (state.indexed >= 0 ==> Kept(state)) && state.indexed != state.source
      modifies this
      ensures ok ==> state == Refreshed(old(state))
      ensures ok <==> !Refuses(old(state))
    {
      if state.indexed < 0 || (state.dirtyCourses == {} && state.dirtyResources == {}) {
        Rebuild();
        return true;
      }
      ghost var s := state;
      var generation := state.source;
      var affected := AffectedCourses();
      var q := Sorted(affected);
      hide Kept, Affected, Clashes, ClashAt, Replaced;
      NothingReplaced(s);
      assert q[..0] == [] && Elements(q[..0]) == {};
      var i := 0;
      while i < |q|
        invariant 0 <= i <= |q|
        invariant state == s.(docs := Replaced(s, Elements(q[..i])))
        invariant forall j :: 0 <= j < i ==> !ClashAt(s, q[j])
      {
        ElementsStep(q, i);
        ReplaceStep(s, Elements(q[..i]), q[i]);
        var done := ReplaceCourse(q[i]);
        if !done {
          SomeCourseClashes(s, q);
          return false;
        }
        i := i + 1;
      }
      assert q[..|q|] == q;
      SomeCourseClashes(s, q);
      state := state.(dirtyCourses := {}, dirtyResources := {}, indexed := generation);
      return true;
    }

    static lemma NothingReplaced(s: State)
      ensures s == s.(docs := Replaced(s, {}))
    {
      assert Replaced(s, {}) == s.docs;
    }

    /** Replacing the next course succeeds unless it clashes. */
    static lemma ReplaceStep(s: State, done: set<nat>, c: nat)
      requires Kept(s) && c in Affected(s) && c !in done
      requires forall x :: x in done ==> x < c
      requires forall x :: x in Affected(s) && x < c ==> x in done
      requires done <= Affected(s)
      ensures var t := s.(docs := Replaced(s, done));
              && ((forall a, b :: a in t.docs && a.course != c && b in In(t.rows, c) ==> KeyOf(a) != KeyOf(b)) <==>
                   !ClashAt(s, c))
              && (set d | d in t.docs && d.course != c) + In(t.rows, c) == Replaced(s, done + {c})
    {
      hide Affected, Kept, ClashAt;
      ClashExactly(s, done, c);
      forall a: Document | a.course != c ensures a in Replaced(s, done) <==> a in Replaced(s, done + {c}) {}
    }

    static lemma SomeCourseClashes(s: State, q: seq<nat>)
      requires Elements(q) == Affected(s)
      ensures Clashes(s) <==> exists j :: 0 <= j < |q| && ClashAt(s, q[j])
    {
      hide Affected, ClashAt;
      if c :| c in Affected(s) && ClashAt(s, c) {
        assert c in Elements(q);
        var j :| 0 <= j < |q| && q[j] == c;
      }
      forall j | 0 <= j < |q| ensures q[j] in Affected(s) {
        assert q[j] in Elements(q);
      }
    }

    /** `ensure_current`: with equal generations nothing is done, whatever the rows say. */
    method EnsureCurrent() returns (ok: bool)
      requires RowsOk(state.rows, state.owner) && (state.indexed >= 0 ==> Kept(state))
      modifies this
      ensures ok ==> state == Refreshed(old(state))
      ensures ok <==> !Refuses(old(state))
    {
      if state.source == state.indexed {
        return true;
      }
      ok := RefreshDirty();
    }

    /** `transaction`: the body's writes (it may raise after any of them), the refresh, then commit or rollback. */
    method Transaction(writes: seq<Write>, raises: bool) returns (committed: bool)
      requires Consistent(state) && AllAdmissible(state, writes)
      modifies this
      ensures Consistent(state)
      ensures committed <==> !raises && !Refuses(AfterAll(old(state), writes))
      ensures committed ==> state == Refreshed(AfterAll(old(state), writes))
      ensures !committed ==> state == old(state)
      ensures committed && Current(old(state)) ==>
                (Current(state) <==>
                   forall d :: d in MissedIn(writes) && d in Stale(AfterAll(old(state), writes)) ==>
                                 d.course in Affected(AfterAll(old(state), writes)))
    {
      hide Admissible, Refreshed, Refuses, Affected, Current;
      var before := state;
      AfterAllTracked(state, writes);
      var i := 0;
      assert writes[..0] == [];
      while i < |writes|
        invariant 0 <= i <= |writes|
        invariant state == AfterAll(before, writes[..i])
      {
        assert writes[..i + 1][..i] == writes[..i];
        Write(writes[i]);
        i := i + 1;
      }
      assert writes[..|writes|] == writes;
      if raises {
        state := before;
        return false;
      }
      ghost var t := state;
      committed := EnsureCurrent();
      if committed {
        RefreshedConsistent(t);
        if Current(before) {
          CurrentExactly(before, writes);
        }
      } else {
        state := before;
      }
    }

    static lemma RefreshedConsistent(t: State)
      requires RowsOk(t.rows, t.owner) && (t.indexed >= 0 ==> Kept(t)) && !Refuses(t)
      ensures Consistent(Refreshed(t))
    {
      hide Affected, Clashes, Replaced;
      if t.source != t.indexed && t.indexed >= 0 && Marks(t) {
        ReplacedUnique(t);
      }
    }
  }
}
