/** The stored course and content rows and their upserts (storage/repository.py, `put_course`,
    `put_content_node`, `_parent_reaches_node`; guards of storage/migrations/0002_domain_integrity.sql). */
module ContentForest {
  import opened Basics
  import opened ParentChains

  datatype Course = Course(data: string, first: int, last: int)

  /** `data` stands for handler kind, title, position, availability and metadata, which are written together. */
  datatype Node = Node(course: nat, parent: Option<nat>, data: string, first: int, last: int)

  datatype Refusal = CourseMissing | CourseMoved | ParentMissing | ForeignParent | Cycle

  datatype Put = Stored(nodes: map<nat, Node>) | Refused(reason: Refusal)

  function Min(a: int, b: int): int { if a <= b then a else b }

  function Max(a: int, b: int): int { if a <= b then b else a }

  function Tree(nodes: map<nat, Node>): Parents {
    map id | id in nodes :: nodes[id].parent
  }

  /** Parents are stored and share the course of their children; no chain of parents meets itself. */
  ghost predicate ForestOk(courses: set<nat>, nodes: map<nat, Node>) {
    && (forall id :: id in nodes ==> nodes[id].course in courses && nodes[id].first <= nodes[id].last)
    && (forall id :: id in nodes && nodes[id].parent.Some? ==>
          nodes[id].parent.value in nodes && nodes[nodes[id].parent.value].course == nodes[id].course)
    && Acyclic(Tree(nodes))
  }

  predicate Stale(nodes: map<nat, Node>, id: nat, time: int) {
    id in nodes && time < nodes[id].last
  }

  function Observed(nodes: map<nat, Node>, id: nat, course: nat, parent: Option<nat>, data: string, time: int): Node {
    if id in nodes then Node(course, parent, data, Min(nodes[id].first, time), Max(nodes[id].last, time))
    else Node(course, parent, data, time, time)
  }

  /** What an observation of a node does to the forest. */
  ghost function Putting(courses: set<nat>, nodes: map<nat, Node>, id: nat, course: nat, parent: Option<nat>,
                         data: string, time: int)
    : Put
  {
    if Stale(nodes, id, time) then Stored(nodes[id := nodes[id].(first := Min(nodes[id].first, time))])
    else if course !in courses then Refused(CourseMissing)
    else if id in nodes && nodes[id].course != course then Refused(CourseMoved)
    else if parent.Some? && parent.value !in nodes then Refused(ParentMissing)
    else if parent.Some? && nodes[parent.value].course != course then Refused(ForeignParent)
    else if parent.Some? && id in nodes && Reaches(Tree(nodes), parent.value, id) then Refused(Cycle)
    else Stored(nodes[id := Observed(nodes, id, course, parent, data, time)])
  }

  // ----- what every observation keeps

  lemma TreeOfUpdate(nodes: map<nat, Node>, id: nat, node: Node)
    ensures Tree(nodes[id := node]) == Tree(nodes)[id := node.parent]
  {
  }

  /** A node nothing hangs under and that hangs nowhere yet cannot close a cycle. */
  lemma NewNodeIsNotReached(courses: set<nat>, nodes: map<nat, Node>, p: nat, id: nat)
    requires ForestOk(courses, nodes) && id !in nodes && p in nodes
    ensures !Reaches(Tree(nodes), p, id)
  {
    forall n: nat ensures Up(Tree(nodes), p, n) != Some(id) {
      StaysStored(courses, nodes, p, n);
    }
  }

  lemma {:induction false} StaysStored(courses: set<nat>, nodes: map<nat, Node>, p: nat, n: nat)
    requires ForestOk(courses, nodes) && p in nodes
    ensures Up(Tree(nodes), p, n).Some? ==> Up(Tree(nodes), p, n).value in nodes
  {
    if n > 0 {
      StaysStored(courses, nodes, p, n - 1);
    }
  }

  /** The forest stays acyclic and inside its courses, and no node changes course or disappears. */
  lemma PutKeepsForest(courses: set<nat>, nodes: map<nat, Node>, id: nat, course: nat, parent: Option<nat>,
                       data: string, time: int)
    requires ForestOk(courses, nodes) && Putting(courses, nodes, id, course, parent, data, time).Stored?
    ensures var after := Putting(courses, nodes, id, course, parent, data, time).nodes;
            && ForestOk(courses, after) && after.Keys == nodes.Keys + {id}
            && (forall x :: x in nodes ==>
                  after[x].course == nodes[x].course && after[x].first <= nodes[x].first &&
                    nodes[x].last <= after[x].last)
  {
    if Stale(nodes, id, time) {
      TreeOfUpdate(nodes, id, nodes[id].(first := Min(nodes[id].first, time)));
      assert Tree(nodes)[id := nodes[id].parent] == Tree(nodes);
    } else {
      TreeOfUpdate(nodes, id, Observed(nodes, id, course, parent, data, time));
      HungAcyclic(courses, nodes, id, parent);
    }
  }

  lemma HungAcyclic(courses: set<nat>, nodes: map<nat, Node>, id: nat, parent: Option<nat>)
    requires ForestOk(courses, nodes) && (parent.Some? ==> parent.value in nodes)
    requires parent.Some? && id in nodes ==> !Reaches(Tree(nodes), parent.value, id)
    ensures Acyclic(Tree(nodes)[id := parent])
  {
    hide Tree;
    if parent.Some? && id !in nodes {
      NewNodeIsNotReached(courses, nodes, parent.value, id);
    }
    var hung := Tree(nodes)[id := parent];
    forall x: nat, n: nat | n > 0 ensures Up(hung, x, n) != Some(x) {
      NoNewCycle(Tree(nodes), id, parent, x, n);
    }
  }

  /** The cycle error is raised for precisely the edges that would close a cycle. */
  lemma RefusesExactlyCycles(courses: set<nat>, nodes: map<nat, Node>, id: nat, course: nat, parent: Option<nat>,
                             data: string, time: int)
    requires ForestOk(courses, nodes)
    ensures var outcome := Putting(courses, nodes, id, course, parent, data, time);
            && (outcome == Refused(Cycle) || (outcome.Stored? && !Stale(nodes, id, time)) ==>
                  (outcome == Refused(Cycle) <==> !Acyclic(Tree(nodes)[id := parent])))
            && (outcome.Stored? && !Stale(nodes, id, time) ==> Tree(outcome.nodes) == Tree(nodes)[id := parent])
  {
    var outcome := Putting(courses, nodes, id, course, parent, data, time);
    if outcome == Refused(Cycle) {
      ClosesCycle(Tree(nodes), id, parent.value);
    } else if outcome.Stored? && !Stale(nodes, id, time) {
      HungAcyclic(courses, nodes, id, parent);
      TreeOfUpdate(nodes, id, Observed(nodes, id, course, parent, data, time));
    }
  }

  /** A node observed under a parent whose ancestors are all among `seen` hangs without a cycle. */
  lemma FreshNodeHangs(courses: set<nat>, nodes: map<nat, Node>, seen: set<nat>, id: nat, course: nat,
                       parent: Option<nat>, data: string, time: int)
    requires ForestOk(courses, nodes) && course in courses && id !in seen
    requires id in nodes ==> nodes[id].course == course
    requires forall x :: x in seen ==>
      x in nodes && nodes[x].course == course && (nodes[x].parent.Some? ==> nodes[x].parent.value in seen)
    requires parent.Some? ==> parent.value in seen
    ensures Putting(courses, nodes, id, course, parent, data, time).Stored?
  {
    if parent.Some? {
      forall n: nat ensures Up(Tree(nodes), parent.value, n) != Some(id) {
        StaysSeen(nodes, seen, parent.value, n);
      }
    }
  }

  lemma {:induction false} StaysSeen(nodes: map<nat, Node>, seen: set<nat>, x: nat, n: nat)
    requires x in seen && forall y :: y in seen ==>
      y in nodes && (nodes[y].parent.Some? ==> nodes[y].parent.value in seen)
    ensures Up(Tree(nodes), x, n).Some? ==> Up(Tree(nodes), x, n).value in seen
  {
    if n > 0 {
      StaysSeen(nodes, seen, x, n - 1);
    }
  }

  // ----- any sequence of observations

  datatype Observation = Observation(id: nat, course: nat, parent: Option<nat>, data: string, time: int)

  ghost function After(courses: set<nat>, nodes: map<nat, Node>, observations: seq<Observation>): map<nat, Node> {
    if observations == [] then nodes
    else
      var n := |observations| - 1;
      var before, o := After(courses, nodes, observations[..n]), observations[n];
      var outcome := Putting(courses, before, o.id, o.course, o.parent, o.data, o.time);
      if outcome.Stored? then outcome.nodes else before
  }

  /** Whatever is observed in whatever order, the forest stays a forest and courses are write-once. */
  lemma {:induction false} HistoryKeepsForest(courses: set<nat>, nodes: map<nat, Node>, observations: seq<Observation>)
    requires ForestOk(courses, nodes)
    ensures var after := After(courses, nodes, observations);
            && ForestOk(courses, after) && Rooted(Tree(after)) && nodes.Keys <= after.Keys
            && (forall x :: x in nodes ==> after[x].course == nodes[x].course && nodes[x].last <= after[x].last)
  {
    hide ForestOk, Putting;
    if observations != [] {
      var n := |observations| - 1;
      var before, o := After(courses, nodes, observations[..n]), observations[n];
      HistoryKeepsForest(courses, nodes, observations[..n]);
      if Putting(courses, before, o.id, o.course, o.parent, o.data, o.time).Stored? {
        PutKeepsForest(courses, before, o.id, o.course, o.parent, o.data, o.time);
      }
    }
    ForestIsAcyclic(courses, After(courses, nodes, observations));
    AcyclicMeansRooted(Tree(After(courses, nodes, observations)));
  }

  lemma ForestIsAcyclic(courses: set<nat>, nodes: map<nat, Node>)
    requires ForestOk(courses, nodes)
    ensures Acyclic(Tree(nodes))
  {
  }

  // ----- the repository

  class Repository {
    var courses: map<nat, Course>
    var nodes: map<nat, Node>

    ghost predicate Valid()
      reads this
    {
      ForestOk(courses.Keys, nodes) && forall c :: c in courses ==> courses[c].first <= courses[c].last
    }

    constructor ()
      ensures Valid() && courses == map[] && nodes == map[]
    {
      courses, nodes := map[], map[];
      new;
      forall id: nat, n: nat | n > 0 ensures Up(Tree(nodes), id, n) != Some(id) {
        EmptyTree(id, n);
      }
    }

    static lemma {:induction false} EmptyTree(id: nat, n: nat)
      requires n > 0
      ensures Up(Tree(map[]), id, n).None?
    {
      if n > 1 {
        EmptyTree(id, n - 1);
      }
    }

    /** `put_course`: an observation older than the stored one only widens the observed interval. */
    method PutCourse(course: nat, data: string, time: int)
      requires Valid()
      modifies this
      ensures Valid() && nodes == old(nodes) && courses.Keys == old(courses).Keys + {course}
      ensures forall c :: c in old(courses) && c != course ==> courses[c] == old(courses)[c]
      ensures course !in old(courses) ==> courses[course] == Course(data, time, time)
      ensures course in old(courses) ==>
                courses[course] == Course(if time < old(courses)[course].last then old(courses)[course].data else data,
                                          Min(old(courses)[course].first, time), Max(old(courses)[course].last, time))
    {
      if course in courses && time < courses[course].last {
        courses := courses[course := courses[course].(first := Min(courses[course].first, time))];
      } else if course in courses {
        courses := courses[course := Course(data, Min(courses[course].first, time), Max(courses[course].last, time))];
      } else {
        courses := courses[course := Course(data, time, time)];
      }
    }

    /** `_parent_reaches_node`: the walk up the stored parents ends because the forest is acyclic. */
    method ParentReachesNode(parent: nat, id: nat) returns (reaches: bool)
      requires Valid()
      ensures reaches <==> Reaches(Tree(nodes), parent, id)
    {
      ghost var tree, n: nat := Tree(nodes), 0;
      var current := Some(parent);
      while current.Some? && current.value != id
        invariant current == Up(tree, parent, n) && Avoids(tree, parent, id, n)
        decreases |nodes| + 1 - n
      {
        NoRoom(tree, parent, n);
        assert tree.Keys == nodes.Keys;
        current := if current.value in nodes then nodes[current.value].parent else None;
        n := n + 1;
      }
      if current.None? {
        forall m: nat ensures Up(tree, parent, m) != Some(id) {
          if m >= n && Up(tree, parent, m).Some? {
            UpEarlier(tree, parent, n, m);
            assert false;
          }
        }
      }
      return current.Some?;
    }

    /** The upsert statement; its guards are the triggers on parents and courses. */
    method UpsertNode(id: nat, course: nat, parent: Option<nat>, data: string, time: int)
      requires id in nodes ==> nodes[id].course == course
      requires parent.Some? ==> parent.value in nodes && nodes[parent.value].course == course
      requires parent.Some? && id in nodes ==> !Reaches(Tree(nodes), parent.value, id)
      modifies this`nodes
      ensures nodes == old(nodes)[id := Observed(old(nodes), id, course, parent, data, time)]
    {
      nodes := nodes[id := Observed(nodes, id, course, parent, data, time)];
    }

    /** `put_content_node`. */
    method PutContentNode(id: nat, course: nat, parent: Option<nat>, data: string, time: int)
      returns (refusal: Option<Refusal>)
      requires Valid()
      modifies this`nodes
      ensures Valid()
      ensures match Putting(courses.Keys, old(nodes), id, course, parent, data, time)
              case Stored(after) => refusal == None && nodes == after
              case Refused(reason) => refusal == Some(reason) && nodes == old(nodes)
    {
      if Putting(courses.Keys, nodes, id, course, parent, data, time).Stored? {
        PutKeepsForest(courses.Keys, nodes, id, course, parent, data, time);
      }
      if id in nodes && time < nodes[id].last {
        nodes := nodes[id := nodes[id].(first := Min(nodes[id].first, time))];
        return None;
      }
      if course !in courses {
        return Some(CourseMissing);
      }
      if id in nodes && nodes[id].course != course {
        return Some(CourseMoved);
      }
      if parent.Some? {
        if parent.value !in nodes {
          return Some(ParentMissing);
        }
        if nodes[parent.value].course != course {
          return Some(ForeignParent);
        }
        if id in nodes {
          var closes := ParentReachesNode(parent.value, id);
          if closes {
            return Some(Cycle);
          }
        }
      }
      UpsertNode(id, course, parent, data, time);
      return None;
    }
  }
}
