/** What the stored content rows say after any sequence of observations (storage/repository.py:161-287), in terms of the
    observations alone. */
module ContentHistory {
  import opened Basics
  import opened ParentChains
  import opened ContentForest

  /** The i-th observation was not refused. */
  ghost predicate Taken(courses: set<nat>, observations: seq<Observation>, i: int, id: nat) {
    && 0 <= i < |observations| && observations[i].id == id
    && var o := observations[i];
       Putting(courses, After(courses, map[], observations[..i]), o.id, o.course, o.parent, o.data, o.time).Stored?
  }

  /** The i-th observation is the newest taken, and of those the latest. */
  ghost predicate NewestTaken(courses: set<nat>, observations: seq<Observation>, i: int, id: nat) {
    && Taken(courses, observations, i, id)
    && forall j :: Taken(courses, observations, j, id) ==>
         observations[j].time < observations[i].time || (observations[j].time == observations[i].time && j <= i)
  }

  ghost predicate EarliestTaken(courses: set<nat>, observations: seq<Observation>, i: int, id: nat) {
    && Taken(courses, observations, i, id)
    && forall j :: Taken(courses, observations, j, id) ==> observations[i].time <= observations[j].time
  }

  /** The row says what the newest observation said, and how long the node has been seen. */
  ghost predicate RowSays(courses: set<nat>, observations: seq<Observation>, id: nat, node: Node) {
    && (exists i :: NewestTaken(courses, observations, i, id) && observations[i].time == node.last &&
          observations[i].parent == node.parent && observations[i].data == node.data)
    && (exists i :: EarliestTaken(courses, observations, i, id) && observations[i].time == node.first)
  }

  ghost predicate NoneTaken(courses: set<nat>, observations: seq<Observation>, id: nat) {
    forall i :: 0 <= i < |observations| ==> !Taken(courses, observations, i, id)
  }

  /** Of the earlier observations the same were taken. */
  ghost predicate Continues(courses: set<nat>, earlier: seq<Observation>, observations: seq<Observation>, id: nat) {
    && |earlier| < |observations| && earlier == observations[..|earlier|]
    && forall i :: 0 <= i < |earlier| ==> (Taken(courses, earlier, i, id) <==> Taken(courses, observations, i, id))
  }

  lemma TakenBefore(courses: set<nat>, observations: seq<Observation>, id: nat)
    requires observations != []
    ensures Continues(courses, observations[..|observations| - 1], observations, id)
  {
    var n := |observations| - 1;
    forall i | 0 <= i < n
      ensures Taken(courses, observations[..n], i, id) <==> Taken(courses, observations, i, id)
    {
      assert observations[..n][..i] == observations[..i];
    }
  }

  /** A node is stored exactly if some observation of it was taken, and then its row shows the newest one. */
  lemma {:induction false} HistoryShowsNewest(courses: set<nat>, observations: seq<Observation>, id: nat)
    ensures var nodes := After(courses, map[], observations);
            if id in nodes then RowSays(courses, observations, id, nodes[id])
            else NoneTaken(courses, observations, id)
    decreases |observations|
  {
    if observations != [] {
      var n := |observations| - 1;
      var earlier := observations[..n];
      HistoryShowsNewest(courses, earlier, id);
      TakenBefore(courses, observations, id);
      var before, o := After(courses, map[], earlier), observations[n];
      var outcome := Putting(courses, before, o.id, o.course, o.parent, o.data, o.time);
      assert Taken(courses, observations, n, id) <==> o.id == id && outcome.Stored?;
      if o.id == id && outcome.Stored? {
        OneMoreTaken(courses, observations, id);
      } else if id in before {
        NothingMoreTaken(courses, observations, id, before[id]);
      }
    }
  }

  lemma NothingMoreTaken(courses: set<nat>, observations: seq<Observation>, id: nat, node: Node)
    requires observations != [] && !Taken(courses, observations, |observations| - 1, id)
    requires RowSays(courses, observations[..|observations| - 1], id, node)
    requires Continues(courses, observations[..|observations| - 1], observations, id)
    ensures RowSays(courses, observations, id, node)
  {
    hide Taken;
    var earlier := observations[..|observations| - 1];
    TakenInRange(courses, earlier, id);
    TakenInRange(courses, observations, id);
    var i :| NewestTaken(courses, earlier, i, id) && earlier[i].time == node.last && earlier[i].parent == node.parent &&
             earlier[i].data == node.data;
    assert NewestTaken(courses, observations, i, id);
    var j :| EarliestTaken(courses, earlier, j, id) && earlier[j].time == node.first;
    assert EarliestTaken(courses, observations, j, id);
  }

  lemma TakenInRange(courses: set<nat>, observations: seq<Observation>, id: nat)
    ensures forall i :: Taken(courses, observations, i, id) ==> 0 <= i < |observations|
  {
  }

  lemma OneMoreTaken(courses: set<nat>, observations: seq<Observation>, id: nat)
    requires observations != []
    requires var n := |observations| - 1; var before := After(courses, map[], observations[..n]);
             && Taken(courses, observations, n, id)
             && if id in before then RowSays(courses, observations[..n], id, before[id])
                else NoneTaken(courses, observations[..n], id)
    requires Continues(courses, observations[..|observations| - 1], observations, id)
    ensures id in After(courses, map[], observations) &&
            RowSays(courses, observations, id, After(courses, map[], observations)[id])
  {
    var n := |observations| - 1;
    var before, after := After(courses, map[], observations[..n]), After(courses, map[], observations);
    RowTaken(courses, observations, id);
    hide Taken, After, RowSays;
    if id in before {
      NewerRow(courses, observations, id, before[id], after[id]);
    } else {
      FirstRow(courses, observations, id, after[id]);
    }
  }

  /** What the last observation makes of the row. */
  lemma RowTaken(courses: set<nat>, observations: seq<Observation>, id: nat)
    requires observations != [] && Taken(courses, observations, |observations| - 1, id)
    ensures var n := |observations| - 1; var o := observations[n];
            var before, after := After(courses, map[], observations[..n]), After(courses, map[], observations);
            && id in after
            && (if id !in before then after[id] == Node(o.course, o.parent, o.data, o.time, o.time)
                else RowMoves(before[id], o, after[id]))
  {
  }

  predicate RowMoves(was: Node, o: Observation, node: Node) {
    && node.first == (if o.time < was.first then o.time else was.first)
    && if o.time < was.last then node.last == was.last && node.parent == was.parent && node.data == was.data
       else node.last == o.time && node.parent == o.parent && node.data == o.data
  }

  lemma FirstRow(courses: set<nat>, observations: seq<Observation>, id: nat, node: Node)
    requires observations != [] && Taken(courses, observations, |observations| - 1, id)
    requires var o := observations[|observations| - 1]; node == Node(o.course, o.parent, o.data, o.time, o.time)
    requires NoneTaken(courses, observations[..|observations| - 1], id)
    requires Continues(courses, observations[..|observations| - 1], observations, id)
    ensures RowSays(courses, observations, id, node)
  {
    TakenInRange(courses, observations, id);
    hide Taken;
    assert NewestTaken(courses, observations, |observations| - 1, id);
    assert EarliestTaken(courses, observations, |observations| - 1, id);
  }

  lemma NewerRow(courses: set<nat>, observations: seq<Observation>, id: nat, was: Node, node: Node)
    requires observations != [] && Taken(courses, observations, |observations| - 1, id)
    requires RowMoves(was, observations[|observations| - 1], node)
    requires RowSays(courses, observations[..|observations| - 1], id, was)
    requires Continues(courses, observations[..|observations| - 1], observations, id)
    ensures RowSays(courses, observations, id, node)
  {
    hide Taken, Continues;
    var n := |observations| - 1;
    var earlier, o := observations[..n], observations[n];
    TakenInRange(courses, earlier, id);
    var i :| NewestTaken(courses, earlier, i, id) && earlier[i].time == was.last && earlier[i].parent == was.parent &&
             earlier[i].data == was.data;
    var j :| EarliestTaken(courses, earlier, j, id) && earlier[j].time == was.first;
    NewestStep(courses, earlier, observations, id, i);
    EarliestStep(courses, earlier, observations, id, j);
  }

  lemma NewestStep(courses: set<nat>, earlier: seq<Observation>, observations: seq<Observation>, id: nat, i: int)
    requires Continues(courses, earlier, observations, id) && |observations| == |earlier| + 1
    requires NewestTaken(courses, earlier, i, id) && Taken(courses, observations, |earlier|, id)
    ensures 0 <= i < |earlier| && earlier[i] == observations[i]
    ensures NewestTaken(courses, observations,
                        if observations[|earlier|].time < earlier[i].time then i else |earlier|, id)
  {
    TakenInRange(courses, earlier, id);
    TakenInRange(courses, observations, id);
    hide Taken;
  }

  lemma EarliestStep(courses: set<nat>, earlier: seq<Observation>, observations: seq<Observation>, id: nat, j: int)
    requires Continues(courses, earlier, observations, id) && |observations| == |earlier| + 1
    requires EarliestTaken(courses, earlier, j, id) && Taken(courses, observations, |earlier|, id)
    ensures 0 <= j < |earlier| && earlier[j] == observations[j]
    ensures EarliestTaken(courses, observations,
                          if observations[|earlier|].time < earlier[j].time then |earlier| else j, id)
  {
    TakenInRange(courses, earlier, id);
    TakenInRange(courses, observations, id);
    hide Taken;
  }

  /** Only observations that would break the forest, or move a node to another course, are refused; one older than the
      row never is. */
  lemma RefusedExactly(courses: set<nat>, nodes: map<nat, Node>, id: nat, course: nat, parent: Option<nat>,
                       data: string, time: int)
    requires ForestOk(courses, nodes)
    ensures Putting(courses, nodes, id, course, parent, data, time).Refused? <==>
              && !Stale(nodes, id, time)
              && ((id in nodes && nodes[id].course != course) ||
                  !ForestOk(courses, nodes[id := Observed(nodes, id, course, parent, data, time)]))
  {
    var outcome := Putting(courses, nodes, id, course, parent, data, time);
    var hung := nodes[id := Observed(nodes, id, course, parent, data, time)];
    hide Acyclic;
    if outcome.Stored? {
      PutKeepsForest(courses, nodes, id, course, parent, data, time);
    } else if outcome.reason.Cycle? {
      RefusesExactlyCycles(courses, nodes, id, course, parent, data, time);
      TreeOfUpdate(nodes, id, Observed(nodes, id, course, parent, data, time));
    } else {
      assert id in hung && hung[id].course == course && hung[id].parent == parent;
      assert forall x :: x in hung && x != id ==> x in nodes && hung[x] == nodes[x];
      if parent == Some(id) {
        OwnParent(hung, id);
      }
    }
  }

  lemma OwnParent(nodes: map<nat, Node>, id: nat)
    requires id in nodes && nodes[id].parent == Some(id)
    ensures !Acyclic(Tree(nodes))
  {
    assert Up(Tree(nodes), id, 0) == Some(id);
    assert Up(Tree(nodes), id, 1) == Some(id);
  }
}
