/** Claim supersession never closes a cycle (events/reconciliation.py:1579-1683), so the recursive guard
    trigger of storage/migrations/0007_event_reconciliation.sql never fires. */
module Supersession {
  import opened Grouping
  import opened EventTables

  ghost predicate IsPath(edges: set<(nat, nat)>, path: seq<nat>) {
    |path| > 1 && forall i :: 0 <= i < |path| - 1 ==> (path[i], path[i + 1]) in edges
  }

  ghost predicate Reaches(edges: set<(nat, nat)>, a: nat, b: nat) {
    a == b || exists path :: IsPath(edges, path) && path[0] == a && path[|path| - 1] == b
  }

  ghost predicate Acyclic(edges: set<(nat, nat)>) {
    forall path :: IsPath(edges, path) ==> path[0] != path[|path| - 1]
  }

  predicate Explicit(t: Tables, c: nat)
    requires Refs(t) && c < |t.claims|
  {
    ExplicitChange(t.claims[c].field, RowOf(t, c))
  }

  /** Along a path that ends in an explicit change the key falls from end to end. */
  lemma {:induction false} PathGoesDown(t: Tables, path: seq<nat>)
    requires Refs(t) && EdgesOk(t) && IsPath(t.supersessions, path)
    ensures path[0] < |t.claims| && path[|path| - 1] < |t.claims| && Explicit(t, path[0])
    ensures Explicit(t, path[|path| - 1]) ==> Above(RowOf(t, path[0]), RowOf(t, path[|path| - 1]))
    decreases |path|
  {
    assert EdgeOk(t, path[0], path[1]);
    if |path| > 2 {
      var tail := path[1..];
      assert forall i :: 0 <= i < |tail| - 1 ==> (tail[i], tail[i + 1]) == (path[i + 1], path[i + 2]);
      PathGoesDown(t, tail);
    }
    hide RowOf, Refs;
  }

  /** The supersession relation of any sound state is acyclic. */
  lemma SupersessionAcyclic(t: Tables)
    requires Refs(t) && EdgesOk(t)
    ensures Acyclic(t.supersessions)
  {
    forall path | IsPath(t.supersessions, path) ensures path[0] != path[|path| - 1] {
      PathGoesDown(t, path);
    }
  }

  /** The guard trigger: inserting a sound edge finds no way back from the predecessor. */
  lemma GuardNeverFires(t: Tables, a: nat, b: nat)
    requires Refs(t) && EdgesOk(t) && EdgeOk(t, a, b)
    ensures !Reaches(t.supersessions, b, a)
  {
    forall path | IsPath(t.supersessions, path) && path[0] == b ensures path[|path| - 1] != a {
      PathGoesDown(t, path);
    }
  }
}
