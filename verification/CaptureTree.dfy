/** The check that a captured content tree has no cycle of parents (client/browser_capture.py,
    `_validate_content_tree`). */
module CaptureTree {
  import opened Basics
  import opened ParentChains

  datatype Record = Record(id: nat, parent: Option<nat>)

  /** The dictionary of parents; a later record replaces an earlier one. */
  function ParentsOf(records: seq<Record>): Parents {
    if records == [] then map[]
    else ParentsOf(records[..|records| - 1])[records[|records| - 1].id := records[|records| - 1].parent]
  }

  /** Only known identifiers have a chain to check. */
  lemma UnknownEnds(parents: Parents, id: nat)
    requires id !in parents
    ensures Ends(parents, id)
  {
    assert Up(parents, id, 0) == Some(id);
    assert Up(parents, id, 1).None?;
  }

  lemma SmallerRemainder(keys: set<nat>, seen: set<nat>, id: nat)
    requires id !in seen
    ensures id in keys ==> |keys - (seen + {id})| < |keys - seen|
  {
    if id in keys {
      assert keys - (seen + {id}) == (keys - seen) - {id};
    }
  }

  /** Follows one chain; false when it comes back to an identifier already seen. */
  method FollowChain(parents: Parents, start: nat) returns (ok: bool)
    ensures ok <==> Ends(parents, start)
  {
    hide *;
    var seen: set<nat> := {};
    var current := Some(start);
    ghost var n: nat := 0;
    ChainStarts(parents, start);
    while current.Some?
      invariant current == Up(parents, start, n) && seen == Trail(parents, start, n)
      invariant current.Some? ==> seen <= parents.Keys
      decreases if current.None? then 0 else 1 + |parents.Keys - seen|
    {
      if current.value in seen {
        Repeats(parents, start, n);
        return false;
      }
      ChainStep(parents, start, n);
      SmallerRemainder(parents.Keys, seen, current.value);
      seen := seen + {current.value};
      current := ParentOf(parents, current.value);
      n := n + 1;
    }
    ChainEnds(parents, start, n);
    return true;
  }

  lemma ChainStarts(parents: Parents, start: nat)
    ensures Up(parents, start, 0) == Some(start) && Trail(parents, start, 0) == {}
  {
  }

  lemma ChainStep(parents: Parents, start: nat, n: nat)
    requires Up(parents, start, n).Some?
    ensures var x := Up(parents, start, n).value;
            && Trail(parents, start, n + 1) == Trail(parents, start, n) + {x}
            && Up(parents, start, n + 1) == ParentOf(parents, x)
            && (x !in parents ==> Up(parents, start, n + 1).None?)
            && (Up(parents, start, n + 1).Some? ==> Trail(parents, start, n + 1) <= parents.Keys)
  {
    TrailStep(parents, start, n);
    if Up(parents, start, n + 1).Some? {
      TrailKnown(parents, start, n + 1);
    }
  }

  lemma ChainEnds(parents: Parents, start: nat, n: nat)
    requires Up(parents, start, n).None?
    ensures Ends(parents, start)
  {
  }

  lemma Repeats(parents: Parents, start: nat, n: nat)
    requires Up(parents, start, n).Some? && Up(parents, start, n).value in Trail(parents, start, n)
    ensures !Ends(parents, start)
  {
    var m: nat :| m < n && Up(parents, start, m).Some? && Up(parents, start, m).value == Up(parents, start, n).value;
    forall k: nat ensures Up(parents, start, k).Some? {
      MeetsItself(parents, start, m, n, k);
    }
  }

  /** `_validate_content_tree`: accepted exactly when every chain of parents ends, that is, when there is no cycle. */
  method ValidateContentTree(records: seq<Record>) returns (ok: bool)
    ensures ok <==> Rooted(ParentsOf(records))
    ensures ok <==> Acyclic(ParentsOf(records))
  {
    var parents: Parents := map[];
    var i := 0;
    assert records[..0] == [];
    while i < |records|
      invariant 0 <= i <= |records| && parents == ParentsOf(records[..i])
    {
      assert records[..i + 1][..i] == records[..i];
      parents := parents[records[i].id := records[i].parent];
      i := i + 1;
    }
    assert records[..|records|] == records;
    AcyclicMeansRooted(parents);
    var starts := parents.Keys;
    while starts != {}
      invariant starts <= parents.Keys
      invariant forall id :: id in parents && id !in starts ==> Ends(parents, id)
      decreases |starts|
    {
      var start :| start in starts;
      var ends := FollowChain(parents, start);
      if !ends {
        return false;
      }
      starts := starts - {start};
    }
    forall id: nat ensures Ends(parents, id) {
      if id !in parents {
        UnknownEnds(parents, id);
      }
    }
    return true;
  }
}
