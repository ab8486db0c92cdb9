/** Chains of parents: the one notion of acyclicity behind the stored content forest and the check of a
    captured tree (storage/repository.py, `_parent_reaches_node`; client/browser_capture.py,
    `_validate_content_tree`). */
module ParentChains {
  import opened Basics

  type Parents = map<nat, Option<nat>>

  /** The parent of an identifier; none when the identifier is unknown. */
  function ParentOf(parents: Parents, id: nat): Option<nat> {
    if id in parents then parents[id] else None
  }

  /** The n-th ancestor. */
  function Up(parents: Parents, id: nat, n: nat): Option<nat> {
    if n == 0 then Some(id)
    else
      var below := Up(parents, id, n - 1);
      if below.None? then None else ParentOf(parents, below.value)
  }

  ghost predicate Reaches(parents: Parents, a: nat, b: nat) {
    exists n: nat :: Up(parents, a, n) == Some(b)
  }

  ghost predicate Acyclic(parents: Parents) {
    forall id: nat, n: nat :: n > 0 ==> Up(parents, id, n) != Some(id)
  }

  /** Every chain of parents ends at a root. */
  ghost predicate Rooted(parents: Parents) {
    forall id: nat :: Ends(parents, id)
  }

  ghost predicate Ends(parents: Parents, id: nat) {
    exists n: nat :: Up(parents, id, n).None?
  }

  lemma {:induction false} UpAdds(parents: Parents, id: nat, m: nat, n: nat)
    requires Up(parents, id, m).Some?
    ensures Up(parents, id, m + n) == Up(parents, Up(parents, id, m).value, n)
  {
    if n > 0 {
      UpAdds(parents, id, m, n - 1);
    }
  }

  lemma {:induction false} UpEarlier(parents: Parents, id: nat, m: nat, n: nat)
    requires m <= n && Up(parents, id, n).Some?
    ensures Up(parents, id, m).Some?
  {
    if m < n {
      UpEarlier(parents, id, m, n - 1);
    }
  }

  /** A chain that meets itself never ends. */
  lemma {:induction false} MeetsItself(parents: Parents, id: nat, m: nat, n: nat, k: nat)
    requires m < n && Up(parents, id, n).Some? && Up(parents, id, m) == Up(parents, id, n)
    ensures Up(parents, id, k).Some?
    decreases k
  {
    if k <= n {
      UpEarlier(parents, id, k, n);
    } else {
      MeetsItself(parents, id, m, n, k - (n - m));
      UpAdds(parents, id, n, k - n);
      UpAdds(parents, id, m, k - n);
    }
  }

  /** The members of a chain before its n-th ancestor. */
  function Trail(parents: Parents, id: nat, n: nat): set<nat> {
    set m | 0 <= m < n && Up(parents, id, m).Some? :: Up(parents, id, m).value
  }

  lemma TrailStep(parents: Parents, id: nat, n: nat)
    requires Up(parents, id, n).Some?
    ensures Trail(parents, id, n + 1) == Trail(parents, id, n) + {Up(parents, id, n).value}
  {
  }

  lemma TrailKnown(parents: Parents, id: nat, n: nat)
    requires Up(parents, id, n).Some?
    ensures Trail(parents, id, n) <= parents.Keys
  {
    forall m: nat | m < n ensures Up(parents, id, m).Some? && Up(parents, id, m).value in parents {
      UpEarlier(parents, id, m + 1, n);
      UpEarlier(parents, id, m, n);
    }
  }

  /** Acyclic chains are exactly those that end: a finite map leaves no room for an endless one. */
  lemma AcyclicMeansRooted(parents: Parents)
    ensures Acyclic(parents) <==> Rooted(parents)
  {
    if Acyclic(parents) {
      forall id: nat ensures Ends(parents, id) {
        NoRoom(parents, id, |parents| + 1);
      }
    }
    if Rooted(parents) {
      forall id: nat, n: nat | n > 0 ensures Up(parents, id, n) != Some(id) {
        assert Ends(parents, id);
        var k: nat :| Up(parents, id, k).None?;
        if Up(parents, id, n) == Some(id) {
          MeetsItself(parents, id, 0, n, k);
          assert false;
        }
      }
    }
  }

  /** The members of an acyclic chain are different, so it cannot outgrow the map. */
  lemma {:induction false} NoRoom(parents: Parents, id: nat, n: nat)
    requires Acyclic(parents)
    ensures Up(parents, id, n).Some? ==> |Trail(parents, id, n)| == n
    ensures n > |parents| ==> Up(parents, id, n).None?
  {
    if n > 0 && Up(parents, id, n).Some? {
      UpEarlier(parents, id, n - 1, n);
      NoRoom(parents, id, n - 1);
      TrailStep(parents, id, n - 1);
      NewMember(parents, id, n - 1);
      TrailKnown(parents, id, n);
      SubsetSize(Trail(parents, id, n), parents.Keys);
    }
  }

  lemma NewMember(parents: Parents, id: nat, n: nat)
    requires Acyclic(parents) && Up(parents, id, n).Some?
    ensures Up(parents, id, n).value !in Trail(parents, id, n)
  {
    forall m: nat | m < n && Up(parents, id, m).Some? ensures Up(parents, id, m) != Up(parents, id, n) {
      UpAdds(parents, id, m, n - m);
    }
  }

  // ----- hanging an identifier under a new parent

  /** The first n members of a chain are not `id`. */
  ghost predicate Avoids(parents: Parents, a: nat, id: nat, n: nat) {
    forall m: nat :: m < n ==> Up(parents, a, m) != Some(id)
  }

  /** A chain that does not pass `id` does not notice where `id` hangs. */
  lemma {:induction false} Unnoticed(parents: Parents, id: nat, p: Option<nat>, a: nat, n: nat)
    requires Avoids(parents, a, id, n)
    ensures forall m: nat :: m <= n ==> Up(parents[id := p], a, m) == Up(parents, a, m)
  {
    if n > 0 {
      Unnoticed(parents, id, p, a, n - 1);
    }
  }

  /** The first time a chain arrives. */
  lemma FirstArrival(parents: Parents, a: nat, b: nat, n: nat) returns (k: nat)
    requires Up(parents, a, n) == Some(b)
    ensures k <= n && Up(parents, a, k) == Some(b) && Avoids(parents, a, b, k)
  {
    k := 0;
    while Up(parents, a, k) != Some(b)
      invariant k <= n
      invariant Avoids(parents, a, b, k)
      decreases n - k
    {
      k := k + 1;
    }
  }

  /** Hanging `id` under `p` closes a cycle exactly when `p` already hangs under `id`. */
  lemma ClosesCycle(parents: Parents, id: nat, p: nat)
    requires Acyclic(parents)
    ensures Acyclic(parents[id := Some(p)]) <==> !Reaches(parents, p, id)
  {
    var hung := parents[id := Some(p)];
    if Reaches(parents, p, id) {
      var n: nat :| Up(parents, p, n) == Some(id);
      var k := FirstArrival(parents, p, id, n);
      Unnoticed(parents, id, Some(p), p, k);
      assert Up(hung, id, 1) == Some(p) by { assert Up(hung, id, 0) == Some(id); }
      UpAdds(hung, id, 1, k);
      assert Up(hung, id, k + 1) == Some(id);
    } else {
      forall x: nat, n: nat | n > 0 ensures Up(hung, x, n) != Some(x) {
        NoNewCycle(parents, id, Some(p), x, n);
      }
    }
  }

  /** Any cycle through the new edge would already lead from the new parent back to `id`. */
  lemma NoNewCycle(parents: Parents, id: nat, p: Option<nat>, x: nat, n: nat)
    requires Acyclic(parents) && (p.Some? ==> !Reaches(parents, p.value, id)) && n > 0
    ensures Up(parents[id := p], x, n) != Some(x)
  {
    var hung := parents[id := p];
    if Up(hung, x, n) == Some(x) {
      if m: nat :| m < n && Up(hung, x, m) == Some(id) {
        UpAdds(hung, x, n, m);
        UpAdds(hung, x, m, n);
        assert Up(hung, id, n) == Some(id) by { assert Up(hung, x, n + m) == Up(hung, x, m + n); }
        Comeback(parents, id, p, n);
      } else {
        Unseen(parents, id, p, x, n);
      }
      assert false;
    }
  }

  lemma Unseen(parents: Parents, id: nat, p: Option<nat>, x: nat, n: nat)
    requires Avoids(parents[id := p], x, id, n)
    ensures Up(parents[id := p], x, n) == Up(parents, x, n)
  {
    var back := parents[id := p][id := ParentOf(parents, id)];
    Unnoticed(parents[id := p], id, ParentOf(parents, id), x, n);
    SameUp(parents, back, x, n);
  }

  lemma {:induction false} SameUp(parents: Parents, other: Parents, x: nat, n: nat)
    requires forall y :: ParentOf(parents, y) == ParentOf(other, y)
    ensures Up(parents, x, n) == Up(other, x, n)
  {
    if n > 0 {
      SameUp(parents, other, x, n - 1);
    }
  }

  lemma Comeback(parents: Parents, id: nat, p: Option<nat>, n: nat)
    requires p.Some? ==> !Reaches(parents, p.value, id)
    requires n > 0
    ensures Up(parents[id := p], id, n) != Some(id)
  {
    var hung := parents[id := p];
    assert Up(hung, id, 0) == Some(id);
    assert Up(hung, id, 1) == p;
    if p.None? {
      if Up(hung, id, n).Some? {
        UpEarlier(hung, id, 1, n);
        assert false;
      }
    } else if Up(hung, id, n) == Some(id) {
      UpAdds(hung, id, 1, n - 1);
      var k := FirstArrival(hung, p.value, id, n - 1);
      Unseen(parents, id, p, p.value, k);
      assert Reaches(parents, p.value, id);
      assert false;
    }
  }
}
