/** What a provider lists: pages of content under a parent, chained by cursors, and the nodes reachable
    from the root of a course through container edges (sync/discovery.py:399-519). */
module ContentSource {
  import opened Basics

  datatype Coverage = Complete | Partial | Unknown | Stale | Failed

  /** `valid` stands for the type and range checks of `_validate_content` on columns the model does not use. */
  datatype Item = Item(id: nat, course: nat, parent: Option<nat>, container: bool, data: string, valid: bool)

  datatype Response =
    | Page(items: seq<Item>, next: Option<string>, coverage: Coverage)
    | Malformed
    | Fails(category: string)

  /** The answer to the k-th request: by parent and cursor. */
  type Source = (nat, Option<nat>, Option<string>) -> Response

  ghost predicate Deterministic(source: Source) {
    forall k, p, c :: source(k, p, c) == source(0, p, c)
  }

  /** The cursor of the n-th page under a parent. */
  function CursorAt(source: Source, p: Option<nat>, n: nat): Option<Option<string>> {
    if n == 0 then Some(None)
    else
      var before := CursorAt(source, p, n - 1);
      if before.None? then None
      else
        var response := source(0, p, before.value);
        if response.Page? && response.next.Some? then Some(response.next) else None
  }

  ghost predicate OnPage(source: Source, p: Option<nat>, n: nat, item: Item) {
    var cursor := CursorAt(source, p, n);
    cursor.Some? && source(0, p, cursor.value).Page? && item in source(0, p, cursor.value).items
  }

  ghost predicate Listed(source: Source, p: Option<nat>, item: Item) {
    exists n: nat :: OnPage(source, p, n, item)
  }

  /** A way down from the root: each step lists an item under the container before it. */
  ghost predicate IsWay(source: Source, way: seq<Item>) {
    && way != []
    && Listed(source, None, way[0])
    && forall i :: 0 < i < |way| ==> LeadsTo(source, way[i - 1], way[i])
  }

  ghost predicate LeadsTo(source: Source, container: Item, item: Item) {
    container.container && Listed(source, Some(container.id), item)
  }

  ghost predicate Reachable(source: Source, item: Item) {
    exists way :: IsWay(source, way) && way[|way| - 1] == item
  }

  lemma RootReachable(source: Source, item: Item)
    requires Listed(source, None, item)
    ensures Reachable(source, item)
  {
    assert IsWay(source, [item]);
  }

  lemma ChildReachable(source: Source, container: Item, item: Item)
    requires Reachable(source, container) && container.container && Listed(source, Some(container.id), item)
    ensures Reachable(source, item)
  {
    hide Listed;
    var way :| IsWay(source, way) && way[|way| - 1] == container;
    var longer := way + [item];
    forall i | 0 < i < |longer| ensures LeadsTo(source, longer[i - 1], longer[i]) {
      if i < |way| {
        assert longer[i - 1] == way[i - 1] && longer[i] == way[i];
      }
    }
    assert IsWay(source, longer);
  }

  /** The items listed under the root and under every container among them are all there is. */
  ghost predicate Closed(source: Source, observed: seq<Item>) {
    && (forall item :: Listed(source, None, item) ==> item in observed)
    && (forall container, item ::
         container in observed && container.container && Listed(source, Some(container.id), item) ==>
          item in observed)
  }

  lemma {:induction false} ClosedIsAll(source: Source, observed: seq<Item>, way: seq<Item>)
    requires Closed(source, observed) && IsWay(source, way)
    ensures way[|way| - 1] in observed
    decreases |way|
  {
    hide Listed;
    if |way| > 1 {
      var rest := way[..|way| - 1];
      assert IsWay(source, rest) && LeadsTo(source, way[|way| - 2], way[|way| - 1]);
      ClosedIsAll(source, observed, rest);
    }
  }

  lemma ClosedIsReachable(source: Source, observed: seq<Item>, item: Item)
    requires Closed(source, observed) && Reachable(source, item)
    ensures item in observed
  {
    var way :| IsWay(source, way) && way[|way| - 1] == item;
    ClosedIsAll(source, observed, way);
  }

  /** After the last page nothing more is listed. */
  lemma {:induction false} NothingAfter(source: Source, p: Option<nat>, n: nat, m: nat)
    requires CursorAt(source, p, n).Some? && source(0, p, CursorAt(source, p, n).value).Page? &&
             source(0, p, CursorAt(source, p, n).value).next.None?
    requires n < m
    ensures CursorAt(source, p, m).None?
  {
    if m > n + 1 {
      NothingAfter(source, p, n, m - 1);
    }
  }
}
