/** The bounded breadth-first traversal of a course (sync/discovery.py, `_content` and `_Progress`). */
module Discovery {
  import opened Basics
  import opened ContentForest
  import opened ContentSource

  datatype Category = PageLimit | NodeLimit | CursorCycle | ProtocolError | Unavailable | Reported(category: string)

  datatype Warning = PageCap | NodeCap | PaginationCycle | DuplicateNode | PagePartial | PageUnknown | SourceFailed

  /** How the walk goes on after an item, a page or a parent. */
  datatype Step = Next | Stop | Raise(category: Category)

  // ----- what the traversal keeps

  ghost predicate Ids(observed: seq<Item>, seen: set<nat>) {
    && (forall i :: 0 <= i < |observed| ==> observed[i].id in seen)
    && (forall x :: x in seen ==> exists i :: 0 <= i < |observed| && observed[i].id == x)
    && DistinctIds(observed)
  }

  ghost predicate DistinctIds(observed: seq<Item>) {
    forall i, j :: 0 <= i < j < |observed| ==> observed[i].id != observed[j].id
  }

  /** A parent to expand: the root or an observed container. */
  ghost predicate IsParent(observed: seq<Item>, p: Option<nat>) {
    p.Some? ==> exists i :: 0 <= i < |observed| && observed[i].id == p.value && observed[i].container
  }

  ghost predicate Queued(observed: seq<Item>, parents: seq<Option<nat>>, queued: set<nat>, visited: set<Option<nat>>) {
    && NoDuplicates(parents)
    && (forall i :: 0 <= i < |parents| ==> IsParent(observed, parents[i]) && parents[i] !in visited)
    && (forall i :: 0 <= i < |parents| && parents[i].Some? ==> parents[i].value in queued)
    && (forall p :: p in visited ==> IsParent(observed, p) && (p.Some? ==> p.value in queued))
    && (forall x :: x in queued ==> exists i :: 0 <= i < |observed| && observed[i].id == x)
  }

  /** Everything observed is reachable. */
  ghost predicate OnlyReachable(source: Source, observed: seq<Item>) {
    forall i :: 0 <= i < |observed| ==> Reachable(source, observed[i])
  }

  /** Root and observed containers wait in the queue or were expanded. */
  ghost predicate AllQueued(observed: seq<Item>, parents: seq<Option<nat>>, visited: set<Option<nat>>) {
    && (None in parents || None in visited)
    && forall i :: 0 <= i < |observed| && observed[i].container ==>
         Some(observed[i].id) in parents || Some(observed[i].id) in visited
  }

  ghost predicate AllListed(source: Source, observed: seq<Item>, done: set<Option<nat>>) {
    forall p, item :: p in done && Listed(source, p, item) ==> item in observed
  }

  ghost predicate PagesListed(source: Source, observed: seq<Item>, p: Option<nat>, n: nat) {
    forall m: nat, item :: m < n && OnPage(source, p, m, item) ==> item in observed
  }

  lemma QueueNext(observed: seq<Item>, parents: seq<Option<nat>>, queued: set<nat>, visited: set<Option<nat>>)
    requires Queued(observed, parents, queued, visited) && parents != []
    ensures parents[0] !in visited && IsParent(observed, parents[0])
    ensures Queued(observed, parents[1..], queued, visited + {parents[0]})
    ensures AllQueued(observed, parents, visited) ==> AllQueued(observed, parents[1..], visited + {parents[0]})
  {
  }

  lemma QueueCleared(observed: seq<Item>, parents: seq<Option<nat>>, queued: set<nat>, visited: set<Option<nat>>)
    requires Queued(observed, parents, queued, visited)
    ensures Queued(observed, [], queued, visited)
  {
  }

  lemma QueueItem(observed: seq<Item>, parents: seq<Option<nat>>, queued: set<nat>, visited: set<Option<nat>>,
                  seen: set<nat>, item: Item)
    requires Queued(observed, parents, queued, visited) && Ids(observed, seen) && item.id !in seen
    ensures item.id !in queued && Ids(observed + [item], seen + {item.id})
    ensures item.container ==> Queued(observed + [item], parents + [Some(item.id)], queued + {item.id}, visited)
    ensures !item.container ==> Queued(observed + [item], parents, queued, visited)
    ensures AllQueued(observed, parents, visited) ==>
              AllQueued(observed + [item], if item.container then parents + [Some(item.id)] else parents, visited)
  {
    var after := observed + [item];
    assert forall i :: 0 <= i < |observed| ==> after[i] == observed[i];
    assert after[|observed|] == item;
    forall p | IsParent(observed, p) ensures IsParent(after, p) {
      if p.Some? {
        var i :| 0 <= i < |observed| && observed[i].id == p.value && observed[i].container;
        assert after[i].id == p.value;
      }
    }
    forall x | x in queued ensures exists i :: 0 <= i < |after| && after[i].id == x {
      var i :| 0 <= i < |observed| && observed[i].id == x;
      assert after[i].id == x;
    }
    forall x | x in seen ensures exists i :: 0 <= i < |after| && after[i].id == x {
      var i :| 0 <= i < |observed| && observed[i].id == x;
      assert after[i].id == x;
    }
  }

  /** The store shows what was observed, and is untouched elsewhere. */
  ghost predicate Mirrors(nodes: map<nat, Node>, forest: map<nat, Node>, observed: seq<Item>, seen: set<nat>,
                          course: nat) {
    && (forall i :: 0 <= i < |observed| ==>
          && observed[i].id in nodes && nodes[observed[i].id].course == course
          && nodes[observed[i].id].parent == observed[i].parent && nodes[observed[i].id].data == observed[i].data
          && (observed[i].parent.Some? ==> observed[i].parent.value in seen))
    && (forall x :: x in forest && x !in seen ==> x in nodes && nodes[x] == forest[x])
    && (forall x :: x in nodes && x !in seen ==> x in forest)
  }

  /** No stored node was seen later than the clock of the run, or belongs to another course than it is listed in. */
  ghost predicate Fresh(source: Source, forest: map<nat, Node>, courses: set<nat>, course: nat, clock: nat -> int) {
    && course in courses
    && (forall x, k :: x in forest ==> forest[x].last <= clock(k))
    && (forall k, p, c, item :: source(k, p, c).Page? && item in source(k, p, c).items && item.id in forest ==>
          forest[item.id].course == course)
  }

  /** Following cursors always moves on, by some measure of a cursor. */
  ghost predicate Advancing(source: Source, rank: Option<string> -> nat) {
    forall k, p, c :: source(k, p, c).Page? && source(k, p, c).next.Some? ==> rank(c) < rank(source(k, p, c).next)
  }

  lemma FreshPut(courses: set<nat>, nodes: map<nat, Node>, forest: map<nat, Node>, observed: seq<Item>, seen: set<nat>,
                 course: nat,
                 item: Item, time: int)
    requires ForestOk(courses, nodes) && Mirrors(nodes, forest, observed, seen, course) && Ids(observed, seen)
    requires course in courses && item.id !in seen &&
      (item.id in forest ==> forest[item.id].course == course && forest[item.id].last <= time)
    requires item.parent.Some? ==> item.parent.value in seen
    ensures var outcome := Putting(courses, nodes, item.id, course, item.parent, item.data, time);
            outcome.Stored? && Mirrors(outcome.nodes, forest, observed + [item], seen + {item.id}, course)
  {
    forall x | x in seen
      ensures x in nodes && nodes[x].course == course && (nodes[x].parent.Some? ==> nodes[x].parent.value in seen)
    {
      var i :| 0 <= i < |observed| && observed[i].id == x;
    }
    FreshNodeHangs(courses, nodes, seen, item.id, course, item.parent, item.data, time);
  }

  lemma ReachableItem(source: Source, observed: seq<Item>, p: Option<nat>, item: Item)
    requires OnlyReachable(source, observed) && IsParent(observed, p) && Listed(source, p, item)
    ensures OnlyReachable(source, observed + [item])
  {
    hide Reachable, Listed;
    if p.None? {
      RootReachable(source, item);
    } else {
      var i :| 0 <= i < |observed| && observed[i].id == p.value && observed[i].container;
      ChildReachable(source, observed[i], item);
    }
  }

  /** All expanded and all containers expanded: what was observed is what is reachable. */
  lemma NothingLeft(source: Source, observed: seq<Item>, visited: set<Option<nat>>)
    requires OnlyReachable(source, observed) && AllQueued(observed, [], visited) && AllListed(source, observed, visited)
    ensures forall item :: Reachable(source, item) <==> item in observed
  {
    hide Listed, Reachable;
    assert Closed(source, observed) by {
      forall container, item | container in observed && container.container && Listed(source, Some(container.id), item)
        ensures item in observed
      {
        var i :| 0 <= i < |observed| && observed[i] == container;
      }
    }
    forall item | Reachable(source, item) ensures item in observed {
      ClosedIsReachable(source, observed, item);
    }
  }

  lemma ListedGrow(source: Source, observed: seq<Item>, more: seq<Item>, done: set<Option<nat>>, p: Option<nat>, n: nat)
    requires observed <= more
    ensures AllListed(source, observed, done) ==> AllListed(source, more, done)
    ensures PagesListed(source, observed, p, n) ==> PagesListed(source, more, p, n)
  {
    hide Listed, OnPage;
    forall item | item in observed ensures item in more {
      var i :| 0 <= i < |observed| && observed[i] == item;
      assert more[i] == item;
    }
  }

  lemma StillIn(observed: seq<Item>, more: seq<Item>)
    requires observed <= more
    ensures forall item :: item in observed ==> item in more
  {
    forall item | item in observed ensures item in more {
      var i :| 0 <= i < |observed| && observed[i] == item;
      assert more[i] == item;
    }
  }

  lemma PageDone(source: Source, observed: seq<Item>, p: Option<nat>, n: nat, cursor: Option<string>)
    requires PagesListed(source, observed, p, n) && CursorAt(source, p, n) == Some(cursor) && source(0, p, cursor).Page?
    requires forall item :: item in source(0, p, cursor).items ==> item in observed
    ensures PagesListed(source, observed, p, n + 1)
  {
    forall m: nat, item | m < n + 1 && OnPage(source, p, m, item) ensures item in observed {
      assert m < n || m == n;
    }
  }

  lemma ParentDone(source: Source, observed: seq<Item>, p: Option<nat>, n: nat, cursor: Option<string>,
                   done: set<Option<nat>>)
    requires CursorAt(source, p, n) == Some(cursor) && source(0, p, cursor).Page? && source(0, p, cursor).next.None?
    requires PagesListed(source, observed, p, n + 1) && AllListed(source, observed, done)
    ensures AllListed(source, observed, done + {p})
  {
    forall item | Listed(source, p, item) ensures item in observed {
      var m: nat :| OnPage(source, p, m, item);
      if m > n {
        NothingAfter(source, p, n, m);
        assert false;
      }
    }
    hide Listed;
  }

  lemma NothingListedYet(source: Source, p: Option<nat>, observed: seq<Item>)
    ensures CursorAt(source, p, 0) == Some(None) && PagesListed(source, observed, p, 0)
  {
  }

  // ----- a provider in order

  type PageKey = (Option<nat>, Option<string>)

  function IdsOf(items: seq<Item>): set<nat> {
    set i | 0 <= i < |items| :: items[i].id
  }

  /** An item that belongs under `p` in the course. */
  ghost predicate GoodItem(item: Item, p: Option<nat>, course: nat) {
    item.valid && item.course == course && item.parent == p
  }

  /** Items as a page under `p` should list them. */
  ghost predicate GoodItems(items: seq<Item>, p: Option<nat>, course: nat) {
    && (forall i :: 0 <= i < |items| ==> GoodItem(items[i], p, course))
    && DistinctIds(items)
  }

  ghost predicate GoodPage(source: Source, course: nat, pages: set<PageKey>, ids: set<nat>, q: PageKey) {
    var response := source(0, q.0, q.1);
    && response.Page? && response.coverage.Complete? && GoodItems(response.items, q.0, course)
    && (response.next.Some? ==> (q.0, response.next) in pages)
    && forall i :: 0 <= i < |response.items| ==>
         response.items[i].id in ids && (response.items[i].container ==> (Some(response.items[i].id), None) in pages)
  }

  /** The page lists an item of this identifier. */
  ghost predicate Lists(source: Source, q: PageKey, x: nat) {
    var response := source(0, q.0, q.1);
    response.Page? && exists i :: 0 <= i < |response.items| && response.items[i].id == x
  }

  /** The provider lists, on these pages and under these identifiers, a complete content tree of the course. */
  ghost predicate InOrder(source: Source, course: nat, pages: set<PageKey>, ids: set<nat>) {
    && (None, None) in pages
    && (forall q :: q in pages ==> GoodPage(source, course, pages, ids, q))
    && (forall q, r, x :: q in pages && r in pages && Lists(source, q, x) && Lists(source, r, x) ==> q == r)
  }

  /** Whatever was seen is listed on a page already read. */
  ghost predicate SeenFrom(source: Source, seen: set<nat>, read: set<PageKey>) {
    forall x :: x in seen ==> exists q :: q in read && Lists(source, q, x)
  }

  lemma {:induction false} IdsCount(items: seq<Item>)
    requires DistinctIds(items)
    ensures |IdsOf(items)| == |items|
    decreases |items|
  {
    if items != [] {
      var n := |items| - 1;
      IdsCount(items[..n]);
      assert IdsOf(items) == IdsOf(items[..n]) + {items[n].id};
    } else {
      assert IdsOf(items) == {};
    }
  }

  lemma SeenCount(observed: seq<Item>, seen: set<nat>)
    requires Ids(observed, seen)
    ensures |seen| == |observed|
  {
    IdsCount(observed);
    assert IdsOf(observed) == seen;
  }

  /** A page not read before fits: its items are new, and there is room for them and for the page. */
  lemma PageFits(source: Source, course: nat, pages: set<PageKey>, ids: set<nat>, read: set<PageKey>, seen: set<nat>,
                 q: PageKey)
    requires InOrder(source, course, pages, ids) && q in pages && q !in read && read <= pages &&
      SeenFrom(source, seen, read)
    ensures |read| < |pages|
    ensures GoodPage(source, course, pages, ids, q) && seen !! IdsOf(source(0, q.0, q.1).items)
    ensures |seen| + |source(0, q.0, q.1).items| <= |ids|
  {
    hide GoodItems;
    assert read + {q} <= pages;
    SubsetSize(read + {q}, pages);
    var items := source(0, q.0, q.1).items;
    assert GoodPage(source, course, pages, ids, q);
    forall x | x in IdsOf(items) ensures x in ids && x !in seen {
      var i :| 0 <= i < |items| && items[i].id == x;
      assert Lists(source, q, x);
      assert forall r :: r in read ==> r in pages && !Lists(source, r, x);
    }
    forall x | x in seen ensures x in ids {
      var r :| r in read && Lists(source, r, x);
      assert GoodPage(source, course, pages, ids, r);
    }
    GoodItemsDistinct(items, q.0, course);
    IdsCount(items);
    SubsetSize(seen + IdsOf(items), ids);
    assert |seen + IdsOf(items)| == |seen| + |IdsOf(items)|;
  }

  lemma GoodItemsDistinct(items: seq<Item>, p: Option<nat>, course: nat)
    requires GoodItems(items, p, course)
    ensures DistinctIds(items)
  {
  }

  lemma PageSeen(source: Source, seen: set<nat>, read: set<PageKey>, q: PageKey)
    requires SeenFrom(source, seen, read) && source(0, q.0, q.1).Page?
    ensures SeenFrom(source, seen + IdsOf(source(0, q.0, q.1).items), read + {q})
  {
    var items := source(0, q.0, q.1).items;
    forall x | x in seen + IdsOf(items) ensures exists r :: r in read + {q} && Lists(source, r, x) {
      if x in IdsOf(items) {
        assert Lists(source, q, x);
      } else {
        var r :| r in read && Lists(source, r, x);
        assert r in read + {q};
      }
    }
  }

  /** Some request was answered with this failure. */
  ghost predicate Failing(source: Source, category: string) {
    exists k, p, c :: source(k, p, c) == Fails(category)
  }

  /** Some request was answered out of order: no page, a coverage no page has, or an item that does not belong. */
  ghost predicate Unruly(source: Source, course: nat) {
    exists k, p, c :: OutOfOrder(source(k, p, c), p, course)
  }

  ghost predicate OutOfOrder(response: Response, p: Option<nat>, course: nat) {
    match response
    case Malformed => true
    case Fails(_) => false
    case Page(items, _, coverage) =>
      coverage.Stale? || coverage.Failed? || exists i :: 0 <= i < |items| && !GoodItem(items[i], p, course)
  }

  // ----- the traversal

  class ContentDiscovery {
    const source: Source
    const repository: Repository
    const course: nat
    const clock: nat -> int
    const maxPages: nat
    const maxNodes: nat

    ghost const rank: Option<string> -> nat
    ghost const forest: map<nat, Node>
    ghost const courses: set<nat>
    ghost const pages: set<PageKey>
    ghost const ids: set<nat>

    var pagesSeen: nat
    var itemsSeen: nat
    var paginationComplete: bool
    var coverage: Coverage
    var failure: Option<Category>
    var warnings: seq<Warning>

    var parents: seq<Option<nat>>
    var queued: set<nat>
    var visited: set<Option<nat>>
    var seen: set<nat>
    var observed: seq<Item>

    /** A put was refused; the parents expanded and the pages read so far. */
    ghost var refused: bool
    ghost var expanded: seq<Option<nat>>
    ghost var read: set<PageKey>

    constructor (source: Source, repository: Repository, course: nat, clock: nat -> int, maxPages: nat, maxNodes: nat,
                 ghost rank: Option<string> -> nat, ghost pages: set<PageKey>, ghost ids: set<nat>)
      requires repository.Valid()
      ensures this.source == source && this.repository == repository && this.course == course && this.clock == clock
      ensures this.maxPages == maxPages && this.maxNodes == maxNodes && this.rank == rank
      ensures this.pages == pages && this.ids == ids && Smooth()
      ensures forest == repository.nodes && courses == repository.courses.Keys
      ensures fresh(this) && parents == [None] && observed == [] && expanded == [] && Steady()
      ensures coverage.Complete? && failure.None? && visited == {} && pagesSeen == 0
    {
      this.source, this.repository, this.course, this.clock := source, repository, course, clock;
      this.maxPages, this.maxNodes := maxPages, maxNodes;
      this.rank, forest, courses := rank, repository.nodes, repository.courses.Keys;
      pagesSeen, itemsSeen, paginationComplete, coverage, failure, warnings := 0, 0, false, Complete, None, [];
      parents, queued, visited, seen, observed := [None], {}, {}, {}, [];
      this.pages, this.ids := pages, ids;
      refused, expanded, read := false, [], {};
    }

    ghost predicate IsFresh() {
      Fresh(source, forest, courses, course, clock)
    }

    /** The provider is in order and moves on, the store is fresh, and everything fits the caps. */
    ghost predicate Benign() {
      && Deterministic(source) && Advancing(source, rank) && IsFresh()
      && InOrder(source, course, pages, ids) && |pages| <= maxPages && |ids| <= maxNodes
    }

    /** Then nothing goes wrong. */
    ghost predicate Smooth()
      reads this
    {
      Benign() ==>
        failure.None? && coverage.Complete? && |read| == pagesSeen && Following(parents, visited, seen, read)
    }

    /** The pages read, and those the queue leads to, are pages of the provider. */
    ghost predicate Following(parents: seq<Option<nat>>, visited: set<Option<nat>>, seen: set<nat>,
                              read: set<PageKey>) {
      && read <= pages && SeenFrom(source, seen, read) && (forall q :: q in read ==> q.0 in visited)
      && forall p :: p in parents ==> (p, None) in pages
    }

    /** The page at this cursor is one of the provider, and comes after those read under its parent. */
    ghost predicate Ahead(read: set<PageKey>, p: Option<nat>, cursor: Option<string>) {
      (p, cursor) in pages && forall q :: q in read && q.0 == p ==> rank(q.1) < rank(cursor)
    }

    /** What a failure says about the traversal. */
    ghost predicate Explained(category: Category)
      reads this
    {
      match category
      case PageLimit => pagesSeen == maxPages
      case NodeLimit => itemsSeen == maxNodes
      case CursorCycle => !Advancing(source, rank)
      case Unavailable => refused
      case Reported(reason) => Failing(source, reason)
      case ProtocolError => Unruly(source, course) || DuplicateNode in warnings
    }

    /** Caps, distinct identifiers and what the coverage says: true at every point, failures included. */
    ghost predicate Bounded()
      reads this, repository
    {
      && repository.Valid() && repository.courses.Keys == courses
      && pagesSeen <= maxPages && itemsSeen == |observed| <= maxNodes
      && DistinctIds(observed)
      && (coverage.Complete? <==> warnings == [])
      && (failure.Some? ==> !coverage.Complete?)
      && (failure.Some? ==> Explained(failure.value))
      && NoDuplicates(expanded) && (forall p :: p in visited <==> p in expanded)
      && (Deterministic(source) ==> OnlyReachable(source, observed))
      && (IsFresh() ==> !refused)
    }

    /** Between two items, pages or parents. */
    ghost predicate Steady()
      reads this, repository
    {
      && Bounded() && !paginationComplete
      && Ids(observed, seen) && Queued(observed, parents, queued, visited)
      && (failure.None? ==> AllQueued(observed, parents, visited))
      && (IsFresh() ==> Mirrors(repository.nodes, forest, observed, seen, course))
    }

    // ----- progress

    method Warn(warning: Warning)
      modifies this`warnings
      ensures warning in warnings && old(warnings) <= warnings
    {
      if warning !in warnings {
        warnings := warnings + [warning];
      }
    }

    /** `_partial`. */
    method MarkPartial(category: Category, warning: Warning)
      modifies this`coverage, this`failure, this`paginationComplete, this`warnings
      ensures coverage == Partial && failure == Some(category) && !paginationComplete
      ensures warning in warnings && old(warnings) <= warnings
    {
      coverage, failure, paginationComplete := Partial, Some(category), false;
      Warn(warning);
    }

    /** `_merge_page_coverage`; a page never makes the scope better. */
    method MergePageCoverage(page: Coverage) returns (step: Step)
      requires coverage.Complete? <==> warnings == []
      modifies this`coverage, this`warnings
      ensures step == if page.Stale? || page.Failed? then Raise(ProtocolError) else Next
      ensures coverage.Complete? <==> warnings == []
      ensures coverage ==
                if page.Partial? || (page.Unknown? && old(coverage).Complete?) then page else old(coverage)
      ensures old(warnings) <= warnings
    {
      step := Next;
      match page
      case Partial =>
        coverage := Partial;
        Warn(PagePartial);
      case Unknown =>
        if coverage.Complete? {
          coverage := Unknown;
          Warn(PageUnknown);
        }
      case Stale => step := Raise(ProtocolError);
      case Failed => step := Raise(ProtocolError);
      case Complete =>
    }

    /** `_source_failure`. */
    method SourceFailure(category: Category)
      requires Bounded() && category != CursorCycle && Explained(category) && !Benign()
      modifies this`coverage, this`failure, this`paginationComplete, this`warnings
      ensures Bounded() && Smooth() && !paginationComplete && failure == Some(category)
      ensures coverage == if pagesSeen > 0 then Partial else Failed
    {
      hide Benign, OnlyReachable, DistinctIds, NoDuplicates, Unruly, Failing, Advancing, IsFresh, Deterministic,
        ForestOk;
      coverage := if pagesSeen > 0 then Partial else Failed;
      paginationComplete := false;
      failure := Some(category);
      Warn(SourceFailed);
    }

    // ----- items, pages, parents

    /** One item of a page under `p`. */
    method TakeItem(p: Option<nat>, item: Item) returns (step: Step)
      requires Steady() && p in visited
      requires Deterministic(source) ==> Listed(source, p, item)
      requires IsFresh() && item.id in forest ==> forest[item.id].course == course
      requires GoodItem(item, p, course) || Unruly(source, course)
      modifies this, repository`nodes
      ensures Bounded() && visited == old(visited) && expanded == old(expanded) && pagesSeen == old(pagesSeen)
      ensures !step.Raise? ==> Steady()
      ensures old(observed) <= observed && (failure.None? ==> old(failure).None?)
      ensures step.Next? && failure.None? ==> item in observed
      ensures step.Next? ==> failure == old(failure) || failure == Some(ProtocolError)
      ensures step.Stop? ==> failure == Some(NodeLimit)
      ensures step.Raise? ==> step.category != CursorCycle && Explained(step.category)
      ensures read == old(read) && forall q :: q in parents ==>
        q in old(parents) || (item.container && q == Some(item.id))
      ensures GoodItem(item, p, course) && old(item.id !in seen && itemsSeen < maxNodes) && IsFresh() ==>
                && step.Next? && failure == old(failure) && coverage == old(coverage)
                && seen == old(seen) + {item.id} && itemsSeen == old(itemsSeen) + 1
    {
      hide Queued, OnlyReachable, AllQueued, Mirrors, Fresh, NoDuplicates, Listed, Deterministic, ForestOk,
        DistinctIds, Ids, IsFresh, Advancing, Failing, Unruly;
      if !item.valid || item.course != course || item.parent != p {
        return Raise(ProtocolError);
      }
      if item.id in seen {
        MarkPartial(ProtocolError, DuplicateNode);
        return Next;
      }
      if itemsSeen >= maxNodes {
        MarkPartial(NodeLimit, NodeCap);
        QueueCleared(observed, parents, queued, visited);
        parents := [];
        return Stop;
      }
      step := Accept(p, item);
    }

    /** A new item: stored, then listed, then queued if it is a container. */
    method Accept(p: Option<nat>, item: Item) returns (step: Step)
      requires Steady() && p in visited && GoodItem(item, p, course) && item.id !in seen && itemsSeen < maxNodes
      requires Deterministic(source) ==> Listed(source, p, item)
      requires IsFresh() && item.id in forest ==> forest[item.id].course == course
      modifies this, repository`nodes
      ensures Bounded() && visited == old(visited) && expanded == old(expanded) && pagesSeen == old(pagesSeen)
      ensures coverage == old(coverage) && failure == old(failure) && read == old(read)
      ensures step == Next || (step == Raise(Unavailable) && refused)
      ensures forall q :: q in parents ==> q in old(parents) || (item.container && q == Some(item.id))
      ensures IsFresh() ==> step.Next? && seen == old(seen) + {item.id} && itemsSeen == old(itemsSeen) + 1
      ensures if step.Next? then Steady() && observed == old(observed) + [item] else observed == old(observed)
    {
      hide Queued, OnlyReachable, AllQueued, Mirrors, Fresh, NoDuplicates, Listed, Deterministic, ForestOk, Putting,
        DistinctIds, Ids, IsParent, Benign, Following, IsFresh, Advancing, Failing, Unruly, Observed, Tree;
      var time := clock(itemsSeen);
      AcceptFacts(p, item, time);
      var stored := Store(p, item, time);
      if !stored {
        return Raise(Unavailable);
      }
      Enlist(item);
      return Next;
    }

    /** Lists the item, and queues it if it is a container not yet queued. */
    method Enlist(item: Item)
      requires Bounded() && !paginationComplete && itemsSeen < maxNodes && item.id !in queued
      requires Ids(observed + [item], seen) && DistinctIds(observed + [item])
      requires Queued(observed + [item], if item.container then parents + [Some(item.id)] else parents,
                      if item.container then queued + {item.id} else queued, visited)
      requires failure.None? ==>
                 AllQueued(observed + [item], if item.container then parents + [Some(item.id)] else parents, visited)
      requires Deterministic(source) ==> OnlyReachable(source, observed + [item])
      requires IsFresh() ==> Mirrors(repository.nodes, forest, observed + [item], seen, course)
      modifies this`observed, this`itemsSeen, this`parents, this`queued
      ensures Steady() && observed == old(observed) + [item] && itemsSeen == old(itemsSeen) + 1
      ensures parents == if item.container then old(parents) + [Some(item.id)] else old(parents)
      ensures queued == if item.container then old(queued) + {item.id} else old(queued)
    {
      hide Queued, OnlyReachable, AllQueued, Mirrors, NoDuplicates, Deterministic, ForestOk, DistinctIds, Ids,
        IsFresh, Advancing, Failing, Unruly;
      observed := observed + [item];
      itemsSeen := itemsSeen + 1;
      if item.container && item.id !in queued {
        parents := parents + [Some(item.id)];
        queued := queued + {item.id};
      }
    }

    /** Marks the item as seen and puts it; a refused put ends the run. */
    method Store(p: Option<nat>, item: Item, time: int) returns (stored: bool)
      requires repository.Valid() && repository.courses.Keys == courses && item.course == course
      requires IsFresh() ==> Putting(courses, repository.nodes, item.id, course, p, item.data, time).Stored?
      modifies this`seen, this`refused, repository`nodes
      ensures repository.Valid() && seen == old(seen) + {item.id}
      ensures IsFresh() ==> stored
      ensures refused <==> old(refused) || !stored
      ensures Putting(courses, old(repository.nodes), item.id, course, p, item.data, time).Stored? ==>
                repository.nodes == Putting(courses, old(repository.nodes), item.id, course, p, item.data, time).nodes
    {
      hide Putting, ForestOk, Fresh;
      seen := seen + {item.id};
      var refusal := repository.PutContentNode(item.id, course, p, item.data, time);
      stored := refusal.None?;
      if !stored {
        refused := true;
      }
    }

    lemma AcceptFacts(p: Option<nat>, item: Item, time: int)
      requires Steady() && p in visited && GoodItem(item, p, course) && item.id !in seen
      requires Deterministic(source) ==> Listed(source, p, item)
      requires IsFresh() && item.id in forest ==> forest[item.id].course == course
      requires time == clock(itemsSeen)
      ensures item.id !in queued && Ids(observed + [item], seen + {item.id}) && DistinctIds(observed + [item])
      ensures item.container ==> Queued(observed + [item], parents + [Some(item.id)], queued + {item.id}, visited)
      ensures !item.container ==> Queued(observed + [item], parents, queued, visited)
      ensures AllQueued(observed, parents, visited) ==>
                AllQueued(observed + [item], if item.container then parents + [Some(item.id)] else parents, visited)
      ensures Deterministic(source) ==> OnlyReachable(source, observed + [item])
      ensures IsFresh() ==>
                var outcome := Putting(courses, repository.nodes, item.id, course, p, item.data, time);
                outcome.Stored? && Mirrors(outcome.nodes, forest, observed + [item], seen + {item.id}, course)
    {
      hide Queued, OnlyReachable, AllQueued, Mirrors, Fresh, NoDuplicates, Listed, Deterministic, ForestOk, Putting;
      QueueItem(observed, parents, queued, visited, seen, item);
      ParentSeen(p, item);
      if IsFresh() {
        FreshClock(item.id, itemsSeen);
        FreshPut(courses, repository.nodes, forest, observed, seen, course, item, time);
      }
      if Deterministic(source) {
        ReachableItem(source, observed, p, item);
      }
    }

    lemma ParentSeen(p: Option<nat>, item: Item)
      requires Steady() && p in visited && item.parent == p
      ensures IsParent(observed, p) && (item.parent.Some? ==> item.parent.value in seen)
    {
    }

    lemma FreshClock(id: nat, k: nat)
      requires IsFresh()
      ensures course in courses && (id in forest ==> forest[id].last <= clock(k))
    {
    }

    /** A container listed on the page. */
    ghost predicate InPage(items: seq<Item>, q: Option<nat>) {
      exists i :: 0 <= i < |items| && items[i].container && q == Some(items[i].id)
    }

    /** The items belong, are all new, and are not too many. */
    ghost predicate RoomFor(items: seq<Item>, p: Option<nat>)
      reads this
    {
      GoodItems(items, p, course) && seen !! IdsOf(items) && itemsSeen + |items| <= maxNodes && IsFresh()
    }

    /** The items of one page. */
    method TakePage(p: Option<nat>, items: seq<Item>) returns (step: Step)
      requires Steady() && p in visited
      requires Deterministic(source) ==> forall item :: item in items ==> Listed(source, p, item)
      requires IsFresh() ==> forall item :: item in items && item.id in forest ==> forest[item.id].course == course
      requires Unruly(source, course) || forall i :: 0 <= i < |items| ==> GoodItem(items[i], p, course)
      modifies this, repository`nodes
      ensures Bounded() && visited == old(visited) && expanded == old(expanded) && pagesSeen == old(pagesSeen)
      ensures !step.Raise? ==> Steady()
      ensures old(observed) <= observed && (failure.None? ==> old(failure).None?)
      ensures step.Next? && failure.None? ==> forall item :: item in items ==> item in observed
      ensures step.Next? ==> failure == old(failure) || failure == Some(ProtocolError)
      ensures step.Stop? ==> failure == Some(NodeLimit)
      ensures step.Raise? ==> step.category != CursorCycle && Explained(step.category)
      ensures read == old(read) && forall q :: q in parents ==> q in old(parents) || InPage(items, q)
      ensures old(RoomFor(items, p)) ==>
                && step.Next? && failure == old(failure) && coverage == old(coverage) &&
                     seen == old(seen) + IdsOf(items)
    {
      hide Bounded, IsFresh, Listed, Deterministic, Failing, Unruly, GoodItem, GoodItems, IdsOf, Ids, Queued, AllQueued,
        Mirrors, InPage, Explained;
      SteadyIsBounded();
      NoneTaken(items);
      var i := 0;
      while i < |items|
        invariant 0 <= i <= |items|
        invariant Steady() && visited == old(visited) && expanded == old(expanded) && pagesSeen == old(pagesSeen)
        invariant old(observed) <= observed && (failure.None? ==> old(failure).None?)
        invariant failure.None? ==> forall j :: 0 <= j < i ==> items[j] in observed
        invariant failure == old(failure) || failure == Some(ProtocolError)
        invariant read == old(read) && forall q :: q in parents ==> q in old(parents) || InPage(items, q)
        invariant old(RoomFor(items, p)) ==>
                    && failure == old(failure) && coverage == old(coverage)
                    && seen == old(seen) + IdsOf(items[..i]) && itemsSeen == old(itemsSeen) + i
      {
        ghost var before := observed;
        NextInPage(items, p, old(seen), i);
        step := TakeItem(p, items[i]);
        StillIn(before, observed);
        if !step.Next? {
          return step;
        }
        i := i + 1;
      }
      assert items[..i] == items;
      return Next;
    }

    lemma NoneTaken(items: seq<Item>)
      ensures IdsOf(items[..0]) == {}
    {
    }

    /** The next item of a good page is as new as its page. */
    lemma NextInPage(items: seq<Item>, p: Option<nat>, before: set<nat>, i: nat)
      requires i < |items|
      ensures InPage(items, Some(items[i].id)) || !items[i].container
      ensures IdsOf(items[..i + 1]) == IdsOf(items[..i]) + {items[i].id}
      ensures GoodItems(items, p, course) && before !! IdsOf(items) ==>
                GoodItem(items[i], p, course) && items[i].id !in before + IdsOf(items[..i])
    {
      assert items[i].id in IdsOf(items);
      assert items[..i + 1][i] == items[i];
      forall x | x in IdsOf(items[..i + 1]) ensures x in IdsOf(items[..i]) + {items[i].id} {
        var j :| 0 <= j < i + 1 && items[..i + 1][j].id == x;
        assert j < i ==> items[..i][j].id == x;
      }
      forall x | x in IdsOf(items[..i]) ensures x in IdsOf(items[..i + 1]) {
        var j :| 0 <= j < i && items[..i][j].id == x;
        assert items[..i + 1][j].id == x;
      }
    }

    lemma SteadyIsBounded()
      requires Steady()
      ensures Bounded()
    {
    }

    /** Under a provider in order there is no reason to stop before this page, nor on it. */
    lemma PageReady(p: Option<nat>, cursor: Option<string>)
      requires Steady() && Smooth() && Benign() && Ahead(read, p, cursor)
      ensures pagesSeen < maxPages && (p, cursor) !in read && IsFresh() && Deterministic(source) &&
        Advancing(source, rank)
      ensures var response := source(pagesSeen, p, cursor);
              && response == source(0, p, cursor) && GoodPage(source, course, pages, ids, (p, cursor))
              && response.Page? && response.coverage.Complete? && GoodItems(response.items, p, course)
              && (response.next.Some? ==> (p, response.next) in pages && rank(cursor) < rank(response.next))
              && RoomFor(response.items, p)
    {
      hide Queued, AllQueued, Mirrors, OnlyReachable, GoodItems, SeenFrom, IdsOf, Ids, DistinctIds, IsFresh, Lists,
        InOrder, NoDuplicates;
      assert (p, cursor) !in read;
      PageFits(source, course, pages, ids, read, seen, (p, cursor));
      SeenCount(observed, seen);
    }

    /** The page was read: what is left to read is still the provider's. */
    lemma PageFollowed(p: Option<nat>, cursor: Option<string>, queue: seq<Option<nat>>, more: seq<Option<nat>>,
                       known: set<nat>, before: set<PageKey>)
      requires Following(queue, visited, known, before) && Ahead(before, p, cursor) && p in visited
      requires GoodPage(source, course, pages, ids, (p, cursor))
      requires forall q :: q in more ==> q in queue || InPage(source(0, p, cursor).items, q)
      ensures Following(more, visited, known + IdsOf(source(0, p, cursor).items), before + {(p, cursor)})
      ensures var next := source(0, p, cursor).next;
              next.Some? && rank(cursor) < rank(next) ==> Ahead(before + {(p, cursor)}, p, next)
    {
      hide SeenFrom, IdsOf, GoodItems;
      PageSeen(source, known, before, (p, cursor));
      forall q | q in more ensures (q, None) in pages {
        if q !in queue {
          var items := source(0, p, cursor).items;
          var i :| 0 <= i < |items| && items[i].container && q == Some(items[i].id);
        }
      }
    }

    /** A page not yet read is counted once. */
    lemma ReadCount(before: set<PageKey>, q: PageKey)
      requires q !in before
      ensures |before + {q}| == |before| + 1
    {
    }

    /** One request: the page is counted, its coverage merged, its items taken. */
    method ReadPage(p: Option<nat>, cursor: Option<string>, ghost n: nat) returns (step: Step, next: Option<string>)
      requires Steady() && p in visited && pagesSeen < maxPages
      requires Deterministic(source) ==> CursorAt(source, p, n) == Some(cursor)
      modifies this, repository`nodes
      ensures Bounded() && visited == old(visited) && expanded == old(expanded) && old(pagesSeen) <= pagesSeen
      ensures !step.Raise? ==> Steady() && pagesSeen == old(pagesSeen) + 1
      ensures old(observed) <= observed && (failure.None? ==> old(failure).None?)
      ensures step.Next? && Deterministic(source) ==>
                && source(0, p, cursor).Page? && next == source(0, p, cursor).next
                && (failure.None? ==> forall item :: item in source(0, p, cursor).items ==> item in observed)
      ensures step.Next? && Advancing(source, rank) && next.Some? ==> rank(cursor) < rank(next)
      ensures step.Next? ==> failure == old(failure) || failure == Some(ProtocolError)
      ensures step.Stop? ==> failure == Some(NodeLimit)
      ensures step.Raise? ==> step.category != CursorCycle && Explained(step.category)
      ensures read == old(read) + {(p, cursor)}
      ensures var response := source(old(pagesSeen), p, cursor);
              && (forall q :: q in parents ==> q in old(parents) || (response.Page? && InPage(response.items, q)))
              && (response.Page? && response.coverage.Complete? && old(RoomFor(response.items, p)) ==>
                    && step.Next? && next == response.next && failure == old(failure) && coverage == old(coverage)
                    && seen == old(seen) + IdsOf(response.items))
    {
      hide Queued, OnlyReachable, AllQueued, Mirrors, Fresh, NoDuplicates, Listed, Deterministic, ForestOk,
        DistinctIds, Ids, IsFresh, CursorAt, Advancing, GoodItems, IdsOf, Unruly, Failing, GoodItem;
      next := None;
      read := read + {(p, cursor)};
      var response := source(pagesSeen, p, cursor);
      Complaints(p, cursor);
      if response.Malformed? {
        return Raise(ProtocolError), None;
      }
      if response.Fails? {
        return Raise(Reported(response.category)), None;
      }
      ResponseFacts(p, cursor, n);
      pagesSeen := pagesSeen + 1;
      step := MergePageCoverage(response.coverage);
      if !step.Raise? {
        step := TakePage(p, response.items);
        next := response.next;
      }
    }

    /** What an answer other than a page in order shows about the provider. */
    lemma Complaints(p: Option<nat>, cursor: Option<string>)
      ensures var response := source(pagesSeen, p, cursor);
              && (response.Fails? ==> Failing(source, response.category))
              && (response.Malformed? ==> Unruly(source, course))
              && (response.Page? ==>
                    && (response.coverage.Stale? || response.coverage.Failed? ==> Unruly(source, course))
                    && (Unruly(source, course) ||
                        forall i :: 0 <= i < |response.items| ==> GoodItem(response.items[i], p, course)))
    {
      hide GoodItem;
      var response := source(pagesSeen, p, cursor);
      if OutOfOrder(response, p, course) {
        assert Unruly(source, course);
      }
    }

    lemma ResponseFacts(p: Option<nat>, cursor: Option<string>, n: nat)
      requires Deterministic(source) ==> CursorAt(source, p, n) == Some(cursor)
      ensures var response := source(pagesSeen, p, cursor);
              response.Page? ==>
                && (Deterministic(source) ==>
                      response == source(0, p, cursor) && forall item :: item in response.items ==>
                        Listed(source, p, item))
                && (IsFresh() ==> forall item :: item in response.items && item.id in forest ==>
                     forest[item.id].course == course)
                && (Advancing(source, rank) && response.next.Some? ==> rank(cursor) < rank(response.next))
    {
      var response := source(pagesSeen, p, cursor);
      if Deterministic(source) && response.Page? {
        assert response == source(0, p, cursor);
        forall item | item in response.items ensures Listed(source, p, item) {
          assert OnPage(source, p, n, item);
        }
      }
    }

    /** `ReadPage`, and a provider in order stays so. */
    method FollowPage(p: Option<nat>, cursor: Option<string>, ghost n: nat) returns (step: Step, next: Option<string>)
      requires Steady() && p in visited && pagesSeen < maxPages
      requires Deterministic(source) ==> CursorAt(source, p, n) == Some(cursor)
      requires Smooth() && (Benign() ==> Ahead(read, p, cursor))
      modifies this, repository`nodes
      ensures Bounded() && visited == old(visited) && expanded == old(expanded) && old(pagesSeen) <= pagesSeen
      ensures !step.Raise? ==> Steady() && pagesSeen == old(pagesSeen) + 1
      ensures old(observed) <= observed && (failure.None? ==> old(failure).None?)
      ensures step.Next? && Deterministic(source) ==>
                && source(0, p, cursor).Page? && next == source(0, p, cursor).next
                && (failure.None? ==> forall item :: item in source(0, p, cursor).items ==> item in observed)
      ensures step.Next? && Advancing(source, rank) && next.Some? ==> rank(cursor) < rank(next)
      ensures step.Next? ==> failure == old(failure) || failure == Some(ProtocolError)
      ensures step.Stop? ==> failure == Some(NodeLimit)
      ensures step.Raise? ==> step.category != CursorCycle && Explained(step.category)
      ensures Smooth() && (Benign() ==> step.Next? && (next.Some? ==> Ahead(read, p, next)))
    {
      hide Bounded, Steady, Deterministic, CursorAt, IsFresh, Advancing, GoodItems, IdsOf, Explained, Benign, Following,
        InPage, Ahead, GoodPage;
      ghost var queue, known, before := parents, seen, read;
      if Benign() {
        PageReady(p, cursor);
      }
      step, next := ReadPage(p, cursor, n);
      if Benign() {
        PageFollowed(p, cursor, queue, parents, known, before);
        ReadCount(before, (p, cursor));
      }
    }

    /** One parent, page by page. */
    method ReadParent(p: Option<nat>, ghost done: set<Option<nat>>) returns (step: Step)
      requires Steady() && p in visited
      requires failure != Some(PageLimit) && failure != Some(NodeLimit)
      requires Deterministic(source) && failure.None? ==> AllListed(source, observed, done)
      requires Smooth() && (Benign() ==> Ahead(read, p, None))
      modifies this, repository`nodes
      ensures Bounded() && visited == old(visited) && expanded == old(expanded)
      ensures step.Raise? || (step.Next? && Steady())
      ensures step.Raise? ==> step.category != CursorCycle && Explained(step.category)
      ensures Smooth() && (Benign() ==> step.Next?)
      ensures old(pagesSeen) <= pagesSeen && old(observed) <= observed && (failure.None? ==> old(failure).None?)
      ensures step.Next? ==> old(pagesSeen) < pagesSeen || failure == Some(PageLimit)
      ensures step.Next? && failure.None? && Deterministic(source) ==> AllListed(source, observed, done + {p})
    {
      hide Bounded, Steady, Deterministic, CursorAt, AllListed, PagesListed, IsFresh, Advancing, Smooth, Benign,
        Explained,
        Ahead, GoodPage, GoodItems;
      step := Next;
      var cursor: Option<string> := None;
      var seenCursors: set<Option<string>> := {};
      ghost var n: nat := 0;
      NothingListedYet(source, p, observed);
      SteadyIsBounded();
      while true
        invariant Steady() && Bounded() && visited == old(visited) && expanded == old(expanded)
        invariant old(pagesSeen) + n == pagesSeen <= maxPages
        invariant Smooth() && (Benign() ==> Ahead(read, p, cursor))
        invariant old(observed) <= observed && (failure.None? ==> old(failure).None?)
        invariant failure != Some(PageLimit) && failure != Some(NodeLimit)
        invariant n == 0 ==> seenCursors == {}
        invariant Advancing(source, rank) ==> forall c :: c in seenCursors ==> rank(c) < rank(cursor)
        invariant Deterministic(source) ==> CursorAt(source, p, n) == Some(cursor)
        invariant Deterministic(source) && failure.None? ==>
                    PagesListed(source, observed, p, n) && AllListed(source, observed, done)
        decreases maxPages - pagesSeen
      {
        if Benign() {
          PageReady(p, cursor);
        }
        WithinCaps();
        if pagesSeen >= maxPages {
          StopWith(PageLimit, PageCap, true);
          return Next;
        }
        if cursor in seenCursors {
          StopWith(CursorCycle, PaginationCycle, false);
          return Next;
        }
        seenCursors := seenCursors + {cursor};
        ghost var before := observed;
        var next;
        step, next := FollowPage(p, cursor, n);
        WithinCaps();
        if step.Raise? {
          return step;
        }
        if step.Stop? {
          return Next;
        }
        ListedGrow(source, before, observed, done, p, n);
        if Deterministic(source) && failure.None? {
          PageDone(source, observed, p, n, cursor);
        }
        if next.None? {
          if Deterministic(source) && failure.None? {
            ParentDone(source, observed, p, n, cursor, done);
          }
          return Next;
        }
        if Deterministic(source) {
          NextCursor(p, cursor, n);
        }
        cursor := next;
        n := n + 1;
      }
    }

    /** The pages of this parent end here; with `clear`, so does the traversal. */
    method StopWith(category: Category, warning: Warning, clear: bool)
      requires Steady() && Explained(category) && !Benign() && !category.ProtocolError?
      modifies this`coverage, this`failure, this`paginationComplete, this`warnings, this`parents
      ensures Steady() && Bounded() && Smooth() && !coverage.Complete? && failure == Some(category)
    {
      hide OnlyReachable, AllQueued, Mirrors, Fresh, NoDuplicates, Deterministic, ForestOk, DistinctIds, Ids, IsFresh,
        Queued, Advancing, Benign, Unruly, Failing;
      MarkPartial(category, warning);
      if clear {
        QueueCleared(observed, parents, queued, visited);
        parents := [];
      }
    }

    lemma WithinCaps()
      requires Bounded()
      ensures pagesSeen <= maxPages && (pagesSeen == maxPages ==> Explained(PageLimit))
      ensures !Advancing(source, rank) ==> Explained(CursorCycle)
    {
    }

    lemma NextCursor(p: Option<nat>, cursor: Option<string>, n: nat)
      requires CursorAt(source, p, n) == Some(cursor)
      ensures var response := source(0, p, cursor);
              response.Page? && response.next.Some? ==> CursorAt(source, p, n + 1) == Some(response.next)
    {
    }

    /** `_content`: breadth-first from the root until the queue is empty, a cap is met or something fails. */
    method Discover()
      requires Steady() && parents == [None] && visited == {} && observed == [] && failure.None? && Smooth()
      modifies this, repository`nodes
      ensures Bounded() && DistinctIds(observed) && NoDuplicates(expanded)
      ensures pagesSeen <= maxPages && itemsSeen == |observed| <= maxNodes
      ensures paginationComplete <==> failure.None?
      ensures coverage.Complete? <==> warnings == []
      ensures coverage.Complete? ==> paginationComplete
      ensures failure == Some(PageLimit) ==> pagesSeen == maxPages
      ensures failure == Some(NodeLimit) ==> itemsSeen == maxNodes
      ensures failure == Some(CursorCycle) ==> !Advancing(source, rank)
      ensures failure == Some(ProtocolError) ==> Unruly(source, course) || DuplicateNode in warnings
      ensures failure == Some(Unavailable) ==> !IsFresh()
      ensures failure.Some? && failure.value.Reported? ==> Failing(source, failure.value.category)
      ensures Benign() ==> paginationComplete && coverage.Complete? && warnings == []
      ensures Deterministic(source) ==> forall item :: item in observed ==> Reachable(source, item)
      ensures Deterministic(source) && paginationComplete ==>
        forall item :: Reachable(source, item) <==> item in observed
      ensures IsFresh() ==> !refused
      ensures IsFresh() && paginationComplete ==> Mirrors(repository.nodes, forest, observed, seen, course)
    {
      hide Bounded, Steady, Deterministic, AllListed, IsFresh, AllQueued, Queued, Mirrors, Reachable, NoDuplicates,
        DistinctIds, OnlyReachable, Advancing, Benign, Smooth, Explained, Unruly, Failing, Ahead;
      SteadyIsBounded();
      NothingExpanded(source, observed);
      while parents != []
        invariant Steady() && Bounded() && Smooth()
        invariant Deterministic(source) && failure.None? ==> AllListed(source, observed, visited)
        invariant failure != Some(PageLimit) && failure != Some(NodeLimit)
        decreases maxPages - pagesSeen
      {
        ghost var done := visited;
        var p := Dequeue();
        var step := ReadParent(p, done);
        WithinCaps();
        if step.Raise? {
          SourceFailure(step.category);
          OutcomeFacts();
          return;
        }
        if failure == Some(PageLimit) || failure == Some(NodeLimit) {
          break;
        }
      }
      FinalFacts();
      Conclude();
      OutcomeFacts();
    }

    method Conclude()
      requires Bounded() && Smooth() && !paginationComplete
      modifies this`paginationComplete
      ensures Bounded() && Smooth() && (paginationComplete <==> failure.None?)
    {
      hide Benign, Following;
      if failure.None? {
        paginationComplete := true;
      }
    }

    static lemma NothingExpanded(source: Source, observed: seq<Item>)
      ensures AllListed(source, observed, {})
    {
    }

    lemma FinalFacts()
      requires Steady() && (failure.None? ==> parents == [])
      requires Deterministic(source) && failure.None? ==> AllListed(source, observed, visited)
      ensures !paginationComplete
      ensures Deterministic(source) && failure.None? ==> forall item :: Reachable(source, item) <==> item in observed
      ensures IsFresh() ==> Mirrors(repository.nodes, forest, observed, seen, course)
    {
      hide AllListed, Reachable, AllQueued, Queued, Mirrors, Fresh, OnlyReachable, Ids, DistinctIds, ForestOk,
        NoDuplicates;
      if Deterministic(source) && failure.None? {
        NothingLeft(source, observed, visited);
      }
    }

    lemma OutcomeFacts()
      requires Bounded() && Smooth()
      ensures DistinctIds(observed) && NoDuplicates(expanded) && pagesSeen <= maxPages &&
        itemsSeen == |observed| <= maxNodes
      ensures (coverage.Complete? <==> warnings == []) && (coverage.Complete? ==> failure.None?) &&
        (IsFresh() ==> !refused)
      ensures match failure
              case None => true
              case Some(PageLimit) => pagesSeen == maxPages
              case Some(NodeLimit) => itemsSeen == maxNodes
              case Some(CursorCycle) => !Advancing(source, rank)
              case Some(ProtocolError) => Unruly(source, course) || DuplicateNode in warnings
              case Some(Unavailable) => !IsFresh()
              case Some(Reported(reason)) => Failing(source, reason)
      ensures Benign() ==> failure.None? && coverage.Complete?
      ensures Deterministic(source) ==> forall item :: item in observed ==> Reachable(source, item)
    {
      hide Reachable, Benign, Following, Unruly, Failing;
    }

    /** The front of the queue has not been expanded: the branch for a repeated parent is dead. */
    method Dequeue() returns (p: Option<nat>)
      requires Steady() && Smooth() && parents != []
      modifies this`parents, this`visited, this`expanded
      ensures Steady() && Bounded() && p !in old(visited) && visited == old(visited) + {p}
      ensures p == old(parents)[0] && parents == old(parents)[1..] && expanded == old(expanded) + [p]
      ensures Smooth() && (Benign() ==> Ahead(read, p, None))
    {
      hide OnlyReachable, Mirrors, Fresh, Deterministic, ForestOk, DistinctIds, Ids, IsFresh, AllQueued, Queued,
        Advancing, Benign, SeenFrom, Unruly, Failing;
      QueueNext(observed, parents, queued, visited);
      p := parents[0];
      parents := parents[1..];
      visited := visited + {p};
      expanded := expanded + [p];
    }
  }
}
