/** The bounded walk over the external objects of a page (parsers/pdf.py, `_visual_xobjects`). Objects are
    identified by number; the graph may be cyclic, shared and unbounded. */
module PdfObjects {
  import opened Basics

  datatype Subtype = Image | Form | OtherSubtype

  /** `children` are the resolved values of the object dictionary of a container, none for a null reference. */
  datatype Graph = Graph(hasResources: nat -> bool, children: nat -> seq<Option<nat>>, subtype: nat -> Subtype)

  predicate IsChild(g: Graph, container: nat, x: nat) {
    g.hasResources(container) && Some(x) in g.children(container)
  }

  /** A way down from the page: through forms to an object. */
  ghost predicate IsWay(g: Graph, page: nat, way: seq<nat>) {
    && way != [] && IsChild(g, page, way[0])
    && forall i :: 0 < i < |way| ==> Through(g, way[i - 1], way[i])
  }

  ghost predicate Through(g: Graph, form: nat, x: nat) {
    g.subtype(form).Form? && IsChild(g, form, x)
  }

  ghost predicate Reachable(g: Graph, page: nat, x: nat) {
    exists way :: IsWay(g, page, way) && way[|way| - 1] == x
  }

  function OfSubtype(g: Graph, objects: set<nat>, subtype: Subtype): set<nat> {
    set x | x in objects && g.subtype(x) == subtype
  }

  /** A way of this length leads to the object. */
  ghost predicate At(g: Graph, page: nat, x: nat, depth: nat) {
    exists way :: IsWay(g, page, way) && |way| == depth && way[depth - 1] == x
  }

  // ----- why a walk may be incomplete

  ghost predicate TooMany(g: Graph, page: nat, maximum: nat) {
    exists objects: set<nat> :: AllReachable(g, page, objects) && |objects| > maximum
  }

  /** A form this many steps below the page, by some way. */
  ghost predicate TooDeep(g: Graph, page: nat, maximum: nat) {
    exists x :: g.subtype(x).Form? && At(g, page, x, maximum + 1)
  }

  /** A form further below the page than allowed, by every way. */
  ghost predicate OutOfDepth(g: Graph, page: nat, maximum: nat) {
    exists x :: g.subtype(x).Form? && Reachable(g, page, x) && !Shallow(g, page, x, maximum)
  }

  ghost predicate Shallow(g: Graph, page: nat, x: nat, maximum: nat) {
    exists depth: nat :: depth <= maximum && At(g, page, x, depth)
  }

  ghost predicate Bare(g: Graph, page: nat) {
    exists x :: g.subtype(x).Form? && Reachable(g, page, x) && !g.hasResources(x)
  }

  lemma ChildReachable(g: Graph, page: nat, x: nat)
    requires IsChild(g, page, x)
    ensures At(g, page, x, 1) && Reachable(g, page, x)
  {
    assert IsWay(g, page, [x]);
  }

  lemma FormChildReachable(g: Graph, page: nat, form: nat, x: nat, depth: nat)
    requires At(g, page, form, depth) && Through(g, form, x)
    ensures At(g, page, x, depth + 1) && Reachable(g, page, x)
  {
    var way :| IsWay(g, page, way) && |way| == depth && way[depth - 1] == form;
    var longer := way + [x];
    forall i | 0 < i < |longer| ensures Through(g, longer[i - 1], longer[i]) {
      if i < |way| {
        assert longer[i - 1] == way[i - 1] && longer[i] == way[i];
      }
    }
    assert IsWay(g, page, longer);
  }

  lemma {:induction false} WaysStayInside(g: Graph, page: nat, visited: set<nat>, way: seq<nat>)
    requires IsWay(g, page, way)
    requires forall x :: IsChild(g, page, x) ==> x in visited
    requires forall f, x :: f in visited && Through(g, f, x) ==> x in visited
    ensures way[|way| - 1] in visited
    decreases |way|
  {
    if |way| > 1 {
      var rest := way[..|way| - 1];
      assert IsWay(g, page, rest) && Through(g, way[|way| - 2], way[|way| - 1]);
      WaysStayInside(g, page, visited, rest);
    }
  }

  // ----- what the walk keeps

  datatype Entry = Entry(container: nat, depth: nat)

  /** The page or a form seen on the way; only the page has depth zero. */
  ghost predicate IsContainer(g: Graph, page: nat, visited: set<nat>, entry: Entry) {
    if entry.depth == 0 then entry.container == page
    else
      && entry.container in visited && g.subtype(entry.container).Form?
      && At(g, page, entry.container, entry.depth)
  }

  ghost predicate StackOk(g: Graph, page: nat, visited: set<nat>, maximum: nat, stack: seq<Entry>) {
    forall i :: 0 <= i < |stack| ==> IsContainer(g, page, visited, stack[i]) && stack[i].depth <= maximum
  }

  ghost predicate AllReachable(g: Graph, page: nat, visited: set<nat>) {
    forall x :: x in visited ==> Reachable(g, page, x)
  }

  /** All children of a container are seen. */
  ghost predicate Opened(g: Graph, container: nat, visited: set<nat>) {
    forall x :: IsChild(g, container, x) ==> x in visited
  }

  ghost predicate Waiting(stack: seq<Entry>, container: nat) {
    exists i :: 0 <= i < |stack| && stack[i].container == container
  }

  /** Page and seen forms wait on the stack or are opened; `current` is being opened. */
  ghost predicate AllAccounted(g: Graph, page: nat, visited: set<nat>, stack: seq<Entry>, current: Option<nat>) {
    && (Waiting(stack, page) || current == Some(page) || Opened(g, page, visited))
    && forall f :: f in visited && g.subtype(f).Form? ==>
         Waiting(stack, f) || current == Some(f) || (g.hasResources(f) && Opened(g, f, visited))
  }

  /** No seen form lies beyond the depth allowed. */
  ghost predicate AllShallow(g: Graph, page: nat, visited: set<nat>, maximum: nat) {
    forall f :: f in visited && g.subtype(f).Form? ==> Shallow(g, page, f, maximum)
  }

  lemma SeeObject(g: Graph, page: nat, visited: set<nat>, maximum: nat, stack: seq<Entry>, entry: Entry, x: nat)
    requires StackOk(g, page, visited, maximum, stack) && AllReachable(g, page, visited)
    requires IsChild(g, entry.container, x) && IsContainer(g, page, visited, entry) && entry.depth <= maximum
    ensures AllReachable(g, page, visited + {x}) && IsContainer(g, page, visited + {x}, entry)
    ensures At(g, page, x, entry.depth + 1) && StackOk(g, page, visited + {x}, maximum, stack)
    ensures g.subtype(x).Form? && entry.depth < maximum ==>
              StackOk(g, page, visited + {x}, maximum, stack + [Entry(x, entry.depth + 1)])
    ensures AllShallow(g, page, visited, maximum) && (g.subtype(x).Form? ==> entry.depth < maximum) ==>
              AllShallow(g, page, visited + {x}, maximum)
  {
    hide IsChild, Reachable, At;
    if entry.depth == 0 {
      ChildReachable(g, page, x);
    } else {
      assert Through(g, entry.container, x);
      FormChildReachable(g, page, entry.container, x, entry.depth);
    }
    assert entry.depth < maximum ==> Shallow(g, page, x, maximum);
  }

  lemma AccountObject(g: Graph, page: nat, visited: set<nat>, stack: seq<Entry>, current: nat, x: nat, depth: nat)
    requires AllAccounted(g, page, visited, stack, Some(current))
    ensures AllAccounted(g, page, visited + {x},
                         if g.subtype(x).Form? then stack + [Entry(x, depth + 1)] else stack, Some(current))
  {
    hide IsChild;
    var next := if g.subtype(x).Form? then stack + [Entry(x, depth + 1)] else stack;
    forall f | Waiting(stack, f) ensures Waiting(next, f) {
      var i :| 0 <= i < |stack| && stack[i].container == f;
      assert next[i].container == f;
    }
    if g.subtype(x).Form? {
      assert next[|stack|].container == x;
    }
  }

  lemma CountsGrow(g: Graph, visited: set<nat>, x: nat)
    requires x !in visited
    ensures forall subtype :: |OfSubtype(g, visited + {x}, subtype)| ==
                              |OfSubtype(g, visited, subtype)| + if g.subtype(x) == subtype then 1 else 0
  {
    forall subtype
      ensures |OfSubtype(g, visited + {x}, subtype)| ==
        |OfSubtype(g, visited, subtype)| + if g.subtype(x) == subtype then 1 else 0
    {
      if g.subtype(x) == subtype {
        assert OfSubtype(g, visited + {x}, subtype) == OfSubtype(g, visited, subtype) + {x};
      } else {
        assert OfSubtype(g, visited + {x}, subtype) == OfSubtype(g, visited, subtype);
      }
    }
  }

  lemma CountsBound(g: Graph, visited: set<nat>)
    ensures |OfSubtype(g, visited, Image)| + |OfSubtype(g, visited, Form)| <= |visited|
  {
    var images, forms := OfSubtype(g, visited, Image), OfSubtype(g, visited, Form);
    assert images + forms <= visited && images !! forms;
    SubsetSize(images + forms, visited);
  }

  /** Nothing waits and nothing was skipped: what was seen is what is reachable. */
  lemma NothingWaits(g: Graph, page: nat, visited: set<nat>, maximum: nat)
    requires AllReachable(g, page, visited) && AllAccounted(g, page, visited, [], None)
    ensures forall x :: x in visited <==> Reachable(g, page, x)
    ensures !Bare(g, page) && (AllShallow(g, page, visited, maximum) ==> !OutOfDepth(g, page, maximum))
  {
    forall x | Reachable(g, page, x) ensures x in visited {
      var way :| IsWay(g, page, way) && way[|way| - 1] == x;
      WaysStayInside(g, page, visited, way);
    }
  }

  lemma Opens(g: Graph, page: nat, visited: set<nat>, stack: seq<Entry>, current: nat, n: nat)
    requires AllAccounted(g, page, visited, stack, Some(current))
    requires if g.hasResources(current) then n == |g.children(current)| && SeenUpTo(g, current, visited, n)
             else current !in visited || !g.subtype(current).Form?
    ensures AllAccounted(g, page, visited, stack, None)
  {
    assert Opened(g, current, visited);
  }

  ghost predicate SeenUpTo(g: Graph, current: nat, visited: set<nat>, n: nat) {
    n <= |g.children(current)| && forall j :: 0 <= j < n && g.children(current)[j].Some? ==>
      g.children(current)[j].value in visited
  }

  lemma Pops(g: Graph, page: nat, visited: set<nat>, maximum: nat, stack: seq<Entry>)
    requires stack != [] && StackOk(g, page, visited, maximum, stack)
    ensures var top := stack[|stack| - 1];
            && IsContainer(g, page, visited, top) && top.depth <= maximum
            && StackOk(g, page, visited, maximum, stack[..|stack| - 1])
            && (AllAccounted(g, page, visited, stack, None) ==>
                 AllAccounted(g, page, visited, stack[..|stack| - 1], Some(top.container)))
  {
    var rest, top := stack[..|stack| - 1], stack[|stack| - 1];
    forall f | Waiting(stack, f) ensures Waiting(rest, f) || f == top.container {
      var i :| 0 <= i < |stack| && stack[i].container == f;
      assert i < |rest| ==> rest[i].container == f;
    }
  }

  lemma Starts(g: Graph, page: nat, maximum: nat)
    ensures StackOk(g, page, {}, maximum, [Entry(page, 0)]) && AllAccounted(g, page, {}, [Entry(page, 0)], None)
    ensures AllReachable(g, page, {}) && AllShallow(g, page, {}, maximum)
    ensures OfSubtype(g, {}, Image) == {} && OfSubtype(g, {}, Form) == {}
  {
    assert [Entry(page, 0)][0].container == page;
  }

  /** `_visual_xobjects`: ends on any graph, counts no object twice and no more than allowed, and unless it says
      it is incomplete counts exactly the images and forms reachable from the page. It says so when there are too
      many objects, a form without resources, or a form out of depth, and only for such a reason. */
  method VisualXObjects(g: Graph, page: nat, maximumDepth: nat, maximumObjects: nat)
    returns (images: nat, forms: nat, incomplete: bool, ghost seen: set<nat>)
    ensures images + forms <= maximumObjects && |seen| <= maximumObjects
    ensures images == |OfSubtype(g, seen, Image)| && forms == |OfSubtype(g, seen, Form)|
    ensures forall x :: x in seen ==> Reachable(g, page, x)
    ensures !incomplete ==> forall x :: x in seen <==> Reachable(g, page, x)
    ensures incomplete ==> TooMany(g, page, maximumObjects) || TooDeep(g, page, maximumDepth) || Bare(g, page)
    ensures TooMany(g, page, maximumObjects) || OutOfDepth(g, page, maximumDepth) || Bare(g, page) ==> incomplete
  {
    hide *;
    var stack := [Entry(page, 0)];
    var visited: set<nat> := {};
    images, forms, incomplete := 0, 0, false;
    var inspected: nat := 0;
    Starts(g, page, maximumDepth);
    while stack != []
      invariant StackOk(g, page, visited, maximumDepth, stack) && AllReachable(g, page, visited)
      invariant inspected == |visited| <= maximumObjects
      invariant images == |OfSubtype(g, visited, Image)| && forms == |OfSubtype(g, visited, Form)|
      invariant !incomplete ==>
        AllAccounted(g, page, visited, stack, None) && AllShallow(g, page, visited, maximumDepth)
      invariant incomplete ==> TooDeep(g, page, maximumDepth) || Bare(g, page)
      decreases maximumObjects - |visited|, |stack|
    {
      Pops(g, page, visited, maximumDepth, stack);
      var entry := stack[|stack| - 1];
      stack := stack[..|stack| - 1];
      var c := entry.container;
      if !g.hasResources(c) {
        NoResources(g, page, visited, entry);
        if entry.depth > 0 {
          incomplete := true;
        }
        if !incomplete {
          Opens(g, page, visited, stack, c, 0);
        }
        continue;
      }
      var children := g.children(c);
      ghost var before, below := |visited|, |stack|;
      var j := 0;
      SeenNothing(g, c, visited);
      while j < |children|
        invariant 0 <= j <= |children|
        invariant StackOk(g, page, visited, maximumDepth, stack) && AllReachable(g, page, visited)
        invariant IsContainer(g, page, visited, entry)
        invariant inspected == |visited| <= maximumObjects && before <= |visited|
        invariant |visited| == before ==> |stack| == below
        invariant images == |OfSubtype(g, visited, Image)| && forms == |OfSubtype(g, visited, Form)|
        invariant !incomplete ==>
          AllAccounted(g, page, visited, stack, Some(c)) && AllShallow(g, page, visited, maximumDepth)
        invariant incomplete ==> TooDeep(g, page, maximumDepth) || Bare(g, page)
        invariant SeenUpTo(g, c, visited, j)
      {
        SeenNext(g, c, visited, j);
        var item := children[j];
        j := j + 1;
        if item.None? || item.value in visited {
          continue;
        }
        var x := item.value;
        ChildAt(g, c, j - 1);
        SeeObject(g, page, visited, maximumDepth, stack, entry, x);
        if !incomplete {
          AccountObject(g, page, visited, stack, c, x, entry.depth);
        }
        CountsGrow(g, visited, x);
        CountsBound(g, visited);
        ghost var counted := visited;
        visited := visited + {x};
        inspected := inspected + 1;
        if inspected > maximumObjects {
          incomplete := true;
          Reached(g, page, counted);
          Exceeds(g, page, visited, maximumObjects);
          return images, forms, incomplete, counted;
        }
        if g.subtype(x).Image? {
          images := images + 1;
        } else if g.subtype(x).Form? {
          forms := forms + 1;
          if entry.depth >= maximumDepth {
            incomplete := true;
            Deep(g, page, x, maximumDepth);
          } else {
            stack := stack + [Entry(x, entry.depth + 1)];
          }
        }
      }
      if !incomplete {
        Opens(g, page, visited, stack, c, j);
      }
    }
    CountsBound(g, visited);
    if !incomplete {
      NothingWaits(g, page, visited, maximumDepth);
      NotTooMany(g, page, visited, maximumObjects);
    }
    Reached(g, page, visited);
    return images, forms, incomplete, visited;
  }

  /** A container without resources: the page, and then nothing is reachable, or a bare form. */
  lemma NoResources(g: Graph, page: nat, visited: set<nat>, entry: Entry)
    requires IsContainer(g, page, visited, entry) && AllReachable(g, page, visited) && !g.hasResources(entry.container)
    ensures if entry.depth == 0 then entry.container !in visited else Bare(g, page)
  {
    if entry.depth == 0 {
      assert forall way :: !IsWay(g, page, way);
    } else {
      assert Reachable(g, page, entry.container);
    }
  }

  lemma Exceeds(g: Graph, page: nat, objects: set<nat>, maximum: nat)
    requires AllReachable(g, page, objects) && |objects| > maximum
    ensures TooMany(g, page, maximum)
  {
  }

  lemma NotTooMany(g: Graph, page: nat, visited: set<nat>, maximum: nat)
    requires |visited| <= maximum && forall x :: x in visited <==> Reachable(g, page, x)
    ensures !TooMany(g, page, maximum)
  {
    forall objects: set<nat> | AllReachable(g, page, objects) ensures |objects| <= maximum {
      assert objects <= visited;
      SubsetSize(objects, visited);
    }
  }

  lemma Deep(g: Graph, page: nat, x: nat, maximum: nat)
    requires g.subtype(x).Form? && At(g, page, x, maximum + 1)
    ensures TooDeep(g, page, maximum)
  {
  }

  lemma SeenNothing(g: Graph, c: nat, visited: set<nat>)
    ensures SeenUpTo(g, c, visited, 0)
  {
  }

  lemma SeenNext(g: Graph, c: nat, visited: set<nat>, j: nat)
    requires SeenUpTo(g, c, visited, j) && j < |g.children(c)|
    ensures forall x :: SeenUpTo(g, c, visited + {x}, j)
    ensures g.children(c)[j].None? ==> SeenUpTo(g, c, visited, j + 1)
    ensures g.children(c)[j].Some? && g.children(c)[j].value in visited ==> SeenUpTo(g, c, visited, j + 1)
    ensures g.children(c)[j].Some? ==> SeenUpTo(g, c, visited + {g.children(c)[j].value}, j + 1)
  {
  }

  lemma ChildAt(g: Graph, c: nat, j: nat)
    requires g.hasResources(c) && j < |g.children(c)| && g.children(c)[j].Some?
    ensures IsChild(g, c, g.children(c)[j].value)
  {
  }

  lemma Reached(g: Graph, page: nat, visited: set<nat>)
    requires AllReachable(g, page, visited)
    ensures forall x :: x in visited ==> Reachable(g, page, x)
  {
  }
}
