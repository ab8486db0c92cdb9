/** Offset cursors of the two providers (client/browser_capture.py, `_page`; client/ntulearn.py,
    `_page_parts`, `_make_cursor`, `_read_cursor`). Cursors are ASCII, as page requests demand. */
module Cursors {
  import opened Basics
  import opened Matching
  import opened ContentSource
  import opened Discovery
  import opened Decimals

  // ----- the captured bundle

  datatype Slice<T> = Slice(items: seq<T>, next: Option<string>) | Refused

  /** `_page`. */
  function PageOf<T>(items: seq<T>, cursor: Option<string>, size: nat): Slice<T> {
    var offset := if cursor.None? then Some(0) else if Numeric(cursor.value) then Some(Number(cursor.value)) else None;
    if offset.None? || offset.value > |items| then Refused
    else
      var end := if offset.value + size <= |items| then offset.value + size else |items|;
      Slice(items[offset.value..end], if end < |items| then Some(Decimal(end)) else None)
  }

  /** The offset a cursor stands for; a cursor that stands for none counts as the start. */
  function OffsetOf(cursor: Option<string>): nat {
    if cursor.Some? && Numeric(cursor.value) then Number(cursor.value) else 0
  }

  /** Following a cursor always moves on. */
  lemma PagesAdvance<T>(items: seq<T>, cursor: Option<string>, size: nat)
    requires size > 0
    ensures var page := PageOf(items, cursor, size);
            && (page.Slice? && page.next.Some? ==>
                 OffsetOf(page.next) == OffsetOf(cursor) + |page.items| > OffsetOf(cursor))
            && (page.Slice? ==> OffsetOf(cursor) + |page.items| <= |items| &&
                                page.items == items[OffsetOf(cursor)..OffsetOf(cursor) + |page.items|])
            && (page.Slice? && page.next.None? ==> OffsetOf(cursor) + |page.items| == |items|)
  {
    var page := PageOf(items, cursor, size);
    if page.Slice? && page.next.Some? {
      DecimalRoundTrip(OffsetOf(cursor) + |page.items|);
    }
  }

  /** A page is refused exactly for a cursor that names no position of the list, and holds as many items as asked for
      unless the list ends first. */
  lemma PageIsFull<T>(items: seq<T>, cursor: Option<string>, size: nat)
    ensures var page := PageOf(items, cursor, size);
            && (page.Slice? <==> OffsetOf(cursor) <= |items| && (cursor.Some? ==> Numeric(cursor.value)))
            && (page.Slice? ==> |page.items| == size || (|page.items| < size && page.next.None?))
  {
  }

  /** One page further: the items so far are again the first ones, and the next cursor stands for their number. */
  lemma WalkStep<T>(items: seq<T>, cursor: Option<string>, size: nat, collected: seq<T>)
    requires size > 0 && (cursor.Some? ==> Numeric(cursor.value))
    requires OffsetOf(cursor) == |collected| <= |items| && collected == items[..|collected|]
    ensures var page := PageOf(items, cursor, size);
            && page.Slice? && |collected| + |page.items| <= |items|
            && collected + page.items == items[..|collected| + |page.items|]
            && (page.next.None? ==> collected + page.items == items)
            && (page.next.Some? ==> Numeric(page.next.value) && page.items != [] &&
                                    OffsetOf(page.next) == |collected| + |page.items|)
  {
    hide Numeric, Number, Decimal;
    var page := PageOf(items, cursor, size);
    PagesAdvance(items, cursor, size);
    DecimalRoundTrip(OffsetOf(cursor) + |page.items|);
    assert items[..|items|] == items;
  }

  /** A walk from the first page, with any page sizes, returns every item once and in order. */
  method WalkAll<T>(items: seq<T>, sizes: nat -> nat) returns (collected: seq<T>, pages: nat)
    requires forall k :: sizes(k) > 0
    ensures collected == items && pages <= |items| + 1
  {
    hide PageOf, Numeric, Number, Decimal;
    collected, pages := [], 0;
    var cursor: Option<string> := None;
    while true
      invariant OffsetOf(cursor) == |collected| <= |items| && collected == items[..|collected|]
      invariant cursor.Some? ==> Numeric(cursor.value)
      invariant pages <= |collected|
      decreases |items| - |collected|, if cursor.None? then 1 else 0
    {
      var page := PageOf(items, cursor, sizes(pages));
      WalkStep(items, cursor, sizes(pages), collected);
      pages := pages + 1;
      collected := collected + page.items;
      cursor := page.next;
      if cursor.None? {
        return;
      }
    }
  }

  /** A captured bundle as a source of content: pages of the children of each parent. */
  function BundleSource(children: Option<nat> -> seq<Item>, size: nat, coverage: Coverage): Source {
    (k, p, cursor) =>
      var slice := PageOf(children(p), cursor, size);
      if slice.Slice? then Page(slice.items, slice.next, coverage) else Fails("source_protocol_error")
  }

  /** A bundle answers the same question the same way, and its cursors always move on. */
  lemma BundleAdvances(children: Option<nat> -> seq<Item>, size: nat, coverage: Coverage)
    requires size > 0
    ensures var source := BundleSource(children, size, coverage);
            Deterministic(source) && Advancing(source, OffsetOf)
  {
    var source := BundleSource(children, size, coverage);
    forall k: nat, p: Option<nat>, c: Option<string> | source(k, p, c).Page? && source(k, p, c).next.Some?
      ensures OffsetOf(c) < OffsetOf(source(k, p, c).next)
    {
      PagesAdvance(children(p), c, size);
      assert source(k, p, c).next == PageOf(children(p), c, size).next;
    }
    var rank: Option<string> -> nat := OffsetOf;
    assert forall c :: rank(c) == OffsetOf(c);
  }

  // ----- NTULearn

  /** `Unparsable` stands for a next page that fails the checks on its address or query. */
  datatype NextPage = NoNext | Unparsable | NextAt(offset: int)

  datatype Paging<T> = Paging(results: seq<T>, offset: int, limit: int, count: int, next: NextPage)

  datatype Parts = Parts(next: Option<int>, coverage: Coverage) | Rejected

  function PageParts<T>(paging: Paging<T>, requested: nat): Parts {
    var shown := requested + |paging.results|;
    if paging.offset != requested || !(1 <= paging.limit <= 1000) || paging.count < 0 || paging.count < shown ||
       |paging.results| > paging.limit
    then Rejected
    else if paging.next.NoNext? then if shown < paging.count then Rejected else Parts(None, Complete)
    else if shown >= paging.count || paging.next.Unparsable? then Rejected
    else if paging.results == [] then
      if paging.next.offset <= requested then Rejected else Parts(Some(paging.next.offset), Partial)
    else if paging.next.offset != shown then Rejected
    else Parts(Some(paging.next.offset), Complete)
  }

  /** A followed cursor is greater than the one before, complete or not. */
  lemma PartsAdvance<T>(paging: Paging<T>, requested: nat)
    ensures var parts := PageParts(paging, requested);
            parts.Parts? && parts.next.Some? ==>
              parts.next.value > requested && (parts.coverage.Complete? <==> paging.results != [])
  {
  }

  /** What a server holding these items answers from an offset on. */
  function Honest<T>(items: seq<T>, offset: nat, limit: nat): Paging<T>
    requires offset <= |items|
  {
    var end := if offset + limit <= |items| then offset + limit else |items|;
    Paging(items[offset..end], offset, limit, |items|, if end < |items| then NextAt(end) else NoNext)
  }

  /** Such an answer is never rejected, whatever the page size; a page of nothing with more to come is only partial. */
  lemma HonestIsAccepted<T>(items: seq<T>, offset: nat, limit: nat)
    requires offset <= |items| && 1 <= limit <= 1000
    ensures var paging := Honest(items, offset, limit);
            PageParts(paging, offset) ==
            Parts(if paging.next.NextAt? then Some(paging.next.offset) else None, Complete)
    ensures forall further :: offset < further && offset < |items| ==>
              PageParts(Paging(items[..0], offset, limit, |items|, NextAt(further)), offset) ==
                Parts(Some(further), Partial)
  {
  }

  /** Following the cursors of such a server reads everything. */
  lemma {:induction false} HonestWalkFrom<T>(items: seq<T>, offset: nat, limit: nat) returns (pages: seq<Paging<T>>)
    requires offset <= |items| && 1 <= limit <= 1000
    ensures pages != [] && pages[0].offset == offset && pages[|pages| - 1].next.NoNext?
    ensures forall k :: 0 <= k < |pages| ==> pages[k].offset >= 0 && CompleteAt(pages[k])
    ensures forall k :: 0 <= k < |pages| - 1 ==> Follows(pages[k], pages[k + 1])
    ensures Results(pages) == items[offset..]
    decreases |items| - offset
  {
    hide PageParts, Results;
    var page := Honest(items, offset, limit);
    HonestIsAccepted(items, offset, limit);
    ResultsFirst(page, []);
    NoResults<T>();
    pages := [page];
    assert [page] + [] == pages && page.results + [] == page.results;
    if page.next.NextAt? {
      var rest := HonestWalkFrom(items, offset + limit, limit);
      ResultsFirst(page, rest);
      pages := [page] + rest;
    }
  }

  /** The results of pages read one after another. */
  function Results<T>(pages: seq<Paging<T>>): seq<T> {
    if pages == [] then [] else pages[0].results + Results(pages[1..])
  }

  lemma ResultsFirst<T>(page: Paging<T>, rest: seq<Paging<T>>)
    ensures Results([page] + rest) == page.results + Results(rest)
  {
    assert ([page] + rest)[1..] == rest;
  }

  lemma NoResults<T>()
    ensures Results<T>([]) == []
  {
  }

  lemma HonestWalk<T>(items: seq<T>, limit: nat)
    requires 1 <= limit <= 1000
    ensures exists pages: seq<Paging<T>> :: CompleteWalk(pages) && Results(pages) == items
  {
    hide PageParts, Results;
    var pages := HonestWalkFrom(items, 0, limit);
    assert items[0..] == items;
    assert CompleteWalk(pages);
  }

  function Total<T>(pages: seq<Paging<T>>): nat {
    if pages == [] then 0 else Total(pages[..|pages| - 1]) + |pages[|pages| - 1].results|
  }

  /** Pages read one after another from the start, each complete, up to one without a next page. */
  ghost predicate CompleteWalk<T>(pages: seq<Paging<T>>) {
    && pages != []
    && (forall k :: 0 <= k < |pages| ==> pages[k].offset >= 0 && CompleteAt(pages[k]))
    && pages[0].offset == 0
    && (forall k :: 0 <= k < |pages| - 1 ==> Follows(pages[k], pages[k + 1]))
    && pages[|pages| - 1].next.NoNext?
  }

  predicate CompleteAt<T>(page: Paging<T>) {
    page.offset >= 0 && PageParts(page, page.offset).Parts? && PageParts(page, page.offset).coverage.Complete?
  }

  predicate Follows<T>(page: Paging<T>, after: Paging<T>)
    requires page.offset >= 0
  {
    PageParts(page, page.offset).Parts? && PageParts(page, page.offset).next == Some(after.offset)
  }

  /** No gap: every page starts where the pages before it end. */
  lemma {:induction false} WalkHasNoGap<T>(pages: seq<Paging<T>>, k: nat)
    requires CompleteWalk(pages) && k < |pages|
    ensures pages[k].offset == Total(pages[..k])
  {
    if k > 0 {
      WalkHasNoGap(pages, k - 1);
      assert Follows(pages[k - 1], pages[k]) && CompleteAt(pages[k - 1]);
      assert pages[..k][..k - 1] == pages[..k - 1];
    }
  }

  /** The walk returns as many results as its last page reports. */
  lemma WalkIsWhole<T>(pages: seq<Paging<T>>)
    requires CompleteWalk(pages)
    ensures Total(pages) == pages[|pages| - 1].count
  {
    var n := |pages| - 1;
    WalkHasNoGap(pages, n);
    assert CompleteAt(pages[n]);
    assert pages[..n + 1] == pages;
  }

  // ----- scoped cursors

  function MakeCursor(scope: string, offset: nat): string {
    scope + ":" + Decimal(offset)
  }

  function ReadCursor(scope: string, cursor: Option<string>): Option<nat> {
    if cursor.None? then Some(0)
    else
      var prefix := scope + ":";
      if prefix <= cursor.value && Numeric(cursor.value[|prefix|..]) then Some(Number(cursor.value[|prefix|..]))
      else None
  }

  /** What follows the last colon. */
  function AfterColon(text: string): string {
    if text == "" || text[|text| - 1] == ':' then ""
    else AfterColon(text[..|text| - 1]) + [text[|text| - 1]]
  }

  lemma {:induction false} TailAfterColon(head: string, tail: string)
    requires ':' !in tail
    ensures AfterColon(head + ":" + tail) == tail
    decreases |tail|
  {
    var text := head + ":" + tail;
    if tail != "" {
      var n := |tail| - 1;
      assert text[..|text| - 1] == head + ":" + tail[..n];
      TailAfterColon(head, tail[..n]);
      assert tail[..n] + [tail[n]] == tail;
    } else {
      assert text[|text| - 1] == ':';
    }
  }

  lemma NumericHasNoColon(text: string)
    requires Numeric(text)
    ensures ':' !in text
  {
    forall i | 0 <= i < |text| ensures text[i] != ':' {
      assert IsDigit(text[i]);
    }
  }

  /** The number a cursor ends in; the missing cursor stands for the start. */
  function LastNumber(cursor: Option<string>): nat {
    if cursor.Some? && Numeric(AfterColon(cursor.value)) then Number(AfterColon(cursor.value)) else 0
  }

  /** Whatever the scope, an accepted cursor is read as the number it ends in. */
  lemma ReadIsLastNumber(scope: string, cursor: Option<string>)
    ensures ReadCursor(scope, cursor).Some? ==> ReadCursor(scope, cursor).value == LastNumber(cursor)
    ensures cursor.Some? && ReadCursor(scope, cursor).Some? ==>
              |cursor.value| == |scope| + 1 + |AfterColon(cursor.value)| && scope <= cursor.value
  {
    if cursor.Some? && ReadCursor(scope, cursor).Some? {
      var prefix := scope + ":";
      var tail := cursor.value[|prefix|..];
      assert cursor.value == prefix + tail;
      NumericHasNoColon(tail);
      TailAfterColon(scope, tail);
      assert cursor.value[..|scope|] == scope;
    }
  }

  lemma MadeReads(scope: string, offset: nat)
    ensures ReadCursor(scope, Some(MakeCursor(scope, offset))) == Some(offset)
  {
    DecimalRoundTrip(offset);
    var cursor := MakeCursor(scope, offset);
    assert cursor[|scope| + 1..] == Decimal(offset);
  }

  /** A cursor reads back in its own scope and in no other, also where scopes hold colons themselves. */
  lemma CursorRoundTrip(scope: string, other: string, offset: nat)
    ensures ReadCursor(scope, Some(MakeCursor(scope, offset))) == Some(offset)
    ensures ReadCursor(other, Some(MakeCursor(scope, offset))).Some? <==> other == scope
  {
    hide ReadCursor, MakeCursor, AfterColon;
    MadeReads(scope, offset);
    var cursor := Some(MakeCursor(scope, offset));
    ReadIsLastNumber(scope, cursor);
    ReadIsLastNumber(other, cursor);
    if ReadCursor(other, cursor).Some? {
      assert scope == cursor.value[..|scope|] == cursor.value[..|other|] == other;
    }
  }

  /** The answer to a request for the children of a parent from an offset on. */
  datatype Answer = Sent(paging: Paging<Item>) | Failing(category: string)

  /** NTULearn as a source of content, whatever it answers: `list_content` and `translate_content_payload`. */
  function ScopedSource(scope: Option<nat> -> string, answer: (nat, Option<nat>, nat) -> Answer): Source {
    (k: nat, p: Option<nat>, cursor: Option<string>) =>
      var offset := ReadCursor(scope(p), cursor);
      if offset.None? then Fails("source_protocol_error")
      else Translated(scope(p), offset.value, answer(k, p, offset.value))
  }

  function Translated(scope: string, offset: nat, answer: Answer): Response {
    match answer
    case Failing(category) => Fails(category)
    case Sent(paging) =>
      match PageParts(paging, offset)
      case Rejected => Fails("source_protocol_error")
      case Parts(next, coverage) =>
        Page(paging.results, if next.Some? then Some(MakeCursor(scope, next.value)) else None, coverage)
  }

  lemma TranslatedAdvances(scope: string, offset: nat, answer: Answer)
    ensures var response := Translated(scope, offset, answer);
            response.Page? && response.next.Some? ==> LastNumber(response.next) > offset
  {
    var response := Translated(scope, offset, answer);
    if response.Page? && response.next.Some? {
      PartsAdvance(answer.paging, offset);
      var next := PageParts(answer.paging, offset).next.value;
      MadeReads(scope, next);
      ReadIsLastNumber(scope, response.next);
    }
  }

  ghost predicate Timeless(answer: (nat, Option<nat>, nat) -> Answer) {
    forall k, p, o :: answer(k, p, o) == answer(0, p, o)
  }

  /** The cursors of NTULearn always move on, for every scope of a parent and every answer of the server; if the
      answers do not depend on when they are asked for, nor does the source. */
  lemma ScopedAdvances(scope: Option<nat> -> string, answer: (nat, Option<nat>, nat) -> Answer)
    ensures Advancing(ScopedSource(scope, answer), LastNumber)
    ensures Timeless(answer) ==> Deterministic(ScopedSource(scope, answer))
  {
    hide ReadCursor, LastNumber, Translated;
    var source := ScopedSource(scope, answer);
    var rank: Option<string> -> nat := LastNumber;
    forall k: nat, p: Option<nat>, c: Option<string> | source(k, p, c).Page? && source(k, p, c).next.Some?
      ensures rank(c) < rank(source(k, p, c).next)
    {
      ReadIsLastNumber(scope(p), c);
      var offset := ReadCursor(scope(p), c);
      assert offset.Some?;
      TranslatedAdvances(scope(p), offset.value, answer(k, p, offset.value));
    }
    if Timeless(answer) {
      forall k, p, c ensures source(k, p, c) == source(0, p, c) {
        var offset := ReadCursor(scope(p), c);
        assert offset.Some? ==> answer(k, p, offset.value) == answer(0, p, offset.value);
      }
    }
  }
}
