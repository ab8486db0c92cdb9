/** The chunk loop over the body of a document (parsers/docx.py, `DocxParser.parse`). */
module DocxBody {
  import opened Basics
  import opened DocxTables

  /** `OtherBody` is a body element that is neither paragraph nor table. */
  datatype BodyElement = BodyParagraph(text: string) | BodyTable(table: Table) | OtherBody

  datatype Limits = Limits(chunks: nat, structuredElements: int, chunkCharacters: nat, totalCharacters: nat, depth: int)

  datatype Warning =
    | ChunkLimit | StructureLimit | ElementPartial | ChunkTruncated | TextLimit | TextTruncated | Noticed(code: string)

  datatype Chunk = Chunk(text: string, table: Option<TableOut>)

  /** The chunk of an element of which nothing is lost. */
  function WholeChunk(element: BodyElement): Chunk
    requires !element.OtherBody?
  {
    match element
    case BodyParagraph(text) => Chunk(text, None)
    case BodyTable(table) => Chunk(TableText(table), Some(FullTable(table)))
  }

  function TotalText(chunks: seq<Chunk>): nat {
    if chunks == [] then 0 else TotalText(chunks[..|chunks| - 1]) + |chunks[|chunks| - 1].text|
  }

  /** What is left of a text after so many characters of the document. */
  function Cut(text: string, total: nat, limits: Limits): string {
    var left := Left(total, limits);
    if |text| <= left then text else text[..left]
  }

  function Left(total: nat, limits: Limits): nat {
    var remaining := if total < limits.totalCharacters then limits.totalCharacters - total else 0;
    if limits.chunkCharacters < remaining then limits.chunkCharacters else remaining
  }

  predicate TableFits(table: Table, total: nat, limits: Limits) {
    0 <= limits.depth && Fits(NeedOfRows(table.rows), limits.structuredElements, Left(total, limits), limits.depth)
  }

  /** Paragraphs and tables; nothing else gives rise to a chunk. */
  function Parts(elements: seq<BodyElement>): seq<BodyElement> {
    if elements == [] then []
    else
      var last := elements[|elements| - 1];
      Parts(elements[..|elements| - 1]) + if last.OtherBody? then [] else [last]
  }

  /** The chunk of a part after so many characters: as much text as is left, and the table whole if it fits. */
  ghost predicate ChunkOf(part: BodyElement, total: nat, limits: Limits, chunk: Chunk) {
    match part
    case BodyParagraph(text) => chunk == Chunk(Cut(text, total, limits), None)
    case BodyTable(table) =>
      && chunk.table.Some? && |chunk.text| <= Left(total, limits)
      && (TableFits(table, total, limits) ==>
            chunk == Chunk(Cut(TableText(table), total, limits), Some(FullTable(table))))
    case OtherBody => false
  }

  /** Characters in the texts of these elements. */
  function WholeText(elements: seq<BodyElement>): nat {
    if elements == [] then 0
    else
      var last := elements[|elements| - 1];
      WholeText(elements[..|elements| - 1]) + if last.OtherBody? then 0 else |WholeChunk(last).text|
  }

  /** Room for one more element, whole, after so many characters: even an empty text wants a character left. */
  ghost predicate Room(element: BodyElement, total: nat, limits: Limits) {
    && !element.OtherBody? && total < limits.totalCharacters
    && |WholeChunk(element).text| <= Left(total, limits)
    && (element.BodyTable? ==> TableFits(element.table, total, limits))
  }

  ghost predicate RoomAt(elements: seq<BodyElement>, i: nat, limits: Limits)
    requires i < |elements|
  {
    i < limits.chunks && Room(elements[i], WholeText(elements[..i]), limits)
  }

  /** Every element of the body can be kept whole. */
  ghost predicate RoomForAll(elements: seq<BodyElement>, n: nat, limits: Limits)
    requires n <= |elements|
  {
    forall i :: 0 <= i < n ==> RoomAt(elements, i, limits)
  }

  /** `text` cut to both limits; what was cut off is warned about. */
  method Trim(text: string, total: nat, limits: Limits) returns (kept: string, warnings: set<Warning>)
    requires total <= limits.totalCharacters
    ensures kept == Cut(text, total, limits) && |kept| <= Left(total, limits)
    ensures warnings == {} <==> total < limits.totalCharacters && kept == text
    ensures ChunkTruncated in warnings <==> |text| > limits.chunkCharacters
    ensures TextLimit in warnings <==> total == limits.totalCharacters
    ensures TextTruncated in warnings <==>
              var within := if |text| <= limits.chunkCharacters then |text| else limits.chunkCharacters;
              total < limits.totalCharacters < total + within
    ensures warnings <= {ChunkTruncated, TextLimit, TextTruncated}
  {
    kept, warnings := text, {};
    if |kept| > limits.chunkCharacters {
      kept := kept[..limits.chunkCharacters];
      warnings := warnings + {ChunkTruncated};
    }
    var remaining := limits.totalCharacters - total;
    if remaining <= 0 {
      kept := "";
      warnings := warnings + {TextLimit};
    } else if |kept| > remaining {
      kept := kept[..remaining];
      warnings := warnings + {TextTruncated};
    }
  }

  /** Text and structure of one element; a table within the limits is read whole. */
  method ReadElement(element: BodyElement, total: nat, limits: Limits)
    returns (text: string, structured: Option<TableOut>, exhausted: bool)
    requires !element.OtherBody? && total <= limits.totalCharacters
    ensures structured.Some? <==> element.BodyTable?
    ensures exhausted <==> element.BodyTable? && !TableFits(element.table, total, limits)
    ensures !exhausted ==> Chunk(text, structured) == WholeChunk(element)
  {
    hide FullTable, TableText, Fits, FirstLetters, NeedOfRows;
    text, structured, exhausted := "", None, false;
    match element {
      case BodyParagraph(paragraph) =>
        text := paragraph;
      case BodyTable(table) =>
        var left := limits.totalCharacters - total;
        var characters := if limits.chunkCharacters < left then limits.chunkCharacters else left;
        var budget := new StructureBudget(limits.structuredElements, characters, limits.depth);
        var out;
        out, text := TableData(table, budget, 0);
        structured := Some(out);
        exhausted := budget.exhausted;
        NotNegative(NeedOfRows(table.rows), limits);
    }
  }

  lemma NotNegative(need: Need, limits: Limits)
    ensures forall elements, characters :: Fits(need, elements, characters, limits.depth) ==> 0 <= limits.depth
  {
  }

  lemma PartsStep(elements: seq<BodyElement>, i: nat)
    requires i < |elements|
    ensures Parts(elements[..i + 1]) ==
            if elements[i].OtherBody? then Parts(elements[..i]) else Parts(elements[..i]) + [elements[i]]
    ensures WholeText(elements[..i + 1]) ==
            WholeText(elements[..i]) + if elements[i].OtherBody? then 0 else |WholeChunk(elements[i]).text|
  {
    assert elements[..i + 1][..i] == elements[..i];
  }

  lemma {:induction false} PartsGrow(elements: seq<BodyElement>, i: nat)
    requires i <= |elements|
    ensures Parts(elements[..i]) <= Parts(elements)
    decreases |elements| - i
  {
    if i == |elements| {
      assert elements[..i] == elements;
    } else {
      PartsStep(elements, i);
      PartsGrow(elements, i + 1);
    }
  }

  /** The chunks so far are those of the first parts. */
  ghost predicate ChunksOf(parts: seq<BodyElement>, chunks: seq<Chunk>, limits: Limits) {
    |chunks| <= |parts| && forall k :: 0 <= k < |chunks| ==> ChunkAt(parts, chunks, k, limits)
  }

  ghost predicate ChunkAt(parts: seq<BodyElement>, chunks: seq<Chunk>, k: nat, limits: Limits)
    requires k < |parts| && k < |chunks|
  {
    ChunkOf(parts[k], TotalText(chunks[..k]), limits, chunks[k])
  }

  lemma OneMoreChunk(parts: seq<BodyElement>, chunks: seq<Chunk>, limits: Limits, part: BodyElement, chunk: Chunk)
    requires ChunksOf(parts, chunks, limits) && |chunks| == |parts|
    requires ChunkOf(part, TotalText(chunks), limits, chunk)
    ensures ChunksOf(parts + [part], chunks + [chunk], limits)
    ensures TotalText(chunks + [chunk]) == TotalText(chunks) + |chunk.text|
  {
    hide ChunkOf, TotalText;
    var more, longer := parts + [part], chunks + [chunk];
    forall k | 0 <= k < |longer| ensures ChunkAt(more, longer, k, limits) {
      if k < |chunks| {
        assert longer[..k] == chunks[..k] && more[k] == parts[k] && ChunkAt(parts, chunks, k, limits);
      } else {
        assert longer[..k] == chunks;
      }
    }
    LastText(chunks, chunk);
  }

  lemma LastText(chunks: seq<Chunk>, chunk: Chunk)
    ensures TotalText(chunks + [chunk]) == TotalText(chunks) + |chunk.text|
  {
    assert (chunks + [chunk])[..|chunks|] == chunks;
  }

  /** A chunk takes no more than is left, and is whole exactly when there is room. */
  lemma TakesWhatIsLeft(element: BodyElement, total: nat, limits: Limits, text: string, structured: Option<TableOut>,
                        exhausted: bool)
    requires !element.OtherBody? && total <= limits.totalCharacters && (structured.Some? <==> element.BodyTable?)
    requires exhausted <==> element.BodyTable? && !TableFits(element.table, total, limits)
    requires !exhausted ==> Chunk(text, structured) == WholeChunk(element)
    ensures var chunk := Chunk(Cut(text, total, limits), structured);
            && ChunkOf(element, total, limits, chunk) && total + |chunk.text| <= limits.totalCharacters
            && |chunk.text| <= limits.chunkCharacters
            && (Room(element, total, limits) <==>
                !exhausted && total < limits.totalCharacters && Cut(text, total, limits) == text)
            && (Room(element, total, limits) ==> chunk == WholeChunk(element))
  {
    hide TableFits, FullTable, TableText;
  }

  /** `parse`, from the warnings the archive gave rise to: every paragraph and table gives a chunk, in order and as
      whole as the limits allow, until there are as many as allowed. The result is partial exactly when the
      archive was noticed for something or some body element has no room. */
  method Parse(elements: seq<BodyElement>, limits: Limits, noticed: set<Warning>)
    returns (chunks: seq<Chunk>, warnings: set<Warning>, partial: bool)
    ensures |chunks| == if limits.chunks < |Parts(elements)| then limits.chunks else |Parts(elements)|
    ensures ChunksOf(Parts(elements), chunks, limits)
    ensures TotalText(chunks) <= limits.totalCharacters
    ensures forall i :: 0 <= i < |chunks| ==> |chunks[i].text| <= limits.chunkCharacters
    ensures noticed <= warnings && (partial <==> warnings != {})
    ensures partial <==> noticed != {} || !RoomForAll(elements, |elements|, limits)
    ensures RoomForAll(elements, |elements|, limits) ==>
              && |chunks| == |elements|
              && forall i :: 0 <= i < |elements| ==> !elements[i].OtherBody? && chunks[i] == WholeChunk(elements[i])
  {
    hide *;
    chunks, warnings := [], noticed;
    var total: nat := 0;
    NoElements(elements, limits);
    var i := 0;
    while i < |elements|
      invariant 0 <= i <= |elements| && |chunks| == |Parts(elements[..i])| <= limits.chunks
      invariant ChunksOf(Parts(elements[..i]), chunks, limits)
      invariant total == TotalText(chunks) <= limits.totalCharacters
      invariant forall j :: 0 <= j < |chunks| ==> |chunks[j].text| <= limits.chunkCharacters
      invariant noticed <= warnings
      invariant warnings != {} <==> noticed != {} || !RoomForAll(elements, i, limits)
      invariant RoomForAll(elements, i, limits) ==>
                  && |chunks| == i && total == WholeText(elements[..i])
                  && forall j :: 0 <= j < i ==> !elements[j].OtherBody? && chunks[j] == WholeChunk(elements[j])
    {
      PartsStep(elements, i);
      RoomStep(elements, i, limits);
      if |chunks| >= limits.chunks {
        warnings := warnings + {ChunkLimit};
        Full(elements, i, chunks, limits);
        return chunks, warnings, true;
      }
      if elements[i].OtherBody? {
        warnings := warnings + {ElementPartial};
        i := i + 1;
        continue;
      }
      var text, structured, exhausted := ReadElement(elements[i], total, limits);
      if exhausted {
        warnings := warnings + {StructureLimit};
      }
      var kept, trimmed := Trim(text, total, limits);
      warnings := warnings + trimmed;
      TakesWhatIsLeft(elements[i], total, limits, text, structured, exhausted);
      OneMoreChunk(Parts(elements[..i]), chunks, limits, elements[i], Chunk(kept, structured));
      total := total + |kept|;
      chunks := chunks + [Chunk(kept, structured)];
      i := i + 1;
    }
    assert elements[..i] == elements;
    partial := warnings != {};
  }

  lemma NoElements(elements: seq<BodyElement>, limits: Limits)
    ensures Parts(elements[..0]) == [] && TotalText([]) == 0 && WholeText(elements[..0]) == 0
    ensures ChunksOf([], [], limits) && RoomForAll(elements, 0, limits)
  {
  }

  lemma RoomStep(elements: seq<BodyElement>, i: nat, limits: Limits)
    requires i < |elements|
    ensures RoomForAll(elements, i + 1, limits) <==>
            RoomForAll(elements, i, limits) && i < limits.chunks && Room(elements[i], WholeText(elements[..i]), limits)
    ensures RoomForAll(elements, i + 1, limits) ==> !elements[i].OtherBody?
    ensures RoomForAll(elements, |elements|, limits) ==> RoomForAll(elements, i + 1, limits)
  {
    assert RoomForAll(elements, i + 1, limits) ==> RoomAt(elements, i, limits);
  }

  /** No further chunk is allowed: those of the first parts are there. */
  lemma Full(elements: seq<BodyElement>, i: nat, chunks: seq<Chunk>, limits: Limits)
    requires i < |elements| && |chunks| == |Parts(elements[..i])| && ChunksOf(Parts(elements[..i]), chunks, limits)
    ensures |chunks| <= |Parts(elements)| && ChunksOf(Parts(elements), chunks, limits)
  {
    hide Parts, ChunkOf;
    PartsGrow(elements, i);
    var some, all := Parts(elements[..i]), Parts(elements);
    forall k | 0 <= k < |chunks| ensures ChunkAt(all, chunks, k, limits) {
      assert ChunkAt(some, chunks, k, limits) && all[k] == some[k];
    }
  }
}
