/** Reading nested tables under a shared budget (parsers/docx.py, `_StructureBudget`, `_table_data`,
    `_cell_data`), proved against the same reading without a budget. */
module DocxTables {

  datatype Table = Table(rows: seq<TableRow>)

  /** A merged cell occupies several grid columns and is enumerated once for each. */
  datatype TableRow = TableRow(cells: seq<Cell>)

  datatype Cell = Cell(gridSpan: int, contents: seq<Element>)

  datatype Element = Paragraph(text: string) | Nested(table: Table)

  // ----- structured output

  datatype TableOut = TableOut(rows: seq<RowOut>)

  datatype RowOut = RowOut(cells: seq<CellOut>)

  datatype CellOut = CellOut(index: nat, span: nat, contents: seq<ElementOut>)

  datatype ElementOut = ParagraphOut(text: string) | TableIn(table: TableOut)

  function Join(parts: seq<string>, separator: string): string {
    if parts == [] then ""
    else if |parts| == 1 then parts[0]
    else Join(parts[..|parts| - 1], separator) + separator + parts[|parts| - 1]
  }

  function Span(cell: Cell): nat {
    if cell.gridSpan < 1 then 1 else cell.gridSpan
  }

  /** The grid column after the cells enumerated before position n; a cell inside it is a repetition. */
  function VisualColumn(cells: seq<Cell>, n: nat): nat
    requires n <= |cells|
  {
    if n == 0 then 0
    else
      var before := VisualColumn(cells, n - 1);
      if n - 1 < before then before else before + Span(cells[n - 1])
  }

  // ----- the reading without a budget: every non-repeated cell, whole

  function FullTable(table: Table): TableOut
    decreases table, 1
  {
    TableOut(FullRows(table.rows))
  }

  function FullRows(rows: seq<TableRow>): seq<RowOut>
    decreases rows, 0
  {
    if rows == [] then []
    else FullRows(rows[..|rows| - 1]) + [RowOut(FullCells(rows[|rows| - 1].cells, |rows[|rows| - 1].cells|))]
  }

  function FullCells(cells: seq<Cell>, n: nat): seq<CellOut>
    requires n <= |cells|
    decreases cells, n
  {
    if n == 0 then []
    else if n - 1 < VisualColumn(cells, n - 1) then FullCells(cells, n - 1)
    else
      FullCells(cells, n - 1) +
      [CellOut(VisualColumn(cells, n - 1), Span(cells[n - 1]), FullContents(cells[n - 1].contents))]
  }

  function FullContents(contents: seq<Element>): seq<ElementOut>
    decreases contents, 0
  {
    if contents == [] then []
    else
      FullContents(contents[..|contents| - 1]) +
      [FullElement(contents[|contents| - 1])]
  }

  function FullElement(element: Element): ElementOut
    decreases element, 0
  {
    match element
    case Paragraph(text) => ParagraphOut(text)
    case Nested(table) => TableIn(FullTable(table))
  }

  function TableText(table: Table): string
    decreases table, 1
  {
    Join(RowTexts(table.rows), "\n")
  }

  function RowTexts(rows: seq<TableRow>): seq<string>
    decreases rows, 0
  {
    if rows == [] then []
    else RowTexts(rows[..|rows| - 1]) + [Join(CellTexts(rows[|rows| - 1].cells, |rows[|rows| - 1].cells|), "\t")]
  }

  function CellTexts(cells: seq<Cell>, n: nat): seq<string>
    requires n <= |cells|
    decreases cells, n
  {
    if n == 0 then []
    else if n - 1 < VisualColumn(cells, n - 1) then CellTexts(cells, n - 1)
    else CellTexts(cells, n - 1) + [Join(ContentTexts(cells[n - 1].contents), "\n")]
  }

  function ContentTexts(contents: seq<Element>): seq<string>
    decreases contents, 0
  {
    if contents == [] then []
    else
      ContentTexts(contents[..|contents| - 1]) +
      [ElementText(contents[|contents| - 1])]
  }

  function ElementText(element: Element): string
    decreases element, 0
  {
    match element
    case Paragraph(text) => text
    case Nested(table) => TableText(table)
  }

  // ----- the text kept in an output

  function KeptInTable(out: TableOut): string
    decreases out, 1
  {
    KeptInRows(out.rows)
  }

  function KeptInRows(rows: seq<RowOut>): string
    decreases rows, 0
  {
    if rows == [] then "" else KeptInRows(rows[..|rows| - 1]) + KeptInCells(rows[|rows| - 1].cells)
  }

  function KeptInCells(cells: seq<CellOut>): string
    decreases cells, 0
  {
    if cells == [] then "" else KeptInCells(cells[..|cells| - 1]) + KeptInContents(cells[|cells| - 1].contents)
  }

  function KeptInContents(contents: seq<ElementOut>): string
    decreases contents, 0
  {
    if contents == [] then ""
    else KeptInContents(contents[..|contents| - 1]) + KeptInElement(contents[|contents| - 1])
  }

  function KeptInElement(element: ElementOut): string
    decreases element, 0
  {
    match element
    case ParagraphOut(text) => text
    case TableIn(table) => KeptInTable(table)
  }

  // ----- what a whole reading takes

  /** Elements and characters to take, and levels of tables inside. */
  datatype Need = Need(elements: nat, characters: nat, height: nat)

  const Nothing := Need(0, 0, 0)

  /** One element, and what it holds, after what came before. */
  function With(before: Need, held: Need): Need {
    Need(before.elements + 1 + held.elements, before.characters + held.characters,
         if before.height < held.height then held.height else before.height)
  }

  function NeedOfRows(rows: seq<TableRow>): Need
    decreases rows, 0
  {
    if rows == [] then Nothing
    else With(NeedOfRows(rows[..|rows| - 1]), NeedOfCells(rows[|rows| - 1].cells, |rows[|rows| - 1].cells|))
  }

  function NeedOfCells(cells: seq<Cell>, n: nat): Need
    requires n <= |cells|
    decreases cells, n
  {
    if n == 0 then Nothing
    else if n - 1 < VisualColumn(cells, n - 1) then NeedOfCells(cells, n - 1)
    else With(NeedOfCells(cells, n - 1), NeedOfContents(cells[n - 1].contents))
  }

  function NeedOfContents(contents: seq<Element>): Need
    decreases contents, 0
  {
    if contents == [] then Nothing
    else With(NeedOfContents(contents[..|contents| - 1]), NeedOfElement(contents[|contents| - 1]))
  }

  function NeedOfElement(element: Element): Need
    decreases element, 0
  {
    match element
    case Paragraph(text) => Need(0, |text|, 0)
    case Nested(table) => var inside := NeedOfRows(table.rows); inside.(height := inside.height + 1)
  }

  /** A budget of no elements refuses the first; one below zero is no worse. */
  predicate Shaped(need: Need, elements: int, levels: int) {
    need.elements <= (if elements < 0 then 0 else elements) && need.height <= levels
  }

  predicate Fits(need: Need, elements: int, characters: int, levels: int) {
    Shaped(need, elements, levels) && need.characters <= characters
  }

  /** What was kept is what comes first: all of it, or what came before characters or elements ran out. If elements
      and levels suffice, as many characters are kept as there were to spend. */
  predicate FirstLetters(need: Need, elements: int, characters: nat, levels: int, elementsLeft: int,
                         charactersLeft: nat,
                         kept: string, whole: string) {
    && characters == charactersLeft + |kept|
    && (need.height <= levels ==> kept == whole || (kept <= whole && (charactersLeft == 0 || elementsLeft <= 0)))
    && (Shaped(need, elements, levels) ==>
          && elementsLeft == elements - need.elements
          && |kept| == if need.characters < characters then need.characters else characters)
  }

  lemma LettersStep(before: Need, held: Need, elements: int, characters: nat, levels: int, elementsLeft: int,
                    charactersLeft: nat, elementsAfter: int, charactersAfter: nat,
                    kept: string, whole: string, more: string, wholeMore: string)
    requires FirstLetters(before, elements, characters, levels, elementsLeft, charactersLeft, kept, whole)
    requires elementsLeft > 0
    requires FirstLetters(held, elementsLeft - 1, charactersLeft, levels, elementsAfter, charactersAfter, more,
      wholeMore)
    ensures FirstLetters(With(before, held), elements, characters, levels, elementsAfter, charactersAfter,
                         kept + more, whole + wholeMore)
  {
    assert charactersLeft == 0 ==> more == "" && kept + more == kept;
  }

  lemma ParagraphLetters(text: string, kept: string, elements: nat, characters: nat, levels: nat)
    requires kept == if |text| <= characters then text else text[..characters]
    ensures NeedOfElement(Paragraph(text)) == Need(0, |text|, 0)
    ensures Fits(Need(0, |text|, 0), elements, characters, levels) <==> |text| <= characters
    ensures FirstLetters(Need(0, |text|, 0), elements, characters, levels, elements, characters - |kept|, kept, text)
  {
  }

  /** A table inside takes what it takes by itself, one level further down. */
  lemma NestedLetters(table: Table, elements: int, characters: nat, levels: int, elementsLeft: int, charactersLeft: nat,
                      kept: string, whole: string)
    requires FirstLetters(NeedOfRows(table.rows), elements, characters, levels - 1, elementsLeft, charactersLeft, kept,
                          whole)
    ensures var need, inside := NeedOfElement(Nested(table)), NeedOfRows(table.rows);
            && need.elements == inside.elements && need.characters == inside.characters
            && (Fits(need, elements, characters, levels) <==>
                levels >= 1 && Fits(inside, elements, characters, levels - 1))
            && FirstLetters(need, elements, characters, levels, elementsLeft, charactersLeft, kept, whole)
  {
    hide NeedOfRows;
  }

  lemma BelowDepth(need: Need, elements: int, characters: nat, levels: int, whole: string)
    requires levels < 0
    ensures !Fits(need, elements, characters, levels)
    ensures FirstLetters(need, elements, characters, levels, elements, characters, "", whole)
  {
  }

  lemma NothingTaken(elements: int, characters: nat, levels: nat)
    ensures Fits(Nothing, elements, characters, levels)
    ensures FirstLetters(Nothing, elements, characters, levels, elements, characters, "", "")
  {
  }

  /** No element is left for the next part: the whole does not fit, and what was kept comes first in it. */
  lemma Stopped(before: Need, next: Need, need: Need, elements: int, characters: nat, levels: int, elementsLeft: int,
                charactersLeft: nat, kept: string, part: string, whole: string)
    requires FirstLetters(before, elements, characters, levels, elementsLeft, charactersLeft, kept, part)
    requires elementsLeft <= 0 &&
      (Fits(before, elements, characters, levels) ==> elementsLeft == elements - before.elements)
    requires Shaped(next, elements, levels) ==> Shaped(before, elements, levels) && before.elements < elements
    requires before.elements <= need.elements && before.height <= need.height && part <= whole
    requires next.elements <= need.elements && next.height <= need.height
    ensures !Fits(need, elements, characters, levels)
    ensures FirstLetters(need, elements, characters, levels, elementsLeft, charactersLeft, kept, whole)
  {
    assert Shaped(need, elements, levels) ==> Shaped(next, elements, levels);
  }

  lemma FitsWith(before: Need, held: Need, elements: int, characters: int, levels: int)
    ensures Fits(With(before, held), elements, characters, levels) <==>
            && Fits(before, elements, characters, levels) && before.elements < elements
            && Fits(held, elements - before.elements - 1, characters - before.characters, levels)
    ensures Shaped(With(before, held), elements, levels) <==>
            && Shaped(before, elements, levels) && before.elements < elements
            && Shaped(held, elements - before.elements - 1, levels)
  {
  }

  lemma RowsStep(rows: seq<TableRow>, i: nat)
    requires i < |rows|
    ensures NeedOfRows(rows[..i + 1]) == With(NeedOfRows(rows[..i]), NeedOfCells(rows[i].cells, |rows[i].cells|))
    ensures FullRows(rows[..i + 1]) == FullRows(rows[..i]) + [RowOut(FullCells(rows[i].cells, |rows[i].cells|))]
    ensures RowTexts(rows[..i + 1]) ==
            RowTexts(rows[..i]) + [Join(CellTexts(rows[i].cells, |rows[i].cells|), "\t")]
  {
    assert rows[..i + 1][..i] == rows[..i];
  }

  /** A part takes no more than the whole, and its text comes first. */
  predicate Part(before: Need, need: Need, part: string, whole: string) {
    && before.elements <= need.elements && before.characters <= need.characters && before.height <= need.height
    && part <= whole
  }

  lemma {:induction false} RowsPart(rows: seq<TableRow>, i: nat)
    requires i <= |rows|
    ensures Part(NeedOfRows(rows[..i]), NeedOfRows(rows), KeptInRows(FullRows(rows[..i])), KeptInRows(FullRows(rows)))
    decreases |rows| - i
  {
    hide NeedOfRows, NeedOfCells, FullRows, FullCells, KeptInRows, KeptInCells;
    if i == |rows| {
      assert rows[..i] == rows;
    } else {
      RowsPart(rows, i + 1);
      RowsStep(rows, i);
      KeptInRow(FullRows(rows[..i]), FullCells(rows[i].cells, |rows[i].cells|));
    }
  }

  lemma {:induction false} CellsPart(cells: seq<Cell>, j: nat, n: nat)
    requires j <= n <= |cells|
    ensures Part(NeedOfCells(cells, j), NeedOfCells(cells, n), KeptInCells(FullCells(cells, j)),
                 KeptInCells(FullCells(cells, n)))
    decreases n
  {
    hide NeedOfCells, NeedOfContents, FullCells, FullContents, KeptInCells, KeptInContents;
    if j < n {
      CellsPart(cells, j, n - 1);
      CellsStep(cells, n - 1);
      KeptInCell(FullCells(cells, n - 1), CellOut(VisualColumn(cells, n - 1), Span(cells[n - 1]),
                                                  FullContents(cells[n - 1].contents)));
    }
  }

  lemma {:induction false} ContentsPart(contents: seq<Element>, k: nat)
    requires k <= |contents|
    ensures Part(NeedOfContents(contents[..k]), NeedOfContents(contents), KeptInContents(FullContents(contents[..k])),
                 KeptInContents(FullContents(contents)))
    decreases |contents| - k
  {
    hide NeedOfContents, NeedOfElement, FullContents, FullElement, KeptInContents, KeptInElement;
    if k == |contents| {
      assert contents[..k] == contents;
    } else {
      ContentsPart(contents, k + 1);
      ContentsStep(contents, k);
      KeptStep(FullContents(contents[..k]), FullElement(contents[k]));
    }
  }

  lemma RowsStopped(rows: seq<TableRow>, i: nat, elements: int, characters: nat, levels: int, elementsLeft: int,
                    charactersLeft: nat, kept: string)
    requires i < |rows| && elementsLeft <= 0
    requires FirstLetters(NeedOfRows(rows[..i]), elements, characters, levels, elementsLeft, charactersLeft, kept,
                          KeptInRows(FullRows(rows[..i])))
    requires Fits(NeedOfRows(rows[..i]), elements, characters, levels) ==>
               elementsLeft == elements - NeedOfRows(rows[..i]).elements
    ensures !Fits(NeedOfRows(rows), elements, characters, levels)
    ensures FirstLetters(NeedOfRows(rows), elements, characters, levels, elementsLeft, charactersLeft, kept,
                         KeptInRows(FullRows(rows)))
  {
    hide NeedOfRows, NeedOfCells, FullRows, FullCells, KeptInRows, FirstLetters, Fits, Shaped, With, Join, RowTexts;
    var held := NeedOfCells(rows[i].cells, |rows[i].cells|);
    RowsPart(rows, i);
    RowsPart(rows, i + 1);
    RowsStep(rows, i);
    FitsWith(NeedOfRows(rows[..i]), held, elements, characters, levels);
    Stopped(NeedOfRows(rows[..i]), NeedOfRows(rows[..i + 1]), NeedOfRows(rows), elements, characters, levels,
            elementsLeft, charactersLeft, kept, KeptInRows(FullRows(rows[..i])), KeptInRows(FullRows(rows)));
  }

  lemma CellsStopped(cells: seq<Cell>, j: nat, elements: int, characters: nat, levels: int, elementsLeft: int,
                     charactersLeft: nat, kept: string)
    requires j < |cells| && elementsLeft <= 0 && VisualColumn(cells, j) <= j
    requires FirstLetters(NeedOfCells(cells, j), elements, characters, levels, elementsLeft, charactersLeft, kept,
                          KeptInCells(FullCells(cells, j)))
    requires Fits(NeedOfCells(cells, j), elements, characters, levels) ==>
               elementsLeft == elements - NeedOfCells(cells, j).elements
    ensures !Fits(NeedOfCells(cells, |cells|), elements, characters, levels)
    ensures FirstLetters(NeedOfCells(cells, |cells|), elements, characters, levels, elementsLeft, charactersLeft, kept,
                         KeptInCells(FullCells(cells, |cells|)))
  {
    hide NeedOfCells, NeedOfContents, FullCells, FullContents, KeptInCells, FirstLetters, Fits, Shaped, With, Join,
      CellTexts,
      VisualColumn;
    CellsPart(cells, j, |cells|);
    CellsPart(cells, j + 1, |cells|);
    CellsStep(cells, j);
    FitsWith(NeedOfCells(cells, j), NeedOfContents(cells[j].contents), elements, characters, levels);
    Stopped(NeedOfCells(cells, j), NeedOfCells(cells, j + 1), NeedOfCells(cells, |cells|), elements, characters, levels,
            elementsLeft, charactersLeft, kept, KeptInCells(FullCells(cells, j)),
              KeptInCells(FullCells(cells, |cells|)));
  }

  lemma ContentsStopped(contents: seq<Element>, k: nat, elements: int, characters: nat, levels: int, elementsLeft: int,
                        charactersLeft: nat, kept: string)
    requires k < |contents| && elementsLeft <= 0
    requires FirstLetters(NeedOfContents(contents[..k]), elements, characters, levels, elementsLeft, charactersLeft,
      kept,
                          KeptInContents(FullContents(contents[..k])))
    requires Fits(NeedOfContents(contents[..k]), elements, characters, levels) ==>
               elementsLeft == elements - NeedOfContents(contents[..k]).elements
    ensures !Fits(NeedOfContents(contents), elements, characters, levels)
    ensures FirstLetters(NeedOfContents(contents), elements, characters, levels, elementsLeft, charactersLeft, kept,
                         KeptInContents(FullContents(contents)))
  {
    hide NeedOfContents, NeedOfElement, FullContents, FullElement, KeptInContents, FirstLetters, Fits, Shaped, With,
      ContentTexts;
    ContentsPart(contents, k);
    ContentsPart(contents, k + 1);
    ContentsStep(contents, k);
    FitsWith(NeedOfContents(contents[..k]), NeedOfElement(contents[k]), elements, characters, levels);
    Stopped(NeedOfContents(contents[..k]), NeedOfContents(contents[..k + 1]), NeedOfContents(contents), elements,
            characters, levels, elementsLeft, charactersLeft, kept, KeptInContents(FullContents(contents[..k])),
            KeptInContents(FullContents(contents)));
  }

  class StructureBudget {
    var remainingElements: int
    var remainingCharacters: nat
    const maximumDepth: int
    var exhausted: bool

    constructor (elements: int, characters: nat, maximumDepth: int)
      ensures remainingElements == elements && remainingCharacters == characters && this.maximumDepth == maximumDepth &&
        !exhausted
    {
      remainingElements, remainingCharacters, this.maximumDepth, exhausted := elements, characters, maximumDepth, false;
    }

    /** `take_element`. */
    method TakeElement() returns (taken: bool)
      modifies this`remainingElements, this`exhausted
      ensures taken <==> old(remainingElements) > 0
      ensures remainingElements == old(remainingElements) - (if taken then 1 else 0)
      ensures exhausted <==> old(exhausted) || !taken
    {
      if remainingElements <= 0 {
        exhausted := true;
        return false;
      }
      remainingElements := remainingElements - 1;
      return true;
    }

    /** `take_text`: a longer text is cut to what is left, and then the budget is exhausted. */
    method TakeText(value: string) returns (kept: string)
      modifies this`remainingCharacters, this`exhausted
      ensures |value| <= old(remainingCharacters) ==> kept == value
      ensures |value| > old(remainingCharacters) ==> kept <= value && |kept| == old(remainingCharacters)
      ensures remainingCharacters == old(remainingCharacters) - |kept|
      ensures exhausted <==> old(exhausted) || |value| > old(remainingCharacters)
    {
      kept := value;
      if |value| > remainingCharacters {
        kept := value[..remainingCharacters];
        exhausted := true;
      }
      remainingCharacters := remainingCharacters - |kept|;
    }
  }

  /** `_table_data`: characters spent are the characters of the paragraphs kept; the table is read whole, for
      exactly what it takes, if it fits the budget, and otherwise the budget is exhausted. */
  method TableData(table: Table, budget: StructureBudget, depth: int) returns (out: TableOut, text: string)
    modifies budget
    ensures FirstLetters(NeedOfRows(table.rows), old(budget.remainingElements), old(budget.remainingCharacters),
                         budget.maximumDepth - depth, budget.remainingElements, budget.remainingCharacters,
                         KeptInTable(out), KeptInTable(FullTable(table)))
    ensures var need := NeedOfRows(table.rows);
            var fits := depth <= budget.maximumDepth &&
                        Fits(need, old(budget.remainingElements), old(budget.remainingCharacters),
                             budget.maximumDepth - depth);
            && (budget.exhausted <==> old(budget.exhausted) || !fits)
            && (fits ==>
                  && out == FullTable(table) && text == TableText(table)
                  && budget.remainingElements == old(budget.remainingElements) - need.elements
                  && budget.remainingCharacters == old(budget.remainingCharacters) - need.characters)
    decreases table, 0
  {
    hide NeedOfRows, NeedOfCells, FullRows, FullCells, RowTexts, CellTexts, Join, KeptInRows, KeptInCells, With,
      FirstLetters, Fits, Shaped;
    if depth > budget.maximumDepth {
      budget.exhausted := true;
      NoRows();
      BelowDepth(NeedOfRows(table.rows), budget.remainingElements, budget.remainingCharacters,
                 budget.maximumDepth - depth, KeptInTable(FullTable(table)));
      return TableOut([]), "";
    }
    var rows: seq<RowOut>, texts: seq<string> := [], [];
    assert table.rows[..0] == [];
    NoRows();
    ghost var elements, characters, levels :=
      budget.remainingElements, budget.remainingCharacters, budget.maximumDepth - depth;
    NothingTaken(elements, characters, levels);
    var i := 0;
    while i < |table.rows|
      invariant 0 <= i <= |table.rows|
      invariant FirstLetters(NeedOfRows(table.rows[..i]), elements, characters, levels, budget.remainingElements,
                             budget.remainingCharacters, KeptInRows(rows), KeptInRows(FullRows(table.rows[..i])))
      invariant budget.exhausted <==>
                old(budget.exhausted) || !Fits(NeedOfRows(table.rows[..i]), elements, characters, levels)
      invariant Fits(NeedOfRows(table.rows[..i]), elements, characters, levels) ==>
                  && rows == FullRows(table.rows[..i]) && texts == RowTexts(table.rows[..i])
                  && budget.remainingElements == elements - NeedOfRows(table.rows[..i]).elements
                  && budget.remainingCharacters == characters - NeedOfRows(table.rows[..i]).characters
    {
      RowsStep(table.rows, i);
      FitsWith(NeedOfRows(table.rows[..i]), NeedOfCells(table.rows[i].cells, |table.rows[i].cells|), elements,
               characters, levels);
      WithSums(NeedOfRows(table.rows[..i]), NeedOfCells(table.rows[i].cells, |table.rows[i].cells|));
      ghost var elementsLeft, charactersLeft := budget.remainingElements, budget.remainingCharacters;
      var taken := budget.TakeElement();
      if !taken {
        RowsStopped(table.rows, i, elements, characters, levels, elementsLeft, charactersLeft, KeptInRows(rows));
        break;
      }
      var cells, cellTexts := RowData(table.rows[i], budget, depth);
      KeptInRow(rows, cells);
      KeptInRow(FullRows(table.rows[..i]), FullCells(table.rows[i].cells, |table.rows[i].cells|));
      LettersStep(NeedOfRows(table.rows[..i]), NeedOfCells(table.rows[i].cells, |table.rows[i].cells|),
                  elements, characters, levels, elementsLeft, charactersLeft, budget.remainingElements,
                  budget.remainingCharacters, KeptInRows(rows), KeptInRows(FullRows(table.rows[..i])),
                  KeptInCells(cells), KeptInCells(FullCells(table.rows[i].cells, |table.rows[i].cells|)));
      rows := rows + [RowOut(cells)];
      texts := texts + [Join(cellTexts, "\t")];
      i := i + 1;
    }
    assert i == |table.rows| ==> table.rows[..i] == table.rows;
    return TableOut(rows), Join(texts, "\n");
  }

  lemma NoRows()
    ensures NeedOfRows([]) == Nothing && FullRows([]) == [] && RowTexts([]) == [] && KeptInRows([]) == ""
  {
  }

  lemma WithSums(before: Need, held: Need)
    ensures With(before, held).elements == before.elements + 1 + held.elements
    ensures With(before, held).characters == before.characters + held.characters
  {
  }

  lemma KeptInRow(rows: seq<RowOut>, cells: seq<CellOut>)
    ensures KeptInRows(rows + [RowOut(cells)]) == KeptInRows(rows) + KeptInCells(cells)
  {
    assert (rows + [RowOut(cells)])[..|rows|] == rows;
  }

  lemma KeptInCell(cells: seq<CellOut>, cell: CellOut)
    ensures KeptInCells(cells + [cell]) == KeptInCells(cells) + KeptInContents(cell.contents)
  {
    assert (cells + [cell])[..|cells|] == cells;
  }

  lemma CellsStep(cells: seq<Cell>, j: nat)
    requires j < |cells|
    ensures VisualColumn(cells, j + 1) ==
            if j < VisualColumn(cells, j) then VisualColumn(cells, j) else VisualColumn(cells, j) + Span(cells[j])
    ensures if j < VisualColumn(cells, j)
            then
              && NeedOfCells(cells, j + 1) == NeedOfCells(cells, j) && FullCells(cells, j + 1) == FullCells(cells, j)
              && CellTexts(cells, j + 1) == CellTexts(cells, j)
            else
              && NeedOfCells(cells, j + 1) == With(NeedOfCells(cells, j), NeedOfContents(cells[j].contents))
              && FullCells(cells, j + 1) ==
                 FullCells(cells, j) +
                   [CellOut(VisualColumn(cells, j), Span(cells[j]), FullContents(cells[j].contents))]
              && CellTexts(cells, j + 1) == CellTexts(cells, j) + [Join(ContentTexts(cells[j].contents), "\n")]
  {
  }

  lemma NoCells(cells: seq<Cell>)
    ensures NeedOfCells(cells, 0) == Nothing && FullCells(cells, 0) == [] && CellTexts(cells, 0) == []
    ensures VisualColumn(cells, 0) == 0 && KeptInCells([]) == ""
  {
  }

  /** The cells of one row; repetitions of a merged cell are passed over. */
  method RowData(row: TableRow, budget: StructureBudget, depth: int) returns (cells: seq<CellOut>, texts: seq<string>)
    requires depth <= budget.maximumDepth
    modifies budget
    ensures FirstLetters(NeedOfCells(row.cells, |row.cells|), old(budget.remainingElements),
                         old(budget.remainingCharacters), budget.maximumDepth - depth, budget.remainingElements,
                         budget.remainingCharacters, KeptInCells(cells), KeptInCells(FullCells(row.cells, |row.cells|)))
    ensures var need := NeedOfCells(row.cells, |row.cells|);
            var fits := Fits(need, old(budget.remainingElements), old(budget.remainingCharacters),
                             budget.maximumDepth - depth);
            && (budget.exhausted <==> old(budget.exhausted) || !fits)
            && (fits ==>
                  && cells == FullCells(row.cells, |row.cells|) && texts == CellTexts(row.cells, |row.cells|)
                  && budget.remainingElements == old(budget.remainingElements) - need.elements
                  && budget.remainingCharacters == old(budget.remainingCharacters) - need.characters)
    decreases row, 0
  {
    hide NeedOfCells, NeedOfContents, FullCells, FullContents, CellTexts, ContentTexts, VisualColumn, Join, KeptInCells,
      KeptInContents,
      With, FirstLetters, Fits, Shaped;
    cells, texts := [], [];
    var visualColumn: nat := 0;
    NoCells(row.cells);
    ghost var elements, characters, levels :=
      budget.remainingElements, budget.remainingCharacters, budget.maximumDepth - depth;
    NothingTaken(elements, characters, levels);
    var j := 0;
    while j < |row.cells|
      invariant 0 <= j <= |row.cells|
      invariant FirstLetters(NeedOfCells(row.cells, j), elements, characters, levels, budget.remainingElements,
                             budget.remainingCharacters, KeptInCells(cells), KeptInCells(FullCells(row.cells, j)))
      invariant visualColumn == VisualColumn(row.cells, j)
      invariant budget.exhausted <==>
                old(budget.exhausted) || !Fits(NeedOfCells(row.cells, j), elements, characters, levels)
      invariant Fits(NeedOfCells(row.cells, j), elements, characters, levels) ==>
                  && cells == FullCells(row.cells, j) && texts == CellTexts(row.cells, j)
                  && budget.remainingElements == elements - NeedOfCells(row.cells, j).elements
                  && budget.remainingCharacters == characters - NeedOfCells(row.cells, j).characters
    {
      CellsStep(row.cells, j);
      if j >= visualColumn {
        FitsWith(NeedOfCells(row.cells, j), NeedOfContents(row.cells[j].contents), elements, characters, levels);
        WithSums(NeedOfCells(row.cells, j), NeedOfContents(row.cells[j].contents));
        ghost var elementsLeft, charactersLeft := budget.remainingElements, budget.remainingCharacters;
        var taken := budget.TakeElement();
        if !taken {
          CellsStopped(row.cells, j, elements, characters, levels, elementsLeft, charactersLeft, KeptInCells(cells));
          return;
        }
        var cell := row.cells[j];
        var contents, text := CellData(cell, budget, depth);
        KeptInCell(cells, CellOut(visualColumn, Span(cell), contents));
        KeptInCell(FullCells(row.cells, j), CellOut(visualColumn, Span(cell), FullContents(cell.contents)));
        LettersStep(NeedOfCells(row.cells, j), NeedOfContents(cell.contents), elements, characters, levels,
                    elementsLeft, charactersLeft, budget.remainingElements, budget.remainingCharacters,
                    KeptInCells(cells), KeptInCells(FullCells(row.cells, j)),
                    KeptInContents(contents), KeptInContents(FullContents(cell.contents)));
        cells := cells + [CellOut(visualColumn, Span(cell), contents)];
        texts := texts + [text];
        visualColumn := visualColumn + Span(cell);
      }
      j := j + 1;
    }
  }

  lemma ContentsStep(contents: seq<Element>, k: nat)
    requires k < |contents|
    ensures NeedOfContents(contents[..k + 1]) == With(NeedOfContents(contents[..k]), NeedOfElement(contents[k]))
    ensures FullContents(contents[..k + 1]) == FullContents(contents[..k]) + [FullElement(contents[k])]
    ensures ContentTexts(contents[..k + 1]) == ContentTexts(contents[..k]) + [ElementText(contents[k])]
  {
    assert contents[..k + 1][..k] == contents[..k];
  }

  lemma KeptStep(contents: seq<ElementOut>, element: ElementOut)
    ensures KeptInContents(contents + [element]) == KeptInContents(contents) + KeptInElement(element)
  {
    assert (contents + [element])[..|contents|] == contents;
  }

  lemma NoContents()
    ensures NeedOfContents([]) == Nothing && FullContents([]) == [] && ContentTexts([]) == [] &&
      KeptInContents([]) == ""
  {
  }

  /** `_cell_data`. */
  method CellData(cell: Cell, budget: StructureBudget, depth: int) returns (contents: seq<ElementOut>, text: string)
    requires depth <= budget.maximumDepth
    modifies budget
    ensures FirstLetters(NeedOfContents(cell.contents), old(budget.remainingElements), old(budget.remainingCharacters),
                         budget.maximumDepth - depth, budget.remainingElements, budget.remainingCharacters,
                         KeptInContents(contents), KeptInContents(FullContents(cell.contents)))
    ensures var need := NeedOfContents(cell.contents);
            var fits := Fits(need, old(budget.remainingElements), old(budget.remainingCharacters),
                             budget.maximumDepth - depth);
            && (budget.exhausted <==> old(budget.exhausted) || !fits)
            && (fits ==>
                  && contents == FullContents(cell.contents) && text == Join(ContentTexts(cell.contents), "\n")
                  && budget.remainingElements == old(budget.remainingElements) - need.elements
                  && budget.remainingCharacters == old(budget.remainingCharacters) - need.characters)
    decreases cell, 0
  {
    hide NeedOfContents, NeedOfRows, FullContents, ContentTexts, KeptInContents, KeptInTable, FullTable, TableText,
      Join,
      With, FirstLetters, Fits, Shaped;
    contents := [];
    var texts: seq<string> := [];
    assert cell.contents[..0] == [];
    NoContents();
    ghost var elements, characters, levels :=
      budget.remainingElements, budget.remainingCharacters, budget.maximumDepth - depth;
    NothingTaken(elements, characters, levels);
    var k := 0;
    while k < |cell.contents|
      invariant 0 <= k <= |cell.contents|
      invariant FirstLetters(NeedOfContents(cell.contents[..k]), elements, characters, levels, budget.remainingElements,
                             budget.remainingCharacters, KeptInContents(contents),
                             KeptInContents(FullContents(cell.contents[..k])))
      invariant budget.exhausted <==>
                old(budget.exhausted) || !Fits(NeedOfContents(cell.contents[..k]), elements, characters, levels)
      invariant Fits(NeedOfContents(cell.contents[..k]), elements, characters, levels) ==>
                  && contents == FullContents(cell.contents[..k]) && texts == ContentTexts(cell.contents[..k])
                  && budget.remainingElements == elements - NeedOfContents(cell.contents[..k]).elements
                  && budget.remainingCharacters == characters - NeedOfContents(cell.contents[..k]).characters
    {
      ContentsStep(cell.contents, k);
      FitsWith(NeedOfContents(cell.contents[..k]), NeedOfElement(cell.contents[k]), elements, characters, levels);
      WithSums(NeedOfContents(cell.contents[..k]), NeedOfElement(cell.contents[k]));
      ghost var elementsLeft, charactersLeft := budget.remainingElements, budget.remainingCharacters;
      var taken := budget.TakeElement();
      if !taken {
        ContentsStopped(cell.contents, k, elements, characters, levels, elementsLeft, charactersLeft,
                        KeptInContents(contents));
        break;
      }
      var element;
      match cell.contents[k] {
        case Paragraph(whole) =>
          var kept := budget.TakeText(whole);
          ParagraphLetters(whole, kept, budget.remainingElements, charactersLeft, levels);
          element := ParagraphOut(kept);
          texts := texts + [kept];
        case Nested(table) =>
          var out, inner := TableData(table, budget, depth + 1);
          NestedLetters(table, elementsLeft - 1, charactersLeft, levels, budget.remainingElements,
                        budget.remainingCharacters, KeptInTable(out), KeptInTable(FullTable(table)));
          element := TableIn(out);
          texts := texts + [inner];
      }
      KeptStep(contents, element);
      KeptStep(FullContents(cell.contents[..k]), FullElement(cell.contents[k]));
      LettersStep(NeedOfContents(cell.contents[..k]), NeedOfElement(cell.contents[k]), elements, characters, levels,
                  elementsLeft, charactersLeft, budget.remainingElements, budget.remainingCharacters,
                  KeptInContents(contents), KeptInContents(FullContents(cell.contents[..k])),
                  KeptInElement(element), KeptInElement(FullElement(cell.contents[k])));
      contents := contents + [element];
      k := k + 1;
    }
    assert k == |cell.contents| ==> cell.contents[..k] == cell.contents;
    return contents, Join(texts, "\n");
  }

  /** The characters a table needs are those of its paragraphs. */
  lemma {:induction false} NeedIsKept(rows: seq<TableRow>)
    ensures NeedOfRows(rows).characters == |KeptInRows(FullRows(rows))|
    decreases rows, 0
  {
    if rows != [] {
      var last := rows[|rows| - 1].cells;
      NeedIsKept(rows[..|rows| - 1]);
      CellsNeedIsKept(last, |last|);
      KeptInRow(FullRows(rows[..|rows| - 1]), FullCells(last, |last|));
    }
  }

  lemma {:induction false} CellsNeedIsKept(cells: seq<Cell>, n: nat)
    requires n <= |cells|
    ensures NeedOfCells(cells, n).characters == |KeptInCells(FullCells(cells, n))|
    decreases cells, n
  {
    if n > 0 {
      CellsNeedIsKept(cells, n - 1);
      ContentsNeedIsKept(cells[n - 1].contents);
      KeptInCell(FullCells(cells, n - 1), CellOut(VisualColumn(cells, n - 1), Span(cells[n - 1]),
                                                  FullContents(cells[n - 1].contents)));
    }
  }

  lemma {:induction false} ContentsNeedIsKept(contents: seq<Element>)
    ensures NeedOfContents(contents).characters == |KeptInContents(FullContents(contents))|
    decreases contents, 0
  {
    if contents != [] {
      var last := contents[|contents| - 1];
      ContentsNeedIsKept(contents[..|contents| - 1]);
      ElementNeedIsKept(last);
      KeptStep(FullContents(contents[..|contents| - 1]), FullElement(last));
    }
  }
  lemma {:induction false} ElementNeedIsKept(element: Element)
    ensures NeedOfElement(element).characters == |KeptInElement(FullElement(element))|
    decreases element, 0
  {
    match element
    case Paragraph(_) =>
    case Nested(table) => NeedIsKept(table.rows);
  }

  // ----- merged cells

  function Width(cell: Cell): nat {
    if cell.gridSpan >= 1 then cell.gridSpan else 1
  }

  /** A row as it is enumerated: each cell once for every grid column it occupies. */
  function Enumerated(cells: seq<Cell>): seq<Cell> {
    if cells == [] then []
    else
      var last := cells[|cells| - 1];
      Enumerated(cells[..|cells| - 1]) + seq(Width(last), _ => last)
  }

  /** The row as it is meant: each cell once, at the column where it begins. */
  function Laid(cells: seq<Cell>): seq<CellOut> {
    if cells == [] then []
    else
      var n := |cells| - 1;
      Laid(cells[..n]) + [CellOut(|Enumerated(cells[..n])|, Width(cells[n]), FullContents(cells[n].contents))]
  }

  /** What is read of the first cells does not depend on those that follow. */
  lemma {:induction false} FirstCells(cells: seq<Cell>, more: seq<Cell>, n: nat)
    requires n <= |cells|
    ensures VisualColumn(cells + more, n) == VisualColumn(cells, n)
    ensures FullCells(cells + more, n) == FullCells(cells, n)
  {
    if n > 0 {
      FirstCells(cells, more, n - 1);
    }
  }

  lemma {:induction false} Repetitions(cells: seq<Cell>, from: nat, n: nat)
    requires from < n <= |cells| && VisualColumn(cells, from) == from && n <= from + Span(cells[from])
    ensures VisualColumn(cells, n) == from + Span(cells[from])
    ensures FullCells(cells, n) ==
            FullCells(cells, from) + [CellOut(from, Span(cells[from]), FullContents(cells[from].contents))]
    decreases n
  {
    CellsStep(cells, n - 1);
    if from + 1 < n {
      Repetitions(cells, from, n - 1);
    }
  }

  /** A merged cell is read once, at the column where it begins. */
  lemma {:induction false} MergedOnce(cells: seq<Cell>)
    ensures var row := Enumerated(cells); FullCells(row, |row|) == Laid(cells) && VisualColumn(row, |row|) == |row|
    decreases |cells|
  {
    hide FullCells, VisualColumn, FullContents;
    if cells == [] {
      NoCells([]);
    } else {
      var n := |cells| - 1;
      var first, last := Enumerated(cells[..n]), cells[n];
      var row := Enumerated(cells);
      MergedOnce(cells[..n]);
      FirstCells(first, seq(Width(last), _ => last), |first|);
      Repetitions(row, |first|, |row|);
    }
  }

  /** Joined parts are joined parts of parts, with one separator between any two. */
  lemma {:induction false} JoinSplits(parts: seq<string>, more: seq<string>, separator: string)
    requires parts != [] && more != []
    ensures Join(parts + more, separator) == Join(parts, separator) + separator + Join(more, separator)
    decreases |more|
  {
    var n := |more| - 1;
    assert (parts + more)[..|parts + more| - 1] == parts + more[..n];
    if n > 0 {
      JoinSplits(parts, more[..n], separator);
    } else {
      assert parts + more[..n] == parts && more == [more[0]];
    }
  }
}
