/**
 * An abstract view of the HTML that the scrapers read. BeautifulSoup's tree is
 * reduced to what the code looks at: the text fragments (NavigableStrings) of
 * each table cell, and `get_text(strip=True)`, which strips every fragment and
 * joins what is left with no separator.
 */
module Html {
  import opened Text

  /** The text fragments inside one `<td>`, in document order. */
  type Cell = seq<string>

  /** `cell.get_text(strip=True)`: the cell's text with the whitespace around every fragment removed. */
  function CellText(cell: Cell): (r: string)
    ensures r == [] || (!IsSpace(r[0]) && !IsSpace(r[|r| - 1]))
  {
    if cell == [] then []
    else
      var head, tail := Strip(cell[0]), CellText(cell[1..]);
      JoinKeepsEnds(head, tail, IsSpace);
      head + tail
  }

  /** Joining two texts that neither start nor end with a character of class `p` gives another such text. */
  lemma JoinKeepsEnds(a: string, b: string, p: char -> bool)
    requires a == [] || (!p(a[0]) && !p(a[|a| - 1]))
    requires b == [] || (!p(b[0]) && !p(b[|b| - 1]))
    ensures var r := a + b; r == [] || (!p(r[0]) && !p(r[|r| - 1]))
  {
    var r := a + b;
    assert r != [] ==> r[0] == if a != [] then a[0] else b[0];
    assert r != [] ==> r[|r| - 1] == if b != [] then b[|b| - 1] else a[|a| - 1];
  }

  /** A cell holding a single text fragment reads as that fragment, stripped. */
  lemma CellOfOne(fragment: string)
    ensures CellText([fragment]) == Strip(fragment)
  {
    assert [fragment][1..] == [];
    assert CellText([fragment]) == Strip(fragment) + CellText([]);
  }

  /** The texts of a row's cells, as `[c.get_text(strip=True) for c in row.find_all('td')]` gives them. */
  function Columns(cells: seq<Cell>): seq<string> {
    seq(|cells|, i requires 0 <= i < |cells| => CellText(cells[i]))
  }
}
