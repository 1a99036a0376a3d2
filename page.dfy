/**
 * A fetched page after HTML parsing, as the scraper reads it. Parsing itself
 * is not modelled: a page is either missing its `div#pageBody`, or it is the
 * list of `table` elements found inside that div, each a list of `tr` rows,
 * each a list of `td` cells.
 */
module Page {
  import opened Wrappers

  /**
   * One `td` cell: its text (`get_text()`) and the `href` of the anchor in
   * its first paragraph (`cell.p.a['href']`); `link` is None when the cell
   * has no paragraph, the paragraph no anchor, or the anchor no `href`.
   */
  datatype Cell = Cell(text: string, link: Option<string>)

  type Row = seq<Cell>

  type Table = seq<Row>

  /** `soup.find_all('div', id='pageBody')` came back empty, or the tables of its first match. */
  datatype Document = NoPageBody | PageBody(tables: seq<Table>)

  /** `table.find_all('td')`: all the cells of a table, row after row. */
  function TableCells(t: Table): (cells: seq<Cell>)
    ensures t != [] ==> |t[0]| <= |cells| && cells[..|t[0]|] == t[0]
    ensures t == [] ==> cells == []
  {
    if t == [] then [] else t[0] + TableCells(t[1..])
  }

  /** The cells of consecutive rows follow one another, so every row contributes its cells in order. */
  lemma {:induction false} TableCellsAppend(a: Table, b: Table)
    ensures TableCells(a + b) == TableCells(a) + TableCells(b)
    decreases |a|
  {
    if a == [] {
      assert a + b == b;
    } else {
      assert (a + b)[0] == a[0] && (a + b)[1..] == a[1..] + b;
      TableCellsAppend(a[1..], b);
    }
  }
}
