/**
 * The fetched pages, reduced to the data the analyzer reads from them.
 * A page is its sequence of `<table>` elements; a table is its sequence of
 * `<tr>` rows; a row carries the stripped text of each of its `<td>` cells,
 * the anchors inside it that have an `href`, in document order, and the
 * row's whole text as `get_text()` returns it.
 */
module Document {

  /** An anchor: the value of its `href` and its stripped text. */
  datatype Link = Link(href: string, text: string)

  datatype Row = Row(cells: seq<string>, links: seq<Link>, text: string)

  type Table = seq<Row>

  type Page = seq<Table>
}
