/** The abstract element model the diff engine reads instead of XML.

    A diagram document is a tree of `object` elements (domain entities wrapping a visual
    `mxCell`) and bare `mxCell` elements. Only what the diagram scripts look at is kept:
    each element's attributes, an object's first `mxCell` child, and a cell's first
    `mxGeometry` child. */
module Elements {
  import opened Values

  /** An `mxCell` element. `geometry` holds the attributes of its first `mxGeometry` child;
      `geometryLabel` is the `value` attribute of the first element found, in document order,
      below an `mxGeometry` descendant of the cell and carrying a `value` attribute. */
  datatype Cell = Cell(
    attrs: map<string, string>,
    geometry: Option<map<string, string>>,
    geometryLabel: Option<string>)

  /** An `object` element and its first `mxCell` child, if any. */
  datatype Element = Element(attrs: map<string, string>, cell: Option<Cell>)

  /** One snapshot of a diagram, already queried:
      `objects` are all `object` elements in document order, and
      `rootCells` are the `mxCell` elements that are direct children of a `root` element,
      in document order. */
  datatype Snapshot = Snapshot(objects: seq<Element>, rootCells: seq<Cell>)

  /** `elem.get(name)`. */
  function Attr(attrs: map<string, string>, name: string): Option<string> {
    if name in attrs then Some(attrs[name]) else None
  }

  /** The structural id of an object, `elem.get('id')`. */
  function ObjectId(e: Element): Option<string> { Attr(e.attrs, "id") }

  /** The domain id of a fact sheet, `elem.get('factSheetId')`. */
  function FactSheetId(e: Element): Option<string> { Attr(e.attrs, "factSheetId") }

  /** The domain id of a relation, `elem.get('relationId')`. */
  function RelationId(e: Element): Option<string> { Attr(e.attrs, "relationId") }

  /** The structural id of a cell, `cell.get('id')`. */
  function CellId(c: Cell): Option<string> { Attr(c.attrs, "id") }
}
