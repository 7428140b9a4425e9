/** Classification of `object` elements (`get_objects_by_type`) and the id-keyed
    lookup tables `compare_diagrams` builds before matching. */
module Classify {
  import opened Values
  import opened Elements
  import opened Extract
  import opened Comprehensions

  predicate IsFactSheet(e: Element) { "factSheetType" in e.attrs }

  predicate IsRelation(e: Element) { "dependencyRelation" in e.attrs }

  /** A generic object carries a label and neither a fact-sheet type nor a relation kind. */
  predicate IsGeneric(e: Element) {
    !IsFactSheet(e) && !IsRelation(e) && "label" in e.attrs
  }

  predicate OfKind(kind: Kind, e: Element) {
    match kind
    case FactSheet => IsFactSheet(e)
    case Relation => IsRelation(e)
    case Generic => IsGeneric(e)
  }

  /** `get_objects_by_type`: the objects of one kind, in document order. */
  function ObjectsOfKind(objects: seq<Element>, kind: Kind): (r: seq<Element>)
    ensures forall i :: 0 <= i < |r| ==> r[i] in objects && OfKind(kind, r[i])
    ensures forall i :: 0 <= i < |objects| && OfKind(kind, objects[i]) ==> objects[i] in r
  {
    Filter(objects, e => OfKind(kind, e))
  }

  /** No object is both generic and a fact sheet or relation. */
  lemma {:induction false} GenericIsDisjoint(objects: seq<Element>)
    ensures forall e :: e in ObjectsOfKind(objects, Generic) ==>
              e !in ObjectsOfKind(objects, FactSheet) && e !in ObjectsOfKind(objects, Relation)
    ensures forall e :: e in ObjectsOfKind(objects, Generic) ==> "label" in e.attrs
    ensures forall e :: e in ObjectsOfKind(objects, FactSheet) ==> "factSheetType" in e.attrs
    ensures forall e :: e in ObjectsOfKind(objects, Relation) ==> "dependencyRelation" in e.attrs
  {
    var g, f, r := ObjectsOfKind(objects, Generic), ObjectsOfKind(objects, FactSheet),
                   ObjectsOfKind(objects, Relation);
    forall e | e in g ensures e !in f && e !in r && "label" in e.attrs {
      var i :| 0 <= i < |g| && g[i] == e;
    }
    forall e | e in f ensures "factSheetType" in e.attrs {
      var i :| 0 <= i < |f| && f[i] == e;
    }
    forall e | e in r ensures "dependencyRelation" in e.attrs {
      var i :| 0 <= i < |r| && r[i] == e;
    }
  }

  /** The fact-sheet and relation tests are independent: an object that carries both a
      fact-sheet type and a relation kind lands in both lists. */
  lemma {:induction false} FactSheetAndRelationOverlap(objects: seq<Element>, e: Element)
    requires e in objects && "factSheetType" in e.attrs && "dependencyRelation" in e.attrs
    ensures e in ObjectsOfKind(objects, FactSheet) && e in ObjectsOfKind(objects, Relation)
  {
    var i :| 0 <= i < |objects| && objects[i] == e;
  }

  /** The identity key that decides whether an object of a kind was added or removed:
      the domain id for fact sheets and relations, the structural id otherwise. */
  function IdentityKey(kind: Kind): Element -> Option<string> {
    match kind
    case FactSheet => FactSheetId
    case Relation => RelationId
    case Generic => ObjectId
  }

  /** `[@id!='0'][@id!='1']`: the cell has an id, and it is not one of the two layer ids. */
  predicate NotLayerCell(c: Cell) {
    "id" in c.attrs && c.attrs["id"] != "0" && c.attrs["id"] != "1"
  }

  /** `[@value]`: the cell has a `value` attribute. */
  predicate HasValue(c: Cell) { "value" in c.attrs }

  /** The two standalone-cell queries, concatenated. */
  function StandaloneCells(rootCells: seq<Cell>): seq<Cell> {
    Filter(rootCells, NotLayerCell) + Filter(rootCells, HasValue)
  }

  /** `{elem.get('id'): elem for elem in cells}` over the standalone cells. */
  function CellsById(rootCells: seq<Cell>): map<Option<string>, Cell> {
    IndexBy(StandaloneCells(rootCells), CellId)
  }

  /** A cell is among the standalone cells exactly when one of the two queries selects it. */
  lemma {:induction false} StandaloneCellsSelect(rootCells: seq<Cell>)
    ensures forall c :: c in StandaloneCells(rootCells) <==>
              c in rootCells && (NotLayerCell(c) || HasValue(c))
  {
    var a, b := Filter(rootCells, NotLayerCell), Filter(rootCells, HasValue);
    forall c ensures c in a + b <==> c in rootCells && (NotLayerCell(c) || HasValue(c)) {
      if c in a + b {
        if c in a {
          var i :| 0 <= i < |a| && a[i] == c;
        } else {
          var i :| 0 <= i < |b| && b[i] == c;
        }
      }
      if c in rootCells {
        var i :| 0 <= i < |rootCells| && rootCells[i] == c;
      }
    }
  }

  /** The cell table holds one entry per id among the cells either query selects, and every
      entry is a selected cell filed under its own id. */
  lemma {:induction false} CellsByIdSelects(rootCells: seq<Cell>)
    ensures CellsById(rootCells).Keys ==
              set c | c in rootCells && (NotLayerCell(c) || HasValue(c)) :: CellId(c)
    ensures forall k :: k in CellsById(rootCells) ==>
              var c := CellsById(rootCells)[k];
              c in rootCells && (NotLayerCell(c) || HasValue(c)) && CellId(c) == k
  {
    var s := StandaloneCells(rootCells);
    StandaloneCellsSelect(rootCells);
    var viaIndex := set i | 0 <= i < |s| :: CellId(s[i]);
    var viaCells := set c | c in rootCells && (NotLayerCell(c) || HasValue(c)) :: CellId(c);
    forall k | k in viaIndex ensures k in viaCells {
      var i :| 0 <= i < |s| && CellId(s[i]) == k;
      assert s[i] in s;
    }
    forall k | k in viaCells ensures k in viaIndex {
      var c :| c in rootCells && (NotLayerCell(c) || HasValue(c)) && CellId(c) == k;
      var i :| 0 <= i < |s| && s[i] == c;
    }
  }
}
