/** Record extraction: the flat attribute records the diff engine compares
    (`extract_mxcell_info`, `extract_standalone_mxcell_info` and the three object extractors). */
module Extract {
  import opened Values
  import opened Elements

  /** The cell attributes `extract_mxcell_info` reads. */
  const CellFields: set<string> := {"style", "parent", "vertex", "edge", "source", "target", "id", "value"}

  /** The geometry attributes `extract_mxcell_info` reads. */
  const GeometryFields: set<string> := {"x", "y", "width", "height", "relative"}

  /** The geometry sub-record: always all five fields, a missing attribute as `None`. */
  function GeometryInfo(g: map<string, string>): (r: map<string, Value>)
    ensures r.Keys == GeometryFields
    ensures forall k :: k in r ==> r[k] == OfOption(Attr(g, k))
  {
    map k | k in GeometryFields :: OfOption(Attr(g, k))
  }

  /** The `geometry` and `label` keys a cell record adds differ from each other and from every copied cell attribute. */
  lemma RecordKeysDistinct()
    ensures "geometry" !in CellFields && "label" !in CellFields && "label" != "geometry"
  {
  }

  /** `extract_mxcell_info`: the eight cell attributes that are present, plus a `geometry`
      sub-record exactly when the cell has an `mxGeometry` child. No top-level value is `None`. */
  function CellInfo(c: Cell): (r: Record)
    ensures forall k :: k in r ==> r[k] != Null
    ensures r.Keys <= CellFields + {"geometry"}
    ensures forall k :: k in CellFields ==> (k in r <==> k in c.attrs)
    ensures forall k :: k in CellFields && k in c.attrs ==> r[k] == Str(c.attrs[k])
    ensures "geometry" in r <==> c.geometry.Some?
    ensures c.geometry.Some? ==> r["geometry"] == Dict(GeometryInfo(c.geometry.value))
  {
    // Dropping the `None` values leaves the attributes the cell has; the geometry
    // sub-record is never `None`.
    var present := map k | k in CellFields && k in c.attrs :: Str(c.attrs[k]);
    RecordKeysDistinct();
    if c.geometry.Some? then present["geometry" := Dict(GeometryInfo(c.geometry.value))] else present
  }

  /** `extract_standalone_mxcell_info`: the cell record, plus a `label` taken from a
      value-carrying element below the geometry when there is one. */
  function StandaloneInfo(c: Cell): (r: Record)
    ensures r.Keys == CellInfo(c).Keys + (if c.geometryLabel.Some? then {"label"} else {})
    ensures forall k :: k in CellInfo(c) ==> r[k] == CellInfo(c)[k]
    ensures c.geometryLabel.Some? ==> r["label"] == Str(c.geometryLabel.value)
  {
    var info := CellInfo(c);
    RecordKeysDistinct();
    if c.geometryLabel.Some? then info["label" := Str(c.geometryLabel.value)] else info
  }

  /** The three kinds of `object` element the engine distinguishes. */
  datatype Kind = FactSheet | Relation | Generic

  /** For each kind, the record keys its extractor writes and the XML attribute each is read from. */
  function Fields(kind: Kind): (f: map<string, string>)
    ensures "mxCell" !in f && "changes" !in f && "objectId" in f && f["objectId"] == "id"
  {
    match kind
    case Generic => map["label" := "label", "objectId" := "id"]
    case FactSheet =>
      map["label" := "label", "factSheetType" := "factSheetType",
          "factSheetId" := "factSheetId", "objectId" := "id"]
    case Relation =>
      map["dependencyRelation" := "dependencyRelation", "relationId" := "relationId",
          "sourceFactSheetId" := "sourceFactSheetId", "targetFactSheetId" := "targetFactSheetId",
          "objectId" := "id"]
  }

  /** The kind's fields read from the element, `None` for a missing attribute. */
  function FieldValues(kind: Kind, e: Element): (r: Record)
    ensures r.Keys == Fields(kind).Keys
    ensures forall k :: k in r ==> r[k] == OfOption(Attr(e.attrs, Fields(kind)[k]))
  {
    var fields := Fields(kind);
    map k | k in fields :: OfOption(Attr(e.attrs, fields[k]))
  }

  /** `extract_generic_object_info`, `extract_fact_sheet_info` and `extract_relation_info`:
      every field of the kind is present, a missing attribute as `None`; the `mxCell` record is
      added only when requested and the object has an `mxCell` child. */
  function ObjectInfo(kind: Kind, e: Element, includeCell: bool): (r: Record)
    ensures r.Keys == Fields(kind).Keys + (if includeCell && e.cell.Some? then {"mxCell"} else {})
    ensures forall k :: k in Fields(kind) ==> r[k] == OfOption(Attr(e.attrs, Fields(kind)[k]))
    ensures "mxCell" in r ==> r["mxCell"] == Dict(CellInfo(e.cell.value))
    ensures "changes" !in r
  {
    var info := FieldValues(kind, e);
    if includeCell && e.cell.Some? then info["mxCell" := Dict(CellInfo(e.cell.value))] else info
  }

  /** A record holds its own identity key: the cell's `id` (when present), the object's
      `objectId`, and the fact sheet's or relation's domain id. These are what let the
      changeset tell entries apart. */
  lemma {:induction false} InfoCarriesIds(kind: Kind, e: Element, c: Cell)
    ensures Get(StandaloneInfo(c), "id") == OfOption(CellId(c))
    ensures ObjectInfo(kind, e, false)["objectId"] == OfOption(ObjectId(e))
    ensures kind == FactSheet ==> ObjectInfo(kind, e, false)["factSheetId"] == OfOption(FactSheetId(e))
    ensures kind == Relation ==> ObjectInfo(kind, e, false)["relationId"] == OfOption(RelationId(e))
  {
    assert "id" in CellFields;
    assert Fields(kind)["objectId"] == "id";
    match kind
    case FactSheet => assert Fields(kind)["factSheetId"] == "factSheetId";
    case Relation => assert Fields(kind)["relationId"] == "relationId";
    case Generic =>
  }
}
