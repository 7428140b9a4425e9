/** Attribute diff: `compare_mxcells`, `compare_objects` and the field-by-field diff that
    nests one level into `geometry`. Each operation is a specification function together
    with the loop the source runs, proved to compute it. */
module Diff {
  import opened Values
  import opened Elements
  import opened Extract

  // ---------------------------------------------------------------------------------------
  // Specification

  /** The geometry fields among `ks` whose values differ, each as `{from, to}`. */
  function GeometryDiffOver(a: Record, b: Record, ks: set<string>): Record {
    map k | k in ks && Get(a, k) != Get(b, k) :: FromTo(Get(a, k), Get(b, k))
  }

  /** The nested geometry diff over the union of both sides' fields. */
  function GeometryDiff(a: Record, b: Record): Record {
    GeometryDiffOver(a, b, a.Keys + b.Keys)
  }

  /** The entry a differing field gets: a nested diff when both sides are dictionaries,
      a single `{from, to}` otherwise. */
  function Entry(a: Value, b: Value): Value {
    if a.Dict? && b.Dict? then Dict(GeometryDiff(a.entries, b.entries)) else FromTo(a, b)
  }

  /** A differing field is reported unless both sides are dictionaries with no differing field. */
  predicate Reported(a: Value, b: Value) {
    a != b && !(a.Dict? && b.Dict? && GeometryDiff(a.entries, b.entries) == map[])
  }

  /** The field diff restricted to the fields in `ks`. */
  function FieldDiffOver(o: Record, c: Record, ks: set<string>): Record {
    map k | k in ks && Reported(Get(o, k), Get(c, k)) :: Entry(Get(o, k), Get(c, k))
  }

  /** The field-by-field diff of two records over the union of their fields. */
  function FieldDiff(o: Record, c: Record): Record {
    FieldDiffOver(o, c, o.Keys + c.Keys)
  }

  /** A record in the shape `extract_mxcell_info` produces: no `None` and every dictionary a
      full five-field geometry record. */
  ghost predicate CellShaped(r: Record) {
    forall k :: k in r ==> r[k] != Null && (r[k].Dict? ==> r[k].entries.Keys == GeometryFields)
  }

  lemma CellInfoIsCellShaped(c: Cell)
    ensures CellShaped(CellInfo(c)) && CellShaped(StandaloneInfo(c))
  {
  }

  /** Two geometry records with the same fields differ exactly when their nested diff is non-empty. */
  lemma {:induction false} GeometryDiffEmpty(a: Record, b: Record)
    requires a.Keys == b.Keys
    ensures GeometryDiff(a, b) == map[] <==> a == b
  {
    if a != b {
      var k :| k in a.Keys && a[k] != b[k];
      assert k in GeometryDiff(a, b);
    }
  }

  /** Attribute-diff completeness: between two cell-shaped records, a field appears in the
      diff exactly when its values differ; a field present on one side only is reported with
      `None` for the missing side; when both sides carry geometry only the differing geometry
      fields appear, each as `{from, to}`. */
  lemma {:induction false} FieldDiffComplete(o: Record, c: Record)
    requires CellShaped(o) && CellShaped(c)
    ensures forall k :: k in FieldDiff(o, c) <==> (k in o || k in c) && Get(o, k) != Get(c, k)
    ensures forall k :: k in FieldDiff(o, c) && !(k in o && k in c && o[k].Dict? && c[k].Dict?) ==>
              FieldDiff(o, c)[k] == FromTo(Get(o, k), Get(c, k))
    ensures forall k :: k in FieldDiff(o, c) && k in o && k in c && o[k].Dict? && c[k].Dict? ==>
              FieldDiff(o, c)[k].Dict? &&
              forall g :: g in FieldDiff(o, c)[k].entries <==>
                g in GeometryFields && o[k].entries[g] != c[k].entries[g]
    ensures forall k :: k in FieldDiff(o, c) && k in o && k in c && o[k].Dict? && c[k].Dict? ==>
              forall g :: g in FieldDiff(o, c)[k].entries ==>
                FieldDiff(o, c)[k].entries[g] == FromTo(o[k].entries[g], c[k].entries[g])
  {
    forall k | (k in o || k in c) && Get(o, k) != Get(c, k)
      ensures Reported(Get(o, k), Get(c, k))
    {
      if Get(o, k).Dict? && Get(c, k).Dict? {
        GeometryDiffEmpty(Get(o, k).entries, Get(c, k).entries);
      }
    }
  }

  /** Between cell-shaped records the diff is empty exactly when the records are equal. */
  lemma {:induction false} FieldDiffEmpty(o: Record, c: Record)
    requires CellShaped(o) && CellShaped(c)
    ensures FieldDiff(o, c) == map[] <==> o == c
  {
    if o != c {
      var k :| (k in o || k in c) && Get(o, k) != Get(c, k);
      if Get(o, k).Dict? && Get(c, k).Dict? {
        GeometryDiffEmpty(Get(o, k).entries, Get(c, k).entries);
      }
      assert k in FieldDiff(o, c);
    }
  }

  /** Diffing a record against itself reports nothing. */
  lemma FieldDiffSelf(r: Record)
    ensures FieldDiff(r, r) == map[]
  {
  }

  /** The diff reports the same fields in both directions. */
  lemma {:induction false} FieldDiffSymmetric(o: Record, c: Record)
    ensures FieldDiff(c, o).Keys == FieldDiff(o, c).Keys
  {
    forall k ensures k in FieldDiff(c, o) <==> k in FieldDiff(o, c) {
      ReportedSymmetric(Get(o, k), Get(c, k));
    }
  }

  /** Whether a key is reported does not depend on which side is the original. */
  lemma ReportedSymmetric(a: Value, b: Value)
    ensures Reported(a, b) == Reported(b, a)
  {
    if a.Dict? && b.Dict? {
      var x, y := a.entries, b.entries;
      assert GeometryDiff(x, y).Keys == GeometryDiff(y, x).Keys;
    }
  }

  /** When only `y` differs between two geometries, the nested diff has exactly that entry. */
  lemma {:induction false} OnlyYMoved(a: Record, b: Record)
    requires a.Keys == GeometryFields && b.Keys == GeometryFields
    requires a["y"] != b["y"]
    requires forall k :: k in GeometryFields && k != "y" ==> a[k] == b[k]
    ensures GeometryDiff(a, b) == map["y" := FromTo(a["y"], b["y"])]
  {
    var d := GeometryDiff(a, b);
    assert d.Keys == {"y"};
  }

  /** `compare_mxcells`: no diff when a cell is missing or nothing differs, otherwise the
      non-empty field diff of the two cell records. */
  function MxCellDiff(o: Option<Cell>, c: Option<Cell>): (r: Option<Record>)
    ensures o.None? || c.None? ==> r.None?
    ensures r.Some? ==> r.value != map[] && r.value == FieldDiff(CellInfo(o.value), CellInfo(c.value))
    ensures o.Some? && c.Some? ==> (r.None? <==> CellInfo(o.value) == CellInfo(c.value))
  {
    if o.None? || c.None? then None
    else
      var d := FieldDiff(CellInfo(o.value), CellInfo(c.value));
      CellInfoIsCellShaped(o.value);
      CellInfoIsCellShaped(c.value);
      FieldDiffEmpty(CellInfo(o.value), CellInfo(c.value));
      if d == map[] then None else Some(d)
  }

  /** The regular attributes of an object that differ (every field but `mxCell`). */
  function AttributeDiffOver(o: Record, c: Record, ks: set<string>): Record {
    map k | k in ks && k != "mxCell" && Get(o, k) != Get(c, k) :: FromTo(Get(o, k), Get(c, k))
  }

  /** The `differences` dictionary `compare_objects` builds. */
  function Differences(kind: Kind, o: Element, c: Element): (d: Record)
    ensures forall k :: k in Fields(kind) ==>
              (k in d <==> OfOption(Attr(o.attrs, Fields(kind)[k])) != OfOption(Attr(c.attrs, Fields(kind)[k])))
    ensures forall k :: k in Fields(kind) && k in d ==>
              d[k] == FromTo(OfOption(Attr(o.attrs, Fields(kind)[k])), OfOption(Attr(c.attrs, Fields(kind)[k])))
    ensures "mxCell" in d <==> MxCellDiff(o.cell, c.cell).Some?
    ensures "mxCell" in d ==> d["mxCell"] == Dict(MxCellDiff(o.cell, c.cell).value)
    ensures d.Keys <= Fields(kind).Keys + {"mxCell"}
  {
    var oi, ci := ObjectInfo(kind, o, true), ObjectInfo(kind, c, true);
    var regular := AttributeDiffOver(oi, ci, oi.Keys);
    var cell := MxCellDiff(o.cell, c.cell);
    if cell.Some? then regular["mxCell" := Dict(cell.value)] else regular
  }

  /** An object pair has no differences exactly when its fields agree and its cells do not differ. */
  lemma {:induction false} DifferencesEmpty(kind: Kind, o: Element, c: Element)
    ensures Differences(kind, o, c) == map[] <==>
            FieldValues(kind, o) == FieldValues(kind, c) && MxCellDiff(o.cell, c.cell).None?
  {
    var d := Differences(kind, o, c);
    var fo, fc := FieldValues(kind, o), FieldValues(kind, c);
    if fo != fc {
      var k :| k in Fields(kind) && fo[k] != fc[k];
      assert k in d;
    }
  }

  /** `compare_objects`: nothing when the regular attributes agree and the cells do not
      differ; otherwise the changed side's record without `mxCell`, plus `changes`. */
  function ObjectDiff(kind: Kind, o: Element, c: Element): (r: Option<Record>)
    ensures r.None? <==>
              FieldValues(kind, o) == FieldValues(kind, c) && MxCellDiff(o.cell, c.cell).None?
    ensures r.Some? ==> r.value == ObjectInfo(kind, c, false)["changes" := Dict(Differences(kind, o, c))]
    ensures r.Some? ==> Differences(kind, o, c) != map[]
  {
    var d := Differences(kind, o, c);
    DifferencesEmpty(kind, o, c);
    if d == map[] then None else Some(ObjectInfo(kind, c, false)["changes" := Dict(d)])
  }

  /** A changed standalone cell: the changed side's record plus `changes`, when the two
      standalone records differ. */
  function CellChange(o: Cell, c: Cell): (r: Option<Record>)
    ensures r.None? <==> StandaloneInfo(o) == StandaloneInfo(c)
    ensures r.Some? ==> r.value == StandaloneInfo(c)["changes" := Dict(FieldDiff(StandaloneInfo(o), StandaloneInfo(c)))]
    ensures r.Some? ==> FieldDiff(StandaloneInfo(o), StandaloneInfo(c)) != map[]
  {
    var oi, ci := StandaloneInfo(o), StandaloneInfo(c);
    var d := FieldDiff(oi, ci);
    CellInfoIsCellShaped(o);
    CellInfoIsCellShaped(c);
    FieldDiffEmpty(oi, ci);
    if d == map[] then None else Some(ci["changes" := Dict(d)])
  }

  // ---------------------------------------------------------------------------------------
  // The loops

  /** One more key extends the nested geometry diff by its entry, if it has one. */
  lemma GeometryDiffStep(a: Record, b: Record, done: set<string>, k: string)
    requires k !in done
    ensures GeometryDiffOver(a, b, done + {k}) ==
            if Get(a, k) != Get(b, k) then GeometryDiffOver(a, b, done)[k := FromTo(Get(a, k), Get(b, k))]
            else GeometryDiffOver(a, b, done)
  {
  }

  /** One more key extends the field diff by its entry, if it is reported. */
  lemma FieldDiffStep(o: Record, c: Record, done: set<string>, k: string)
    requires k !in done
    ensures FieldDiffOver(o, c, done + {k}) ==
            if Reported(Get(o, k), Get(c, k)) then FieldDiffOver(o, c, done)[k := Entry(Get(o, k), Get(c, k))]
            else FieldDiffOver(o, c, done)
  {
  }

  /** One more attribute extends the attribute diff by its entry, if it differs. */
  lemma AttributeDiffStep(o: Record, c: Record, done: set<string>, k: string)
    requires k !in done && k != "mxCell"
    ensures AttributeDiffOver(o, c, done + {k}) ==
            if Get(o, k) != Get(c, k) then AttributeDiffOver(o, c, done)[k := FromTo(Get(o, k), Get(c, k))]
            else AttributeDiffOver(o, c, done)
  {
  }

  /** The inner loop over the union of geometry fields. */
  method DiffGeometry(a: Record, b: Record) returns (g: Record)
    ensures g == GeometryDiff(a, b)
  {
    g := map[];
    var todo := a.Keys + b.Keys;
    ghost var done: set<string> := {};
    while todo != {}
      invariant todo + done == a.Keys + b.Keys && todo !! done
      invariant g == GeometryDiffOver(a, b, done)
      decreases todo
    {
      var k :| k in todo;
      GeometryDiffStep(a, b, done, k);
      var from, to := Get(a, k), Get(b, k);
      if from != to {
        g := g[k := FromTo(from, to)];
      }
      todo, done := todo - {k}, done + {k};
    }
  }

  /** The loop over the union of both records' fields (`compare_mxcells` and the cell loop of
      `compare_diagrams` run the same code). */
  method DiffFields(o: Record, c: Record) returns (d: Record)
    ensures d == FieldDiff(o, c)
  {
    d := map[];
    var todo := o.Keys + c.Keys;
    ghost var done: set<string> := {};
    while todo != {}
      invariant todo + done == o.Keys + c.Keys && todo !! done
      invariant d == FieldDiffOver(o, c, done)
      decreases todo
    {
      var k :| k in todo;
      FieldDiffStep(o, c, done, k);
      var from, to := Get(o, k), Get(c, k);
      if from != to {
        if from.Dict? && to.Dict? {
          var g := DiffGeometry(from.entries, to.entries);
          if g != map[] {
            d := d[k := Dict(g)];
          }
        } else {
          d := d[k := FromTo(from, to)];
        }
      }
      todo, done := todo - {k}, done + {k};
    }
  }

  /** `compare_mxcells`. */
  method CompareMxCells(o: Option<Cell>, c: Option<Cell>) returns (r: Option<Record>)
    ensures r == MxCellDiff(o, c)
  {
    if o.None? || c.None? {
      return None;
    }
    var d := DiffFields(CellInfo(o.value), CellInfo(c.value));
    r := if d == map[] then None else Some(d);
  }

  /** The loop over an object's regular attributes. */
  method DiffAttributes(oi: Record, ci: Record) returns (differences: Record)
    ensures differences == AttributeDiffOver(oi, ci, oi.Keys)
  {
    differences := map[];
    var todo := oi.Keys - {"mxCell"};
    ghost var done: set<string> := {};
    while todo != {}
      invariant todo + done == oi.Keys - {"mxCell"} && todo !! done
      invariant differences == AttributeDiffOver(oi, ci, done)
      decreases todo
    {
      var k :| k in todo;
      AttributeDiffStep(oi, ci, done, k);
      if Get(oi, k) != Get(ci, k) {
        differences := differences[k := FromTo(Get(oi, k), Get(ci, k))];
      }
      todo, done := todo - {k}, done + {k};
    }
    assert AttributeDiffOver(oi, ci, done) == AttributeDiffOver(oi, ci, oi.Keys);
  }

  /** The `differences` dictionary `compare_objects` fills. */
  method ObjectDifferences(kind: Kind, o: Element, c: Element) returns (differences: Record)
    ensures differences == Differences(kind, o, c)
  {
    differences := DiffAttributes(ObjectInfo(kind, o, true), ObjectInfo(kind, c, true));
    var cellDifferences := CompareMxCells(o.cell, c.cell);
    if cellDifferences.Some? {
      differences := differences["mxCell" := Dict(cellDifferences.value)];
    }
  }

  /** `compare_objects`. */
  method CompareObjects(kind: Kind, o: Element, c: Element) returns (r: Option<Record>)
    ensures r == ObjectDiff(kind, o, c)
  {
    var differences := ObjectDifferences(kind, o, c);
    if differences != map[] {
      r := Some(ObjectInfo(kind, c, false)["changes" := Dict(differences)]);
    } else {
      r := None;
    }
  }
}
