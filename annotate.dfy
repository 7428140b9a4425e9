/** The decision rules of the diagram annotator: which colour each element of the additions,
    removals and combined diagrams is outlined in, and how `combine_diagrams` re-inserts the
    removed objects of the original diagram into the changed one, renaming those whose id
    collides with an object of the changed diagram. */
module Annotate {
  import opened Values
  import opened Elements
  import opened Style
  import opened ChangeLookup
  import opened Classify

  const Green := "#00FF00"
  const Red := "#FF0000"
  const Yellow := "#FFFF00"
  /** For fact sheets that are both added and changed. */
  const Pink := "#FF45D9"

  /** `colors[change_type]`; `unchanged` has no colour and is never looked up. */
  function Colour(t: ChangeType): (c: string)
    requires t != Unchanged
    ensures c in {Green, Red, Yellow}
    ensures (c == Green <==> t == Added) && (c == Red <==> t == Removed) && (c == Yellow <==> t == Changed)
  {
    match t
    case Added => Green
    case Removed => Red
    case Changed => Yellow
  }

  /** `{item[key] for item in items}`. */
  function IdSet(items: seq<Record>, key: string): (r: Result<set<Value>>)
    ensures r.Ok? <==> forall i :: 0 <= i < |items| ==> key in items[i]
    ensures r.Ok? ==> r.value == set i | 0 <= i < |items| :: items[i][key]
    ensures r.Err? ==> r.error == MissingKey(key)
  {
    if |items| == 0 then Ok({})
    else if key !in items[0] then Err(MissingKey(key))
    else
      var rest :- IdSet(items[1..], key);
      assert forall i :: 1 <= i < |items| ==> items[i] == items[1..][i - 1];
      assert (set i | 0 <= i < |items| :: items[i][key]) ==
             {items[0][key]} + set i | 0 <= i < |items[1..]| :: items[1..][i][key];
      Ok({items[0][key]} + rest)
  }

  /** The domain ids of the added and of the changed fact sheets, which the additions diagram
      reads before it looks at any element. */
  datatype FactSheetIds = FactSheetIds(added: set<Value>, changed: set<Value>)

  function AdditionsIds(cd: ChangeData): Result<FactSheetIds> {
    var addedItems :- if "addedFactSheets" in cd then Ok(cd["addedFactSheets"]) else Err(MissingKey("addedFactSheets"));
    var added :- IdSet(addedItems, "factSheetId");
    var changedItems :- if "changedFactSheets" in cd then Ok(cd["changedFactSheets"]) else Err(MissingKey("changedFactSheets"));
    var changed :- IdSet(changedItems, "factSheetId");
    Ok(FactSheetIds(added, changed))
  }

  /** `id in added_ids and id in changed_ids`. */
  predicate AddedAndChanged(id: string, ids: FactSheetIds) {
    Str(id) in ids.added && Str(id) in ids.changed
  }

  // ---------------------------------------------------------------------------------------
  // Colour choice, one element at a time. `None` means the element keeps its style.

  /** The additions diagram, for an `object`: added and changed objects that have a truthy id
      and an `mxCell` are outlined, in pink when their domain id is both added and changed. */
  function AdditionsObjectColour(e: Element, ids: FactSheetIds, cd: ChangeData): (r: Result<Option<string>>)
    ensures r.Err? <==> Truthy(ObjectId(e)) && GetChangeType(ObjectId(e).value, FactSheetId(e), cd).Err?
    ensures r.Ok? && r.value.Some? ==> r.value.value in {Green, Yellow, Pink}
    ensures r.Ok? ==> (r.value.Some? <==>
              Truthy(ObjectId(e)) && e.cell.Some? &&
              GetChangeType(ObjectId(e).value, FactSheetId(e), cd) in {Ok(Added), Ok(Changed)})
    ensures r.Ok? && r.value.Some? ==>
              (r.value.value == Pink <==> Truthy(FactSheetId(e)) && AddedAndChanged(FactSheetId(e).value, ids))
    ensures r.Ok? && r.value.Some? && r.value.value != Pink ==>
              r.value.value == Colour(GetChangeType(ObjectId(e).value, FactSheetId(e), cd).value)
  {
    if !Truthy(ObjectId(e)) then Ok(None)
    else
      var t :- GetChangeType(ObjectId(e).value, FactSheetId(e), cd);
      if t !in {Added, Changed} || e.cell.None? then Ok(None)
      else if Truthy(FactSheetId(e)) && AddedAndChanged(FactSheetId(e).value, ids) then Ok(Some(Pink))
      else Ok(Some(Colour(t)))
  }

  /** The additions diagram, for a standalone cell: only the cells the loop's
      `[@id!="0"][@id!="1"]` query selects are visited, and the cell id itself is looked up
      among the domain ids of the added and changed fact sheets. */
  function AdditionsCellColour(c: Cell, ids: FactSheetIds, cd: ChangeData): (r: Result<Option<string>>)
    ensures !NotLayerCell(c) ==> r == Ok(None)
    ensures r.Err? <==> NotLayerCell(c) && Truthy(CellId(c)) && GetChangeType(CellId(c).value, None, cd).Err?
    ensures r.Ok? && r.value.Some? ==> r.value.value in {Green, Yellow, Pink}
    ensures r.Ok? ==> (r.value.Some? <==>
              NotLayerCell(c) && Truthy(CellId(c)) && GetChangeType(CellId(c).value, None, cd) in {Ok(Added), Ok(Changed)})
    ensures r.Ok? && r.value.Some? ==> (r.value.value == Pink <==> AddedAndChanged(CellId(c).value, ids))
    ensures r.Ok? && r.value.Some? ==>
              r.value.value == Pink || r.value.value == Colour(GetChangeType(CellId(c).value, None, cd).value)
  {
    if !NotLayerCell(c) || !Truthy(CellId(c)) then Ok(None)
    else
      var t :- GetChangeType(CellId(c).value, None, cd);
      if t !in {Added, Changed} then Ok(None)
      else if AddedAndChanged(CellId(c).value, ids) then Ok(Some(Pink))
      else Ok(Some(Colour(t)))
  }

  /** The removals diagram: removed and changed elements that have a cell to style, in their
      change type's colour. `hasCell` is whether an `object` has an `mxCell` child; a
      standalone cell is its own cell (`RemovalsCellColour`). The lookup runs before the
      cell test. */
  function RemovalsColour(id: Option<string>, factSheetId: Option<string>, hasCell: bool, cd: ChangeData)
    : (r: Result<Option<string>>)
    ensures r.Err? <==> Truthy(id) && GetChangeType(id.value, factSheetId, cd).Err?
    ensures r.Ok? && r.value.Some? ==> r.value.value in {Red, Yellow}
    ensures r.Ok? ==> (r.value.Some? <==>
              Truthy(id) && hasCell && GetChangeType(id.value, factSheetId, cd) in {Ok(Removed), Ok(Changed)})
    ensures r.Ok? && r.value.Some? ==> r.value.value == Colour(GetChangeType(id.value, factSheetId, cd).value)
  {
    if !Truthy(id) then Ok(None)
    else
      var t :- GetChangeType(id.value, factSheetId, cd);
      if t in {Removed, Changed} && hasCell then Ok(Some(Colour(t))) else Ok(None)
  }

  /** The combined diagram (`apply_change_style` and the standalone-cell loop): every element
      that is not unchanged and has a cell to style, in its change type's colour. `hasCell` is
      as for `RemovalsColour`; standalone cells go through `CombinedCellColour`. */
  function CombinedColour(id: Option<string>, factSheetId: Option<string>, hasCell: bool, cd: ChangeData)
    : (r: Result<Option<string>>)
    ensures r.Err? <==> Truthy(id) && GetChangeType(id.value, factSheetId, cd).Err?
    ensures r.Ok? ==> (r.value.Some? <==>
              Truthy(id) && hasCell && GetChangeType(id.value, factSheetId, cd) != Ok(Unchanged))
    ensures r.Ok? && r.value.Some? ==>
              GetChangeType(id.value, factSheetId, cd).Ok? &&
              r.value.value == Colour(GetChangeType(id.value, factSheetId, cd).value)
  {
    if !Truthy(id) then Ok(None)
    else
      var t :- GetChangeType(id.value, factSheetId, cd);
      if t == Unchanged || !hasCell then Ok(None) else Ok(Some(Colour(t)))
  }

  /** The removals diagram, for a standalone cell: the loop visits only the cells its
      `[@id!="0"][@id!="1"]` query selects, and looks up nothing for the others. */
  function RemovalsCellColour(c: Cell, cd: ChangeData): (r: Result<Option<string>>)
    ensures !NotLayerCell(c) ==> r == Ok(None)
    ensures r.Err? <==> NotLayerCell(c) && Truthy(CellId(c)) && GetChangeType(CellId(c).value, None, cd).Err?
    ensures r.Ok? ==> (r.value.Some? <==>
              NotLayerCell(c) && Truthy(CellId(c)) && GetChangeType(CellId(c).value, None, cd) in {Ok(Removed), Ok(Changed)})
    ensures r.Ok? && r.value.Some? ==> r.value.value == Colour(GetChangeType(CellId(c).value, None, cd).value)
  {
    if NotLayerCell(c) then RemovalsColour(CellId(c), None, true, cd) else Ok(None)
  }

  /** The combined diagram, for a standalone cell: as `RemovalsCellColour`, with every type
      but unchanged outlined. */
  function CombinedCellColour(c: Cell, cd: ChangeData): (r: Result<Option<string>>)
    ensures !NotLayerCell(c) ==> r == Ok(None)
    ensures r.Err? <==> NotLayerCell(c) && Truthy(CellId(c)) && GetChangeType(CellId(c).value, None, cd).Err?
    ensures r.Ok? ==> (r.value.Some? <==>
              NotLayerCell(c) && Truthy(CellId(c)) && GetChangeType(CellId(c).value, None, cd) != Ok(Unchanged))
    ensures r.Ok? && r.value.Some? ==> r.value.value == Colour(GetChangeType(CellId(c).value, None, cd).value)
  {
    if NotLayerCell(c) then CombinedColour(CellId(c), None, true, cd) else Ok(None)
  }

  /** Outlining a cell: its `style` attribute (empty when missing) restyled in `colour`. */
  function Outline(c: Cell, colour: string, standalone: bool): (r: Cell)
    ensures r.attrs.Keys == c.attrs.Keys + {"style"}
    ensures forall k :: k in c.attrs && k != "style" ==> r.attrs[k] == c.attrs[k]
    ensures r.geometry == c.geometry && r.geometryLabel == c.geometryLabel
    ensures r.attrs["style"] == Restyled(if "style" in c.attrs then c.attrs["style"] else "", colour, standalone)
  {
    var style := if "style" in c.attrs then c.attrs["style"] else "";
    c.(attrs := c.attrs["style" := Restyled(style, colour, standalone)])
  }

  // ---------------------------------------------------------------------------------------
  // Re-inserting the removed objects into the combined diagram

  const Suffix := "_removed"

  /** `modified_ids` and the list of copies appended to the combined diagram. */
  datatype Reinsertion = Reinsertion(copies: seq<Element>, renamed: map<string, string>)

  /** The structural ids of the changed diagram's objects (`None` included when an object
      has no id). */
  function ChangedIds(changed: seq<Element>): set<Option<string>> {
    set e | e in changed :: ObjectId(e)
  }

  /** A cell reference equal to `from` is pointed at `to`. */
  function Redirect(attrs: map<string, string>, name: string, from: string, to: string): map<string, string> {
    if Attr(attrs, name) == Some(from) then attrs[name := to] else attrs
  }

  /** A cell's `source` and `target` references equal to `from` pointed at `to`. */
  function Redirected(attrs: map<string, string>, from: string, to: string): map<string, string> {
    Redirect(Redirect(attrs, "source", from, to), "target", from, to)
  }

  /** The copy of a removed object: renamed to `id_removed` when the id collides, with its
      own cell's `source`/`target` references to the old id following the rename, and its
      cell outlined in red. */
  function RemovedCopy(e: Element, id: string, collides: bool): Element {
    var newId := id + Suffix;
    var renamed :=
      if !collides then e
      else Element(e.attrs["id" := newId],
                   match e.cell
                   case None => None
                   case Some(c) => Some(c.(attrs := Redirected(c.attrs, id, newId))));
    match renamed.cell
    case None => renamed
    case Some(c) => renamed.(cell := Some(Outline(c, Red, false)))
  }

  /** What one original object contributes: its copy, when it has a truthy id and is removed. */
  function ReinsertStep(e: Element, changedIds: set<Option<string>>, cd: ChangeData): Result<Option<Element>> {
    if !Truthy(ObjectId(e)) then Ok(None)
    else
      var t :- GetChangeType(ObjectId(e).value, FactSheetId(e), cd);
      if t != Removed then Ok(None)
      else Ok(Some(RemovedCopy(e, ObjectId(e).value, ObjectId(e) in changedIds)))
  }

  /** The loop over the original objects, as a function of its prefix. */
  function Reinsert(originals: seq<Element>, changedIds: set<Option<string>>, cd: ChangeData): Result<Reinsertion>
    decreases |originals|
  {
    if |originals| == 0 then Ok(Reinsertion([], map[]))
    else
      var e := originals[|originals| - 1];
      var front :- Reinsert(originals[..|originals| - 1], changedIds, cd);
      var step :- ReinsertStep(e, changedIds, cd);
      match step
      case None => Ok(front)
      case Some(copy) =>
        var id := ObjectId(e).value;
        Ok(Reinsertion(front.copies + [copy],
                       if ObjectId(e) in changedIds then front.renamed[id := id + Suffix] else front.renamed))
  }

  /** `[@type="relation"]`, with an `mxCell`: its `source`/`target` references to renamed
      ids follow the rename. */
  function RewriteRelation(e: Element, renamed: map<string, string>): Element {
    if Attr(e.attrs, "type") == Some("relation") && e.cell.Some? then
      var c := e.cell.value;
      var withSource := if "source" in c.attrs && c.attrs["source"] in renamed
                        then c.attrs["source" := renamed[c.attrs["source"]]] else c.attrs;
      var withTarget := if "target" in c.attrs && c.attrs["target"] in renamed
                        then withSource["target" := renamed[c.attrs["target"]]] else withSource;
      e.(cell := Some(c.(attrs := withTarget)))
    else e
  }

  /** The reference rewrite over every object of the combined diagram. */
  function RewriteRelations(objects: seq<Element>, renamed: map<string, string>): (r: seq<Element>)
    ensures |r| == |objects|
    ensures forall i :: 0 <= i < |objects| ==> r[i] == RewriteRelation(objects[i], renamed)
  {
    seq(|objects|, i requires 0 <= i < |objects| => RewriteRelation(objects[i], renamed))
  }

  /** The objects of the combined diagram after the rename step: those of the changed diagram
      followed by the copies, which are appended only when the diagram has a parent for them
      (`rootFound`), every relation's references rewritten. */
  function CombinedObjects(originals: seq<Element>, changed: seq<Element>, cd: ChangeData, rootFound: bool)
    : Result<seq<Element>>
  {
    var r :- Reinsert(originals, ChangedIds(changed), cd);
    Ok(RewriteRelations(changed + (if rootFound then r.copies else []), r.renamed))
  }

  // ---------------------------------------------------------------------------------------
  // Properties

  /** An original object is re-inserted when it has a truthy id and the changeset says it was removed. */
  ghost predicate IsRemoved(e: Element, cd: ChangeData) {
    Truthy(ObjectId(e)) && GetChangeType(ObjectId(e).value, FactSheetId(e), cd) == Ok(Removed)
  }

  /** A removed copy's id is `id_removed` exactly when the id collides, and its own id otherwise;
      everything but the id, the cell's references and its style is the original's. */
  lemma {:induction false} CopyRenamedOnCollision(e: Element, id: string, collides: bool)
    requires ObjectId(e) == Some(id)
    ensures ObjectId(RemovedCopy(e, id, collides)) == Some(if collides then id + Suffix else id)
    ensures forall k :: k in e.attrs && k != "id" ==> RemovedCopy(e, id, collides).attrs[k] == e.attrs[k]
    ensures RemovedCopy(e, id, collides).attrs.Keys == e.attrs.Keys
    ensures RemovedCopy(e, id, collides).cell.Some? <==> e.cell.Some?
    ensures e.cell.Some? ==>
              var c := RemovedCopy(e, id, collides).cell.value;
              var style := if "style" in e.cell.value.attrs then e.cell.value.attrs["style"] else "";
              c.attrs["style"] == Restyled(style, Red, false) &&
              (collides && Attr(e.cell.value.attrs, "source") == Some(id) ==> c.attrs["source"] == id + Suffix) &&
              (collides && Attr(e.cell.value.attrs, "target") == Some(id) ==> c.attrs["target"] == id + Suffix) &&
              (!collides ==> forall k :: k in e.cell.value.attrs && k != "style" ==> c.attrs[k] == e.cell.value.attrs[k])
  {
    if e.cell.Some? {
      var c0 := e.cell.value;
      var mid := CopyCell(e, id, collides);
      RedirectKept(c0.attrs, id, id + Suffix);
      var style := if "style" in c0.attrs then c0.attrs["style"] else "";
      assert "style" in mid.attrs <==> "style" in c0.attrs;
      assert "style" in c0.attrs ==> mid.attrs["style"] == c0.attrs["style"];
    }
  }

  /** Whether or not the id collides, the copy's cell keeps its geometry, its geometry label,
      every attribute but `style`, `source` and `target`, and every `source`/`target` that
      does not name the id; it gains a `style` when it had none. */
  lemma {:induction false} CopyCellKept(e: Element, id: string, collides: bool)
    requires ObjectId(e) == Some(id)
    ensures e.cell.Some? ==>
              var c, c0 := RemovedCopy(e, id, collides).cell.value, e.cell.value;
              c.geometry == c0.geometry && c.geometryLabel == c0.geometryLabel &&
              c.attrs.Keys == c0.attrs.Keys + {"style"} &&
              (forall k :: k in c0.attrs && k !in {"style", "source", "target"} ==> c.attrs[k] == c0.attrs[k]) &&
              (forall k :: k in {"source", "target"} && k in c0.attrs && c0.attrs[k] != id ==> c.attrs[k] == c0.attrs[k])
  {
    if e.cell.Some? {
      var mid := CopyCell(e, id, collides);
      RedirectKept(e.cell.value.attrs, id, id + Suffix);
    }
  }

  /** The copy's cell is the original cell, with its references redirected on a collision,
      then outlined in red. */
  lemma CopyCell(e: Element, id: string, collides: bool) returns (mid: Cell)
    requires e.cell.Some?
    ensures mid == if collides then e.cell.value.(attrs := Redirected(e.cell.value.attrs, id, id + Suffix))
                   else e.cell.value
    ensures RemovedCopy(e, id, collides).cell == Some(Outline(mid, Red, false))
  {
    mid := if collides then e.cell.value.(attrs := Redirected(e.cell.value.attrs, id, id + Suffix))
           else e.cell.value;
  }

  /** Redirecting `source` and `target` keeps the keys and every other value, and moves each
      of the two to `to` exactly when it was `from`. */
  lemma RedirectKept(attrs: map<string, string>, from: string, to: string)
    ensures var r := Redirected(attrs, from, to);
            r.Keys == attrs.Keys &&
            (forall k :: k in attrs && k != "source" && k != "target" ==> r[k] == attrs[k]) &&
            (forall k :: k in {"source", "target"} && k in attrs ==>
               r[k] == if attrs[k] == from then to else attrs[k])
  {
  }

  /** The outcome of the loop: the copies are exactly those of the removed originals, and
      exactly the colliding removed ids are recorded as renamed, to `id_removed`. (Their
      order, one original at a time, is what `ReinsertLast` states.) */
  lemma {:induction false} ReinsertExact(originals: seq<Element>, changedIds: set<Option<string>>,
                                         cd: ChangeData, r: Reinsertion)
    requires Reinsert(originals, changedIds, cd) == Ok(r)
    ensures forall k :: k in r.renamed ==> r.renamed[k] == k + Suffix
    ensures forall k :: k in r.renamed <==>
              exists i :: 0 <= i < |originals| && ObjectId(originals[i]) == Some(k) &&
                          IsRemoved(originals[i], cd) && Some(k) in changedIds
    ensures forall c :: c in r.copies <==>
              exists i :: 0 <= i < |originals| && IsRemoved(originals[i], cd) &&
                          c == RemovedCopy(originals[i], ObjectId(originals[i]).value, ObjectId(originals[i]) in changedIds)
  {
    forall k | k in r.renamed
      ensures r.renamed[k] == k + Suffix
      ensures exists i :: 0 <= i < |originals| && ObjectId(originals[i]) == Some(k) &&
                          IsRemoved(originals[i], cd) && Some(k) in changedIds
    {
      var i := RenamedOrigin(originals, changedIds, cd, r, k);
    }
    forall k | exists i :: 0 <= i < |originals| && ObjectId(originals[i]) == Some(k) &&
                           IsRemoved(originals[i], cd) && Some(k) in changedIds
      ensures k in r.renamed
    {
      var i :| 0 <= i < |originals| && ObjectId(originals[i]) == Some(k) &&
               IsRemoved(originals[i], cd) && Some(k) in changedIds;
      RenamedKept(originals, changedIds, cd, r, i);
    }
    forall c | c in r.copies
      ensures exists i :: 0 <= i < |originals| && IsRemoved(originals[i], cd) &&
                          c == RemovedCopy(originals[i], ObjectId(originals[i]).value, ObjectId(originals[i]) in changedIds)
    {
      var i := CopyOrigin(originals, changedIds, cd, r, c);
    }
    forall c | exists i :: 0 <= i < |originals| && IsRemoved(originals[i], cd) &&
                           c == RemovedCopy(originals[i], ObjectId(originals[i]).value, ObjectId(originals[i]) in changedIds)
      ensures c in r.copies
    {
      var i :| 0 <= i < |originals| && IsRemoved(originals[i], cd) &&
               c == RemovedCopy(originals[i], ObjectId(originals[i]).value, ObjectId(originals[i]) in changedIds);
      CopyKept(originals, changedIds, cd, r, i);
    }
  }

  /** One step of `Reinsert`: the last original adds its copy, and its id when that collides. */
  lemma ReinsertLast(originals: seq<Element>, changedIds: set<Option<string>>, cd: ChangeData, r: Reinsertion)
    returns (f: Reinsertion)
    requires |originals| > 0 && Reinsert(originals, changedIds, cd) == Ok(r)
    ensures Reinsert(originals[..|originals| - 1], changedIds, cd) == Ok(f)
    ensures var e := originals[|originals| - 1];
            if IsRemoved(e, cd) then
              r.copies == f.copies + [RemovedCopy(e, ObjectId(e).value, ObjectId(e) in changedIds)] &&
              r.renamed == if ObjectId(e) in changedIds
                           then f.renamed[ObjectId(e).value := ObjectId(e).value + Suffix] else f.renamed
            else r == f
  {
    f :| Reinsert(originals[..|originals| - 1], changedIds, cd) == Ok(f);
  }

  /** A removed original whose id collides has that id recorded as renamed. */
  lemma {:induction false} RenamedKept(originals: seq<Element>, changedIds: set<Option<string>>,
                                       cd: ChangeData, r: Reinsertion, i: int)
    requires Reinsert(originals, changedIds, cd) == Ok(r)
    requires 0 <= i < |originals| && IsRemoved(originals[i], cd) && ObjectId(originals[i]) in changedIds
    ensures ObjectId(originals[i]).value in r.renamed
    decreases |originals|
  {
    var n := |originals| - 1;
    var f := ReinsertLast(originals, changedIds, cd, r);
    if i < n {
      assert originals[..n][i] == originals[i];
      RenamedKept(originals[..n], changedIds, cd, f, i);
    }
  }

  /** Every renamed id is `id_removed`, and comes from a removed original whose id collides. */
  lemma {:induction false} RenamedOrigin(originals: seq<Element>, changedIds: set<Option<string>>,
                                         cd: ChangeData, r: Reinsertion, k: string) returns (i: int)
    requires Reinsert(originals, changedIds, cd) == Ok(r)
    requires k in r.renamed
    ensures r.renamed[k] == k + Suffix
    ensures 0 <= i < |originals| && ObjectId(originals[i]) == Some(k) &&
            IsRemoved(originals[i], cd) && Some(k) in changedIds
    decreases |originals|
  {
    var n := |originals| - 1;
    var f := ReinsertLast(originals, changedIds, cd, r);
    var e := originals[n];
    if IsRemoved(e, cd) && ObjectId(e) in changedIds && k == ObjectId(e).value {
      i := n;
    } else {
      i := RenamedOrigin(originals[..n], changedIds, cd, f, k);
      assert originals[..n][i] == originals[i];
    }
  }

  /** A removed original has its copy among the copies. */
  lemma {:induction false} CopyKept(originals: seq<Element>, changedIds: set<Option<string>>,
                                    cd: ChangeData, r: Reinsertion, i: int)
    requires Reinsert(originals, changedIds, cd) == Ok(r)
    requires 0 <= i < |originals| && IsRemoved(originals[i], cd)
    ensures RemovedCopy(originals[i], ObjectId(originals[i]).value, ObjectId(originals[i]) in changedIds) in r.copies
    decreases |originals|
  {
    var n := |originals| - 1;
    var f := ReinsertLast(originals, changedIds, cd, r);
    if i < n {
      assert originals[..n][i] == originals[i];
      CopyKept(originals[..n], changedIds, cd, f, i);
    }
  }

  /** Every copy is the copy of a removed original. */
  lemma {:induction false} CopyOrigin(originals: seq<Element>, changedIds: set<Option<string>>,
                                      cd: ChangeData, r: Reinsertion, c: Element) returns (i: int)
    requires Reinsert(originals, changedIds, cd) == Ok(r)
    requires c in r.copies
    ensures 0 <= i < |originals| && IsRemoved(originals[i], cd) &&
            c == RemovedCopy(originals[i], ObjectId(originals[i]).value, ObjectId(originals[i]) in changedIds)
    decreases |originals|
  {
    var n := |originals| - 1;
    var f := ReinsertLast(originals, changedIds, cd, r);
    if c in f.copies {
      i := CopyOrigin(originals[..n], changedIds, cd, f, c);
      assert originals[..n][i] == originals[i];
    } else {
      i := n;
    }
  }

  /** A failing lookup for one original object makes the whole re-insertion fail. */
  lemma {:induction false} ReinsertFails(originals: seq<Element>, changedIds: set<Option<string>>,
                                         cd: ChangeData, i: int)
    requires 0 <= i < |originals| && Truthy(ObjectId(originals[i]))
    requires GetChangeType(ObjectId(originals[i]).value, FactSheetId(originals[i]), cd).Err?
    ensures Reinsert(originals, changedIds, cd).Err?
    decreases |originals|
  {
    var n := |originals| - 1;
    if i < n {
      assert originals[..n][i] == originals[i];
      ReinsertFails(originals[..n], changedIds, cd, i);
    }
  }

  /** The rewrite moves a relation's `source`/`target` to the new id when it names a renamed
      id, and leaves every other reference, attribute and object as it was. */
  lemma {:induction false} RewriteRelationExact(e: Element, renamed: map<string, string>)
    ensures RewriteRelation(e, renamed).attrs == e.attrs
    ensures RewriteRelation(e, renamed).cell.Some? <==> e.cell.Some?
    ensures Attr(e.attrs, "type") != Some("relation") ==> RewriteRelation(e, renamed) == e
    ensures e.cell.Some? ==>
              var c, c' := e.cell.value, RewriteRelation(e, renamed).cell.value;
              c'.geometry == c.geometry && c'.geometryLabel == c.geometryLabel &&
              c'.attrs.Keys == c.attrs.Keys &&
              (forall k :: k in c.attrs && k != "source" && k != "target" ==> c'.attrs[k] == c.attrs[k]) &&
              (forall k :: k in {"source", "target"} && k in c.attrs ==>
                 c'.attrs[k] == if Attr(e.attrs, "type") == Some("relation") && c.attrs[k] in renamed
                                then renamed[c.attrs[k]] else c.attrs[k])
  {
  }

  /** The rewrite runs over the whole combined diagram, so a relation of the changed diagram
      that points at an id an original object was removed under is redirected to that
      object's `_removed` copy, even though the changed diagram has its own object with
      that id. */
  lemma {:induction false} ChangedRelationsRedirected(originals: seq<Element>, changed: seq<Element>,
                                                      cd: ChangeData, rootFound: bool, i: int, result: seq<Element>)
    requires CombinedObjects(originals, changed, cd, rootFound) == Ok(result)
    requires 0 <= i < |changed| && Attr(changed[i].attrs, "type") == Some("relation") && changed[i].cell.Some?
    requires var c := changed[i].cell.value;
             "source" in c.attrs &&
             exists j :: 0 <= j < |originals| && ObjectId(originals[j]) == Some(c.attrs["source"]) &&
                         IsRemoved(originals[j], cd) && Some(c.attrs["source"]) in ChangedIds(changed)
    ensures var s := changed[i].cell.value.attrs["source"];
            result[i].cell.Some? && result[i].cell.value.attrs["source"] == s + Suffix
  {
    var r :| Reinsert(originals, ChangedIds(changed), cd) == Ok(r);
    ReinsertExact(originals, ChangedIds(changed), cd, r);
    var all := changed + (if rootFound then r.copies else []);
    assert all[i] == changed[i];
    RewriteRelationExact(changed[i], r.renamed);
  }

  /** A relation reference to an id that was not renamed is left alone. */
  lemma {:induction false} UnrenamedReferencesKept(originals: seq<Element>, changed: seq<Element>,
                                                   cd: ChangeData, rootFound: bool, i: int, result: seq<Element>)
    requires CombinedObjects(originals, changed, cd, rootFound) == Ok(result)
    requires 0 <= i < |changed| && changed[i].cell.Some? && "source" in changed[i].cell.value.attrs
    requires Some(changed[i].cell.value.attrs["source"]) !in ChangedIds(changed)
    ensures result[i].cell.Some? && result[i].cell.value.attrs["source"] == changed[i].cell.value.attrs["source"]
  {
    var r :| Reinsert(originals, ChangedIds(changed), cd) == Ok(r);
    ReinsertExact(originals, ChangedIds(changed), cd, r);
    var all := changed + (if rootFound then r.copies else []);
    assert all[i] == changed[i];
    RewriteRelationExact(changed[i], r.renamed);
  }

  // ---------------------------------------------------------------------------------------
  // The loop

  /** The loop over the original objects that fills `modified_ids` and collects the copies. */
  method ReinsertRemoved(originals: seq<Element>, changed: seq<Element>, cd: ChangeData)
    returns (r: Result<Reinsertion>)
    ensures r == Reinsert(originals, ChangedIds(changed), cd)
  {
    var changedIds := set e | e in changed :: ObjectId(e);
    var copies: seq<Element> := [];
    var renamed: map<string, string> := map[];
    for i := 0 to |originals|
      invariant Reinsert(originals[..i], changedIds, cd) == Ok(Reinsertion(copies, renamed))
    {
      var e := originals[i];
      assert originals[..i + 1][..i] == originals[..i];
      assert originals[..i + 1][i] == e;
      var id := ObjectId(e);
      if Truthy(id) {
        var t := GetChangeType(id.value, FactSheetId(e), cd);
        if t.Err? {
          ReinsertErrorIsFirst(originals, changedIds, cd, i);
          return Err(t.error);
        }
        if t.value == Removed {
          var collides := id in changedIds;
          if collides {
            renamed := renamed[id.value := id.value + Suffix];
          }
          copies := copies + [RemovedCopy(e, id.value, collides)];
        }
      }
    }
    assert originals[..|originals|] == originals;
    r := Ok(Reinsertion(copies, renamed));
  }

  /** When the first failing lookup is the one of object `i`, its error is the result. */
  lemma {:induction false} ReinsertErrorIsFirst(originals: seq<Element>, changedIds: set<Option<string>>,
                                                cd: ChangeData, i: int)
    requires 0 <= i < |originals| && Truthy(ObjectId(originals[i]))
    requires Reinsert(originals[..i], changedIds, cd).Ok?
    requires GetChangeType(ObjectId(originals[i]).value, FactSheetId(originals[i]), cd).Err?
    ensures Reinsert(originals, changedIds, cd) ==
            Err(GetChangeType(ObjectId(originals[i]).value, FactSheetId(originals[i]), cd).error)
    decreases |originals|
  {
    var n := |originals| - 1;
    if i < n {
      assert originals[..n][..i] == originals[..i];
      assert originals[..n][i] == originals[i];
      ReinsertErrorIsFirst(originals[..n], changedIds, cd, i);
    } else {
      assert originals[..n] == originals[..i];
    }
  }
}
