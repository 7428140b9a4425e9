# Diagram change detection, modelled in Dafny

The `diagram_changes` scripts compare two draw.io diagrams of an enterprise architecture: an
original and a changed one. Each diagram is an XML tree of `object` elements, which are
domain entities that wrap a visual `mxCell`, and of bare `mxCell` elements.

`detect_changes.py` is the diff engine. It produces a changeset of twelve lists: added,
removed and changed fact sheets, relations, generic objects and standalone cells. Two
consumers read it:

- `generate_new_diagrams.py` outlines changed elements in colour and merges removed objects
  back into the changed diagram.
- `print_changes.py` turns the changeset into a textual report.

This project models:

- The diff engine, over an abstract element model instead of XML. An element is an attribute
  map plus an optional `mxCell` child; a cell has an optional geometry and an optional
  geometry label. The model covers:
  - record extraction;
  - classification into fact sheets, relations and generic objects;
  - id-keyed matching;
  - the field-by-field diff, which nests one level into `geometry`.
- From `generate_new_diagrams.py`:
  - the style rewrite `modify_style`;
  - the change-type lookup `get_change_type`;
  - the colour each element of the additions, removals and combined diagrams gets;
  - the step of `combine_diagrams` that re-inserts removed objects, renames colliding ids to
    `id_removed` and rewrites relation references.
- From `print_changes.py`:
  - `format_changes`;
  - `get_label_for_id`.

Where the source runs a loop that fills a dictionary or a list, the model has a method with
that loop. The method is proved equal to a specification function, and the properties are
proved about that function.

Modules, in dependency order:

- `Values`: Python values (`None`, strings, dictionaries) and the exceptions the consumers can
  raise.
- `Comprehensions`: list filtering and id-keyed dictionaries.
- `Elements`: the element model.
- `Extract`: the `extract_*` records.
- `Classify`: `get_objects_by_type` and the lookup tables.
- `Diff`: `compare_mxcells`, `compare_objects` and the field diff.
- `Changeset`: `compare_diagrams`.
- `Style`: `modify_style`.
- `ChangeLookup`: `get_change_type`.
- `Annotate`: the colours and the rename step.
- `Report`: `format_changes` and `get_label_for_id`.

Four behaviours of the code worth knowing; the model follows the code:

- The fact-sheet and relation tests are independent. An object with both `factSheetType` and
  `dependencyRelation` is listed as both (`Classify.FactSheetAndRelationOverlap`).
- The relation rewrite in `combine_diagrams` runs over every relation of the combined diagram,
  not only the re-inserted ones. A relation of the changed diagram that points at a colliding
  id ends up pointing at the removed copy (`Annotate.ChangedRelationsRedirected`).
- In the additions diagram a standalone cell is treated as "added and changed" when its own
  cell id is among the `factSheetId`s of the added and changed fact sheets
  (`Annotate.AdditionsCellColour`).
- `format_changes` applied to an `mxCell` entry that is not a dictionary raises instead of
  skipping it (`Report.CategoryLines`).

## Model

| member | source | states |
|---|---|---|
| Comprehensions.Filter | diagram_changes/scripts/detect_changes.py:155-162 | The filtered list keeps exactly the elements that pass the test; it is no longer than the input. |
| Comprehensions.FilterConcat | diagram_changes/scripts/detect_changes.py:155-162 | Filtering distributes over concatenation, so the input order is kept. |
| Comprehensions.FilterAll | diagram_changes/scripts/generate_new_diagrams.py:20-22 | Filtering returns the list unchanged exactly when every element passes. |
| Comprehensions.FilterNone | diagram_changes/scripts/generate_new_diagrams.py:20-22 | Filtering a list where no element passes gives the empty list. |
| Comprehensions.FilterFilter | diagram_changes/scripts/generate_new_diagrams.py:20-35 | Two filters in a row equal one filter by the conjunction of the two tests. |
| Comprehensions.IndexBy | diagram_changes/scripts/detect_changes.py:177-178 | The dictionary built by a comprehension holds one key per element key. Each entry is an input element filed under its own key. The entry for a key is the last element with that key. |
| Comprehensions.Collect | diagram_changes/scripts/detect_changes.py:242-265 | The results of a loop that appends each key's `diff` when it is truthy, as a set. `CollectStep` specifies it one key at a time, and the `Changeset` loops are proved against it. |
| Comprehensions.CollectStep | diagram_changes/scripts/detect_changes.py:244-249 | Visiting one more key adds its entry to the collected results exactly when that key has a result. |
| Extract.GeometryInfo | diagram_changes/scripts/detect_changes.py:19-27 | The geometry sub-record has exactly the keys x, y, width, height and relative. A missing attribute is `None`. |
| Extract.CellInfo | diagram_changes/scripts/detect_changes.py:5-29 | The cell record has no top-level `None`. Each of the eight cell attributes is present exactly when the element has it, with its value. `geometry` is present exactly when an `mxGeometry` child exists, and is then the five-field sub-record. |
| Extract.StandaloneInfo | diagram_changes/scripts/detect_changes.py:31-40 | The standalone record is the cell record, plus `label` exactly when a value-carrying element lies below the geometry. |
| Extract.Fields | diagram_changes/scripts/detect_changes.py:42-90 | Every kind's record has `objectId`, read from `id`, and never uses the keys `mxCell` or `changes` for a field. |
| Extract.FieldValues | diagram_changes/scripts/detect_changes.py:44-47 | Every field of the kind is present, holding the attribute it is read from, with `None` when the attribute is missing. |
| Extract.ObjectInfo | diagram_changes/scripts/detect_changes.py:42-90 | The object record holds every field of its kind. `mxCell` is present exactly when it was requested and the object has a cell; it then holds the cell record. `changes` is never present. |
| Extract.InfoCarriesIds | diagram_changes/scripts/detect_changes.py:5-90 | A record carries its identity: the cell's `id`, the object's `objectId`, and the fact sheet's `factSheetId` or the relation's `relationId`. |
| Classify.ObjectsOfKind | diagram_changes/scripts/detect_changes.py:152-162 | The objects of a kind are exactly the objects that pass that kind's test. |
| Classify.GenericIsDisjoint | diagram_changes/scripts/detect_changes.py:152-162 | No generic object is in the fact-sheet or relation list. Generic objects have a label, fact sheets have `factSheetType`, relations have `dependencyRelation`. |
| Classify.FactSheetAndRelationOverlap | diagram_changes/scripts/detect_changes.py:160-162 | An object carrying both `factSheetType` and `dependencyRelation` is listed as a fact sheet and as a relation. |
| Classify.StandaloneCells | diagram_changes/scripts/detect_changes.py:173-174 | The two standalone-cell queries, concatenated. `StandaloneCellsSelect` states which root cells each query selects. |
| Classify.StandaloneCellsSelect | diagram_changes/scripts/detect_changes.py:173-174 | A root cell is standalone exactly when it has an id other than `0` and `1`, or has a `value`. |
| Classify.CellsById | diagram_changes/scripts/detect_changes.py:176-178 | The id-keyed table of the standalone cells, later entries winning. `CellsByIdSelects` states its keys and entries. |
| Classify.CellsByIdSelects | diagram_changes/scripts/detect_changes.py:173-178 | The cell table holds one entry per id of a selected cell, deduplicated across the two queries; every entry is a selected cell filed under its own id. |
| Diff.CellInfoIsCellShaped | diagram_changes/scripts/detect_changes.py:19-29 | Cell records hold no `None`, and their only dictionary is a full five-field geometry. |
| Diff.GeometryDiffEmpty | diagram_changes/scripts/detect_changes.py:110-117 | The nested diff of two geometries with the same fields is empty exactly when they are equal. |
| Diff.FieldDiffComplete | diagram_changes/scripts/detect_changes.py:103-119 | A key of either record appears in the diff exactly when its values differ. A key present on one side only gives `{from, to}` with `None` on the missing side. When both sides have geometry, exactly the differing geometry fields appear, each as `{from, to}`. |
| Diff.FieldDiffEmpty | diagram_changes/scripts/detect_changes.py:121 | Between cell records the diff is empty exactly when the records are equal. |
| Diff.FieldDiffSelf | diagram_changes/scripts/detect_changes.py:107 | Diffing a record against itself reports nothing. |
| Diff.FieldDiffSymmetric | diagram_changes/scripts/detect_changes.py:103-119 | The diff reports the same keys in both directions. |
| Diff.ReportedSymmetric | diagram_changes/scripts/detect_changes.py:275-276 | Whether a key is reported does not depend on which side is the original. |
| Diff.OnlyYMoved | diagram_changes/scripts/detect_changes.py:110-117 | When only `y` differs between two geometries, the nested diff is exactly `y` as `{from, to}`. |
| Diff.MxCellDiff | diagram_changes/scripts/detect_changes.py:92-121 | There is no diff when either cell is missing. For two cells, the result is `None` exactly when the records are equal, and otherwise the non-empty field diff. |
| Diff.Differences | diagram_changes/scripts/detect_changes.py:128-144 | Each field of the kind appears exactly when its values differ, as `{from, to}`. `mxCell` appears exactly when the cells differ, holding their diff. No other key appears. |
| Diff.DifferencesEmpty | diagram_changes/scripts/detect_changes.py:128-146 | The differences are empty exactly when all the fields of the kind agree and the cells do not differ. |
| Diff.ObjectDiff | diagram_changes/scripts/detect_changes.py:123-150 | There is no entry exactly when the fields agree and the cells do not differ. Otherwise the entry is the changed side's record without `mxCell`, plus a non-empty `changes`. |
| Diff.CellChange | diagram_changes/scripts/detect_changes.py:269-296 | A common cell is reported exactly when its two records differ. The entry is the changed side's record plus the non-empty field diff under `changes`. |
| Diff.DiffGeometry | diagram_changes/scripts/detect_changes.py:110-115 | The loop over the union of geometry keys computes the nested geometry diff. |
| Diff.DiffFields | diagram_changes/scripts/detect_changes.py:273-291 | The loop over the union of keys computes the field diff. |
| Diff.CompareMxCells | diagram_changes/scripts/detect_changes.py:92-121 | `compare_mxcells` computes `MxCellDiff`. |
| Diff.DiffAttributes | diagram_changes/scripts/detect_changes.py:130-136 | The loop over the regular attributes collects exactly those that differ. |
| Diff.CompareObjects | diagram_changes/scripts/detect_changes.py:123-150 | `compare_objects` computes `ObjectDiff`. |
| Diff.ObjectDifferences | diagram_changes/scripts/detect_changes.py:125-144 | The attribute loop, and then the `mxCell` entry, build `Differences`. |
| Diff.GeometryDiffStep | diagram_changes/scripts/detect_changes.py:279-284 | One more geometry key adds its `{from, to}` entry exactly when its values differ, and leaves the other entries alone. |
| Diff.FieldDiffStep | diagram_changes/scripts/detect_changes.py:274-291 | One more key adds its entry exactly when it is reported, and leaves the other entries alone. |
| Diff.AttributeDiffStep | diagram_changes/scripts/detect_changes.py:131-136 | One more attribute other than `mxCell` adds its `{from, to}` entry exactly when its values differ. |
| Changeset.Diagrams | diagram_changes/scripts/detect_changes.py:164-314 | The twelve lists of `compare_diagrams`. `AddedRemovedSwap`, `SelfDiffIsEmpty` and `AddedRemovedDisjoint` state its properties, and `CompareDiagrams` is proved to compute it. |
| Changeset.ObjectDelta | diagram_changes/scripts/detect_changes.py:181-265 | One kind's added, removed and changed lists. Added and removed are matched by identity key, changed by structural id. `CompareObjectKind`, `ObjectDeltaDisjoint` and `ChangedEntriesShape` specify it. |
| Changeset.CellDelta | diagram_changes/scripts/detect_changes.py:214-296 | The standalone cells' added, removed and changed lists, matched by cell id. `CellDeltaDisjoint` and `CollectChangedCells` specify it. |
| Changeset.AddedRemovedSwap | diagram_changes/scripts/detect_changes.py:203-216 | Swapping the two snapshots swaps the added and removed lists of every kind. |
| Changeset.SelfDiffIsEmpty | diagram_changes/scripts/detect_changes.py:164-314 | Diffing a snapshot against itself yields all twelve lists empty. |
| Changeset.InfoKeyed | diagram_changes/scripts/detect_changes.py:225-240 | Equal extracted records have equal identity keys. |
| Changeset.AddedRemovedDisjoint | diagram_changes/scripts/detect_changes.py:203-240 | For every kind, no entry is both added and removed. |
| Changeset.ObjectDeltaDisjoint | diagram_changes/scripts/detect_changes.py:202-236 | No fact-sheet, relation or object record is both added and removed. |
| Changeset.CellDeltaDisjoint | diagram_changes/scripts/detect_changes.py:214-240 | No standalone cell record is both added and removed. |
| Changeset.ChangedEntriesShape | diagram_changes/scripts/detect_changes.py:242-265 | Every changed fact-sheet, relation or object entry comes from two objects of that kind that share a structural id. The entry is the changed side's record with a non-empty `changes`. |
| Changeset.CollectChangedObjects | diagram_changes/scripts/detect_changes.py:242-265 | The loop over common structural ids collects exactly the changed entries. |
| Changeset.CollectChangedCells | diagram_changes/scripts/detect_changes.py:267-296 | The loop over common cell ids collects exactly the changed cell entries. |
| Changeset.ObjectEntry | diagram_changes/scripts/detect_changes.py:245-247 | The loop body compares the two objects that share the id and gives that id's entry. |
| Changeset.CellEntry | diagram_changes/scripts/detect_changes.py:270-296 | The loop body diffs the two cell records that share the id and gives that id's entry. |
| Changeset.CompareObjectKind | diagram_changes/scripts/detect_changes.py:181-265 | One kind: added and removed are set differences by identity key (domain id for fact sheets and relations); changed is matched by structural id. |
| Changeset.CompareDiagrams | diagram_changes/scripts/detect_changes.py:164-314 | `compare_diagrams` on queried snapshots computes the changeset `Diagrams`. |
| Style.Restyled | diagram_changes/scripts/generate_new_diagrams.py:14-35 | `modify_style`: the surviving parts, then the border parts, with empty parts dropped, joined by `;`. `RestyledParts`, `RestyledSegments`, `RestyledShape`, `RestyledIdempotent` and `EmptyStyle` specify it, and `ModifyStyle` is proved to compute it. |
| Style.Split | diagram_changes/scripts/generate_new_diagrams.py:16 | Splitting on `;` gives at least one part, and no part holds `;`. |
| Style.JoinSplit | diagram_changes/scripts/generate_new_diagrams.py:16-35 | Joining the parts of a split gives the string back. |
| Style.SplitPrefix | diagram_changes/scripts/generate_new_diagrams.py:16 | Splitting a `;`-free part followed by `;` gives that part, then the split of the rest. |
| Style.SplitJoin | diagram_changes/scripts/generate_new_diagrams.py:16-35 | Splitting the join of `;`-free parts gives the parts back. |
| Style.PrefixContained | diagram_changes/scripts/generate_new_diagrams.py:21 | A string contains its own prefix. |
| Style.AppendedAreDropped | diagram_changes/scripts/generate_new_diagrams.py:21-33 | Every part `modify_style` appends is non-empty and mentions a banned property. |
| Style.RestyledParts | diagram_changes/scripts/generate_new_diagrams.py:16-35 | The output's parts are the non-empty input parts mentioning no banned property, in their order, followed by the appended parts. `labelBorderColor` is banned only for standalone cells. |
| Style.RestyledSegments | diagram_changes/scripts/generate_new_diagrams.py:16-35 | For a colour without `;`, the output splits into exactly the surviving input parts followed by the appended parts. |
| Style.RestyledShape | diagram_changes/scripts/generate_new_diagrams.py:24-35 | The output has no empty segment and ends with `strokeWidth=3`, `dashed=1`, `strokeColor=<colour>`, then `labelBorderColor=<colour>` exactly when standalone. |
| Style.SurvivorsStable | diagram_changes/scripts/generate_new_diagrams.py:20-22 | The surviving parts all survive another pass. |
| Style.RestyledIdempotent | diagram_changes/scripts/generate_new_diagrams.py:14-35 | Restyling twice with the same colour and flag gives the same style as restyling once. |
| Style.JoinThree | diagram_changes/scripts/generate_new_diagrams.py:35 | Joining three parts puts a `;` between each pair. |
| Style.JoinSnoc | diagram_changes/scripts/generate_new_diagrams.py:35 | Appending a part to a non-empty list appends `;` and the part to the join. |
| Style.BorderJoined | diagram_changes/scripts/generate_new_diagrams.py:24-35 | The border parts join to `strokeWidth=3;dashed=1;strokeColor=<colour>`. |
| Style.LabelBorderJoined | diagram_changes/scripts/generate_new_diagrams.py:24-35 | For a standalone cell the border parts join to that string plus `;labelBorderColor=<colour>`. |
| Style.EmptyStyleParts | diagram_changes/scripts/generate_new_diagrams.py:16 | An empty style contributes no parts. |
| Style.EmptyStyle | diagram_changes/scripts/generate_new_diagrams.py:16-35 | An empty or missing style becomes `strokeWidth=3;dashed=1;strokeColor=<colour>`, plus `;labelBorderColor=<colour>` when standalone. |
| Style.ModifyStyle | diagram_changes/scripts/generate_new_diagrams.py:14-35 | The filtering loop and the appends compute `Restyled`. |
| Style.KeepParts | diagram_changes/scripts/generate_new_diagrams.py:17-22 | The filtering loop keeps exactly the parts that mention no banned property, in order, empty parts included. |
| ChangeLookup.GetChangeType | diagram_changes/scripts/generate_new_diagrams.py:37-75 | `get_change_type`: the probes in source order, the first hit deciding. `ChangeTypeDecided`, `UnchangedWhenNothingFound`, `FactSheetIdFirst`, `ObjectIdFirst` and `UnchangedReadsAllLists` specify it. |
| ChangeLookup.Matches | diagram_changes/scripts/generate_new_diagrams.py:41-49 | Scanning one list can fail only with a `KeyError` on the key being matched. |
| ChangeLookup.MatchesFound | diagram_changes/scripts/generate_new_diagrams.py:53-54 | A scan answers "found" exactly when some item holds the target and every item up to it has the key. |
| ChangeLookup.MatchesMissed | diagram_changes/scripts/generate_new_diagrams.py:53-54 | A scan answers "not found" exactly when every item has the key and none holds the target. |
| ChangeLookup.FirstHitDecides | diagram_changes/scripts/generate_new_diagrams.py:40-73 | The outcome is a change type exactly when a deciding probe has that outcome. A deciding probe finds the target, and every probe before it ran and missed. |
| ChangeLookup.DeciderWins | diagram_changes/scripts/generate_new_diagrams.py:40-73 | A deciding probe's outcome is returned. |
| ChangeLookup.DeciderOf | diagram_changes/scripts/generate_new_diagrams.py:40-73 | A change-type outcome comes from a deciding probe with that outcome. |
| ChangeLookup.FirstHitUnchanged | diagram_changes/scripts/generate_new_diagrams.py:75 | The outcome is unchanged exactly when every probe misses. |
| ChangeLookup.FirstHitFails | diagram_changes/scripts/generate_new_diagrams.py:40-73 | A probe that raises after only misses makes the lookup raise that error. |
| ChangeLookup.ProbesDecide | diagram_changes/scripts/generate_new_diagrams.py:40-73 | Every probe's outcome is added, removed or changed. |
| ChangeLookup.UnchangedWhenNothingFound | diagram_changes/scripts/generate_new_diagrams.py:37-75 | `get_change_type` returns unchanged exactly when the object is found in no category. |
| ChangeLookup.ChangeTypeDecided | diagram_changes/scripts/generate_new_diagrams.py:37-75 | `get_change_type` returns a type exactly when the first category, in the fixed precedence order, that finds the object has that type. |
| ChangeLookup.FactSheetIdFirst | diagram_changes/scripts/generate_new_diagrams.py:40-46 | With a truthy `factSheetId`, a removed-fact-sheet match gives removed before anything else; otherwise an added match gives added. |
| ChangeLookup.ObjectIdFirst | diagram_changes/scripts/generate_new_diagrams.py:51-55 | Without a truthy `factSheetId`, an `objectId` match among the added fact sheets gives added. |
| ChangeLookup.FirstHitSkip | diagram_changes/scripts/generate_new_diagrams.py:40-75 | An unchanged outcome means every earlier probe missed, and the rest is unchanged too. |
| ChangeLookup.GroupRead | diagram_changes/scripts/generate_new_diagrams.py:52-73 | When the outcome is unchanged, all three lists of the group were present. |
| ChangeLookup.UnchangedReadsAllLists | diagram_changes/scripts/generate_new_diagrams.py:52-75 | An unchanged outcome means the changeset holds all twelve lists. |
| Annotate.AdditionsIds | diagram_changes/scripts/generate_new_diagrams.py:102-104 | The `factSheetId` sets of the added and the changed fact sheets, raising a `KeyError` for a missing list or key. The contract of `IdSet` specifies each set. |
| Annotate.Colour | diagram_changes/scripts/generate_new_diagrams.py:7-12 | Added is green, removed is red and changed is yellow, each in both directions. |
| Annotate.IdSet | diagram_changes/scripts/generate_new_diagrams.py:103-104 | The id set succeeds exactly when every item has the key, and is then the set of their values; otherwise it fails with a `KeyError` on that key. |
| Annotate.AdditionsObjectColour | diagram_changes/scripts/generate_new_diagrams.py:106-126 | An object with a truthy id and a cell is outlined exactly when it is added or changed; the lookup errors only for a truthy id. The colour is pink exactly when its `factSheetId` is both added and changed, and otherwise its type's colour. |
| Annotate.AdditionsCellColour | diagram_changes/scripts/generate_new_diagrams.py:128-140 | A cell the `[@id!="0"][@id!="1"]` query selects and whose id is truthy is looked up, and is outlined exactly when it is added or changed. Any other cell is neither looked up nor outlined. An outlined cell is pink exactly when its cell id is the id of both an added and a changed fact sheet; otherwise it gets its type's colour. |
| Annotate.RemovalsColour | diagram_changes/scripts/generate_new_diagrams.py:155-166 | An `object` with a truthy id and an `mxCell` to style is outlined exactly when it is removed or changed, in red or yellow to match its type. The lookup, and so its error, comes first. |
| Annotate.RemovalsCellColour | diagram_changes/scripts/generate_new_diagrams.py:169-175 | A cell the `[@id!="0"][@id!="1"]` query selects and whose id is truthy is looked up, and is outlined exactly when it is removed or changed, in its type's colour. Any other cell is neither looked up nor outlined. |
| Annotate.CombinedColour | diagram_changes/scripts/generate_new_diagrams.py:77-90 | An `object` with a truthy id and an `mxCell` to style is outlined exactly when it is not unchanged, in its type's colour. The lookup, and so its error, comes first. |
| Annotate.CombinedCellColour | diagram_changes/scripts/generate_new_diagrams.py:265-272 | A cell the `[@id!="0"][@id!="1"]` query selects and whose id is truthy is looked up, and is outlined exactly when it is not unchanged, in its type's colour. Any other cell is neither looked up nor outlined. |
| Annotate.Outline | diagram_changes/scripts/generate_new_diagrams.py:87-90 | Outlining sets `style` (missing treated as empty) and leaves every other attribute and the geometry alone. |
| Annotate.RemovedCopy | diagram_changes/scripts/generate_new_diagrams.py:229-247 | The copy of a removed object, renamed on a collision and restyled red. `CopyRenamedOnCollision` specifies it. |
| Annotate.Reinsert | diagram_changes/scripts/generate_new_diagrams.py:217-251 | The loop over the original objects as a function: the copies and the `modified_ids` map, or the first failing lookup's error. `ReinsertExact`, `ReinsertFails` and `ReinsertErrorIsFirst` specify it, and `ReinsertRemoved` is proved to compute it. |
| Annotate.RewriteRelation | diagram_changes/scripts/generate_new_diagrams.py:254-262 | One relation's `source`/`target` rewrite. `RewriteRelationExact` specifies it. |
| Annotate.CombinedObjects | diagram_changes/scripts/generate_new_diagrams.py:217-262 | The combined diagram's objects: the changed diagram's, then the copies when there is a parent for them, with every relation rewritten. `ChangedRelationsRedirected` and `UnrenamedReferencesKept` specify it. |
| Annotate.RewriteRelations | diagram_changes/scripts/generate_new_diagrams.py:254-262 | The rewrite touches each object of the combined diagram in place; it keeps the count and the order. |
| Annotate.CopyRenamedOnCollision | diagram_changes/scripts/generate_new_diagrams.py:229-247 | A removed copy's id becomes `id_removed` exactly when the id collides, and otherwise stays. Its cell's `source`/`target` references to the old id follow the rename. Its cell is restyled red. Nothing else changes; `CopyCellKept` states this for the cell. |
| Annotate.CopyCellKept | diagram_changes/scripts/generate_new_diagrams.py:229-247 | The copy's cell keeps its geometry and geometry label. It keeps every attribute other than `style`, `source` and `target`, and every `source`/`target` that does not name the id. Its keys are the original's plus `style`. |
| Annotate.CopyCell | diagram_changes/scripts/generate_new_diagrams.py:229-247 | The copy's cell is the original cell, with its references redirected when the id collides, then outlined in red. |
| Annotate.RedirectKept | diagram_changes/scripts/generate_new_diagrams.py:236-241 | Redirecting keeps the cell's keys and every other attribute, and moves `source`/`target` to the new id exactly when it was the old id. |
| Annotate.ReinsertExact | diagram_changes/scripts/generate_new_diagrams.py:217-251 | Every renamed id maps to `id + "_removed"`. An id is renamed exactly when a removed original carries it and it collides with the changed diagram. The copies are exactly the removed originals' copies. |
| Annotate.ReinsertLast | diagram_changes/scripts/generate_new_diagrams.py:222-251 | One iteration adds the copy of the last original when it is removed, together with its rename when the id collides; any other object leaves the result unchanged. |
| Annotate.RenamedKept | diagram_changes/scripts/generate_new_diagrams.py:231-234 | A removed original whose id collides has that id renamed. |
| Annotate.RenamedOrigin | diagram_changes/scripts/generate_new_diagrams.py:231-234 | Every renamed id comes from a removed original whose id collides, and is renamed to `id_removed`. |
| Annotate.CopyKept | diagram_changes/scripts/generate_new_diagrams.py:227-251 | Every removed original has its copy among the copies. |
| Annotate.CopyOrigin | diagram_changes/scripts/generate_new_diagrams.py:227-251 | Every copy is the copy of some removed original. |
| Annotate.ReinsertFails | diagram_changes/scripts/generate_new_diagrams.py:222-226 | A failing lookup for any original object makes the re-insertion fail. |
| Annotate.ReinsertErrorIsFirst | diagram_changes/scripts/generate_new_diagrams.py:222-226 | The first failing lookup's error is the result. |
| Annotate.RewriteRelationExact | diagram_changes/scripts/generate_new_diagrams.py:254-262 | Only a relation's `source`/`target` change, each to the new id exactly when it names a renamed id; other objects are untouched. |
| Annotate.ChangedRelationsRedirected | diagram_changes/scripts/generate_new_diagrams.py:253-262 | A changed-diagram relation whose source is a colliding removed id is redirected to `id_removed`. |
| Annotate.UnrenamedReferencesKept | diagram_changes/scripts/generate_new_diagrams.py:253-262 | A reference to an id that does not collide is kept. |
| Annotate.ReinsertRemoved | diagram_changes/scripts/generate_new_diagrams.py:217-251 | The loop over the original objects computes `Reinsert`, stopping at the first failing lookup. |
| Report.CategoryLines | diagram_changes/scripts/print_changes.py:17-38 | One category's lines. `FieldPairsExact`, `GeometryNotedOnce`, `FromToCategory` and `NonDictCategoryIgnored` specify it, and `CategoryLinesLoop` is proved to compute it. |
| Report.FormattedChanges | diagram_changes/scripts/print_changes.py:14-39 | `format_changes`: each category's lines in order. `FormattedConcat` and `FormattedSingle` specify it, and `FormatChanges` is proved to compute it. |
| Report.LabelFor | diagram_changes/scripts/print_changes.py:5-12 | `get_label_for_id`: the first naming fact sheet's label, the original diagram first, else the id. `LabelOfFirstNaming`, `LabelFallsBackToId` and `LabelIsNonEmpty` specify it. |
| Report.Find | diagram_changes/scripts/print_changes.py:23-24 | A key lookup succeeds exactly when the key is present, and returns one of its values. |
| Report.FieldPairsConcat | diagram_changes/scripts/print_changes.py:20-25 | Field lines follow the order of the fields. |
| Report.FieldPairsExact | diagram_changes/scripts/print_changes.py:20-38 | A field yields a line exactly when its value is a dictionary with `from` and `to` (and, inside `mxCell`, it is not `geometry`); the line is that pair under the field's name. |
| Report.NoGeometryPair | diagram_changes/scripts/print_changes.py:21 | Inside `mxCell`, no before/after line is named `geometry`. |
| Report.GeometryNotedOnce | diagram_changes/scripts/print_changes.py:17-25 | An `mxCell` category with `geometry` yields the note "position was modified" first and no other `geometry` line; without it, no `geometry` line. |
| Report.FromToCategory | diagram_changes/scripts/print_changes.py:26-31 | A category holding `from` and `to` itself yields exactly its own before/after line. |
| Report.NonDictCategoryIgnored | diagram_changes/scripts/print_changes.py:26 | A category that is neither `mxCell` nor a dictionary yields nothing. |
| Report.FormattedConcat | diagram_changes/scripts/print_changes.py:16-39 | Categories are reported in their order, one category's lines together; the first error wins. |
| Report.FormattedSingle | diagram_changes/scripts/print_changes.py:16-38 | A single category is reported as its own lines. |
| Report.FormatChanges | diagram_changes/scripts/print_changes.py:14-39 | The nested loops compute `FormattedChanges`. |
| Report.CategoryLinesLoop | diagram_changes/scripts/print_changes.py:17-38 | The body of the outer loop computes one category's lines, raising for a non-dictionary `mxCell`. |
| Report.FirstLabel | diagram_changes/scripts/print_changes.py:9-11 | There is no label exactly when no object names the fact sheet; otherwise it is the label of the first object naming it. |
| Report.FirstNamingUnique | diagram_changes/scripts/print_changes.py:9-11 | There is only one first naming object. |
| Report.FirstNamingSplit | diagram_changes/scripts/print_changes.py:7-11 | The first naming object across both diagrams comes from the original one when it has any, and otherwise from the changed one. |
| Report.LabelFallsBackToId | diagram_changes/scripts/print_changes.py:12 | With no naming object in either diagram, the id itself is returned. |
| Report.LabelOfFirstNaming | diagram_changes/scripts/print_changes.py:5-12 | The label is that of the first naming object, searching the original diagram before the changed one. |
| Report.LabelIsNonEmpty | diagram_changes/scripts/print_changes.py:10-11 | Any answer other than the id itself is a non-empty label. |

## Left out

- XML parsing, ElementTree XPath queries, `tree.write` and `copy.deepcopy`. Snapshots come
  already queried: `objects` are the `.//object` elements in document order, `rootCells` are
  the `mxCell` children of `root`, and each element has its first `mxCell` / `mxGeometry`
  child and geometry label.
- JSON file reading and writing, and every `main` function. These are I/O. The changeset
  reaches the consumers as a map from category name to a list of records.
- `render_diagram.py`: it probes the platform and the filesystem, then runs the draw.io
  desktop tool as a subprocess.
- `print_change`, `print_header` and the loop of `read_changes`: these only format console
  output.
- The y-offset of added objects in `combine_diagrams` (generate_new_diagrams.py:206-215): it
  is floating-point arithmetic.
- In-place tree mutation in `apply_change_style`, `create_changed_based_diagram`,
  `create_original_based_diagram` and `combine_diagrams`. These are modelled as functions
  that give each element's colour or new record, not as mutation of a shared tree.
- Changeset.Diagrams: the twelve lists are sets, and the model fixes no order for them.
  The order of the lists comes from Python's set iteration, which is not modelled.
  `get_change_type` does depend on that order in one case. A root `mxCell` with a `value`
  but no `id` is filed under the key `None`, so its record has no `id`. When such a record
  sits in a cell list, scanning that list for another element raises `KeyError` or returns
  the cell's type depending on where the record sits. The model does not decide that case.
- JSON numbers, booleans and arrays are not modelled. A changeset never holds them.
- A JSON object in the report is an ordered list of key/value pairs, which can repeat a key.
  `json.load` keeps the last value of a repeated key, and the model's lookups read the first.
  A Python dictionary also iterates a repeated key once, at its first position, with its
  last value. The model's `FieldPairs` and `FormattedChanges` instead give one line per
  occurrence. A changeset written by `detect_changes.py` never repeats a key.
- Annotate.CombinedObjects: whether the combined diagram has a parent for the copies (the
  `mxCell[@id="1"]/..` query) is a boolean parameter.
- Annotate.CombinedColour: only the colour of one element is modelled. The order in which the
  styling loops of `combine_diagrams` raise relative to the rename loop is not.
- ChangeLookup.Matches: an item's value is compared with the target as a string. A non-string
  JSON value never matches.
