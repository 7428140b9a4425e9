/** Matching: `compare_diagrams` minus the parsing. For every kind, the added and removed
    entries are set differences of key-indexed tables, and the changed entries come from
    diffing the entries both snapshots share. */
module Changeset {
  import opened Values
  import opened Elements
  import opened Extract
  import opened Comprehensions
  import opened Classify
  import opened Diff

  /** One kind's three output lists. Python lists of records whose order nobody relies on
      become sets. */
  datatype Delta = Delta(added: set<Record>, removed: set<Record>, changed: set<Record>)

  /** The twelve lists `compare_diagrams` returns, grouped by kind. */
  datatype Changes = Changes(factSheets: Delta, relations: Delta, objects: Delta, cells: Delta)

  const NoDelta := Delta({}, {}, {})

  /** The extracted records of the entries of `m` filed under the keys `ks`. */
  function Infos(kind: Kind, m: map<Option<string>, Element>, ks: set<Option<string>>): set<Record>
    requires ks <= m.Keys
  {
    set k | k in ks :: ObjectInfo(kind, m[k], false)
  }

  /** The diff of the two objects filed under `k`, when both tables hold one. */
  function ObjectDiffAt(kind: Kind, om: map<Option<string>, Element>, cm: map<Option<string>, Element>)
    : Option<string> -> Option<Record>
  {
    k => if k in om && k in cm then ObjectDiff(kind, om[k], cm[k]) else None
  }

  /** The changed entries among the objects both tables hold. */
  function ChangedObjects(kind: Kind, om: map<Option<string>, Element>, cm: map<Option<string>, Element>): set<Record> {
    Collect(om.Keys * cm.Keys, ObjectDiffAt(kind, om, cm))
  }

  /** The change of the two cells filed under `k`, when both tables hold one. */
  function CellChangeAt(om: map<Option<string>, Cell>, cm: map<Option<string>, Cell>): Option<string> -> Option<Record> {
    k => if k in om && k in cm then CellChange(om[k], cm[k]) else None
  }

  /** The changed entries among the cells both tables hold. */
  function ChangedCells(om: map<Option<string>, Cell>, cm: map<Option<string>, Cell>): set<Record> {
    Collect(om.Keys * cm.Keys, CellChangeAt(om, cm))
  }

  /** One kind of object: added and removed by the kind's identity key, changed by structural id. */
  function ObjectDelta(kind: Kind, original: seq<Element>, changed: seq<Element>): Delta {
    var o, c := ObjectsOfKind(original, kind), ObjectsOfKind(changed, kind);
    var oByKey, cByKey := IndexBy(o, IdentityKey(kind)), IndexBy(c, IdentityKey(kind));
    Delta(Infos(kind, cByKey, cByKey.Keys - oByKey.Keys),
          Infos(kind, oByKey, oByKey.Keys - cByKey.Keys),
          ChangedObjects(kind, IndexBy(o, ObjectId), IndexBy(c, ObjectId)))
  }

  /** Standalone cells, matched by structural id. */
  function CellDelta(original: seq<Cell>, changed: seq<Cell>): Delta {
    var om, cm := CellsById(original), CellsById(changed);
    Delta(set k | k in cm.Keys - om.Keys :: StandaloneInfo(cm[k]),
          set k | k in om.Keys - cm.Keys :: StandaloneInfo(om[k]),
          ChangedCells(om, cm))
  }

  /** The changeset of two snapshots. */
  function Diagrams(original: Snapshot, changed: Snapshot): Changes {
    Changes(ObjectDelta(FactSheet, original.objects, changed.objects),
            ObjectDelta(Relation, original.objects, changed.objects),
            ObjectDelta(Generic, original.objects, changed.objects),
            CellDelta(original.rootCells, changed.rootCells))
  }

  // ---------------------------------------------------------------------------------------
  // Properties

  /** Swapping the two snapshots swaps added and removed, for every kind. */
  lemma AddedRemovedSwap(a: Snapshot, b: Snapshot)
    ensures Diagrams(b, a).factSheets.added == Diagrams(a, b).factSheets.removed
    ensures Diagrams(b, a).factSheets.removed == Diagrams(a, b).factSheets.added
    ensures Diagrams(b, a).relations.added == Diagrams(a, b).relations.removed
    ensures Diagrams(b, a).relations.removed == Diagrams(a, b).relations.added
    ensures Diagrams(b, a).objects.added == Diagrams(a, b).objects.removed
    ensures Diagrams(b, a).objects.removed == Diagrams(a, b).objects.added
    ensures Diagrams(b, a).cells.added == Diagrams(a, b).cells.removed
    ensures Diagrams(b, a).cells.removed == Diagrams(a, b).cells.added
  {
  }

  /** Diffing a snapshot against itself yields all twelve lists empty. */
  lemma {:induction false} SelfDiffIsEmpty(s: Snapshot)
    ensures Diagrams(s, s) == Changes(NoDelta, NoDelta, NoDelta, NoDelta)
  {
    forall kind: Kind, e: Element ensures ObjectDiff(kind, e, e).None? {
      if e.cell.Some? {
        assert MxCellDiff(e.cell, e.cell).None?;
      }
    }
    forall c: Cell ensures CellChange(c, c).None? {
    }
    forall kind: Kind ensures ObjectDelta(kind, s.objects, s.objects) == NoDelta {
      var o := ObjectsOfKind(s.objects, kind);
      assert ChangedObjects(kind, IndexBy(o, ObjectId), IndexBy(o, ObjectId)) == {};
    }
    var m := CellsById(s.rootCells);
    assert ChangedCells(m, m) == {};
  }

  /** Distinct keys give distinct records: the record carries its key. */
  lemma {:induction false} InfoKeyed(kind: Kind, e1: Element, e2: Element)
    requires ObjectInfo(kind, e1, false) == ObjectInfo(kind, e2, false)
    ensures IdentityKey(kind)(e1) == IdentityKey(kind)(e2)
  {
    var c := Cell(map[], None, None);
    InfoCarriesIds(kind, e1, c);
    InfoCarriesIds(kind, e2, c);
  }

  /** An entity is never reported both added and removed, for any kind. */
  lemma {:induction false} AddedRemovedDisjoint(a: Snapshot, b: Snapshot)
    ensures Diagrams(a, b).factSheets.added !! Diagrams(a, b).factSheets.removed
    ensures Diagrams(a, b).relations.added !! Diagrams(a, b).relations.removed
    ensures Diagrams(a, b).objects.added !! Diagrams(a, b).objects.removed
    ensures Diagrams(a, b).cells.added !! Diagrams(a, b).cells.removed
  {
    ObjectDeltaDisjoint(FactSheet, a.objects, b.objects);
    ObjectDeltaDisjoint(Relation, a.objects, b.objects);
    ObjectDeltaDisjoint(Generic, a.objects, b.objects);
    CellDeltaDisjoint(a.rootCells, b.rootCells);
  }

  /** No object of one kind is reported both added and removed. */
  lemma {:induction false} ObjectDeltaDisjoint(kind: Kind, original: seq<Element>, changed: seq<Element>)
    ensures ObjectDelta(kind, original, changed).added !! ObjectDelta(kind, original, changed).removed
  {
    var o, c := ObjectsOfKind(original, kind), ObjectsOfKind(changed, kind);
    var om, cm := IndexBy(o, IdentityKey(kind)), IndexBy(c, IdentityKey(kind));
    var d := ObjectDelta(kind, original, changed);
    forall r | r in d.added && r in d.removed ensures false {
      var k1 :| k1 in cm.Keys - om.Keys && r == ObjectInfo(kind, cm[k1], false);
      var k2 :| k2 in om.Keys - cm.Keys && r == ObjectInfo(kind, om[k2], false);
      InfoKeyed(kind, cm[k1], om[k2]);
    }
  }

  /** No standalone cell is reported both added and removed. */
  lemma {:induction false} CellDeltaDisjoint(original: seq<Cell>, changed: seq<Cell>)
    ensures CellDelta(original, changed).added !! CellDelta(original, changed).removed
  {
  }

  /** Every changed entry of a kind is the changed side's record of an object whose
      structural id both snapshots hold, with a non-empty `changes` record. */
  lemma {:induction false} ChangedEntriesShape(kind: Kind, a: Snapshot, b: Snapshot, r: Record)
    requires r in ObjectDelta(kind, a.objects, b.objects).changed
    ensures exists e1, e2 ::
              e1 in ObjectsOfKind(a.objects, kind) && e2 in ObjectsOfKind(b.objects, kind) &&
              ObjectId(e1) == ObjectId(e2) &&
              r == ObjectInfo(kind, e2, false)["changes" := Dict(Differences(kind, e1, e2))] &&
              Differences(kind, e1, e2) != map[]
  {
    var o, c := ObjectsOfKind(a.objects, kind), ObjectsOfKind(b.objects, kind);
    var om, cm := IndexBy(o, ObjectId), IndexBy(c, ObjectId);
    var k :| k in om.Keys * cm.Keys && ObjectDiff(kind, om[k], cm[k]).Some? && r == ObjectDiff(kind, om[k], cm[k]).value;
    assert om[k] in o && cm[k] in c;
  }

  // ---------------------------------------------------------------------------------------
  // The loops

  /** The body of the loop over common structural ids: `compare_objects` on the two objects. */
  method ObjectEntry(kind: Kind, om: map<Option<string>, Element>, cm: map<Option<string>, Element>, id: Option<string>)
    returns (diff: Option<Record>)
    requires id in om && id in cm
    ensures diff == ObjectDiffAt(kind, om, cm)(id)
  {
    diff := CompareObjects(kind, om[id], cm[id]);
  }

  /** The body of the loop over common cell ids. */
  method CellEntry(om: map<Option<string>, Cell>, cm: map<Option<string>, Cell>, id: Option<string>)
    returns (change: Option<Record>)
    requires id in om && id in cm
    ensures change == CellChangeAt(om, cm)(id)
  {
    var originalInfo, changedInfo := StandaloneInfo(om[id]), StandaloneInfo(cm[id]);
    var differences := DiffFields(originalInfo, changedInfo);
    change := if differences != map[] then Some(changedInfo["changes" := Dict(differences)]) else None;
  }

  /** The loop over common structural ids for one kind of object. */
  method CollectChangedObjects(kind: Kind, om: map<Option<string>, Element>, cm: map<Option<string>, Element>)
    returns (changed: set<Record>)
    ensures changed == ChangedObjects(kind, om, cm)
  {
    changed := {};
    var todo := om.Keys * cm.Keys;
    ghost var done: set<Option<string>> := {};
    while todo != {}
      invariant todo + done == om.Keys * cm.Keys && todo !! done
      invariant changed == Collect(done, ObjectDiffAt(kind, om, cm))
      decreases todo
    {
      var id :| id in todo;
      var diff := ObjectEntry(kind, om, cm, id);
      CollectStep(done, id, ObjectDiffAt(kind, om, cm));
      changed := changed + if diff.Some? then {diff.value} else {};
      todo, done := todo - {id}, done + {id};
    }
  }

  /** The loop over common cell ids. */
  method CollectChangedCells(om: map<Option<string>, Cell>, cm: map<Option<string>, Cell>)
    returns (changed: set<Record>)
    ensures changed == ChangedCells(om, cm)
  {
    changed := {};
    var todo := om.Keys * cm.Keys;
    ghost var done: set<Option<string>> := {};
    while todo != {}
      invariant todo + done == om.Keys * cm.Keys && todo !! done
      invariant changed == Collect(done, CellChangeAt(om, cm))
      decreases todo
    {
      var id :| id in todo;
      var change := CellEntry(om, cm, id);
      CollectStep(done, id, CellChangeAt(om, cm));
      changed := changed + if change.Some? then {change.value} else {};
      todo, done := todo - {id}, done + {id};
    }
  }

  /** One kind of object, as `compare_diagrams` computes it. */
  method CompareObjectKind(kind: Kind, original: seq<Element>, changed: seq<Element>) returns (d: Delta)
    ensures d == ObjectDelta(kind, original, changed)
  {
    var o, c := ObjectsOfKind(original, kind), ObjectsOfKind(changed, kind);
    var oByKey, cByKey := IndexBy(o, IdentityKey(kind)), IndexBy(c, IdentityKey(kind));
    var added := set k | k in cByKey.Keys - oByKey.Keys :: ObjectInfo(kind, cByKey[k], false);
    var removed := set k | k in oByKey.Keys - cByKey.Keys :: ObjectInfo(kind, oByKey[k], false);
    var changedEntries := CollectChangedObjects(kind, IndexBy(o, ObjectId), IndexBy(c, ObjectId));
    d := Delta(added, removed, changedEntries);
  }

  /** `compare_diagrams`, from already-queried snapshots. */
  method CompareDiagrams(original: Snapshot, changed: Snapshot) returns (result: Changes)
    ensures result == Diagrams(original, changed)
  {
    var factSheets := CompareObjectKind(FactSheet, original.objects, changed.objects);
    var relations := CompareObjectKind(Relation, original.objects, changed.objects);
    var objects := CompareObjectKind(Generic, original.objects, changed.objects);
    var om, cm := CellsById(original.rootCells), CellsById(changed.rootCells);
    var addedCells := set k | k in cm.Keys - om.Keys :: StandaloneInfo(cm[k]);
    var removedCells := set k | k in om.Keys - cm.Keys :: StandaloneInfo(om[k]);
    var changedCells := CollectChangedCells(om, cm);
    result := Changes(factSheets, relations, objects, Delta(addedCells, removedCells, changedCells));
  }
}
