/** `get_change_type`: how the diagram annotator looks an element up in a changeset it has
    read back from JSON. The lookup is a fixed sequence of probes, each a scan of one of the
    twelve lists for an item whose given key holds the element's id; the first probe that
    finds one decides. */
module ChangeLookup {
  import opened Values

  datatype ChangeType = Added | Removed | Changed | Unchanged

  /** The changeset as the consumers see it: each list under its JSON key. */
  type ChangeData = map<string, seq<Record>>

  /** One scan of the lookup: the list under `category`, matched on `item[key] == target`. */
  datatype Probe = Probe(category: string, key: string, target: string, outcome: ChangeType)

  /** `item[key] == target` holds for item `i`, and every item up to it has the key. */
  ghost predicate FoundAt(items: seq<Record>, key: string, target: string, i: int) {
    0 <= i < |items| && (forall j :: 0 <= j <= i ==> key in items[j]) && items[i][key] == Str(target)
  }

  /** The inner `for item in ...: if item[key] == target: return` loop. Python raises a
      `KeyError` at the first item without the key, unless an earlier item matched. */
  function Matches(items: seq<Record>, key: string, target: string): (r: Result<bool>)
    ensures r.Err? ==> r.error == MissingKey(key)
  {
    if |items| == 0 then Ok(false)
    else if key !in items[0] then Err(MissingKey(key))
    else if items[0][key] == Str(target) then Ok(true)
    else Matches(items[1..], key, target)
  }

  /** A probe: `changes_data[category]` raises a `KeyError` when the list is missing. */
  function Lookup(cd: ChangeData, p: Probe): Result<bool> {
    if p.category !in cd then Err(MissingKey(p.category)) else Matches(cd[p.category], p.key, p.target)
  }

  /** Runs the probes in order; the first hit decides, no hit means unchanged. */
  function FirstHit(cd: ChangeData, probes: seq<Probe>): Result<ChangeType> {
    if |probes| == 0 then Ok(Unchanged)
    else
      var hit :- Lookup(cd, probes[0]);
      if hit then Ok(probes[0].outcome) else FirstHit(cd, probes[1..])
  }

  /** The added, removed and changed lists of one kind, in that order, matched on `key`. */
  function Group(added: string, removed: string, changed: string, key: string, id: string): seq<Probe> {
    [Probe(added, key, id, Added), Probe(removed, key, id, Removed), Probe(changed, key, id, Changed)]
  }

  /** The domain-id probes, run first when the element has a truthy `factSheetId`:
      removed, then added, then changed. */
  function FactSheetIdProbes(factSheetId: string): seq<Probe> {
    [Probe("removedFactSheets", "factSheetId", factSheetId, Removed),
     Probe("addedFactSheets", "factSheetId", factSheetId, Added),
     Probe("changedFactSheets", "factSheetId", factSheetId, Changed)]
  }

  /** The structural-id probes: fact sheets, relations and objects by `objectId`, then cells
      by `id`, each kind in the order added, removed, changed. */
  function ObjectIdProbes(objId: string): seq<Probe> {
    Group("addedFactSheets", "removedFactSheets", "changedFactSheets", "objectId", objId) +
    Group("addedRelations", "removedRelations", "changedRelations", "objectId", objId) +
    Group("addedObjects", "removedObjects", "changedObjects", "objectId", objId) +
    Group("addedCells", "removedCells", "changedCells", "id", objId)
  }

  function Probes(objId: string, factSheetId: Option<string>): seq<Probe> {
    (if Truthy(factSheetId) then FactSheetIdProbes(factSheetId.value) else []) + ObjectIdProbes(objId)
  }

  /** `get_change_type(obj_id, fact_sheet_id, changes_data)`. */
  function GetChangeType(objId: string, factSheetId: Option<string>, cd: ChangeData): Result<ChangeType> {
    FirstHit(cd, Probes(objId, factSheetId))
  }

  // ---------------------------------------------------------------------------------------
  // Properties of one scan

  /** A scan finds the target exactly when some item holds it and every item up to that
      one has the key. */
  lemma {:induction false} MatchesFound(items: seq<Record>, key: string, target: string)
    ensures Matches(items, key, target) == Ok(true) <==> exists i :: FoundAt(items, key, target, i)
  {
    if |items| > 0 && key in items[0] && items[0][key] != Str(target) {
      MatchesFound(items[1..], key, target);
      if exists i :: FoundAt(items, key, target, i) {
        var i :| FoundAt(items, key, target, i);
        assert i > 0;
        assert FoundAt(items[1..], key, target, i - 1);
      }
      if exists i :: FoundAt(items[1..], key, target, i) {
        var i :| FoundAt(items[1..], key, target, i);
        assert FoundAt(items, key, target, i + 1);
      }
    } else if |items| > 0 && key in items[0] {
      assert FoundAt(items, key, target, 0);
    } else if |items| > 0 {
      assert forall i :: 0 <= i < |items| ==> !FoundAt(items, key, target, i);
    }
  }

  /** A scan misses exactly when every item has the key and none holds the target. */
  lemma {:induction false} MatchesMissed(items: seq<Record>, key: string, target: string)
    ensures Matches(items, key, target) == Ok(false) <==>
            forall i :: 0 <= i < |items| ==> key in items[i] && items[i][key] != Str(target)
  {
    if |items| > 0 && key in items[0] && items[0][key] != Str(target) {
      MatchesMissed(items[1..], key, target);
      assert forall i :: 1 <= i < |items| ==> items[i] == items[1..][i - 1];
    }
  }

  // ---------------------------------------------------------------------------------------
  // Properties of the probe sequence

  /** `i` is the deciding probe: it hits, and every probe before it misses. */
  ghost predicate DecidedBy(cd: ChangeData, probes: seq<Probe>, i: int) {
    0 <= i < |probes| && Lookup(cd, probes[i]) == Ok(true) &&
    forall j :: 0 <= j < i ==> Lookup(cd, probes[j]) == Ok(false)
  }

  /** The first hit decides the outcome. */
  lemma {:induction false} FirstHitDecides(cd: ChangeData, probes: seq<Probe>, t: ChangeType)
    requires t != Unchanged
    requires forall i :: 0 <= i < |probes| ==> probes[i].outcome != Unchanged
    ensures FirstHit(cd, probes) == Ok(t) <==>
            exists i :: DecidedBy(cd, probes, i) && probes[i].outcome == t
  {
    if FirstHit(cd, probes) == Ok(t) {
      var i := DeciderOf(cd, probes, t);
    }
    if exists i :: DecidedBy(cd, probes, i) && probes[i].outcome == t {
      var i :| DecidedBy(cd, probes, i) && probes[i].outcome == t;
      DeciderWins(cd, probes, i);
    }
  }

  /** The deciding probe's outcome is the result. */
  lemma {:induction false} DeciderWins(cd: ChangeData, probes: seq<Probe>, i: int)
    requires DecidedBy(cd, probes, i)
    ensures FirstHit(cd, probes) == Ok(probes[i].outcome)
  {
    if i > 0 {
      assert DecidedBy(cd, probes[1..], i - 1) by {
        forall j | 0 <= j < i - 1 ensures Lookup(cd, probes[1..][j]) == Ok(false) {
          assert probes[1..][j] == probes[j + 1];
        }
      }
      DeciderWins(cd, probes[1..], i - 1);
    }
  }

  /** A result other than unchanged comes from a deciding probe with that outcome. */
  lemma {:induction false} DeciderOf(cd: ChangeData, probes: seq<Probe>, t: ChangeType) returns (i: int)
    requires t != Unchanged
    requires forall i :: 0 <= i < |probes| ==> probes[i].outcome != Unchanged
    requires FirstHit(cd, probes) == Ok(t)
    ensures DecidedBy(cd, probes, i) && probes[i].outcome == t
  {
    if Lookup(cd, probes[0]) == Ok(true) {
      i := 0;
    } else {
      assert forall j :: 0 <= j < |probes[1..]| ==> probes[1..][j] == probes[j + 1];
      var k := DeciderOf(cd, probes[1..], t);
      i := k + 1;
      forall j | 0 <= j < i ensures Lookup(cd, probes[j]) == Ok(false) {
        if j > 0 {
          assert probes[j] == probes[1..][j - 1];
        }
      }
    }
  }

  /** No outcome is unchanged unless every probe ran and missed. */
  lemma {:induction false} FirstHitUnchanged(cd: ChangeData, probes: seq<Probe>)
    requires forall i :: 0 <= i < |probes| ==> probes[i].outcome != Unchanged
    ensures FirstHit(cd, probes) == Ok(Unchanged) <==>
            forall i :: 0 <= i < |probes| ==> Lookup(cd, probes[i]) == Ok(false)
  {
    if |probes| > 0 && Lookup(cd, probes[0]) == Ok(false) {
      FirstHitUnchanged(cd, probes[1..]);
      assert forall i :: 1 <= i < |probes| ==> probes[i] == probes[1..][i - 1];
    }
  }

  /** A failing probe before any hit makes the whole lookup fail with its error. */
  lemma {:induction false} FirstHitFails(cd: ChangeData, probes: seq<Probe>, i: int)
    requires 0 <= i < |probes| && Lookup(cd, probes[i]).Err?
    requires forall j :: 0 <= j < i ==> Lookup(cd, probes[j]) == Ok(false)
    ensures FirstHit(cd, probes) == Err(Lookup(cd, probes[i]).error)
  {
    if i > 0 {
      FirstHitFails(cd, probes[1..], i - 1);
    }
  }

  lemma ProbesDecide(objId: string, factSheetId: Option<string>)
    ensures forall i :: 0 <= i < |Probes(objId, factSheetId)| ==> Probes(objId, factSheetId)[i].outcome != Unchanged
  {
  }

  // ---------------------------------------------------------------------------------------
  // Properties of get_change_type

  /** An element is unchanged exactly when every list the lookup reads is present, every
      item of it has the key the lookup reads, and no item holds the element's id. */
  lemma {:induction false} UnchangedWhenNothingFound(objId: string, factSheetId: Option<string>, cd: ChangeData)
    ensures GetChangeType(objId, factSheetId, cd) == Ok(Unchanged) <==>
            forall i :: 0 <= i < |Probes(objId, factSheetId)| ==>
              Lookup(cd, Probes(objId, factSheetId)[i]) == Ok(false)
  {
    ProbesDecide(objId, factSheetId);
    FirstHitUnchanged(cd, Probes(objId, factSheetId));
  }

  /** An element is added, removed or changed exactly when the first probe that finds it
      says so, every earlier probe having run and missed. */
  lemma {:induction false} ChangeTypeDecided(objId: string, factSheetId: Option<string>, cd: ChangeData, t: ChangeType)
    requires t != Unchanged
    ensures GetChangeType(objId, factSheetId, cd) == Ok(t) <==>
            exists i :: DecidedBy(cd, Probes(objId, factSheetId), i) && Probes(objId, factSheetId)[i].outcome == t
  {
    ProbesDecide(objId, factSheetId);
    FirstHitDecides(cd, Probes(objId, factSheetId), t);
  }

  /** A domain-id hit in the removed fact sheets wins over everything, and one in the added
      fact sheets wins over everything but that. */
  lemma {:induction false} FactSheetIdFirst(objId: string, factSheetId: string, cd: ChangeData)
    requires factSheetId != ""
    ensures "removedFactSheets" in cd && Matches(cd["removedFactSheets"], "factSheetId", factSheetId) == Ok(true) ==>
            GetChangeType(objId, Some(factSheetId), cd) == Ok(Removed)
    ensures "removedFactSheets" in cd && Matches(cd["removedFactSheets"], "factSheetId", factSheetId) == Ok(false) &&
            "addedFactSheets" in cd && Matches(cd["addedFactSheets"], "factSheetId", factSheetId) == Ok(true) ==>
            GetChangeType(objId, Some(factSheetId), cd) == Ok(Added)
  {
    var probes := Probes(objId, Some(factSheetId));
    assert probes[0] == Probe("removedFactSheets", "factSheetId", factSheetId, Removed);
    assert probes[1..][0] == Probe("addedFactSheets", "factSheetId", factSheetId, Added);
    if Lookup(cd, probes[0]) == Ok(false) {
      assert FirstHit(cd, probes) == FirstHit(cd, probes[1..]);
    }
  }

  /** Without a domain id, a structural-id hit in the added fact sheets wins. */
  lemma {:induction false} ObjectIdFirst(objId: string, factSheetId: Option<string>, cd: ChangeData)
    requires !Truthy(factSheetId)
    requires "addedFactSheets" in cd && Matches(cd["addedFactSheets"], "objectId", objId) == Ok(true)
    ensures GetChangeType(objId, factSheetId, cd) == Ok(Added)
  {
    assert Probes(objId, factSheetId)[0] == Probe("addedFactSheets", "objectId", objId, Added);
  }

  /** A lookup that ends unchanged after a leading run of probes missed all of them. */
  lemma {:induction false} FirstHitSkip(cd: ChangeData, front: seq<Probe>, rest: seq<Probe>)
    requires forall i :: 0 <= i < |front| ==> front[i].outcome != Unchanged
    requires FirstHit(cd, front + rest) == Ok(Unchanged)
    ensures forall i :: 0 <= i < |front| ==> Lookup(cd, front[i]) == Ok(false)
    ensures FirstHit(cd, rest) == Ok(Unchanged)
  {
    if |front| == 0 {
      assert front + rest == rest;
    } else {
      assert (front + rest)[0] == front[0];
      assert (front + rest)[1..] == front[1..] + rest;
      FirstHitSkip(cd, front[1..], rest);
      assert forall i :: 1 <= i < |front| ==> front[i] == front[1..][i - 1];
    }
  }

  /** A lookup that ends unchanged has read the three lists of a leading group. */
  lemma {:induction false} GroupRead(cd: ChangeData, added: string, removed: string, changed: string,
                                     key: string, id: string, rest: seq<Probe>)
    requires FirstHit(cd, Group(added, removed, changed, key, id) + rest) == Ok(Unchanged)
    ensures added in cd && removed in cd && changed in cd
    ensures FirstHit(cd, rest) == Ok(Unchanged)
  {
    var g := Group(added, removed, changed, key, id);
    FirstHitSkip(cd, g, rest);
    assert Lookup(cd, g[0]) == Ok(false) && Lookup(cd, g[1]) == Ok(false) && Lookup(cd, g[2]) == Ok(false);
  }

  /** The lookup reads every one of the twelve lists before it can answer unchanged, so a
      changeset missing one of them never yields unchanged. */
  lemma {:induction false} UnchangedReadsAllLists(objId: string, factSheetId: Option<string>, cd: ChangeData)
    requires GetChangeType(objId, factSheetId, cd) == Ok(Unchanged)
    ensures "addedFactSheets" in cd && "removedFactSheets" in cd && "changedFactSheets" in cd
    ensures "addedRelations" in cd && "removedRelations" in cd && "changedRelations" in cd
    ensures "addedObjects" in cd && "removedObjects" in cd && "changedObjects" in cd
    ensures "addedCells" in cd && "removedCells" in cd && "changedCells" in cd
  {
    var g1 := Group("addedFactSheets", "removedFactSheets", "changedFactSheets", "objectId", objId);
    var g2 := Group("addedRelations", "removedRelations", "changedRelations", "objectId", objId);
    var g3 := Group("addedObjects", "removedObjects", "changedObjects", "objectId", objId);
    var g4 := Group("addedCells", "removedCells", "changedCells", "id", objId);
    var probes := Probes(objId, factSheetId);
    var front := if Truthy(factSheetId) then FactSheetIdProbes(factSheetId.value) else [];
    assert probes == front + ObjectIdProbes(objId);
    FirstHitSkip(cd, front, ObjectIdProbes(objId));
    assert ObjectIdProbes(objId) == g1 + (g2 + (g3 + (g4 + [])));
    GroupRead(cd, "addedFactSheets", "removedFactSheets", "changedFactSheets", "objectId", objId, g2 + (g3 + (g4 + [])));
    GroupRead(cd, "addedRelations", "removedRelations", "changedRelations", "objectId", objId, g3 + (g4 + []));
    GroupRead(cd, "addedObjects", "removedObjects", "changedObjects", "objectId", objId, g4 + []);
    GroupRead(cd, "addedCells", "removedCells", "changedCells", "id", objId, []);
  }
}
