/** The textual report's two pure parts: `format_changes`, which flattens the `changes`
    record of a changed entry into (field, change) lines, and `get_label_for_id`, which
    names a fact sheet by the label of its first labelled object. */
module Report {
  import opened Values
  import opened Elements

  /** A JSON value as `json.load` returns it. Objects keep their key order, which is the
      order `format_changes` emits lines in; that is why this is not `Values.Value`, whose
      dictionaries are unordered maps. An object is an association list; every lookup
      reads the first occurrence of a key. */
  datatype Json = JNull | JStr(s: string) | JObj(fields: seq<(string, Json)>)

  /** `key in d` for a JSON object. */
  predicate HasKey(fields: seq<(string, Json)>, key: string) {
    exists i :: 0 <= i < |fields| && fields[i].0 == key
  }

  /** `d[key]`: the value under the first occurrence of `key` (a Python dictionary holds each
      key once, so which occurrence is immaterial there). */
  function Find(fields: seq<(string, Json)>, key: string): (r: Option<Json>)
    ensures r.Some? <==> HasKey(fields, key)
    ensures r.Some? ==> exists i :: 0 <= i < |fields| && fields[i] == (key, r.value)
  {
    if |fields| == 0 then None
    else if fields[0].0 == key then Some(fields[0].1)
    else
      var r := Find(fields[1..], key);
      assert HasKey(fields, key) ==> HasKey(fields[1..], key) by {
        if HasKey(fields, key) {
          var i :| 0 <= i < |fields| && fields[i].0 == key;
          assert fields[1..][i - 1] == fields[i];
        }
      }
      assert r.Some? ==> HasKey(fields, key) by {
        if r.Some? {
          var i :| 0 <= i < |fields[1..]| && fields[1..][i] == (key, r.value);
          assert fields[i + 1] == fields[1..][i];
        }
      }
      r
  }

  /** One line of the report: either a note or a before/after pair. */
  datatype Shown = Note(text: string) | Change(from: Json, to: Json)

  type Line = (string, Shown)

  const GeometryNote := Note("position was modified")

  /** `isinstance(v, dict) and 'from' in v and 'to' in v`. */
  predicate IsFromTo(v: Json) {
    v.JObj? && HasKey(v.fields, "from") && HasKey(v.fields, "to")
  }

  function AsChange(v: Json): Shown
    requires IsFromTo(v)
  {
    Change(Find(v.fields, "from").value, Find(v.fields, "to").value)
  }

  /** The field is reported as a before/after pair. Inside `mxCell`, `geometry` never is. */
  predicate Reports(field: (string, Json), skipGeometry: bool) {
    (!skipGeometry || field.0 != "geometry") && IsFromTo(field.1)
  }

  /** The lines of the from/to-shaped fields, in their order. */
  function FieldPairs(fields: seq<(string, Json)>, skipGeometry: bool): seq<Line>
    decreases |fields|
  {
    if |fields| == 0 then []
    else
      var last := fields[|fields| - 1];
      FieldPairs(fields[..|fields| - 1], skipGeometry) +
      (if Reports(last, skipGeometry) then [(last.0, AsChange(last.1))] else [])
  }

  /** The lines of one category of `changes`. The `mxCell` category must be a dictionary
      (anything else makes `.items()` raise). */
  function CategoryLines(category: string, v: Json): Result<seq<Line>> {
    if category == "mxCell" then
      if !v.JObj? then Err(NotADict(category))
      else Ok((if HasKey(v.fields, "geometry") then [("geometry", GeometryNote)] else []) +
              FieldPairs(v.fields, true))
    else if v.JObj? then
      if IsFromTo(v) then Ok([(category, AsChange(v))]) else Ok(FieldPairs(v.fields, false))
    else Ok([])
  }

  /** The lines of the first categories, in their order. */
  function Formatted(categories: seq<(string, Json)>): Result<seq<Line>>
    decreases |categories|
  {
    if |categories| == 0 then Ok([])
    else
      var n := |categories| - 1;
      var front :- Formatted(categories[..n]);
      var lines :- CategoryLines(categories[n].0, categories[n].1);
      Ok(front + lines)
  }

  /** `format_changes(changes)`. */
  function FormattedChanges(changes: Json): Result<seq<Line>> {
    if changes.JObj? then Formatted(changes.fields) else Err(NotADict("changes"))
  }

  // ---------------------------------------------------------------------------------------
  // Properties

  /** Field lines follow the fields' order. */
  lemma {:induction false} FieldPairsConcat(a: seq<(string, Json)>, b: seq<(string, Json)>, skipGeometry: bool)
    ensures FieldPairs(a + b, skipGeometry) == FieldPairs(a, skipGeometry) + FieldPairs(b, skipGeometry)
    decreases |b|
  {
    if |b| == 0 {
      assert a + b == a;
    } else {
      var n := |b| - 1;
      assert (a + b)[..|a + b| - 1] == a + b[..n];
      assert (a + b)[|a + b| - 1] == b[n];
      FieldPairsConcat(a, b[..n], skipGeometry);
    }
  }

  /** A field yields a line exactly when it is reported, and then the line is its from/to pair
      under its own name. */
  lemma {:induction false} FieldPairsExact(fields: seq<(string, Json)>, skipGeometry: bool)
    ensures forall line :: line in FieldPairs(fields, skipGeometry) <==>
              exists i :: 0 <= i < |fields| && Reports(fields[i], skipGeometry) &&
                          line == (fields[i].0, AsChange(fields[i].1))
    decreases |fields|
  {
    if |fields| > 0 {
      var n := |fields| - 1;
      FieldPairsExact(fields[..n], skipGeometry);
      assert forall i :: 0 <= i < n ==> fields[..n][i] == fields[i];
    }
  }

  /** Inside `mxCell`, no from/to line is ever named `geometry`. */
  lemma {:induction false} NoGeometryPair(fields: seq<(string, Json)>)
    ensures forall k :: 0 <= k < |FieldPairs(fields, true)| ==> FieldPairs(fields, true)[k].0 != "geometry"
  {
    FieldPairsExact(fields, true);
    forall k | 0 <= k < |FieldPairs(fields, true)| ensures FieldPairs(fields, true)[k].0 != "geometry" {
      assert FieldPairs(fields, true)[k] in FieldPairs(fields, true);
    }
  }

  /** An `mxCell` category with a `geometry` key yields exactly one `geometry` line, the note,
      first, however many geometry fields changed; without one it yields none. */
  lemma {:induction false} GeometryNotedOnce(fields: seq<(string, Json)>)
    ensures var lines := CategoryLines("mxCell", JObj(fields)).value;
            (HasKey(fields, "geometry") ==>
               lines[0] == ("geometry", GeometryNote) &&
               forall k :: 0 < k < |lines| ==> lines[k].0 != "geometry") &&
            (!HasKey(fields, "geometry") ==> forall k :: 0 <= k < |lines| ==> lines[k].0 != "geometry")
  {
    NoGeometryPair(fields);
    var pairs := FieldPairs(fields, true);
    if HasKey(fields, "geometry") {
      var lines := [("geometry", GeometryNote)] + pairs;
      assert forall k :: 0 < k < |lines| ==> lines[k] == pairs[k - 1];
    }
  }

  /** A category holding `from` and `to` itself yields exactly its own before/after line. */
  lemma FromToCategory(category: string, v: Json)
    requires category != "mxCell" && IsFromTo(v)
    ensures CategoryLines(category, v) ==
            Ok([(category, Change(Find(v.fields, "from").value, Find(v.fields, "to").value))])
  {
  }

  /** A category that is neither `mxCell` nor a dictionary yields nothing. */
  lemma NonDictCategoryIgnored(category: string, v: Json)
    requires category != "mxCell" && !v.JObj?
    ensures CategoryLines(category, v) == Ok([])
  {
  }

  /** Categories are reported in their order, each category's lines together. */
  lemma {:induction false} FormattedConcat(a: seq<(string, Json)>, b: seq<(string, Json)>)
    ensures Formatted(a).Err? ==> Formatted(a + b) == Formatted(a)
    ensures Formatted(a).Ok? && Formatted(b).Ok? ==>
            Formatted(a + b) == Ok(Formatted(a).value + Formatted(b).value)
    ensures Formatted(a).Ok? && Formatted(b).Err? ==> Formatted(a + b) == Formatted(b)
    decreases |b|
  {
    if |b| == 0 {
      assert a + b == a;
      if Formatted(a).Ok? {
        assert Formatted(a).value + [] == Formatted(a).value;
      }
    } else {
      var n := |b| - 1;
      assert (a + b)[..|a + b| - 1] == a + b[..n];
      assert (a + b)[|a + b| - 1] == b[n];
      FormattedConcat(a, b[..n]);
      if Formatted(a).Ok? && Formatted(b[..n]).Ok? && CategoryLines(b[n].0, b[n].1).Ok? {
        var x, y, z := Formatted(a).value, Formatted(b[..n]).value, CategoryLines(b[n].0, b[n].1).value;
        assert x + y + z == x + (y + z);
      }
    }
  }

  /** One category at a time: the report of a single category is its lines. */
  lemma FormattedSingle(category: (string, Json))
    ensures Formatted([category]) == CategoryLines(category.0, category.1)
  {
    assert [category][..0] == [];
    if CategoryLines(category.0, category.1).Ok? {
      assert [] + CategoryLines(category.0, category.1).value == CategoryLines(category.0, category.1).value;
    }
  }

  // ---------------------------------------------------------------------------------------
  // The loops

  /** `format_changes`, with its two nested loops. */
  method FormatChanges(changes: Json) returns (r: Result<seq<Line>>)
    ensures r == FormattedChanges(changes)
  {
    if !changes.JObj? {
      return Err(NotADict("changes"));
    }
    var categories := changes.fields;
    var formatted: seq<Line> := [];
    for i := 0 to |categories|
      invariant Formatted(categories[..i]) == Ok(formatted)
    {
      var category, categoryChanges := categories[i].0, categories[i].1;
      assert categories[..i + 1][..i] == categories[..i];
      var lines := CategoryLinesLoop(category, categoryChanges);
      if lines.Err? {
        FormattedConcat(categories[..i + 1], categories[i + 1..]);
        assert categories[..i + 1] + categories[i + 1..] == categories;
        return Err(lines.error);
      }
      formatted := formatted + lines.value;
    }
    assert categories[..|categories|] == categories;
    r := Ok(formatted);
  }

  /** The body of the outer loop for one category. */
  method CategoryLinesLoop(category: string, categoryChanges: Json) returns (r: Result<seq<Line>>)
    ensures r == CategoryLines(category, categoryChanges)
  {
    if category == "mxCell" && !categoryChanges.JObj? {
      return Err(NotADict(category));
    }
    var lines: seq<Line> := [];
    if category == "mxCell" {
      var fields := categoryChanges.fields;
      if HasKey(fields, "geometry") {
        lines := lines + [("geometry", GeometryNote)];
      }
      ghost var head := lines;
      for j := 0 to |fields|
        invariant lines == head + FieldPairs(fields[..j], true)
      {
        assert fields[..j + 1][..j] == fields[..j] && fields[..j + 1][j] == fields[j];
        if fields[j].0 != "geometry" && IsFromTo(fields[j].1) {
          lines := lines + [(fields[j].0, AsChange(fields[j].1))];
        }
      }
      assert fields[..|fields|] == fields;
      assert head == (if HasKey(fields, "geometry") then [("geometry", GeometryNote)] else []);
    } else if categoryChanges.JObj? {
      var fields := categoryChanges.fields;
      if IsFromTo(categoryChanges) {
        lines := [(category, AsChange(categoryChanges))];
      } else {
        for j := 0 to |fields|
          invariant lines == FieldPairs(fields[..j], false)
        {
          assert fields[..j + 1][..j] == fields[..j] && fields[..j + 1][j] == fields[j];
          if IsFromTo(fields[j].1) {
            lines := lines + [(fields[j].0, AsChange(fields[j].1))];
          }
        }
        assert fields[..|fields|] == fields;
      }
    }
    r := Ok(lines);
  }

  // ---------------------------------------------------------------------------------------
  // get_label_for_id

  /** `.//object[@type='factSheet']` with `factSheetId` equal to `id` and a non-empty label. */
  predicate Names(e: Element, id: Option<string>) {
    Attr(e.attrs, "type") == Some("factSheet") && FactSheetId(e) == id && Truthy(Attr(e.attrs, "label"))
  }

  /** `i` is the first object that names the fact sheet. */
  ghost predicate FirstNaming(objects: seq<Element>, id: Option<string>, i: int) {
    0 <= i < |objects| && Names(objects[i], id) && forall j :: 0 <= j < i ==> !Names(objects[j], id)
  }

  /** The label of the first object of one diagram that names the fact sheet. */
  function FirstLabel(objects: seq<Element>, id: Option<string>): (r: Option<string>)
    ensures r.None? <==> forall i :: 0 <= i < |objects| ==> !Names(objects[i], id)
    ensures r.Some? ==> exists i :: FirstNaming(objects, id, i) && r.value == objects[i].attrs["label"]
  {
    if |objects| == 0 then None
    else if Names(objects[0], id) then
      assert FirstNaming(objects, id, 0);
      Some(objects[0].attrs["label"])
    else
      var r := FirstLabel(objects[1..], id);
      assert forall i :: 1 <= i < |objects| ==> objects[i] == objects[1..][i - 1];
      assert r.Some? ==> exists i :: FirstNaming(objects, id, i) && r.value == objects[i].attrs["label"] by {
        if r.Some? {
          var i :| FirstNaming(objects[1..], id, i) && r.value == objects[1..][i].attrs["label"];
          assert FirstNaming(objects, id, i + 1);
        }
      }
      r
  }

  /** `get_label_for_id(factsheet_id, original_root, changed_root)`: the original diagram is
      searched before the changed one, and the id itself is the fallback. */
  function LabelFor(id: Option<string>, original: Snapshot, changed: Snapshot): Option<string> {
    match FirstLabel(original.objects, id)
    case Some(text) => Some(text)
    case None =>
      match FirstLabel(changed.objects, id)
      case Some(text) => Some(text)
      case None => id
  }

  lemma FirstNamingUnique(objects: seq<Element>, id: Option<string>, i: int, j: int)
    requires FirstNaming(objects, id, i) && FirstNaming(objects, id, j)
    ensures i == j
  {
  }

  /** The first naming object of two diagrams in turn is the first of the first diagram, or,
      when that has none, the first of the second. */
  lemma {:induction false} FirstNamingSplit(o: seq<Element>, c: seq<Element>, id: Option<string>, i: int)
    requires FirstNaming(o + c, id, i)
    ensures i < |o| ==> FirstNaming(o, id, i)
    ensures i >= |o| ==> FirstNaming(c, id, i - |o|) && forall j :: 0 <= j < |o| ==> !Names(o[j], id)
  {
    var all := o + c;
    if i < |o| {
      assert all[i] == o[i];
      forall j | 0 <= j < i ensures !Names(o[j], id) {
        assert all[j] == o[j];
      }
    } else {
      assert all[i] == c[i - |o|];
      forall j | 0 <= j < |o| ensures !Names(o[j], id) {
        assert all[j] == o[j];
      }
      forall j | 0 <= j < i - |o| ensures !Names(c[j], id) {
        assert all[|o| + j] == c[j];
      }
    }
  }

  /** With no naming object in either diagram, the id itself is returned. */
  lemma {:induction false} LabelFallsBackToId(id: Option<string>, original: Snapshot, changed: Snapshot)
    requires forall i :: 0 <= i < |original.objects + changed.objects| ==> !Names((original.objects + changed.objects)[i], id)
    ensures LabelFor(id, original, changed) == id
  {
    var o, c := original.objects, changed.objects;
    forall i | 0 <= i < |o| ensures !Names(o[i], id) {
      assert (o + c)[i] == o[i];
    }
    forall i | 0 <= i < |c| ensures !Names(c[i], id) {
      assert (o + c)[|o| + i] == c[i];
    }
  }

  /** The label is that of the first naming object of the original diagram followed by the
      changed one. */
  lemma {:induction false} LabelOfFirstNaming(id: Option<string>, original: Snapshot, changed: Snapshot, i: int)
    requires FirstNaming(original.objects + changed.objects, id, i)
    ensures LabelFor(id, original, changed) == Some((original.objects + changed.objects)[i].attrs["label"])
  {
    var o, c := original.objects, changed.objects;
    FirstNamingSplit(o, c, id, i);
    if i < |o| {
      assert (o + c)[i] == o[i];
      var j :| FirstNaming(o, id, j) && FirstLabel(o, id).value == o[j].attrs["label"];
      FirstNamingUnique(o, id, i, j);
    } else {
      assert (o + c)[i] == c[i - |o|];
      var j :| FirstNaming(c, id, j) && FirstLabel(c, id).value == c[j].attrs["label"];
      FirstNamingUnique(c, id, i - |o|, j);
    }
  }

  /** Whatever is not the id itself is a non-empty label. */
  lemma {:induction false} LabelIsNonEmpty(id: Option<string>, original: Snapshot, changed: Snapshot)
    ensures LabelFor(id, original, changed) != id ==> Truthy(LabelFor(id, original, changed))
  {
    var o, c := original.objects, changed.objects;
    if FirstLabel(o, id).Some? {
      var j :| FirstNaming(o, id, j) && FirstLabel(o, id).value == o[j].attrs["label"];
    } else if FirstLabel(c, id).Some? {
      var j :| FirstNaming(c, id, j) && FirstLabel(c, id).value == c[j].attrs["label"];
    }
  }
}
