/** `modify_style`: restyling a draw.io style string (`key=value` parts separated by `;`)
    with a dashed, coloured border. */
module Style {
  import opened Comprehensions

  const Sep: char := ';'

  // ---------------------------------------------------------------------------------------
  // Python's `str.split(';')`, `';'.join(...)` and substring test

  /** `s.split(';')`: always at least one part, and no part holds the separator. */
  function Split(s: string): (parts: seq<string>)
    ensures |parts| >= 1
    ensures forall i :: 0 <= i < |parts| ==> Sep !in parts[i]
    decreases |s|
  {
    if |s| == 0 then [""]
    else if s[0] == Sep then [""] + Split(s[1..])
    else
      var rest := Split(s[1..]);
      [[s[0]] + rest[0]] + rest[1..]
  }

  /** `';'.join(parts)`. */
  function Join(parts: seq<string>): string {
    if |parts| == 0 then ""
    else if |parts| == 1 then parts[0]
    else parts[0] + [Sep] + Join(parts[1..])
  }

  /** Joining the parts of a split gives the string back. */
  lemma {:induction false} JoinSplit(s: string)
    ensures Join(Split(s)) == s
    decreases |s|
  {
    if |s| > 0 {
      JoinSplit(s[1..]);
      var rest := Split(s[1..]);
      if s[0] == Sep {
        assert s == [s[0]] + s[1..];
      } else if |rest| == 1 {
        assert s == [s[0]] + rest[0];
      } else {
        assert Join(rest) == rest[0] + [Sep] + Join(rest[1..]);
        assert [[s[0]] + rest[0]] + rest[1..] == [[s[0]] + rest[0]] + rest[1..];
        assert s == [s[0]] + s[1..];
      }
    }
  }

  /** Splitting a separator-free string prefixed to `[Sep] + t` yields that string first. */
  lemma {:induction false} SplitPrefix(p: string, t: string)
    requires Sep !in p
    ensures Split(p + [Sep] + t) == [p] + Split(t)
    ensures Split(p) == [p]
    decreases |p|
  {
    if |p| > 0 {
      assert (p + [Sep] + t)[1..] == p[1..] + [Sep] + t;
      assert p[0] != Sep;
      SplitPrefix(p[1..], t);
      assert [p[0]] + p[1..] == p;
    } else {
      assert p + [Sep] + t == [Sep] + t;
    }
  }

  /** Splitting a join of separator-free parts gives the parts back. */
  lemma {:induction false} SplitJoin(parts: seq<string>)
    requires |parts| >= 1
    requires forall i :: 0 <= i < |parts| ==> Sep !in parts[i]
    ensures Split(Join(parts)) == parts
  {
    if |parts| == 1 {
      SplitPrefix(parts[0], "");
    } else {
      SplitJoin(parts[1..]);
      SplitPrefix(parts[0], Join(parts[1..]));
      assert [parts[0]] + parts[1..] == parts;
    }
  }

  predicate StartsWith(s: string, prefix: string) {
    |prefix| <= |s| && s[..|prefix|] == prefix
  }

  /** Python's `sub in s` on strings. */
  predicate Contains(s: string, sub: string)
    decreases |s|
  {
    StartsWith(s, sub) || (|s| > 0 && Contains(s[1..], sub))
  }

  lemma PrefixContained(prefix: string, rest: string)
    ensures Contains(prefix + rest, prefix)
  {
    assert (prefix + rest)[..|prefix|] == prefix;
  }

  // ---------------------------------------------------------------------------------------
  // Specification

  /** The properties a style part must not mention to survive. */
  function Banned(standalone: bool): seq<string> {
    ["strokeWidth", "dashed", "strokeColor"] + (if standalone then ["labelBorderColor"] else [])
  }

  /** `any(prop in part for prop in ...)`. */
  predicate Dropped(part: string, standalone: bool) {
    exists i :: 0 <= i < |Banned(standalone)| && Contains(part, Banned(standalone)[i])
  }

  /** The parts of the current style, an empty style having none. */
  function StyleParts(style: string): seq<string> {
    if style == "" then [] else Split(style)
  }

  /** The test a part must pass to survive the loop. */
  function Survives(standalone: bool): string -> bool {
    part => !Dropped(part, standalone)
  }

  /** The surviving parts of the current style, in their order. */
  function Kept(parts: seq<string>, standalone: bool): seq<string> {
    Filter(parts, Survives(standalone))
  }

  /** The parts `modify_style` adds at the end. */
  function Appended(colour: string, standalone: bool): seq<string> {
    ["strokeWidth=3", "dashed=1", "strokeColor=" + colour] +
    (if standalone then ["labelBorderColor=" + colour] else [])
  }

  const IsNonEmpty: string -> bool := part => part != ""

  /** `filter(None, ...)`: the non-empty parts. */
  function NonEmpty(parts: seq<string>): seq<string> {
    Filter(parts, IsNonEmpty)
  }

  /** What `modify_style` returns. */
  function Restyled(style: string, colour: string, standalone: bool): string {
    Join(NonEmpty(Kept(StyleParts(style), standalone) + Appended(colour, standalone)))
  }

  /** A style part is kept when it is non-empty and mentions no banned property. */
  predicate Keeps(part: string, standalone: bool) {
    part != "" && !Dropped(part, standalone)
  }

  function KeepTest(standalone: bool): string -> bool {
    part => Keeps(part, standalone)
  }

  /** The parts of `style` that end up in the result, in their order. */
  function Survivors(style: string, standalone: bool): seq<string> {
    Filter(StyleParts(style), KeepTest(standalone))
  }

  // ---------------------------------------------------------------------------------------
  // Properties

  lemma {:induction false} AppendedAreDropped(colour: string, standalone: bool)
    ensures forall i :: 0 <= i < |Appended(colour, standalone)| ==>
              Appended(colour, standalone)[i] != "" && Dropped(Appended(colour, standalone)[i], standalone)
  {
    var b := Banned(standalone);
    PrefixContained("strokeWidth", "=3");
    assert "strokeWidth=3" == "strokeWidth" + "=3";
    PrefixContained("dashed", "=1");
    assert "dashed=1" == "dashed" + "=1";
    PrefixContained("strokeColor", "=" + colour);
    assert "strokeColor=" + colour == "strokeColor" + ("=" + colour);
    assert Contains("strokeWidth=3", b[0]);
    assert Contains("dashed=1", b[1]);
    assert Contains("strokeColor=" + colour, b[2]);
    if standalone {
      PrefixContained("labelBorderColor", "=" + colour);
      assert "labelBorderColor=" + colour == "labelBorderColor" + ("=" + colour);
      assert Contains("labelBorderColor=" + colour, b[3]);
    }
  }

  /** The parts that go into the result: the kept non-empty parts of the input, in order,
      followed by the appended border properties. */
  lemma {:induction false} RestyledParts(style: string, colour: string, standalone: bool)
    ensures NonEmpty(Kept(StyleParts(style), standalone) + Appended(colour, standalone)) ==
            Survivors(style, standalone) + Appended(colour, standalone)
  {
    var parts := StyleParts(style);
    var added := Appended(colour, standalone);
    FilterConcat(Kept(parts, standalone), added, IsNonEmpty);
    FilterFilter(parts, Survives(standalone), IsNonEmpty, KeepTest(standalone));
    AppendedAreDropped(colour, standalone);
    FilterAll(added, IsNonEmpty);
  }

  /** The segments of the result, for a colour without a `;`: the kept non-empty parts of
      the input in their original order, then `strokeWidth=3`, `dashed=1`,
      `strokeColor=<colour>` and, for a standalone cell only, `labelBorderColor=<colour>`.
      So the result has no empty segment, drops every part mentioning a banned property, and
      an empty style contributes nothing. */
  lemma {:induction false} RestyledSegments(style: string, colour: string, standalone: bool)
    requires Sep !in colour
    ensures Split(Restyled(style, colour, standalone)) ==
            Survivors(style, standalone) + Appended(colour, standalone)
  {
    var kept := Survivors(style, standalone);
    var parts := kept + Appended(colour, standalone);
    RestyledParts(style, colour, standalone);
    forall i | 0 <= i < |parts| ensures Sep !in parts[i] {
      if i < |kept| {
        assert kept[i] in StyleParts(style);
      } else {
        assert parts[i] in Appended(colour, standalone);
      }
    }
    SplitJoin(parts);
  }

  /** Every segment of the result is non-empty, and the result ends with the border properties. */
  lemma {:induction false} RestyledShape(style: string, colour: string, standalone: bool)
    requires Sep !in colour
    ensures forall i :: 0 <= i < |Split(Restyled(style, colour, standalone))| ==>
              Split(Restyled(style, colour, standalone))[i] != ""
    ensures var segments := Split(Restyled(style, colour, standalone));
            var n := |Appended(colour, standalone)|;
            |segments| >= n && segments[|segments| - n..] == Appended(colour, standalone)
  {
    RestyledSegments(style, colour, standalone);
    var kept := Survivors(style, standalone);
    var segments := kept + Appended(colour, standalone);
    assert segments[|kept|..] == Appended(colour, standalone);
    AppendedAreDropped(colour, standalone);
    forall i | 0 <= i < |segments| ensures segments[i] != "" {
      if i < |kept| {
        assert Keeps(kept[i], standalone);
      } else {
        assert segments[i] == Appended(colour, standalone)[i - |kept|];
      }
    }
  }

  /** The survivors already pass the test, so a second filter keeps them all. */
  lemma {:induction false} SurvivorsStable(style: string, standalone: bool)
    ensures Filter(Survivors(style, standalone), KeepTest(standalone)) == Survivors(style, standalone)
  {
    FilterAll(Survivors(style, standalone), KeepTest(standalone));
  }

  /** Restyling twice with the same colour and flag is restyling once. */
  lemma {:induction false} RestyledIdempotent(style: string, colour: string, standalone: bool)
    requires Sep !in colour
    ensures Restyled(Restyled(style, colour, standalone), colour, standalone) ==
            Restyled(style, colour, standalone)
  {
    var once := Restyled(style, colour, standalone);
    var kept := Survivors(style, standalone);
    var added := Appended(colour, standalone);
    assert StyleParts(once) == kept + added by {
      RestyledSegments(style, colour, standalone);
    }
    assert Survivors(once, standalone) == kept by {
      FilterConcat(kept, added, KeepTest(standalone));
      SurvivorsStable(style, standalone);
      AppendedAreDropped(colour, standalone);
      FilterNone(added, KeepTest(standalone));
    }
    RestyledParts(once, colour, standalone);
    RestyledParts(style, colour, standalone);
  }

  /** Joining three parts puts a `;` between each pair. */
  lemma JoinThree(a: string, b: string, c: string)
    ensures Join([a, b, c]) == a + [Sep] + b + [Sep] + c
  {
    assert [a, b, c][1..] == [b, c] && [b, c][1..] == [c];
    assert Join([b, c]) == b + [Sep] + c;
    assert a + [Sep] + (b + [Sep] + c) == a + [Sep] + b + [Sep] + c;
  }

  lemma {:induction false} EmptyStyleParts(colour: string, standalone: bool)
    ensures Restyled("", colour, standalone) == Join(Appended(colour, standalone))
  {
    RestyledParts("", colour, standalone);
    assert Survivors("", standalone) + Appended(colour, standalone) == Appended(colour, standalone);
  }

  /** The dashed-border literal splits into its two properties and the start of the third. */
  lemma BorderPrefix()
    ensures "strokeWidth=3;dashed=1;strokeColor=" == "strokeWidth=3;dashed=1;" + "strokeColor="
    ensures "strokeWidth=3;dashed=1;" == "strokeWidth=3" + [Sep] + "dashed=1" + [Sep]
  {
  }

  /** The three border parts joined. */
  lemma {:induction false} BorderJoined(colour: string)
    ensures Join(Appended(colour, false)) == "strokeWidth=3;dashed=1;strokeColor=" + colour
  {
    var w, d, c := "strokeWidth=3", "dashed=1", "strokeColor=" + colour;
    assert Appended(colour, false) == [w, d, c];
    JoinThree(w, d, c);
    BorderPrefix();
    var p := "strokeWidth=3;dashed=1;";
    assert p + "strokeColor=" + colour == p + c;
  }

  /** Appending a part to a non-empty list appends `;` and the part to the join. */
  lemma {:induction false} JoinSnoc(parts: seq<string>, x: string)
    requires |parts| >= 1
    ensures Join(parts + [x]) == Join(parts) + [Sep] + x
    decreases |parts|
  {
    if |parts| == 1 {
      assert (parts + [x])[1..] == [x];
    } else {
      assert (parts + [x])[1..] == parts[1..] + [x];
      JoinSnoc(parts[1..], x);
    }
  }

  /** The label-border literal is a separator followed by the start of its property. */
  lemma LabelPrefix()
    ensures ";labelBorderColor=" == [Sep] + "labelBorderColor="
  {
  }

  /** The four parts of a standalone cell's border joined. */
  lemma {:induction false} LabelBorderJoined(colour: string)
    ensures Join(Appended(colour, true)) ==
            "strokeWidth=3;dashed=1;strokeColor=" + colour + ";labelBorderColor=" + colour
  {
    var b := "labelBorderColor=" + colour;
    assert Appended(colour, true) == Appended(colour, false) + [b];
    JoinSnoc(Appended(colour, false), b);
    BorderJoined(colour);
    LabelPrefix();
    var front := "strokeWidth=3;dashed=1;strokeColor=" + colour;
    assert front + [Sep] + b == front + ";labelBorderColor=" + colour;
  }

  /** An empty style gets only the border properties. */
  lemma {:induction false} EmptyStyle(colour: string, standalone: bool)
    ensures Restyled("", colour, standalone) ==
            "strokeWidth=3;dashed=1;strokeColor=" + colour +
            (if standalone then ";labelBorderColor=" + colour else "")
  {
    EmptyStyleParts(colour, standalone);
    if standalone {
      LabelBorderJoined(colour);
    } else {
      BorderJoined(colour);
    }
  }

  // ---------------------------------------------------------------------------------------
  // The loop

  /** The filtering loop of `modify_style`: the parts that mention no banned property, in order. */
  method KeepParts(styleParts: seq<string>, standalone: bool) returns (newParts: seq<string>)
    ensures newParts == Kept(styleParts, standalone)
  {
    newParts := [];
    for i := 0 to |styleParts|
      invariant newParts == Kept(styleParts[..i], standalone)
    {
      var part := styleParts[i];
      FilterConcat(styleParts[..i], [part], Survives(standalone));
      assert styleParts[..i + 1] == styleParts[..i] + [part];
      assert Filter([part], Survives(standalone)) == if Survives(standalone)(part) then [part] else [];
      if !Dropped(part, standalone) {
        newParts := newParts + [part];
      }
    }
    assert styleParts[..|styleParts|] == styleParts;
  }

  /** `modify_style`. */
  method ModifyStyle(style: string, colour: string, standalone: bool) returns (result: string)
    ensures result == Restyled(style, colour, standalone)
  {
    var styleParts := if style != "" then Split(style) else [];
    var newParts := KeepParts(styleParts, standalone);
    ghost var kept := newParts;
    newParts := newParts + ["strokeWidth=3", "dashed=1", "strokeColor=" + colour];
    assert newParts == kept + Appended(colour, false);
    if standalone {
      newParts := newParts + ["labelBorderColor=" + colour];
      assert Appended(colour, true) == Appended(colour, false) + ["labelBorderColor=" + colour];
    }
    assert newParts == Kept(StyleParts(style), standalone) + Appended(colour, standalone);
    result := Join(NonEmpty(newParts));
  }
}
