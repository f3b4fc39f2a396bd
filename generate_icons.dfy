/**
 * The icon generator (scripts/generate-icons.js): the component name made from a
 * file name, what a component takes from its SVG, and the index of exports. The
 * regular-expression matches are given as the results they produce (`None`
 * where a pattern does not match); file reading and writing are not modelled.
 */
module GenerateIcons {
  import opened Wrappers
  import opened Strings

  // ---------------------------------------------------------------- component names

  /** `word.charAt(0).toUpperCase() + word.slice(1)`. */
  function Capitalize(word: string): (r: string)
    ensures |r| == |word| && (word != [] ==> r[0] == ToUpper(word[0]) && r[1..] == word[1..])
  {
    if word == [] then [] else [ToUpper(word[0])] + word[1..]
  }

  function CapitalizeAll(words: seq<string>): (r: seq<string>)
    ensures |r| == |words|
    ensures forall i :: 0 <= i < |words| ==> r[i] == Capitalize(words[i])
  {
    if words == [] then [] else [Capitalize(words[0])] + CapitalizeAll(words[1..])
  }

  /** `toPascalCase`: split on '-', capitalise each piece, join, drop the first ".svg". */
  function ToPascalCase(file: string): string {
    RemoveFirst(Join(CapitalizeAll(Split(file, '-')), ""), ".svg")
  }

  /**
   * A reference reading of `toPascalCase` before ".svg" is dropped, one character at
   * a time: every '-' goes, and the character starting a segment is upper-cased.
   */
  function PascalScan(s: string, atStart: bool): (r: string)
    ensures '-' !in r
    decreases |s|
  {
    if s == [] then []
    else if s[0] == '-' then PascalScan(s[1..], true)
    else [if atStart then ToUpper(s[0]) else s[0]] + PascalScan(s[1..], false)
  }

  lemma JoinEmptyCons(parts: seq<string>)
    requires |parts| >= 1
    ensures Join(parts, "") == parts[0] + Join(parts[1..], "")
  {
  }

  /** Splitting, capitalising and joining is the character scan. */
  lemma {:induction false} PascalWordsAreScan(s: string)
    ensures Join(CapitalizeAll(Split(s, '-')), "") == PascalScan(s, true)
    ensures Split(s, '-')[0] + Join(CapitalizeAll(Split(s, '-')[1..]), "") == PascalScan(s, false)
    decreases |s|
  {
    if s != [] {
      PascalWordsAreScan(s[1..]);
      if s[0] == '-' {
        ScanAtDash(s);
      } else {
        ScanInWord(s);
      }
    }
  }

  lemma ScanAtDash(s: string)
    requires s != [] && s[0] == '-'
    requires Join(CapitalizeAll(Split(s[1..], '-')), "") == PascalScan(s[1..], true)
    ensures Join(CapitalizeAll(Split(s, '-')), "") == PascalScan(s, true)
    ensures Split(s, '-')[0] + Join(CapitalizeAll(Split(s, '-')[1..]), "") == PascalScan(s, false)
  {
    var rest := Split(s[1..], '-');
    var parts := Split(s, '-');
    assert parts == [[]] + rest;
    assert parts[1..] == rest;
    JoinEmptyCons(CapitalizeAll(parts));
    assert CapitalizeAll(parts)[1..] == CapitalizeAll(rest);
  }

  lemma ScanInWord(s: string)
    requires s != [] && s[0] != '-'
    requires Split(s[1..], '-')[0] + Join(CapitalizeAll(Split(s[1..], '-')[1..]), "") == PascalScan(s[1..], false)
    ensures Join(CapitalizeAll(Split(s, '-')), "") == PascalScan(s, true)
    ensures Split(s, '-')[0] + Join(CapitalizeAll(Split(s, '-')[1..]), "") == PascalScan(s, false)
  {
    var rest := Split(s[1..], '-');
    var first, tail := [s[0]] + rest[0], rest[1..];
    assert Split(s, '-') == [first] + tail;
    var joined := Join(CapitalizeAll(tail), "");
    CapitalizedHead(first, tail);
    assert PascalScan(s, true) == [ToUpper(s[0])] + PascalScan(s[1..], false);
    assert PascalScan(s, false) == [s[0]] + PascalScan(s[1..], false);
    assert ([s[0]] + rest[0]) + joined == [s[0]] + (rest[0] + joined);
    assert ([ToUpper(s[0])] + rest[0]) + joined == [ToUpper(s[0])] + (rest[0] + joined);
  }

  /** Capitalising and joining a list of words whose first word is not empty. */
  lemma CapitalizedHead(first: string, tail: seq<string>)
    requires first != []
    ensures ([first] + tail)[1..] == tail
    ensures Join(CapitalizeAll([first] + tail), "") == ([ToUpper(first[0])] + first[1..]) + Join(CapitalizeAll(tail), "")
  {
    var parts := [first] + tail;
    assert parts[1..] == tail;
    JoinEmptyCons(CapitalizeAll(parts));
    assert CapitalizeAll(parts)[1..] == CapitalizeAll(tail);
  }

  lemma {:induction false} RemoveFirstKeepsOut(s: string, pat: string, c: char)
    requires |pat| > 0 && c !in s
    ensures c !in RemoveFirst(s, pat)
    decreases |s|
  {
    if |s| >= |pat| && s[..|pat|] != pat {
      RemoveFirstKeepsOut(s[1..], pat, c);
    }
  }

  /** A component name is the scan of the file name with its first ".svg" removed: no '-' is left. */
  lemma PascalCaseOfFile(file: string)
    ensures ToPascalCase(file) == RemoveFirst(PascalScan(file, true), ".svg")
    ensures '-' !in ToPascalCase(file)
  {
    PascalWordsAreScan(file);
    RemoveFirstKeepsOut(PascalScan(file, true), ".svg", '-');
  }

  /** Where the only '.' is that of the extension, removing ".svg" removes the extension. */
  lemma {:induction false} RemoveExtension(stem: string)
    requires '.' !in stem
    ensures RemoveFirst(stem + ".svg", ".svg") == stem
    decreases |stem|
  {
    var s := stem + ".svg";
    if stem == [] {
      assert s[..4] == ".svg";
    } else {
      assert s[0] != '.';
      assert s[1..] == stem[1..] + ".svg";
      RemoveExtension(stem[1..]);
    }
  }

  /** Inside a segment the scan keeps characters as they are. */
  lemma {:induction false} ScanWithinSegment(a: string, rest: string)
    requires '-' !in a
    ensures PascalScan(a + rest, false) == a + PascalScan(rest, false)
    decreases |a|
  {
    if a != [] {
      var s := a + rest;
      assert s[0] == a[0] && s[1..] == a[1..] + rest;
      assert '-' !in a[1..] by {
        forall k | 0 <= k < |a[1..]|
          ensures a[1..][k] != '-'
        {
          assert a[1..][k] == a[k + 1];
        }
      }
      ScanWithinSegment(a[1..], rest);
      assert a[0] in a;
      assert PascalScan(s, false) == [a[0]] + (a[1..] + PascalScan(rest, false));
      assert a == [a[0]] + a[1..];
    } else {
      assert a + rest == rest;
    }
  }

  /** At the start of a segment only its first character is raised. */
  lemma ScanStartsSegment(a: string, rest: string)
    requires '-' !in a && a != []
    ensures PascalScan(a + rest, true) == Capitalize(a) + PascalScan(rest, false)
  {
    var s := a + rest;
    assert s[0] == a[0] && s[1..] == a[1..] + rest;
    assert a[0] in a;
    assert '-' !in a[1..] by {
      forall k | 0 <= k < |a[1..]|
        ensures a[1..][k] != '-'
      {
        assert a[1..][k] == a[k + 1];
      }
    }
    ScanWithinSegment(a[1..], rest);
    assert PascalScan(s, true) == [ToUpper(a[0])] + (a[1..] + PascalScan(rest, false));
  }

  /** Two segments joined by '-' are each capitalised. */
  lemma ScanTwoSegments(a: string, b: string)
    requires '-' !in a && '-' !in b && a != [] && b != []
    ensures PascalScan(a + "-" + b, true) == Capitalize(a) + Capitalize(b)
  {
    ScanStartsSegment(a, "-" + b);
    assert a + "-" + b == a + ("-" + b);
    assert ("-" + b)[1..] == b;
    ScanStartsSegment(b, []);
    assert b + [] == b;
  }

  /** A kebab-case file name becomes a PascalCase component name. */
  lemma PascalCaseExample(file: string, first: string, second: string)
    requires file == "wake-up.svg" && first == "wake" && second == "up"
    ensures ToPascalCase(file) == "WakeUp"
  {
    PascalCaseOfFile(file);
    var tail := second + ".svg";
    assert file == first + "-" + tail;
    ScanTwoSegments(first, tail);
    assert Capitalize(first) + Capitalize(tail) == "WakeUp" + ".svg";
    RemoveExtension("WakeUp");
  }

  // ---------------------------------------------------------------- component content

  datatype PathTag = PathTag(d: Option<string>)
  datatype RectTag = RectTag(x: Option<string>, y: Option<string>, width: Option<string>, height: Option<string>)
  datatype CircleTag = CircleTag(cx: Option<string>, cy: Option<string>, r: Option<string>)

  /** What the regular expressions find in one SVG file. */
  datatype SvgMatches = SvgMatches(
    viewBox: Option<string>, width: Option<string>, height: Option<string>,
    paths: seq<PathTag>, rects: seq<RectTag>, circles: seq<CircleTag>)

  datatype Element =
    | PathElement(d: string)
    | RectElement(x: string, y: string, width: string, height: string)
    | CircleElement(cx: string, cy: string, r: string)

  /** The generated component: its name, imports, defaults and drawn elements. */
  datatype Component = Component(
    name: string, imports: seq<string>, viewBox: string,
    defaultWidth: string, defaultHeight: string, elements: seq<Element>)

  predicate CompleteRect(t: RectTag) {
    t.x.Some? && t.y.Some? && t.width.Some? && t.height.Some?
  }

  predicate CompleteCircle(t: CircleTag) {
    t.cx.Some? && t.cy.Some? && t.r.Some?
  }

  /** The elements drawn for the path tags: one per tag with a `d`, in order. */
  function PathElements(tags: seq<PathTag>): seq<Element> {
    if tags == [] then []
    else (if tags[0].d.Some? then [PathElement(tags[0].d.value)] else []) + PathElements(tags[1..])
  }

  function RectElements(tags: seq<RectTag>): seq<Element> {
    if tags == [] then []
    else
      var t := tags[0];
      (if CompleteRect(t) then [RectElement(t.x.value, t.y.value, t.width.value, t.height.value)] else [])
      + RectElements(tags[1..])
  }

  function CircleElements(tags: seq<CircleTag>): seq<Element> {
    if tags == [] then []
    else
      var t := tags[0];
      (if CompleteCircle(t) then [CircleElement(t.cx.value, t.cy.value, t.r.value)] else [])
      + CircleElements(tags[1..])
  }

  /** `imports`: 'Svg', then each kind of tag that occurs. */
  function Imports(svg: SvgMatches): seq<string> {
    ["Svg"] + (if |svg.paths| > 0 then ["Path"] else []) + (if |svg.rects| > 0 then ["Rect"] else [])
      + (if |svg.circles| > 0 then ["Circle"] else [])
  }

  /** The component `createComponentContent` writes. */
  function ComponentOf(name: string, svg: SvgMatches): Component {
    Component(name, Imports(svg), svg.viewBox.GetOr("0 0 24 24"), svg.width.GetOr("24"), svg.height.GetOr("24"),
      PathElements(svg.paths) + RectElements(svg.rects) + CircleElements(svg.circles))
  }

  /** `createComponentContent`: the three `forEach` loops append to the drawn elements. */
  method CreateComponentContent(name: string, svg: SvgMatches) returns (c: Component)
    ensures c == ComponentOf(name, svg)
  {
    var elements := AppendPaths([], svg.paths);
    elements := AppendRects(elements, svg.rects);
    elements := AppendCircles(elements, svg.circles);
    var imports := ["Svg"];
    if |svg.paths| > 0 { imports := imports + ["Path"]; }
    if |svg.rects| > 0 { imports := imports + ["Rect"]; }
    if |svg.circles| > 0 { imports := imports + ["Circle"]; }
    c := Component(name, imports, svg.viewBox.GetOr("0 0 24 24"), svg.width.GetOr("24"), svg.height.GetOr("24"), elements);
  }

  /** `pathMatches.forEach(...)`: one path for every tag with a `d`. */
  method AppendPaths(before: seq<Element>, tags: seq<PathTag>) returns (elements: seq<Element>)
    ensures elements == before + PathElements(tags)
  {
    elements := before;
    var i := 0;
    while i < |tags|
      invariant 0 <= i <= |tags|
      invariant elements + PathElements(tags[i..]) == before + PathElements(tags)
    {
      assert tags[i..][1..] == tags[i + 1..];
      if tags[i].d.Some? {
        elements := elements + [PathElement(tags[i].d.value)];
      }
      i := i + 1;
    }
    assert tags[i..] == [];
  }

  /** `rectMatches.forEach(...)`: one rect for every tag with all four attributes. */
  method AppendRects(before: seq<Element>, tags: seq<RectTag>) returns (elements: seq<Element>)
    ensures elements == before + RectElements(tags)
  {
    elements := before;
    var i := 0;
    while i < |tags|
      invariant 0 <= i <= |tags|
      invariant elements + RectElements(tags[i..]) == before + RectElements(tags)
    {
      assert tags[i..][1..] == tags[i + 1..];
      var t := tags[i];
      if t.x.Some? && t.y.Some? && t.width.Some? && t.height.Some? {
        elements := elements + [RectElement(t.x.value, t.y.value, t.width.value, t.height.value)];
      }
      i := i + 1;
    }
    assert tags[i..] == [];
  }

  /** `circleMatches.forEach(...)`: one circle for every tag with cx, cy and r. */
  method AppendCircles(before: seq<Element>, tags: seq<CircleTag>) returns (elements: seq<Element>)
    ensures elements == before + CircleElements(tags)
  {
    elements := before;
    var i := 0;
    while i < |tags|
      invariant 0 <= i <= |tags|
      invariant elements + CircleElements(tags[i..]) == before + CircleElements(tags)
    {
      assert tags[i..][1..] == tags[i + 1..];
      var t := tags[i];
      if t.cx.Some? && t.cy.Some? && t.r.Some? {
        elements := elements + [CircleElement(t.cx.value, t.cy.value, t.r.value)];
      }
      i := i + 1;
    }
    assert tags[i..] == [];
  }

  /** The imports start with 'Svg' and name a tag kind iff such a tag occurs. */
  lemma ImportsFollowTags(svg: SvgMatches)
    ensures var imports := Imports(svg);
      imports[0] == "Svg" &&
      ("Path" in imports <==> |svg.paths| > 0) &&
      ("Rect" in imports <==> |svg.rects| > 0) &&
      ("Circle" in imports <==> |svg.circles| > 0)
  {
    var imports := Imports(svg);
    assert "Svg" != "Path" && "Svg" != "Rect" && "Svg" != "Circle";
    assert "Path" != "Rect" && "Path" != "Circle" && "Rect" != "Circle";
    if "Path" in imports {
      var k :| 0 <= k < |imports| && imports[k] == "Path";
      assert |svg.paths| > 0;
    }
  }

  /** Without a matching attribute the view box is '0 0 24 24' and the size 24 by 24. */
  lemma MissingAttributesDefault(name: string, svg: SvgMatches)
    requires svg.viewBox.None? && svg.width.None? && svg.height.None?
    ensures var c := ComponentOf(name, svg);
      c.viewBox == "0 0 24 24" && c.defaultWidth == "24" && c.defaultHeight == "24"
  {
  }

  /**
   * Each kind contributes one element per complete tag: a rect needs x, y, width
   * and height, a circle cx, cy and r, a path its d. Tags missing one are skipped.
   */
  lemma {:induction false} RectElementsAreCompleteTags(tags: seq<RectTag>)
    ensures |RectElements(tags)| <= |tags|
    ensures forall e :: e in RectElements(tags) ==>
      e.RectElement? && exists t :: t in tags && CompleteRect(t) && e == RectElement(t.x.value, t.y.value, t.width.value, t.height.value)
    ensures (forall t :: t in tags ==> CompleteRect(t)) ==> |RectElements(tags)| == |tags|
    ensures (forall t :: t in tags ==> !CompleteRect(t)) ==> RectElements(tags) == []
  {
    if tags != [] {
      RectElementsAreCompleteTags(tags[1..]);
      assert forall t :: t in tags[1..] ==> t in tags;
    }
  }

  lemma {:induction false} CircleElementsAreCompleteTags(tags: seq<CircleTag>)
    ensures |CircleElements(tags)| <= |tags|
    ensures forall e :: e in CircleElements(tags) ==>
      e.CircleElement? && exists t :: t in tags && CompleteCircle(t) && e == CircleElement(t.cx.value, t.cy.value, t.r.value)
    ensures (forall t :: t in tags ==> CompleteCircle(t)) ==> |CircleElements(tags)| == |tags|
    ensures (forall t :: t in tags ==> !CompleteCircle(t)) ==> CircleElements(tags) == []
  {
    if tags != [] {
      CircleElementsAreCompleteTags(tags[1..]);
      assert forall t :: t in tags[1..] ==> t in tags;
    }
  }

  lemma {:induction false} PathElementsAreTagsWithData(tags: seq<PathTag>)
    ensures |PathElements(tags)| <= |tags|
    ensures forall e :: e in PathElements(tags) ==>
      e.PathElement? && exists t :: t in tags && t.d.Some? && e == PathElement(t.d.value)
    ensures (forall t :: t in tags ==> t.d.Some?) ==> |PathElements(tags)| == |tags|
  {
    if tags != [] {
      PathElementsAreTagsWithData(tags[1..]);
      assert forall t :: t in tags[1..] ==> t in tags;
    }
  }

  // ---------------------------------------------------------------- index file

  /** The export line written for one component. */
  function ExportLine(name: string): string {
    "export { default as " + name + " } from './" + name + "';"
  }

  /** `files.filter(file => file.endsWith('.svg'))`, in directory order. */
  function SvgFiles(files: seq<string>): (svgs: seq<string>)
    ensures forall f :: f in svgs <==> f in files && EndsWith(f, ".svg")
    // the directory order is kept
    ensures IsSubsequence(svgs, files)
  {
    if files == [] then []
    else
      var rest := SvgFiles(files[1..]);
      if EndsWith(files[0], ".svg") then
        assert ([files[0]] + rest)[1..] == rest;
        [files[0]] + rest
      else rest
  }

  /** `a` is `b` with some elements dropped and the rest in their order. */
  ghost predicate IsSubsequence<T>(a: seq<T>, b: seq<T>)
    decreases |a| + |b|
  {
    a == [] || (b != [] && ((a[0] == b[0] && IsSubsequence(a[1..], b[1..])) || IsSubsequence(a, b[1..])))
  }

  /** The index content: the export lines joined by newlines, with a final newline. */
  function IndexContent(lines: seq<string>): string {
    Join(lines, "\n") + "\n"
  }

  /** Generating the index: one component name and one export statement per SVG file, in order. */
  method GenerateIndex(files: seq<string>) returns (names: seq<string>, exportStatements: seq<string>, index: string)
    ensures var svgs := SvgFiles(files);
      |names| == |svgs| && (forall i :: 0 <= i < |svgs| ==> names[i] == ToPascalCase(svgs[i]))
    ensures |exportStatements| == |names| && forall i :: 0 <= i < |names| ==> exportStatements[i] == ExportLine(names[i])
    ensures index == IndexContent(exportStatements)
  {
    var svgs := SvgFiles(files);
    names := [];
    exportStatements := [];
    var i := 0;
    while i < |svgs|
      invariant 0 <= i <= |svgs| && |names| == i && |exportStatements| == i
      invariant forall k :: 0 <= k < i ==> names[k] == ToPascalCase(svgs[k])
      invariant forall k :: 0 <= k < i ==> exportStatements[k] == ExportLine(names[k])
    {
      var componentName := ToPascalCase(svgs[i]);
      MappedSnoc(svgs[..i + 1], names, ToPascalCase);
      names := names + [componentName];
      MappedSnoc(names, exportStatements, ExportLine);
      exportStatements := exportStatements + [ExportLine(componentName)];
      i := i + 1;
    }
    index := IndexContent(exportStatements);
  }

  /** A list that is `f` of a prefix of `xs` grows by `f` of the next element of `xs`. */
  lemma MappedSnoc<T, U>(xs: seq<T>, ys: seq<U>, f: T -> U)
    requires |ys| + 1 == |xs| && forall k :: 0 <= k < |ys| ==> ys[k] == f(xs[k])
    ensures forall k :: 0 <= k < |xs| ==> (ys + [f(xs[|ys|])])[k] == f(xs[k])
  {
    var next := ys + [f(xs[|ys|])];
    forall k | 0 <= k < |xs|
      ensures next[k] == f(xs[k])
    {
      if k < |ys| {
        assert next[k] == ys[k];
      }
    }
  }

  /**
   * The index ends with a newline, and split into lines it is exactly one
   * export line per component, followed by the empty piece after the last newline.
   */
  lemma IndexHasOneLinePerFile(lines: seq<string>)
    requires |lines| >= 1 && forall k :: 0 <= k < |lines| ==> '\n' !in lines[k]
    ensures var index := IndexContent(lines);
      index[|index| - 1] == '\n' && Split(index, '\n') == lines + [""]
  {
    var index := IndexContent(lines);
    JoinSnoc(lines, [], '\n');
    assert index == Join(lines + [[]], "\n");
    SplitJoin(lines + [[]], '\n');
  }

  lemma {:induction false} JoinSnoc(lines: seq<string>, last: string, c: char)
    requires |lines| >= 1
    ensures Join(lines + [last], [c]) == Join(lines, [c]) + [c] + last
    decreases |lines|
  {
    if |lines| == 1 {
      assert (lines + [last])[1..] == [last];
    } else {
      assert (lines + [last])[1..] == lines[1..] + [last];
      JoinSnoc(lines[1..], last, c);
    }
  }
}
