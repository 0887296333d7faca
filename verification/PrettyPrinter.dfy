/** `pprint`: the main loop over the document, and what printing keeps
    (packages/addons/official/driver/hdhomerun/source/resources/lib/xmlpp.py). */
module PrettyPrinter {
  import opened Text
  import opened XmlMarkup
  import opened Scanner
  import opened LinePrinter
  import opened TagLines
  import opened Unambiguous

  /** Documents the printer is meant for. */
  predicate Good(doc: seq<Segment>) {
    Readable(doc) && forall i :: 0 <= i < |doc| ==> Printable(doc[i].mark)
  }

  /** `xml` is the text of this document; `trailer` is what stands after its last markup. */
  predicate Document(xml: string, doc: seq<Segment>, trailer: string) {
    Good(doc) && NoAngles(trailer) && xml == ShowAll(doc) + trailer
  }

  function LevelAt(m: Markup, level: int, indent: int): int {
    if m.Tag? && m.kind == Closing then level - indent else level
  }

  function LevelAfter(m: Markup, level: int, indent: int): int {
    if m.Tag? && m.kind == Opening then level + indent else LevelAt(m, level, indent)
  }

  /** One line for a non-blank text, one for the markup after it. */
  function RenderOne(s: Segment, level: int, indent: int, width: int): string {
    ContentText(level, Strip(s.text))
    + (Spaces(LevelAt(s.mark, level, indent)) + Show(Relaid(s.mark, LevelAt(s.mark, level, indent), width)) + "\n")
  }

  function Render(doc: seq<Segment>, level: int, indent: int, width: int): string {
    if doc == [] then ""
    else RenderOne(doc[0], level, indent, width)
         + Render(doc[1..], LevelAfter(doc[0].mark, level, indent), indent, width)
  }

  predicate GoodSegment(s: Segment) {
    NoAngles(s.text) && Legal(s.mark) && Scannable(s.mark) && Printable(s.mark)
  }

  lemma Halves(a: string, b: string)
    ensures Slice(a + b, 0, |a|) == a && Slice(a + b, |a|, |a + b|) == b
  {
    assert (a + b)[0..|a|] == a;
    assert (a + b)[|a|..|a + b|] == b;
  }

  /** What the scanner has to report in front of a segment. */
  predicate Describes(e: Elem, s: Segment) {
    && e.startPos == |s.text| && e.endPos == |s.text| + |Show(s.mark)|
    && (e.isStop && !e.noIndent <==> s.mark.Tag? && s.mark.kind == Closing)
    && (!e.isStop && !e.noIndent <==> s.mark.Tag? && s.mark.kind == Opening)
    && (e.ignoreContents <==> s.mark.Comment? || s.mark.CData?)
  }

  /** `_get_next_elem` in the loop: it describes the next segment, and finds nothing when none is left. */
  method GetNextElem(data: string, ghost left: seq<Segment>, ghost trailer: string) returns (e: Elem)
    requires Good(left) && NoAngles(trailer) && data == ShowAll(left) + trailer
    ensures left == [] ==> e.startPos == -1
    ensures left != [] ==> Describes(e, left[0])
  {
    e := NextElem(data);
    if left == [] {
      NoMoreElements(trailer);
    } else {
      ShowFirst(left, trailer);
      ScanExtent(left[0].text, left[0].mark, ShowAll(left[1..]) + trailer);
      ScanNesting(left[0].text, left[0].mark, ShowAll(left[1..]) + trailer);
    }
  }

  /** One iteration of the loop: the text, the change of level, the markup. */
  method PprintNext(data: string, e: Elem, level: int, indent: int, width: int, output: Output,
                    ghost s: Segment, ghost rest: string)
    returns (data': string, level': int)
    requires GoodSegment(s) && data == s.text + Show(s.mark) + rest && Describes(e, s)
    modifies output
    ensures data' == rest && level' == LevelAfter(s.mark, level, indent)
    ensures output.text == old(output.text) + RenderOne(s, level, indent, width)
  {
    Assoc(s.text, Show(s.mark), rest);
    Halves(s.text, Show(s.mark) + rest);
    Halves(Show(s.mark), rest);
    PrintedOne(old(output.text), s, level, indent, width);
    PprintElemContent(level, Strip(Slice(data, 0, e.startPos)), output);
    data' := Slice(data, e.startPos, |data|);
    level' := level;
    if e.isStop && !e.noIndent {
      level' := level' - indent;
    }
    PprintLine(level', Slice(data', 0, e.endPos - e.startPos), width, output, e.ignoreContents);
    data' := Slice(data', e.endPos - e.startPos, |data'|);
    if !e.isStop && !e.noIndent {
      level' := level' + indent;
    }
  }

  lemma PrintedOne(before: string, s: Segment, level: int, indent: int, width: int)
    requires GoodSegment(s)
    ensures before + ContentText(level, Strip(s.text))
            + LineText(LevelAt(s.mark, level, indent), Show(s.mark), width, s.mark.Comment? || s.mark.CData?)
            == before + RenderOne(s, level, indent, width)
  {
    var at := LevelAt(s.mark, level, indent);
    LineOfMark(s.mark, at, width);
    Assoc(before, ContentText(level, Strip(s.text)), Spaces(at) + Show(Relaid(s.mark, at, width)) + "\n");
  }

  lemma NoMoreElements(trailer: string)
    requires NoAngles(trailer)
    ensures NextElem(ShowAll([]) + trailer).startPos == -1
  {
    assert ShowAll([]) + trailer == trailer;
    FindChar(trailer, '<', -1);
  }

  /** `pprint`. It terminates on every document, prints its `Render`, and leaves only the trailer unprinted.
      `OneReading` says that `doc` and `trailer` are determined by `xml`. */
  method Pprint(xml: string, output: Output, indent: int, width: int, ghost doc: seq<Segment>, ghost trailer: string)
    requires Document(xml, doc, trailer)
    modifies output
    ensures output.text == old(output.text) + Render(doc, 0, indent, width)
  {
    ghost var goal, left := output.text + Render(doc, 0, indent, width), doc;
    var data := xml;
    var level := 0;
    var e := GetNextElem(data, left, trailer);
    while e.startPos > -1 && e.endPos > -1
      invariant Good(left) && data == ShowAll(left) + trailer
      invariant left == [] ==> e.startPos <= -1
      invariant left != [] ==> Describes(e, left[0])
      invariant output.text + Render(left, level, indent, width) == goal
      decreases |data|
    {
      Shorter(left, trailer);
      RenderFirst(left, output.text, level, indent, width);
      data, level := PprintNext(data, e, level, indent, width, output, left[0], ShowAll(left[1..]) + trailer);
      left := left[1..];
      if data == "" {
        NothingLeft(left, trailer);
        break;
      }
      e := GetNextElem(data, left, trailer);
    }
    assert output.text + "" == output.text;
  }

  /** Every iteration strictly shortens the data. */
  lemma Shorter(left: seq<Segment>, trailer: string)
    requires left != [] && Good(left)
    ensures GoodSegment(left[0]) && Good(left[1..])
    ensures ShowAll(left) + trailer == left[0].text + Show(left[0].mark) + (ShowAll(left[1..]) + trailer)
    ensures |ShowAll(left[1..]) + trailer| < |ShowAll(left) + trailer|
  {
    ShowFirst(left, trailer);
    SomeMark(left[0].mark);
  }

  lemma RenderFirst(left: seq<Segment>, before: string, level: int, indent: int, width: int)
    requires left != []
    ensures var one := RenderOne(left[0], level, indent, width);
            var more := Render(left[1..], LevelAfter(left[0].mark, level, indent), indent, width);
            before + Render(left, level, indent, width) == before + one + more
  {
    Assoc(before, RenderOne(left[0], level, indent, width),
          Render(left[1..], LevelAfter(left[0].mark, level, indent), indent, width));
  }

  lemma SomeMark(m: Markup)
    ensures Show(m) != ""
  {
    assert Show(m)[0] == '<';
  }

  lemma NothingLeft(left: seq<Segment>, trailer: string)
    requires ShowAll(left) + trailer == ""
    ensures left == []
  {
    if left != [] { SomeMark(left[0].mark); }
  }

  lemma OneReading(xml: string, doc: seq<Segment>, trailer: string)
    requires Document(xml, doc, trailer)
    ensures forall d, t :: Document(xml, d, t) ==> d == doc && t == trailer
  {
    forall d, t | Document(xml, d, t)
      ensures d == doc && t == trailer
    {
      DocUnambiguous(d, t, doc, trailer);
    }
  }
}
