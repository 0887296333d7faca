/** What `pprint` keeps: the output is again a document, it means the same, printing it again changes
    nothing, and every line is indented by its nesting depth
    (packages/addons/official/driver/hdhomerun/source/resources/lib/xmlpp.py). */
module PrintLaws {
  import opened Text
  import opened XmlMarkup
  import opened LinePrinter
  import opened TagLines
  import opened Unambiguous
  import opened PrettyPrinter

  // ----- the output as a document -----

  function PrettyOne(s: Segment, pending: string, level: int, indent: int, width: int): Segment {
    var at := LevelAt(s.mark, level, indent);
    Segment(pending + ContentText(level, Strip(s.text)) + Spaces(at), Relaid(s.mark, at, width))
  }

  /** The document that the printed text is: `pending` is the line break left by the previous line. */
  function Pretty(doc: seq<Segment>, pending: string, level: int, indent: int, width: int): (r: seq<Segment>)
    ensures |r| == |doc|
  {
    if doc == [] then []
    else [PrettyOne(doc[0], pending, level, indent, width)]
         + Pretty(doc[1..], "\n", LevelAfter(doc[0].mark, level, indent), indent, width)
  }

  lemma Regroup(a: string, b: string, c: string, d: string, e: string)
    ensures a + b + c + d + e == a + (b + (c + d + e))
    ensures a + (b + c + d) + e == (a + b) + c + (d + e)
  {
  }

  lemma ShowPrettyOne(s: Segment, pending: string, level: int, indent: int, width: int)
    ensures var p := PrettyOne(s, pending, level, indent, width);
            p.text + Show(p.mark) + "\n" == pending + RenderOne(s, level, indent, width)
  {
    var at := LevelAt(s.mark, level, indent);
    var text, line := ContentText(level, Strip(s.text)), Show(Relaid(s.mark, at, width));
    Regroup(pending, text, Spaces(at), line, "\n");
  }

  lemma {:induction false} ShowPretty(doc: seq<Segment>, pending: string, level: int, indent: int, width: int)
    ensures ShowAll(Pretty(doc, pending, level, indent, width)) + (if doc == [] then pending else "\n")
            == pending + Render(doc, level, indent, width)
  {
    if doc == [] {
      assert "" + pending == pending + "";
    } else {
      var more := LevelAfter(doc[0].mark, level, indent);
      var p, ps := PrettyOne(doc[0], pending, level, indent, width), Pretty(doc[1..], "\n", more, indent, width);
      ShowPretty(doc[1..], "\n", more, indent, width);
      ShowPrettyOne(doc[0], pending, level, indent, width);
      assert ([p] + ps)[1..] == ps;
      Glue(p.text + Show(p.mark), ShowAll(ps), "\n", Render(doc[1..], more, indent, width));
      Assoc(pending, RenderOne(doc[0], level, indent, width), Render(doc[1..], more, indent, width));
    }
  }

  lemma Glue(a: string, b: string, c: string, d: string)
    requires b + c == "\n" + d
    ensures a + b + c == a + "\n" + d
  {
    Assoc(a, b, c);
    Assoc(a, "\n", d);
  }

  lemma NoAnglesAround(a: string, s: string, b: string)
    requires NoAngles(a) && NoAngles(s) && NoAngles(b)
    ensures NoAngles(a + s + b)
  {
  }

  lemma ContentHasNoAngles(level: int, text: string)
    requires NoAngles(text)
    ensures NoAngles(ContentText(level, Strip(text)))
  {
    StripSubset(text);
    NoAnglesAround(Spaces(level), Strip(text), "\n");
  }

  lemma {:induction false} GoodPretty(doc: seq<Segment>, pending: string, level: int, indent: int, width: int)
    requires Good(doc) && NoAngles(pending)
    ensures Good(Pretty(doc, pending, level, indent, width))
  {
    if doc != [] {
      var more := LevelAfter(doc[0].mark, level, indent);
      Shorter(doc, "");
      GoodPrettyOne(doc[0], pending, level, indent, width);
      GoodPretty(doc[1..], "\n", more, indent, width);
      GoodCons(PrettyOne(doc[0], pending, level, indent, width), Pretty(doc[1..], "\n", more, indent, width));
    }
  }

  lemma GoodPrettyOne(s: Segment, pending: string, level: int, indent: int, width: int)
    requires GoodSegment(s) && NoAngles(pending)
    ensures GoodSegment(PrettyOne(s, pending, level, indent, width))
  {
    var at := LevelAt(s.mark, level, indent);
    ContentHasNoAngles(level, s.text);
    NoAnglesAround(pending, ContentText(level, Strip(s.text)), Spaces(at));
    RelaidAgain(s.mark, at, width);
  }

  lemma GoodCons(s: Segment, doc: seq<Segment>)
    requires GoodSegment(s) && Good(doc)
    ensures Good([s] + doc)
  {
    hide Legal, Printable, NoAngles;
  }

  /** The printed text is a document: the relaid one, followed by a line break. */
  lemma OutputIsDocument(doc: seq<Segment>, indent: int, width: int)
    requires Good(doc)
    ensures Document(Render(doc, 0, indent, width), Pretty(doc, "", 0, indent, width), if doc == [] then "" else "\n")
  {
    GoodPretty(doc, "", 0, indent, width);
    ShowPretty(doc, "", 0, indent, width);
    assert "" + Render(doc, 0, indent, width) == Render(doc, 0, indent, width);
  }

  // ----- canonical form -----

  function CanonAttrs(attrs: seq<Attr>): (r: seq<Attr>)
    ensures |r| == |attrs| && forall i :: 0 <= i < |attrs| ==> r[i] == attrs[i].(lead := " ")
  {
    if attrs == [] then [] else [attrs[0].(lead := " ")] + CanonAttrs(attrs[1..])
  }

  /** A prefixed tag without its layout; other markup stands for itself. */
  function CanonMark(m: Markup): Markup {
    if Prefixed(m) then m.(attrs := CanonAttrs(m.attrs), tail := "") else m
  }

  function CanonOne(s: Segment): Segment {
    Segment(Strip(s.text), CanonMark(s.mark))
  }

  function Canon(doc: seq<Segment>): (r: seq<Segment>)
    ensures |r| == |doc| && forall i :: 0 <= i < |doc| ==> r[i] == CanonOne(doc[i])
  {
    if doc == [] then [] else [CanonOne(doc[0])] + Canon(doc[1..])
  }

  lemma SameAttr(a: seq<Attr>, b: seq<Attr>, i: nat)
    requires CanonAttrs(a) == CanonAttrs(b) && i < |a|
    ensures |a| == |b| && a[i].name == b[i].name && a[i].value == b[i].value
  {
    assert |a| == |CanonAttrs(a)| == |CanonAttrs(b)| == |b|;
    assert a[i].(lead := " ") == CanonAttrs(a)[i] == CanonAttrs(b)[i] == b[i].(lead := " ");
  }

  lemma CanonShown(a: seq<Attr>, b: seq<Attr>)
    requires CanonAttrs(a) == CanonAttrs(b)
    ensures Shown(a) == Shown(b) && |a| == |b|
  {
    assert |a| == |b| by { assert |CanonAttrs(a)| == |a| && |CanonAttrs(b)| == |b|; }
    forall i | 0 <= i < |a|
      ensures Shown(a)[i] == Shown(b)[i]
    {
      hide CanonAttrs;
      SameAttr(a, b, i);
    }
  }

  lemma SameLeads(a: seq<Attr>, b: seq<Attr>, leads: seq<string>)
    requires CanonAttrs(a) == CanonAttrs(b) && |leads| == |a| == |b|
    ensures WithLeads(a, leads) == WithLeads(b, leads)
  {
    forall i | 0 <= i < |a|
      ensures WithLeads(a, leads)[i] == WithLeads(b, leads)[i]
    {
      assert CanonAttrs(a)[i] == a[i].(lead := " ") && CanonAttrs(b)[i] == b[i].(lead := " ");
      assert a[i].(lead := leads[i]) == CanonAttrs(a)[i].(lead := leads[i]);
      assert b[i].(lead := leads[i]) == CanonAttrs(b)[i].(lead := leads[i]);
    }
  }

  lemma CanonPrefixed(m: Markup)
    ensures Prefixed(CanonMark(m)) <==> Prefixed(m)
    ensures m.Tag? ==> CanonMark(m).Tag? && Head(CanonMark(m)) == Head(m) && CanonMark(m).kind == m.kind
  {
  }

  /** How a markup is printed depends only on its canonical form. */
  lemma RelaidByCanon(a: Markup, b: Markup, level: int, width: int)
    requires CanonMark(a) == CanonMark(b)
    ensures Relaid(a, level, width) == Relaid(b, level, width)
    ensures LevelAt(a, level, 0) == LevelAt(b, level, 0)
  {
    CanonPrefixed(a);
    CanonPrefixed(b);
    if Prefixed(a) {
      assert CanonAttrs(a.attrs) == CanonMark(a).attrs == CanonAttrs(b.attrs);
      CanonShown(a.attrs, b.attrs);
      var base := |Spaces(level) + Head(a)|;
      SameLeads(a.attrs, b.attrs, Leads(Shown(a.attrs), 0, base, base, Closer(a.kind), width));
    }
  }

  /** Documents with the same canonical form print to the same text. */
  lemma {:induction false} RenderByCanon(a: seq<Segment>, b: seq<Segment>, level: int, indent: int, width: int)
    requires Canon(a) == Canon(b)
    ensures Render(a, level, indent, width) == Render(b, level, indent, width)
  {
    assert |a| == |Canon(a)| == |Canon(b)| == |b|;
    if a != [] {
      assert CanonOne(a[0]) == Canon(a)[0] == Canon(b)[0] == CanonOne(b[0]);
      RenderOneByCanon(a[0], b[0], level, indent, width);
      assert Canon(a[1..]) == Canon(a)[1..] == Canon(b)[1..] == Canon(b[1..]);
      RenderByCanon(a[1..], b[1..], LevelAfter(a[0].mark, level, indent), indent, width);
    }
  }

  lemma RenderOneByCanon(a: Segment, b: Segment, level: int, indent: int, width: int)
    requires CanonOne(a) == CanonOne(b)
    ensures RenderOne(a, level, indent, width) == RenderOne(b, level, indent, width)
    ensures LevelAfter(a.mark, level, indent) == LevelAfter(b.mark, level, indent)
  {
    CanonPrefixed(a.mark);
    CanonPrefixed(b.mark);
    RelaidByCanon(a.mark, b.mark, LevelAt(a.mark, level, indent), width);
  }

  lemma CanonRelaid(m: Markup, level: int, width: int)
    ensures CanonMark(Relaid(m, level, width)) == CanonMark(m)
  {
    var r := Relaid(m, level, width);
    if Prefixed(m) {
      assert Head(r) == Head(m);
      assert forall i :: 0 <= i < |m.attrs| ==> CanonAttrs(r.attrs)[i] == CanonAttrs(m.attrs)[i];
      assert CanonAttrs(r.attrs) == CanonAttrs(m.attrs);
    }
  }

  lemma SpacesAreBlank(n: int)
    ensures AllBlank(Spaces(n))
  {
  }

  /** Only the text itself survives stripping of a printed text line and the white space around it. */
  lemma StripPrinted(pending: string, text: string, level: int, at: int)
    requires AllBlank(pending)
    ensures Strip(pending + ContentText(level, Strip(text)) + Spaces(at)) == Strip(text)
  {
    StripTwice(text);
    StripAround(pending, Strip(text), level, at);
  }

  lemma StripAround(pending: string, t: string, level: int, at: int)
    requires AllBlank(pending) && Strip(t) == t
    ensures Strip(pending + ContentText(level, t) + Spaces(at)) == t
  {
    StripLine(pending, t, level, at);
    SpacesAreBlank(at);
    if t == "" {
      StripThrough(pending + ContentText(level, t) + Spaces(at), pending, t, Spaces(at));
    } else {
      SpacesAreBlank(level);
      BlankConcat(pending, Spaces(level));
      BlankConcat("\n", Spaces(at));
      StripThrough(pending + ContentText(level, t) + Spaces(at), pending + Spaces(level), t, "\n" + Spaces(at));
    }
  }

  lemma StripThrough(whole: string, a: string, t: string, b: string)
    requires whole == a + t + b && AllBlank(a) && AllBlank(b)
    ensures Strip(whole) == Strip(t)
  {
    StripFrame(a, t, b);
  }

  lemma BlankConcat(a: string, b: string)
    requires AllBlank(a) && AllBlank(b)
    ensures AllBlank(a + b)
  {
  }

  lemma StripLine(pending: string, t: string, level: int, at: int)
    requires Strip(t) == t
    ensures pending + ContentText(level, t) + Spaces(at)
            == if t == "" then pending + "" + Spaces(at) else (pending + Spaces(level)) + t + ("\n" + Spaces(at))
  {
    Regroup(pending, Spaces(level), t, "\n", Spaces(at));
  }

  lemma {:induction false} CanonPretty(doc: seq<Segment>, pending: string, level: int, indent: int, width: int)
    requires AllBlank(pending)
    ensures Canon(Pretty(doc, pending, level, indent, width)) == Canon(doc)
  {
    if doc != [] {
      var at := LevelAt(doc[0].mark, level, indent);
      StripPrinted(pending, doc[0].text, level, at);
      CanonRelaid(doc[0].mark, at, width);
      CanonPretty(doc[1..], "\n", LevelAfter(doc[0].mark, level, indent), indent, width);
      var p := Pretty(doc, pending, level, indent, width);
      assert p[1..] == Pretty(doc[1..], "\n", LevelAfter(doc[0].mark, level, indent), indent, width);
    }
  }

  /** Printing a printed document gives the same text again. */
  lemma PrintTwice(doc: seq<Segment>, indent: int, width: int)
    requires Good(doc)
    ensures Render(Pretty(doc, "", 0, indent, width), 0, indent, width) == Render(doc, 0, indent, width)
  {
    CanonPretty(doc, "", 0, indent, width);
    RenderByCanon(Pretty(doc, "", 0, indent, width), doc, 0, indent, width);
  }

  /** Two documents print to the same text exactly when they have the same canonical form. */
  lemma SamePrintIffSameCanon(a: seq<Segment>, b: seq<Segment>, indent: int, width: int)
    requires Good(a) && Good(b)
    ensures Render(a, 0, indent, width) == Render(b, 0, indent, width) <==> Canon(a) == Canon(b)
  {
    if Canon(a) == Canon(b) {
      RenderByCanon(a, b, 0, indent, width);
    }
    if Render(a, 0, indent, width) == Render(b, 0, indent, width) {
      OutputIsDocument(a, indent, width);
      OutputIsDocument(b, indent, width);
      DocUnambiguous(Pretty(a, "", 0, indent, width), if a == [] then "" else "\n",
                     Pretty(b, "", 0, indent, width), if b == [] then "" else "\n");
      CanonPretty(a, "", 0, indent, width);
      CanonPretty(b, "", 0, indent, width);
    }
  }
}
