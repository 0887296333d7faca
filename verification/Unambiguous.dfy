/** A string is the text of at most one document: the concrete syntax can be read in one way only. */
module Unambiguous {
  import opened XmlMarkup
  import opened Scanner

  predicate All(p: char -> bool, s: string) {
    forall i :: 0 <= i < |s| ==> p(s[i])
  }

  /** A string splits in only one way into characters with a property and a rest that starts without it. */
  lemma RunSplit(p: char -> bool, x1: string, y1: string, x2: string, y2: string)
    requires x1 + y1 == x2 + y2 && All(p, x1) && All(p, x2)
    requires y1 != "" && !p(y1[0]) && y2 != "" && !p(y2[0])
    ensures x1 == x2 && y1 == y2
  {
    var s := x1 + y1;
    assert s[|x1|] == y1[0];
    assert s[|x2|] == y2[0];
    assert forall i :: 0 <= i < |x1| ==> s[i] == x1[i];
    assert forall i :: 0 <= i < |x2| ==> s[i] == (x2 + y2)[i] == x2[i];
    assert x1 == s[..|x1|] && x2 == s[..|x2|];
    assert y1 == s[|x1|..] && y2 == s[|x2|..];
  }

  lemma NameIsRun(s: string)
    requires GoodName(s)
    ensures All(NameChar, s)
  {
  }

  lemma SpaceIsRun(s: string)
    requires XmlSpace(s)
    ensures All(IsXmlSpace, s)
  {
  }

  lemma ValueIsRun(s: string)
    requires '"' !in s
    ensures All(c => c != '"', s)
  {
  }

  lemma {:induction false} AttrsUnambiguous(a: seq<Attr>, s: string, b: seq<Attr>, t: string, kind: Kind)
    requires GoodAttrs(a) && XmlSpace(s) && GoodAttrs(b) && XmlSpace(t)
    requires ShowAttrs(a) + (s + Closer(kind)) == ShowAttrs(b) + (t + Closer(kind))
    ensures a == b && s == t
  {
    SpaceIsRun(s);
    SpaceIsRun(t);
    if a == [] && b == [] {
      assert ShowAttrs([]) + (s + Closer(kind)) == s + Closer(kind);
      assert ShowAttrs([]) + (t + Closer(kind)) == t + Closer(kind);
      RunSplit(IsXmlSpace, s, Closer(kind), t, Closer(kind));
    } else if a == [] {
      EndIsNoAttr(s, b, t, kind);
    } else if b == [] {
      EndIsNoAttr(t, a, s, kind);
    } else {
      var x := FirstAttr(a, s, kind);
      var y := FirstAttr(b, t, kind);
      SameAttr(a[0], x, b[0], y);
      AttrsUnambiguous(a[1..], s, b[1..], t, kind);
    }
  }

  lemma FirstAttr(a: seq<Attr>, s: string, kind: Kind) returns (rest: string)
    requires a != []
    ensures rest == ShowAttrs(a[1..]) + (s + Closer(kind))
    ensures ShowAttrs(a) + (s + Closer(kind)) == a[0].lead + (a[0].name + ("=\"" + (a[0].value + ("\"" + rest))))
  {
    rest := ShowAttrs(a[1..]) + (s + Closer(kind));
  }

  /** The end of a tag cannot be taken for an attribute. */
  lemma EndIsNoAttr(s: string, b: seq<Attr>, t: string, kind: Kind)
    requires XmlSpace(s) && GoodAttrs(b) && b != []
    ensures ShowAttrs([]) + (s + Closer(kind)) != ShowAttrs(b) + (t + Closer(kind))
  {
    var rest := FirstAttr(b, t, kind);
    assert GoodAttr(b[0]);
    NameIsRun(b[0].name);
    assert NameChar(b[0].name[0]);
    SpaceIsRun(s);
    SpaceIsRun(b[0].lead);
    var y := b[0].name + ("=\"" + (b[0].value + ("\"" + rest)));
    assert ShowAttrs([]) + (s + Closer(kind)) == s + Closer(kind);
    if s + Closer(kind) == b[0].lead + y {
      assert y[0] == b[0].name[0];
      RunSplit(IsXmlSpace, s, Closer(kind), b[0].lead, y);
    }
  }

  lemma SameAttr(a: Attr, x: string, b: Attr, y: string)
    requires GoodAttr(a) && GoodAttr(b)
    requires a.lead + (a.name + ("=\"" + (a.value + ("\"" + x))))
             == b.lead + (b.name + ("=\"" + (b.value + ("\"" + y))))
    ensures a == b && x == y
  {
    var v, w := a.value + ("\"" + x), b.value + ("\"" + y);
    SameLead(a, v, b, w);
    NameIsRun(a.name);
    NameIsRun(b.name);
    RunSplit(NameChar, a.name, "=\"" + v, b.name, "=\"" + w);
    assert ("=\"" + v)[2..] == v && ("=\"" + w)[2..] == w;
    ValueIsRun(a.value);
    ValueIsRun(b.value);
    RunSplit(c => c != '"', a.value, "\"" + x, b.value, "\"" + y);
    assert ("\"" + x)[1..] == x && ("\"" + y)[1..] == y;
  }

  lemma SameLead(a: Attr, v: string, b: Attr, w: string)
    requires GoodAttr(a) && GoodAttr(b)
    requires a.lead + (a.name + ("=\"" + v)) == b.lead + (b.name + ("=\"" + w))
    ensures a.lead == b.lead && a.name + ("=\"" + v) == b.name + ("=\"" + w)
  {
    SpaceIsRun(a.lead);
    SpaceIsRun(b.lead);
    assert NameChar(a.name[0]) && NameChar(b.name[0]);
    assert (a.name + ("=\"" + v))[0] == a.name[0];
    assert (b.name + ("=\"" + w))[0] == b.name[0];
    RunSplit(IsXmlSpace, a.lead, a.name + ("=\"" + v), b.lead, b.name + ("=\"" + w));
  }

  // ----- markups -----

  function Body(m: Markup): string
    requires m.Tag?
  {
    m.name + (ShowAttrs(m.attrs) + (m.tail + Closer(m.kind)))
  }

  lemma ShowBody(m: Markup)
    requires m.Tag?
    ensures Show(m) == "<" + Slash(m.kind) + Body(m)
  {
  }

  /** The second character tells the sorts of markup apart. */
  lemma SecondChar(m: Markup)
    requires Legal(m)
    ensures |Show(m)| > 2
    ensures m.Tag? ==> Show(m)[1] != '!' && Show(m)[1] != '?' && (Show(m)[1] == '/' <==> m.kind == Closing)
    ensures m.Comment? || m.CData? ==> Show(m)[1] == '!' && (Show(m)[2] == '-' <==> m.Comment?)
    ensures m.Instruction? ==> Show(m)[1] == '?'
  {
    if m.Tag? {
      assert NameChar(m.name[0]);
      ShowBody(m);
      assert Body(m)[0] == m.name[0];
    }
  }

  /** A slash in front of the last bracket makes the tag self-closing. */
  lemma SecondLast(m: Markup)
    requires Legal(m) && m.Tag? && m.kind != Closing
    ensures Show(m)[|Show(m)| - 2] == '/' <==> m.kind == SelfClosing
  {
    if m.kind == Opening {
      SlashOpening(m);
      var t := Show(m);
      var inner := ShowTagShape(m);
      assert t[|t| - 1] == '>';
    }
  }

  lemma RestIsNoName(m: Markup)
    requires Legal(m) && m.Tag?
    ensures var r := ShowAttrs(m.attrs) + (m.tail + Closer(m.kind)); r != "" && !NameChar(r[0])
  {
    if m.attrs != [] {
      assert GoodAttr(m.attrs[0]);
      assert IsXmlSpace(m.attrs[0].lead[0]);
      assert ShowAttrs(m.attrs)[0] == m.attrs[0].lead[0];
    } else if m.tail != "" {
      assert IsXmlSpace(m.tail[0]);
      assert (ShowAttrs(m.attrs) + (m.tail + Closer(m.kind)))[0] == m.tail[0];
    }
  }

  lemma SameBody(a: Markup, b: Markup)
    requires Legal(a) && Legal(b) && a.Tag? && b.Tag? && a.kind == b.kind && Body(a) == Body(b)
    ensures a == b
  {
    NameIsRun(a.name);
    NameIsRun(b.name);
    RestIsNoName(a);
    RestIsNoName(b);
    RunSplit(NameChar, a.name, ShowAttrs(a.attrs) + (a.tail + Closer(a.kind)),
             b.name, ShowAttrs(b.attrs) + (b.tail + Closer(b.kind)));
    AttrsUnambiguous(a.attrs, a.tail, b.attrs, b.tail, a.kind);
  }

  lemma SameMiddle(open: string, x: string, y: string, term: string)
    requires open + x + term == open + y + term
    ensures x == y
  {
    assert |x| == |y|;
    assert forall i :: 0 <= i < |x| ==> x[i] == (open + x + term)[|open| + i] == (open + y + term)[|open| + i] == y[i];
  }

  lemma MarkUnambiguous(a: Markup, b: Markup)
    requires Legal(a) && Legal(b) && Show(a) == Show(b)
    ensures a == b
  {
    SecondChar(a);
    SecondChar(b);
    match a {
      case Tag(kind, _, _, _) =>
        if kind != Closing {
          SecondLast(a);
          SecondLast(b);
        }
        ShowBody(a);
        ShowBody(b);
        var start := "<" + Slash(kind);
        assert Body(a) == (start + Body(a))[|start|..] == (start + Body(b))[|start|..] == Body(b);
        SameBody(a, b);
      case Comment(body) => SameMiddle("<!--", body, b.body, "-->");
      case CData(body) => SameMiddle("<![CDATA[", body, b.body, "]]>");
      case Instruction(body) => SameMiddle("<?", body, b.body, "?>");
    }
  }

  // ----- documents -----

  predicate Readable(doc: seq<Segment>) {
    forall i :: 0 <= i < |doc| ==> NoAngles(doc[i].text) && Legal(doc[i].mark) && Scannable(doc[i].mark)
  }

  lemma ShowFirst(doc: seq<Segment>, trailer: string)
    requires doc != []
    ensures ShowAll(doc) + trailer == doc[0].text + Show(doc[0].mark) + (ShowAll(doc[1..]) + trailer)
  {
  }

  lemma SameFirst(t1: string, m1: Markup, r1: string, t2: string, m2: Markup, r2: string)
    requires NoAngles(t1) && Legal(m1) && Scannable(m1) && NoAngles(t2) && Legal(m2) && Scannable(m2)
    requires t1 + Show(m1) + r1 == t2 + Show(m2) + r2
    ensures t1 == t2 && m1 == m2 && r1 == r2
  {
    hide *;
    var s := t1 + Show(m1) + r1;
    ScanExtent(t1, m1, r1);
    ScanExtent(t2, m2, r2);
    var k, e := |t1|, |t1| + |Show(m1)|;
    assert t1 == s[..k] && t2 == s[..k];
    assert Show(m1) == s[k..e] && Show(m2) == s[k..e];
    assert r1 == s[e..] && r2 == s[e..];
    MarkUnambiguous(m1, m2);
  }

  /** Two readable documents with the same text are the same document. */
  lemma {:induction false} DocUnambiguous(d1: seq<Segment>, t1: string, d2: seq<Segment>, t2: string)
    requires Readable(d1) && NoAngles(t1) && Readable(d2) && NoAngles(t2)
    requires ShowAll(d1) + t1 == ShowAll(d2) + t2
    ensures d1 == d2 && t1 == t2
  {
    hide Legal, Scannable, NoAngles, Show;
    if d1 == [] && d2 == [] {
      assert "" + t1 == t1 && "" + t2 == t2;
    } else if d1 == [] {
      NoMarkupInTrailer(t1, d2, t2);
    } else if d2 == [] {
      NoMarkupInTrailer(t2, d1, t1);
    } else {
      ShowFirst(d1, t1);
      ShowFirst(d2, t2);
      SameFirst(d1[0].text, d1[0].mark, ShowAll(d1[1..]) + t1, d2[0].text, d2[0].mark, ShowAll(d2[1..]) + t2);
      DocUnambiguous(d1[1..], t1, d2[1..], t2);
      assert d1 == [d1[0]] + d1[1..] && d2 == [d2[0]] + d2[1..];
    }
  }

  lemma NoMarkupInTrailer(t1: string, d2: seq<Segment>, t2: string)
    requires NoAngles(t1) && d2 != [] && Legal(d2[0].mark)
    ensures ShowAll([]) + t1 != ShowAll(d2) + t2
  {
    assert ShowAll([]) + t1 == t1;
    ShowFirst(d2, t2);
    assert Show(d2[0].mark)[0] == '<';
    var s := ShowAll(d2) + t2;
    assert s[|d2[0].text|] == '<';
  }
}
