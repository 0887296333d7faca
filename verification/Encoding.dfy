/** Which documents are saved as ASCII: `write` on a byte file raises an error that `save_settings` does not
    catch for every other one
    (packages/addons/official/driver/hdhomerun/source/resources/lib/functions.py). */
module Encoding {
  import opened Text
  import opened XmlMarkup
  import opened LinePrinter
  import opened TagLines
  import opened PrettyPrinter
  import opened XmlTree
  import opened TunerTree
  import opened TunerTokens
  import opened TunerPieces
  import opened SavedFile
  import opened RefreshLaws
  import opened Refreshes
  import Sorting

  predicate AsciiAttributes(attrs: map<string, string>) {
    forall n :: n in attrs ==> Ascii(n) && Ascii(attrs[n])
  }

  predicate AsciiNode(node: Node) {
    match node
    case Start(tag, attrs) => Ascii(tag) && AsciiAttributes(attrs)
    case Empty(tag, attrs) => Ascii(tag) && AsciiAttributes(attrs)
    case End(tag) => Ascii(tag)
    case Plain(mark) => mark.Tag? || Ascii(mark.body)
  }

  predicate AsciiPieces(ps: seq<Piece>) {
    forall i :: 0 <= i < |ps| ==> Ascii(Strip(ps[i].text)) && AsciiNode(ps[i].node)
  }

  /** Every name, every value, every other markup, and every text, white space around it aside, is ASCII. */
  predicate AsciiDocument(ts: seq<Tree>) {
    AsciiPieces(Pieces(Tokens(ts), ""))
  }

  // ----- strings -----

  lemma AsciiConcat(a: string, b: string)
    ensures Ascii(a + b) <==> Ascii(a) && Ascii(b)
  {
    assert forall i :: 0 <= i < |a| ==> a[i] == (a + b)[i];
    assert forall i :: 0 <= i < |b| ==> b[i] == (a + b)[|a| + i];
  }

  lemma {:induction false} AsciiEscape(s: string)
    ensures Ascii(Escape(s)) <==> Ascii(s)
  {
    if s != "" {
      AsciiEscape(s[1..]);
      AsciiConcat(EscapeChar(s[0]), Escape(s[1..]));
      AsciiConcat([s[0]], s[1..]);
      assert s == [s[0]] + s[1..];
      AsciiEscapeChar(s[0]);
    }
  }

  lemma AsciiEscapeChar(c: char)
    ensures Ascii(EscapeChar(c)) <==> Ascii([c])
  {
  }

  lemma AsciiSpaces(n: int)
    ensures Ascii(Spaces(n))
  {
  }

  lemma AsciiContent(level: int, t: string)
    requires Strip(t) == t
    ensures Ascii(ContentText(level, t)) <==> Ascii(t)
  {
    hide Strip;
    AsciiSpaces(level);
    AsciiConcat(Spaces(level), t);
    AsciiConcat(Spaces(level) + t, "\n");
  }

  // ----- tags -----

  predicate AsciiLeads(attrs: seq<Attr>) {
    forall i :: 0 <= i < |attrs| ==> Ascii(attrs[i].lead)
  }

  predicate AsciiAttrs(attrs: seq<Attr>) {
    forall i :: 0 <= i < |attrs| ==> Ascii(attrs[i].name) && Ascii(attrs[i].value)
  }

  lemma {:induction false} AsciiShowAttrs(attrs: seq<Attr>)
    requires AsciiLeads(attrs)
    ensures Ascii(ShowAttrs(attrs)) <==> AsciiAttrs(attrs)
  {
    hide Ascii;
    if attrs != [] {
      var a := attrs[0];
      AsciiShowAttrs(attrs[1..]);
      AsciiConcat(a.lead + ShowAttr(a), ShowAttrs(attrs[1..]));
      AsciiConcat(a.lead, ShowAttr(a));
      AsciiShowAttr(a);
      assert AsciiAttrs(attrs) <==> Ascii(a.name) && Ascii(a.value) && AsciiAttrs(attrs[1..]) by {
        if AsciiAttrs(attrs[1..]) && Ascii(a.name) && Ascii(a.value) {
          forall i | 0 <= i < |attrs|
            ensures Ascii(attrs[i].name) && Ascii(attrs[i].value)
          {
            if i > 0 { assert attrs[i] == attrs[1..][i - 1]; }
          }
        }
      }
    } else {
      assert Ascii("") by { NothingAscii(); }
    }
  }

  lemma NothingAscii()
    ensures Ascii("")
  {
  }

  lemma AsciiShowAttr(a: Attr)
    ensures Ascii(ShowAttr(a)) <==> Ascii(a.name) && Ascii(a.value)
  {
    AsciiConcat(a.name + "=\"" + a.value, "\"");
    AsciiConcat(a.name + "=\"", a.value);
    AsciiConcat(a.name, "=\"");
  }

  lemma AsciiTag(m: Markup)
    requires m.Tag? && AsciiLeads(m.attrs) && Ascii(m.tail)
    ensures Ascii(Show(m)) <==> Ascii(m.name) && AsciiAttrs(m.attrs)
  {
    hide AsciiAttrs, AsciiLeads, ShowAttrs;
    var a := "<" + Slash(m.kind) + m.name;
    AsciiShowAttrs(m.attrs);
    AsciiConcat(a + ShowAttrs(m.attrs) + m.tail, Closer(m.kind));
    AsciiConcat(a + ShowAttrs(m.attrs), m.tail);
    AsciiConcat(a, ShowAttrs(m.attrs));
    AsciiConcat("<" + Slash(m.kind), m.name);
  }

  lemma AsciiOther(m: Markup)
    requires !m.Tag?
    ensures Ascii(Show(m)) <==> Ascii(m.body)
  {
    match m
    case Comment(body) =>
      AsciiConcat("<!--" + body, "-->");
      AsciiConcat("<!--", body);
    case CData(body) =>
      AsciiConcat("<![CDATA[" + body, "]]>");
      AsciiConcat("<![CDATA[", body);
    case Instruction(body) =>
      AsciiConcat("<?" + body, "?>");
      AsciiConcat("<?", body);
  }

  lemma {:induction false} LeadsAscii(attrs: seq<string>, i: nat, column: int, base: nat, closer: string, width: int)
    requires i <= |attrs|
    ensures forall k :: 0 <= k < |attrs| - i ==> Ascii(Leads(attrs, i, column, base, closer, width)[k])
    decreases |attrs| - i
  {
    hide Ascii, Reserved;
    if i < |attrs| {
      OneLeadAscii(base);
      var wide := Reserved(attrs, i, column, closer);
      LeadsAscii(attrs, i + 1, base + 1 + |attrs[i]|, base, closer, width);
      LeadsAscii(attrs, i + 1, wide + 1 + |attrs[i]|, base, closer, width);
    }
  }

  lemma OneLeadAscii(base: nat)
    ensures Ascii("\n" + Spaces(base + 1)) && Ascii(" ")
  {
    AsciiSpaces(base + 1);
  }

  /** Layout is ASCII, so it makes no difference. */
  lemma AsciiRelaid(m: Markup, level: int, width: int)
    requires m.Tag? && AsciiLeads(m.attrs) && Ascii(m.tail)
    ensures Ascii(Show(Relaid(m, level, width))) <==> Ascii(m.name) && AsciiAttrs(m.attrs)
  {
    hide Ascii, Prefixed, Leads, Head, Spaces, Shown, ShowAttrs, Show;
    var base := |Spaces(level) + Head(m)|;
    LeadsAscii(Shown(m.attrs), 0, base, base, Closer(m.kind), width);
    NothingAscii();
    var r := Relaid(m, level, width);
    assert AsciiAttrs(r.attrs) <==> AsciiAttrs(m.attrs) by {
      assert |r.attrs| == |m.attrs|;
      assert forall i :: 0 <= i < |m.attrs| ==>
             r.attrs[i].name == m.attrs[i].name && r.attrs[i].value == m.attrs[i].value;
    }
    AsciiTag(r);
  }

  lemma AsciiValue(value: string)
    ensures Ascii(" ") && (Ascii(Escape(value)) <==> Ascii(value))
  {
    AsciiEscape(value);
  }

  predicate AsciiNames(attrs: map<string, string>, names: seq<string>)
    requires forall n :: n in names ==> n in attrs
  {
    forall i :: 0 <= i < |names| ==> Ascii(names[i]) && Ascii(attrs[names[i]])
  }

  lemma AsciiAttrList(attrs: map<string, string>, names: seq<string>)
    requires forall n :: n in names ==> n in attrs
    ensures AsciiLeads(AttrList(attrs, names)) && (AsciiAttrs(AttrList(attrs, names)) <==> AsciiNames(attrs, names))
  {
    hide Ascii, Escape;
    var list := AttrList(attrs, names);
    forall i | 0 <= i < |names|
      ensures Ascii(list[i].lead) && list[i].name == names[i]
      ensures Ascii(list[i].value) <==> Ascii(attrs[names[i]])
    {
      AsciiValue(attrs[names[i]]);
    }
  }

  lemma AsciiAttributeList(attrs: map<string, string>)
    ensures AsciiLeads(Attributes(attrs)) && (AsciiAttrs(Attributes(attrs)) <==> AsciiAttributes(attrs))
  {
    hide Ascii, AsciiLeads, AsciiAttrs, AttrList, Sorting.Sorted;
    var names := Sorting.Sorted(attrs.Keys);
    AsciiAttrList(attrs, names);
    if AsciiNames(attrs, names) {
      forall n | n in attrs
        ensures Ascii(n) && Ascii(attrs[n])
      {
        assert n in names;
      }
    }
  }

  lemma AsciiWritten(node: Node, level: int, width: int)
    requires node.Plain? ==> !node.mark.Tag?
    ensures Ascii(Show(Relaid(Written(node), level, width))) <==> AsciiNode(node)
  {
    hide Ascii, Relaid, Show, AsciiAttrs, AsciiLeads, AsciiAttributes, Attributes;
    NothingAscii();
    match node {
      case Start(tag, attrs) =>
        AsciiAttributeList(attrs);
        AsciiRelaid(Written(node), level, width);
      case Empty(tag, attrs) =>
        AsciiAttributeList(attrs);
        AsciiRelaid(Written(node), level, width);
      case End(tag) =>
        NoAttributesAscii();
        AsciiRelaid(Written(node), level, width);
      case Plain(mark) =>
        NotRelaid(mark, level, width);
        AsciiOther(mark);
    }
  }

  lemma NoAttributesAscii()
    ensures AsciiLeads([]) && AsciiAttrs([])
  {
  }

  lemma NotRelaid(m: Markup, level: int, width: int)
    requires !m.Tag?
    ensures Relaid(m, level, width) == m
  {
  }

  // ----- documents -----

  lemma AsciiRenderOne(p: Piece, level: int, indent: int, width: int)
    requires p.node.Plain? ==> !p.node.mark.Tag?
    ensures Ascii(RenderOne(WrittenPiece(p), level, indent, width)) <==> Ascii(Strip(p.text)) && AsciiNode(p.node)
  {
    hide Strip, Ascii, Relaid, Show, AsciiNode, ContentText, Spaces, Written, Escape;
    var at := LevelAt(Written(p.node), level, indent);
    var t, line := Strip(Escape(p.text)), Show(Relaid(Written(p.node), at, width));
    StripEscape(p.text);
    AsciiEscape(Strip(p.text));
    StripTwice(Escape(p.text));
    AsciiContent(level, t);
    AsciiWritten(p.node, at, width);
    AsciiSpaces(at);
    AsciiConcat(ContentText(level, t), Spaces(at) + line + "\n");
    AsciiConcat(Spaces(at) + line, "\n");
    AsciiConcat(Spaces(at), line);
    LineBreakAscii();
  }

  lemma LineBreakAscii()
    ensures Ascii("\n")
  {
  }

  predicate NoTagMarks(ps: seq<Piece>) {
    forall i :: 0 <= i < |ps| && ps[i].node.Plain? ==> !ps[i].node.mark.Tag?
  }

  lemma {:induction false} AsciiRender(ps: seq<Piece>, level: int, indent: int, width: int)
    requires NoTagMarks(ps)
    ensures Ascii(Render(WrittenAll(ps), level, indent, width)) <==> AsciiPieces(ps)
  {
    hide Ascii, Strip, AsciiNode, RenderOne, WrittenPiece;
    if ps == [] {
      NothingAscii();
    } else {
      var doc := WrittenAll(ps);
      assert doc[0] == WrittenPiece(ps[0]) && doc[1..] == WrittenAll(ps[1..]);
      var more := LevelAfter(doc[0].mark, level, indent);
      AsciiRender(ps[1..], more, indent, width);
      AsciiRenderOne(ps[0], level, indent, width);
      AsciiConcat(RenderOne(doc[0], level, indent, width), Render(doc[1..], more, indent, width));
      AsciiCons(ps[0], ps[1..]);
    }
  }

  lemma AsciiCons(p: Piece, ps: seq<Piece>)
    ensures AsciiPieces([p] + ps) <==> Ascii(Strip(p.text)) && AsciiNode(p.node) && AsciiPieces(ps)
  {
    hide Ascii, Strip, AsciiNode;
    assert forall i :: 0 <= i < |ps| ==> ps[i] == ([p] + ps)[i + 1];
    assert ([p] + ps)[0] == p;
  }

  /** A document is saved as ASCII exactly when it is ASCII, white space around texts aside. */
  lemma SavedAscii(ts: seq<Tree>)
    requires Writable(ts)
    ensures Ascii(Saved(ts)) <==> AsciiDocument(ts)
  {
    PiecesGood(Tokens(ts), "");
    var ps := Pieces(Tokens(ts), "");
    assert NoTagMarks(ps) by {
      assert forall i :: 0 <= i < |ps| ==> GoodNode(ps[i].node);
    }
    hide Ascii, GoodNode, Pieces, Tokens, Render, RenderOne, AsciiPieces, Show, WrittenAll;
    AsciiRender(ps, 0, 2, 80);
    DeclarationLine();
    var first, doc := Segment("", DECLARATION), DocOf(ts);
    assert doc[1..] == WrittenAll(ps) && doc[0] == first;
    FirstLine(first, WrittenAll(ps));
    AsciiConcat(RenderOne(first, 0, 2, 80), Render(WrittenAll(ps), 0, 2, 80));
  }

  lemma FirstLine(first: Segment, rest: seq<Segment>)
    requires !first.mark.Tag?
    ensures Render([first] + rest, 0, 2, 80) == RenderOne(first, 0, 2, 80) + Render(rest, 0, 2, 80)
  {
    assert ([first] + rest)[1..] == rest;
  }

  lemma DeclarationLine()
    ensures Ascii(RenderOne(Segment("", DECLARATION), 0, 2, 80))
  {
    var p := Piece("", Plain(DECLARATION));
    DeclarationAscii();
    BlankAscii();
    DeclarationPiece();
    hide Ascii, RenderOne, Strip, WrittenPiece;
    AsciiRenderOne(p, 0, 2, 80);
  }

  lemma DeclarationAscii()
    ensures Ascii(DECLARATION.body)
  {
  }

  lemma DeclarationPiece()
    ensures WrittenPiece(Piece("", Plain(DECLARATION))) == Segment("", DECLARATION)
  {
  }

  // ----- refreshed documents -----

  predicate AsciiNodes(nodes: seq<Node>) {
    forall i :: 0 <= i < |nodes| ==> AsciiNode(nodes[i])
  }

  /** Nodes are added somewhere. */
  predicate AnyDue(ps: seq<Piece>, flags: seq<bool>) {
    ps != [] && (Due(flags, ps[0].node) || AnyDue(ps[1..], Flags(flags, ps[0].node)))
  }

  lemma {:induction false} AsciiNew(text: string, nodes: seq<Node>, node: Node)
    ensures AsciiPieces(PNew(text, nodes, node)) <==> Ascii(Strip(text)) && AsciiNodes(nodes) && AsciiNode(node)
    decreases |nodes|
  {
    hide Ascii, Strip, AsciiNode, AsciiPieces;
    BlankAscii();
    NoPieces();
    if nodes == [] {
      AsciiCons(Piece(text, node), []);
      assert [Piece(text, node)] + [] == [Piece(text, node)];
    } else {
      AsciiNew("", nodes[1..], node);
      AsciiCons(Piece(text, nodes[0]), PNew("", nodes[1..], node));
      assert AsciiNodes(nodes) <==> AsciiNode(nodes[0]) && AsciiNodes(nodes[1..]) by {
        assert nodes == [nodes[0]] + nodes[1..];
      }
    }
  }

  lemma BlankAscii()
    ensures Ascii(Strip(""))
  {
  }

  lemma NoPieces()
    ensures AsciiPieces([])
  {
  }

  lemma AsciiPiecesAppend(a: seq<Piece>, b: seq<Piece>)
    ensures AsciiPieces(a + b) <==> AsciiPieces(a) && AsciiPieces(b)
  {
    hide Ascii, Strip, AsciiNode;
    assert forall i :: 0 <= i < |a| ==> a[i] == (a + b)[i];
    assert forall i :: 0 <= i < |b| ==> b[i] == (a + b)[|a| + i];
  }

  lemma {:induction false} AsciiAdded(ps: seq<Piece>, flags: seq<bool>, nodes: seq<Node>)
    ensures AsciiPieces(PAdded(ps, flags, nodes)) <==> AsciiPieces(ps) && (AnyDue(ps, flags) ==> AsciiNodes(nodes))
  {
    hide Ascii, Strip, AsciiNode, AsciiNodes, AsciiPieces, Due, Flags;
    NoPieces();
    if ps != [] {
      var due := if Due(flags, ps[0].node) then nodes else [];
      AsciiNew(ps[0].text, due, ps[0].node);
      AsciiAdded(ps[1..], Flags(flags, ps[0].node), nodes);
      AsciiPiecesAppend(PNew(ps[0].text, due, ps[0].node), PAdded(ps[1..], Flags(flags, ps[0].node), nodes));
      AsciiCons(ps[0], ps[1..]);
      assert ps == [ps[0]] + ps[1..];
      NoNodesAscii();
    }
  }

  lemma NoNodesAscii()
    ensures AsciiNodes([])
  {
  }

  // Nodes are added exactly if some category has a marker.

  lemma {:induction false} AddedCount(ps: seq<Piece>, flags: seq<bool>, node: Node)
    ensures |PAdded(ps, flags, [node])| >= |ps|
    ensures |PAdded(ps, flags, [node])| > |ps| <==> AnyDue(ps, flags)
  {
    hide Due, Flags;
    if ps != [] {
      AddedCount(ps[1..], Flags(flags, ps[0].node), node);
      OneNew(ps[0].text, node, ps[0].node);
    }
  }

  lemma OneNew(text: string, new_: Node, node: Node)
    ensures |PNew(text, [new_], node)| == 2 && |PNew(text, [], node)| == 1
  {
    assert [new_][1..] == [];
  }

  lemma NodesInAppend(a: seq<Tree>, b: seq<Tree>)
    ensures NodesIn(a + b) == NodesIn(a) + NodesIn(b)
  {
    TokensAppend(a, b);
    NodesAppend(Tokens(a), Tokens(b), "");
  }

  lemma {:induction false} NodesAdded(ts: seq<Tree>, t: Tree)
    requires t.Element? && t.kids == []
    ensures |NodesIn(AddNew(ts, [t]))| == |NodesIn(ts)| + MarkedCategories(ts)
    decreases ts
  {
    hide NodesIn, HasMarker, HoldsMark;
    if ts != [] {
      NodesFirst(ts);
      NodesFirst(AddNew(ts, [t]));
      NodesAdded(ts[1..], t);
      NodesOne(ts[0]);
      NodesOne(AddNew(ts, [t])[0]);
      assert AddNew(ts, [t])[1..] == AddNew(ts[1..], [t]);
      if ts[0].Element? && ts[0].kids != [] {
        var kids := ts[0].kids;
        MarkedExactly(kids);
        AddNonEmpty(kids, [t]);
        NodesAdded(kids, t);
        NodesOne(t);
        NodesInAppend(AddNew(kids, [t]), [t]);
        NodesInAppend(AddNew(kids, [t]), []);
        NoNodes();
        assert AddNew(kids, [t]) + [] == AddNew(kids, [t]);
      } else if ts[0].Element? {
        NoMarker();
        assert AddNew([], [t]) + [] == [];
      }
    }
  }

  lemma NoMarker()
    ensures !HasMarker([]) && !HoldsMark([])
  {
  }

  lemma PlacesToAdd(ts: seq<Tree>)
    ensures AnyDue(Pieces(Tokens(ts), ""), []) <==> MarkedCategories(ts) > 0
  {
    hide Pieces, Tokens, PAdded, AnyDue, MarkedCategories, HdhomerunOne;
    var t := Setting(DvbMode(""));
    HdhomerunFresh([""]);
    assert Hdhomerun([""])[..1] == [t] by { FirstSetting(); }
    assert Fresh([t]);
    ViewOfAdd(ts, [t]);
    OneNode(t);
    var node := NodesOf([t])[0];
    assert NodesOf([t]) == [node];
    AddedCount(Pieces(Tokens(ts), ""), [], node);
    NodesAdded(ts, t);
  }

  lemma FirstSetting()
    ensures Hdhomerun([""])[..1] == [Setting(DvbMode(""))]
  {
    assert [""][1..] == [];
  }

  lemma OneNode(t: Tree)
    requires Fresh([t])
    ensures |NodesOf([t])| == 1
  {
    assert [t][1..] == [];
  }

  predicate AsciiSettings(new_: seq<Tree>) {
    forall i :: 0 <= i < |new_| && new_[i].Element? ==> Ascii(new_[i].tag) && AsciiAttributes(new_[i].attrs)
  }

  lemma {:induction false} AsciiNodesOf(new_: seq<Tree>)
    requires Fresh(new_)
    ensures AsciiNodes(NodesOf(new_)) <==> AsciiSettings(new_)
  {
    hide AsciiNode, AsciiNodes, AsciiSettings, IsOld;
    if new_ != [] {
      var t, more := new_[0], new_[1..];
      AsciiNodesOf(more);
      assert new_ == [t] + more;
      FirstNode(Empty(t.tag, t.attrs), NodesOf(more));
      FirstAscii(t, more);
    } else {
      NoNodesAscii();
      NoSettingsAscii();
    }
  }

  lemma NoSettingsAscii()
    ensures AsciiSettings([])
  {
  }

  lemma FirstNode(node: Node, nodes: seq<Node>)
    ensures AsciiNodes([node] + nodes) <==> AsciiNode(node) && AsciiNodes(nodes)
  {
    hide AsciiNode;
    assert ([node] + nodes)[0] == node;
    assert forall i :: 0 <= i < |nodes| ==> nodes[i] == ([node] + nodes)[i + 1];
  }

  lemma FirstAscii(t: Tree, more: seq<Tree>)
    requires t.Element?
    ensures AsciiSettings([t] + more) <==> AsciiNode(Empty(t.tag, t.attrs)) && AsciiSettings(more)
  {
    hide Ascii, AsciiAttributes;
    var ts := [t] + more;
    assert ts[0] == t && ts[1..] == more;
    forall i | 0 <= i < |more|
      ensures ts[i + 1] == more[i]
    {
    }
    if AsciiSettings(ts) {
      forall i | 0 <= i < |more| && more[i].Element?
        ensures Ascii(more[i].tag) && AsciiAttributes(more[i].attrs)
      {
        assert ts[i + 1] == more[i];
      }
    }
  }

  /** A refreshed document is ASCII exactly if it is without its tuner settings, and the new settings are if
      they are put anywhere. */
  lemma RefreshAscii(ts: seq<Tree>, new_: seq<Tree>)
    requires Fresh(new_)
    ensures AsciiDocument(Refresh(ts, new_)) <==>
            && AsciiDocument(RemoveOld(ts, false))
            && (MarkedCategories(RemoveOld(ts, false)) > 0 ==> AsciiSettings(new_))
  {
    hide Pieces, Tokens, PAdded, AsciiPieces, AsciiSettings, AsciiNodes, MarkedCategories;
    var clean := RemoveOld(ts, false);
    ViewOfAdd(clean, new_);
    AsciiAdded(Pieces(Tokens(clean), ""), [], NodesOf(new_));
    AsciiNodesOf(new_);
    PlacesToAdd(clean);
  }

  // ----- tuners -----

  predicate AsciiTuners(tuners: Tuners) {
    match tuners
    case HdhomerunTuners(names) => forall i :: 0 <= i < |names| ==> Ascii(names[i])
    case SundtekTuners(devices) => forall i :: 0 <= i < |devices| ==> Ascii(devices[i].name) && Ascii(devices[i].serial)
  }

  lemma AsciiSettingAppend(a: seq<Tree>, b: seq<Tree>)
    ensures AsciiSettings(a + b) <==> AsciiSettings(a) && AsciiSettings(b)
  {
    hide Ascii, AsciiAttributes;
    assert forall i :: 0 <= i < |a| ==> a[i] == (a + b)[i];
    assert forall i :: 0 <= i < |b| ==> b[i] == (a + b)[|a| + i];
  }

  lemma AsciiOneSetting(attrs: map<string, string>)
    ensures AsciiSettings([Setting(attrs)]) <==> AsciiAttributes(attrs)
  {
    hide AsciiAttributes;
    assert Ascii("setting");
    assert [Setting(attrs)][0] == Setting(attrs);
  }

  /** An id holds the name of its tuner. */
  lemma AsciiId(name: string, suffix: string)
    requires Ascii(suffix)
    ensures Ascii(TUNER_PREFIX + name + suffix) <==> Ascii(name)
  {
    assert Ascii(TUNER_PREFIX);
    hide Ascii;
    AsciiConcat(TUNER_PREFIX + name, suffix);
    AsciiConcat(TUNER_PREFIX, name);
  }

  /** The attributes other than the id and the label are constants. */
  lemma AsciiByLabel(attrs: map<string, string>)
    requires "id" in attrs && "label" in attrs
    requires forall n :: n in attrs ==> Ascii(n) && (n != "id" && n != "label" ==> Ascii(attrs[n]))
    ensures AsciiAttributes(attrs) <==> Ascii(attrs["id"]) && Ascii(attrs["label"])
  {
    hide Ascii;
  }

  lemma AsciiKeys()
    ensures Ascii("id") && Ascii("label") && Ascii("type") && Ascii("default") && Ascii("values") && Ascii("mask")
    ensures Ascii("_DVBMODE") && Ascii("_FULLNAME") && Ascii("_NUMBERS") && Ascii("_DISABLE")
    ensures Ascii("_IRPROT") && Ascii("_KEYMAP")
    ensures Ascii("9020") && Ascii("9025") && Ascii("9030") && Ascii("tuner serial ") && Ascii(", ")
  {
  }

  lemma AsciiValues()
    ensures Ascii("labelenum") && Ascii("auto") && Ascii("auto|ATSC|DVB-C|DVB-T") && Ascii("bool") && Ascii("false")
    ensures Ascii("2") && Ascii("1|2|3|4|5|6|7|8") && Ascii("DVB-C") && Ascii("DVB-S") && Ascii("DVB-C|DVB-T")
    ensures Ascii("auto|RC5|NEC|RC6") && Ascii("file") && Ascii("*.map")
  {
  }

  lemma AsciiUserspace()
    ensures Ascii(SUNDTEK_USERSPACE)
  {
    AsciiPath();
    var a, b, c, d := "/storage/.kodi/", "userdata/addon_data/", "driver.dvb.", "sundtek-mediatv/";
    hide Ascii;
    AsciiConcat(a + b + c, d);
    AsciiConcat(a + b, c);
    AsciiConcat(a, b);
  }

  lemma AsciiPath()
    ensures Ascii("/storage/.kodi/") && Ascii("userdata/addon_data/") && Ascii("driver.dvb.")
            && Ascii("sundtek-mediatv/")
  {
  }

  lemma AsciiHdhomerunOne(tuner: string)
    ensures AsciiSettings(HdhomerunOne(tuner)) <==> Ascii(tuner)
  {
    AsciiKeys();
    AsciiValues();
    hide Ascii, AsciiSettings, AsciiAttributes;
    var a, b, c, d := DvbMode(tuner), UseFullName(tuner), Numbers(tuner), Disable(tuner);
    AsciiId(tuner, "_DVBMODE");
    AsciiId(tuner, "_FULLNAME");
    AsciiId(tuner, "_NUMBERS");
    AsciiId(tuner, "_DISABLE");
    AsciiConcat("tuner serial ", tuner);
    AsciiByLabel(a);
    AsciiByLabel(b);
    AsciiByLabel(c);
    AsciiByLabel(d);
    hide *;
    FourSettings(tuner);
    AsciiOneSetting(a);
    AsciiOneSetting(b);
    AsciiOneSetting(c);
    AsciiOneSetting(d);
    AsciiSettingAppend([Setting(a)] + [Setting(b)] + [Setting(c)], [Setting(d)]);
    AsciiSettingAppend([Setting(a)] + [Setting(b)], [Setting(c)]);
    AsciiSettingAppend([Setting(a)], [Setting(b)]);
  }

  lemma FourSettings(tuner: string)
    ensures HdhomerunOne(tuner)
            == [Setting(DvbMode(tuner))] + [Setting(UseFullName(tuner))] + [Setting(Numbers(tuner))]
            + [Setting(Disable(tuner))]
  {
  }

  lemma AsciiSundtekOne(d: Device)
    ensures AsciiSettings(SundtekOne(d)) <==> Ascii(d.name) && Ascii(d.serial)
  {
    AsciiKeys();
    AsciiValues();
    AsciiUserspace();
    hide Ascii, AsciiSettings, AsciiAttributes;
    var a, b, c := DeviceMode(d), Protocol(d), Keymap(d);
    AsciiId(d.serial, "_DVBMODE");
    AsciiId(d.serial, "_IRPROT");
    AsciiId(d.serial, "_KEYMAP");
    AsciiConcat(d.name + ", ", d.serial);
    AsciiConcat(d.name, ", ");
    AsciiByLabel(a);
    AsciiByLabel(b);
    AsciiByLabel(c);
    hide *;
    ThreeSettings(d);
    AsciiOneSetting(a);
    AsciiOneSetting(b);
    AsciiOneSetting(c);
    AsciiSettingAppend([Setting(a)] + [Setting(b)], [Setting(c)]);
    AsciiSettingAppend([Setting(a)], [Setting(b)]);
  }

  lemma ThreeSettings(d: Device)
    ensures SundtekOne(d) == [Setting(DeviceMode(d))] + [Setting(Protocol(d))] + [Setting(Keymap(d))]
  {
  }

  lemma {:induction false} AsciiHdhomerun(tuners: seq<string>)
    ensures AsciiSettings(Hdhomerun(tuners)) <==> forall i :: 0 <= i < |tuners| ==> Ascii(tuners[i])
  {
    hide Ascii, AsciiSettings, HdhomerunOne;
    NoSettingsAscii();
    if tuners != [] {
      AsciiHdhomerunOne(tuners[0]);
      AsciiHdhomerun(tuners[1..]);
      AsciiSettingAppend(HdhomerunOne(tuners[0]), Hdhomerun(tuners[1..]));
      assert tuners == [tuners[0]] + tuners[1..];
    }
  }

  lemma {:induction false} AsciiSundtek(devices: seq<Device>)
    ensures AsciiSettings(Sundtek(devices)) <==>
            forall i :: 0 <= i < |devices| ==> Ascii(devices[i].name) && Ascii(devices[i].serial)
  {
    hide Ascii, AsciiSettings, SundtekOne;
    NoSettingsAscii();
    if devices != [] {
      AsciiSundtekOne(devices[0]);
      AsciiSundtek(devices[1..]);
      AsciiSettingAppend(SundtekOne(devices[0]), Sundtek(devices[1..]));
      assert devices == [devices[0]] + devices[1..];
    }
  }

  /** Generated settings are ASCII exactly if the names and serial numbers of the tuners are. */
  lemma GeneratedAscii(tuners: Tuners)
    ensures AsciiSettings(Generated(tuners)) <==> AsciiTuners(tuners)
  {
    hide Ascii, AsciiSettings;
    match tuners
    case HdhomerunTuners(names) => AsciiHdhomerun(names);
    case SundtekTuners(devices) => AsciiSundtek(devices);
  }

  /** What a refresh of `ts` with these tuners prints is ASCII: the document without its tuner settings is, and
      so are the tuners if their settings are put anywhere. */
  predicate AsciiRefresh(ts: seq<Tree>, tuners: Tuners) {
    var clean := RemoveOld(ts, false);
    AsciiDocument(clean) && (MarkedCategories(clean) > 0 ==> AsciiTuners(tuners))
  }

  /** A refresh prints ASCII exactly if the document and, where they are needed, the tuners are ASCII. */
  lemma RefreshPrintsAscii(ts: seq<Tree>, tuners: Tuners)
    requires Writable(ts)
    ensures Ascii(Saved(Refresh(ts, Generated(tuners)))) <==> AsciiRefresh(ts, tuners)
  {
    hide Ascii, Saved, Generated, Writable, AsciiSettings, AsciiDocument, MarkedCategories, AsciiTuners;
    GeneratedWritable(tuners);
    RefreshWritable(ts, Generated(tuners));
    SavedAscii(Refresh(ts, Generated(tuners)));
    hide Refresh;
    RefreshAscii(ts, Generated(tuners));
    GeneratedAscii(tuners);
  }
}
