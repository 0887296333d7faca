/** The settings file that a refresh writes: `toxml`, then `pprint` with an indent of 2
    (packages/addons/official/driver/hdhomerun/source/resources/lib/functions.py). Parsing is taken as
    the inverse of `toxml`, up to layout inside tags, entities, text outside the root element, and the white
    space that a parser does not keep. */
module SavedFile {
  import opened Text
  import opened XmlMarkup
  import opened Scanner
  import opened LinePrinter
  import opened TagLines
  import opened PrettyPrinter
  import opened PrintLaws
  import opened XmlTree
  import opened TunerPieces
  import opened Settling
  import Sorting

  const DECLARATION := Instruction("xml version=\"1.0\" ")

  /** `Document.toxml`. */
  function DocumentXml(ts: seq<Tree>): string {
    "<?xml version=\"1.0\" ?>" + ToXml(ts)
  }

  function DocOf(ts: seq<Tree>): seq<Segment> {
    [Segment("", DECLARATION)] + WrittenAll(Pieces(Tokens(ts), ""))
  }

  /** What `save_settings` writes. */
  function Saved(ts: seq<Tree>): string {
    Render(DocOf(ts), 0, 2, 80)
  }

  lemma BodyXml(ts: seq<Tree>)
    requires NoTopText(ts)
    ensures ShowAll(WrittenAll(Pieces(Tokens(ts), ""))) == ToXml(ts)
  {
    ToXmlIsTokens(ts);
    ShowPieces(Tokens(ts), "");
    NoLastText(ts);
    assert Escape("") == "";
    hide *;
    AddNothing(ShowAll(WrittenAll(Pieces(Tokens(ts), ""))), ShowTokens(Tokens(ts)));
  }

  lemma AddNothing(a: string, b: string)
    requires a + "" == "" + b
    ensures a == b
  {
    assert a + "" == a && "" + b == b;
  }

  /** The document `pprint` gets is what `toxml` writes. */
  lemma DocumentXmlIsDoc(ts: seq<Tree>)
    requires NoTopText(ts)
    ensures DocumentXml(ts) == ShowAll(DocOf(ts))
  {
    hide Show, ToXml, Pieces, Tokens, WrittenAll;
    BodyXml(ts);
    DeclarationText();
    var rest := WrittenAll(Pieces(Tokens(ts), ""));
    assert DocOf(ts)[1..] == rest;
    assert "" + Show(DECLARATION) == Show(DECLARATION);
  }

  lemma DeclarationText()
    ensures Show(DECLARATION) == "<?xml version=\"1.0\" ?>"
  {
  }

  // ----- documents that can be written -----

  predicate GoodMark(m: Markup) {
    Legal(m) && Scannable(m) && Printable(m)
  }

  predicate GoodNode(node: Node) {
    GoodMark(Written(node)) && (node.Plain? ==> !node.mark.Tag?)
  }

  predicate GoodTokens(tokens: seq<Token>) {
    forall i :: 0 <= i < |tokens| && tokens[i].Mark? ==> GoodNode(tokens[i].node)
  }

  /** Every tag, comment and so on of the document is one that the printer is meant for. */
  predicate Writable(ts: seq<Tree>) {
    GoodTokens(Tokens(ts))
  }

  predicate GoodPieces(ps: seq<Piece>) {
    forall i :: 0 <= i < |ps| ==> GoodNode(ps[i].node)
  }

  lemma {:induction false} PiecesGood(tokens: seq<Token>, text: string)
    requires GoodTokens(tokens)
    ensures GoodPieces(Pieces(tokens, text))
  {
    hide GoodNode;
    if tokens != [] {
      assert forall i :: 0 <= i < |tokens[1..]| ==> tokens[1..][i] == tokens[i + 1];
      match tokens[0] {
        case Chars(data) => PiecesGood(tokens[1..], text + data);
        case Mark(node) => PiecesGood(tokens[1..], "");
      }
    }
  }

  lemma NoSuchChar(s: string, pat: string, m: nat)
    requires m < |pat| && pat[m] !in s
    ensures Find(s, pat) == -1
  {
    var k := Find(s, pat);
    if k >= 0 { AtChar(s, pat, k, m); }
  }

  lemma PlainFinds(body: string)
    requires NoAngles(body) && '?' !in body
    ensures Find(body, "?>") == -1 && Find(body, ">") == -1 && Find(body, "<!") == -1
  {
    NoSuchChar(body, "?>", 0);
    NoSuchChar(body, ">", 0);
    NoSuchChar(body, "<!", 0);
  }

  /** An instruction whose target is a word, without brackets and question marks. */
  lemma PlainInstruction(word: string, rest: string)
    requires word != "" && (forall i :: 0 <= i < |word| ==> IsWord(word[i]))
    requires rest != "" && rest[0] == ' ' && NoAngles(rest) && '?' !in rest
    ensures GoodMark(Instruction(word + rest))
  {
    var body := word + rest;
    assert NoAngles(word) && '?' !in word;
    PlainFinds(body);
    assert body[0] == word[0];
    NoMatch(word, rest);
    hide Find, ElemStart;
  }

  lemma NoMatch(word: string, rest: string)
    requires word != "" && (forall i :: 0 <= i < |word| ==> IsWord(word[i]))
    requires rest != "" && rest[0] == ' ' && NoAngles(word + rest)
    ensures ElemStart(Show(Instruction(word + rest))).None?
  {
    var body := word + rest;
    var t := "<?" + body + "?>";
    assert t[1..] == "?" + body + "?>";
    assert t[2..] == word + (rest + "?>");
    WordLenIs(word, rest + "?>");
    NoBracketNoStart(t[1..]);
  }

  lemma {:induction false} WordLenIs(word: string, rest: string)
    requires forall i :: 0 <= i < |word| ==> IsWord(word[i])
    requires rest != "" && !IsWord(rest[0])
    ensures WordLen(word + rest) == |word|
  {
    if word == "" {
      assert word + rest == rest;
    } else {
      assert (word + rest)[1..] == word[1..] + rest;
      WordLenIs(word[1..], rest);
    }
  }

  lemma DeclarationGood()
    ensures GoodMark(DECLARATION)
  {
    var word, rest := "xml", " version=\"1.0\" ";
    assert word + rest == "xml version=\"1.0\" ";
    assert forall i :: 0 <= i < |word| ==> IsWord(word[i]);
    assert NoAngles(rest) && '?' !in rest;
    hide *;
    PlainInstruction(word, rest);
  }

  lemma PieceGood(p: Piece)
    requires GoodNode(p.node)
    ensures GoodSegment(WrittenPiece(p))
  {
    EscapeSafe(p.text);
  }

  lemma DeclarationSegment()
    ensures GoodSegment(Segment("", DECLARATION))
  {
    DeclarationGood();
  }

  lemma GoodBySegments(doc: seq<Segment>)
    requires forall i :: 0 <= i < |doc| ==> GoodSegment(doc[i])
    ensures Good(doc)
  {
    hide Legal, Scannable, Printable, NoAngles;
  }

  lemma DocGood(ts: seq<Tree>)
    requires GoodPieces(Pieces(Tokens(ts), ""))
    ensures Good(DocOf(ts))
  {
    hide Pieces, Tokens, GoodNode, WrittenPiece, GoodSegment;
    DeclarationSegment();
    var ps, doc := Pieces(Tokens(ts), ""), DocOf(ts);
    forall i | 0 <= i < |doc|
      ensures GoodSegment(doc[i])
    {
      assert doc == [Segment("", DECLARATION)] + WrittenAll(ps);
      if i > 0 {
        PieceGood(ps[i - 1]);
        assert doc[i] == WrittenAll(ps)[i - 1] == WrittenPiece(ps[i - 1]);
      }
    }
    hide Good;
    GoodBySegments(doc);
  }

  // ----- parsing -----

  function AttrMap(attrs: seq<Attr>): map<string, string> {
    if attrs == [] then map[] else AttrMap(attrs[1..])[attrs[0].name := Unescape(attrs[0].value)]
  }

  function NodeOf(m: Markup): Node {
    if !m.Tag? then Plain(m)
    else match m.kind
      case Opening => Start(m.name, AttrMap(m.attrs))
      case SelfClosing => Empty(m.name, AttrMap(m.attrs))
      case Closing => End(m.name)
  }

  function ReadAll(doc: seq<Segment>): (r: seq<Piece>)
    ensures |r| == |doc|
    ensures forall i :: 0 <= i < |doc| ==> r[i] == Piece(Unescape(doc[i].text), NodeOf(doc[i].mark))
  {
    if doc == [] then []
    else [Piece(Unescape(doc[0].text), NodeOf(doc[0].mark))] + ReadAll(doc[1..])
  }

  function Inside(e: nat, node: Node): nat {
    if node.Start? then e + 1 else if node.End? && e > 0 then e - 1 else e
  }

  /** Text outside the root element does not make it into the tree. */
  function DropTop(ps: seq<Piece>, e: nat): (r: seq<Piece>)
    ensures |r| == |ps|
  {
    if ps == [] then []
    else [Piece(if e == 0 then "" else ps[0].text, ps[0].node)] + DropTop(ps[1..], Inside(e, ps[0].node))
  }

  predicate IsDeclaration(m: Markup) {
    m.Instruction? && "xml " <= m.body
  }

  lemma DeclarationIsOne()
    ensures IsDeclaration(DECLARATION) && !Prefixed(DECLARATION)
  {
  }

  lemma StylesheetIsNone()
    ensures !IsDeclaration(Instruction("xml-stylesheet href=\"a.css\""))
  {
    assert "xml-stylesheet href=\"a.css\""[3] != "xml "[3];
  }

  /** The document without its declaration. */
  function Body(doc: seq<Segment>): seq<Segment> {
    if doc != [] && IsDeclaration(doc[0].mark) then doc[1..] else doc
  }

  /** `ts` is what the parser makes of `xml`. */
  ghost predicate Parsed(xml: string, ts: seq<Tree>) {
    NoTopText(ts) &&
    exists doc, trailer ::
      Document(xml, doc, trailer) && DropTop(SettleAll(ReadAll(Body(doc))), 0) == Pieces(Tokens(ts), "")
  }

  lemma SameAttrMap(a: seq<Attr>, b: seq<Attr>)
    requires |a| == |b| && forall i :: 0 <= i < |a| ==> a[i].name == b[i].name && a[i].value == b[i].value
    ensures AttrMap(a) == AttrMap(b)
  {
  }

  lemma AttrMapFirst(a: Attr, rest: seq<Attr>)
    ensures AttrMap([a] + rest) == AttrMap(rest)[a.name := Unescape(a.value)]
  {
    assert ([a] + rest)[1..] == rest;
  }

  lemma AttrListFirst(attrs: map<string, string>, n: string, more: seq<string>)
    requires n in attrs && forall m :: m in more ==> m in attrs
    ensures AttrList(attrs, [n] + more) == [Attr(" ", n, Escape(attrs[n]))] + AttrList(attrs, more)
  {
    assert ([n] + more)[1..] == more;
  }

  lemma {:induction false} AttrMapList(attrs: map<string, string>, names: seq<string>)
    requires forall n :: n in names ==> n in attrs
    ensures AttrMap(AttrList(attrs, names)).Keys == set n | n in names
    ensures forall n :: n in names ==> AttrMap(AttrList(attrs, names))[n] == attrs[n]
  {
    hide AttrMap, AttrList, Escape, Unescape;
    if names != [] {
      var n, more := names[0], names[1..];
      assert names == [n] + more;
      AttrMapList(attrs, more);
      UnescapeEscape(attrs[n]);
      AttrListFirst(attrs, n, more);
      AttrMapFirst(Attr(" ", n, Escape(attrs[n])), AttrList(attrs, more));
    } else {
      NoAttrs(attrs);
    }
  }

  lemma NoAttrs(attrs: map<string, string>)
    ensures AttrMap(AttrList(attrs, [])) == map[]
  {
  }

  /** Reading what was written gives the attributes back. */
  lemma AttributesBack(attrs: map<string, string>)
    ensures AttrMap(Attributes(attrs)) == attrs
  {
    var names := Sorting.Sorted(attrs.Keys);
    hide AttrMap, AttrList, Sorting.Sorted;
    AttrMapList(attrs, names);
    assert (set n | n in names) == attrs.Keys;
  }

  /** Reading a written node gives the node back, however it was laid out. */
  lemma NodeBack(node: Node, level: int, width: int)
    requires node.Plain? ==> !node.mark.Tag?
    ensures NodeOf(Relaid(Written(node), level, width)) == node
  {
    var m := Written(node);
    assert Prefixed(m) ==> m.Tag?;
    hide Leads, Prefixed, Spaces, Head, Shown;
    var r := Relaid(m, level, width);
    if m.Tag? {
      SameAttrMap(r.attrs, m.attrs);
      if node.Start? || node.Empty? { AttributesBack(node.attrs); }
    }
  }

  lemma PrintedText(pending: string, t: string, level: int, at: int)
    requires AllBlank(pending)
    ensures Unescape(pending + ContentText(level, Strip(Escape(t))) + Spaces(at))
            == pending + ContentText(level, Strip(t)) + Spaces(at)
  {
    StripEscape(t);
    var u := Strip(t);
    EscapeBlank(pending);
    SpacesAreBlank(at);
    EscapeBlank(Spaces(at));
    EscapedContent(level, u, t);
    EscapeConcat(pending, ContentText(level, u));
    EscapeConcat(pending + ContentText(level, u), Spaces(at));
    UnescapeEscape(pending + ContentText(level, u) + Spaces(at));
  }

  lemma NoEscape(u: string)
    ensures Escape(u) == "" <==> u == ""
  {
    if u != "" { EscapeEnds(u); }
  }

  lemma EscapedContent(level: int, u: string, t: string)
    requires u == Strip(t)
    ensures Escape(ContentText(level, u)) == ContentText(level, Escape(u))
  {
    hide Strip, Spaces, Escape, IsBlank;
    StripTwice(t);
    StripEscape(u);
    NoEscape(u);
    EscapedLine(level, u);
  }

  lemma EscapedLine(level: int, u: string)
    ensures Escape(Spaces(level) + u + "\n") == Spaces(level) + Escape(u) + "\n"
  {
    SpacesAreBlank(level);
    EscapeBlank(Spaces(level));
    assert AllBlank("\n");
    EscapeBlank("\n");
    hide *;
    EscapeConcat(Spaces(level), u);
    EscapeConcat(Spaces(level) + u, "\n");
  }

  /** What the parser reads in the printed file is what was written, up to white space around texts. */
  lemma {:induction false} ReadPretty(ps: seq<Piece>, pending: string, level: int, indent: int, width: int)
    requires GoodPieces(ps) && AllBlank(pending)
    ensures Trim(ReadAll(Pretty(WrittenAll(ps), pending, level, indent, width))) == Trim(ps)
  {
    hide GoodNode, Unescape, Strip, NodeOf, PrettyOne, WrittenPiece, LevelAfter;
    if ps != [] {
      var doc := WrittenAll(ps);
      ReadPrettyOne(ps[0], pending, level, indent, width);
      assert doc[1..] == WrittenAll(ps[1..]) && doc[0] == WrittenPiece(ps[0]);
      var more := Pretty(doc[1..], "\n", LevelAfter(doc[0].mark, level, indent), indent, width);
      assert AllBlank("\n");
      ReadPretty(ps[1..], "\n", LevelAfter(doc[0].mark, level, indent), indent, width);
      var first := PrettyOne(doc[0], pending, level, indent, width);
      assert Pretty(doc, pending, level, indent, width) == [first] + more;
      assert Trim(ps) == [Piece(Strip(ps[0].text), ps[0].node)] + Trim(ps[1..]);
      hide *;
      ReadCons(first, more);
      TrimCons(Piece(Unescape(first.text), NodeOf(first.mark)), ReadAll(more));
    }
  }

  lemma ReadCons(s: Segment, doc: seq<Segment>)
    ensures ReadAll([s] + doc) == [Piece(Unescape(s.text), NodeOf(s.mark))] + ReadAll(doc)
  {
    assert ([s] + doc)[1..] == doc;
  }

  lemma ReadPrettyOne(p: Piece, pending: string, level: int, indent: int, width: int)
    requires GoodNode(p.node) && AllBlank(pending)
    ensures var s := PrettyOne(WrittenPiece(p), pending, level, indent, width);
            Strip(Unescape(s.text)) == Strip(p.text) && NodeOf(s.mark) == p.node
  {
    hide GoodMark, Strip, ContentText, Spaces, Unescape, Relaid, Written;
    var at := LevelAt(Written(p.node), level, indent);
    PrintedText(pending, p.text, level, at);
    StripPrinted(pending, p.text, level, at);
    NodeBack(p.node, at, width);
  }
}
