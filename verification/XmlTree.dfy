/** The settings document as a tree, and what `toxml` writes for it. */
module XmlTree {
  import opened Text
  import opened XmlMarkup
  import opened LinePrinter
  import opened TagLines
  import Sorting

  datatype Tree =
    | Element(tag: string, attrs: map<string, string>, kids: seq<Tree>)
    | CharData(data: string)
    | Other(mark: Markup)

  /** A tag as the reader of a document sees it: attributes by name, entities resolved. */
  datatype Node =
    | Start(tag: string, attrs: map<string, string>)
    | Empty(tag: string, attrs: map<string, string>)
    | End(tag: string)
    | Plain(mark: Markup)

  datatype Token = Chars(data: string) | Mark(node: Node)

  /** The document in reading order. An element without children is written as one empty tag. */
  function Tokens(ts: seq<Tree>): seq<Token> {
    if ts == [] then []
    else
      (match ts[0]
       case CharData(data) => [Chars(data)]
       case Other(mark) => [Mark(Plain(mark))]
       case Element(tag, attrs, kids) =>
         if kids == [] then [Mark(Empty(tag, attrs))]
         else [Mark(Start(tag, attrs))] + Tokens(kids) + [Mark(End(tag))])
      + Tokens(ts[1..])
  }

  /** A node with all the text in front of it. */
  datatype Piece = Piece(text: string, node: Node)

  /** Adjacent texts become one: `pending` is the text collected so far. */
  function Pieces(tokens: seq<Token>, pending: string): seq<Piece> {
    if tokens == [] then []
    else match tokens[0]
      case Chars(data) => Pieces(tokens[1..], pending + data)
      case Mark(node) => [Piece(pending, node)] + Pieces(tokens[1..], "")
  }

  function LastText(tokens: seq<Token>, pending: string): string {
    if tokens == [] then pending
    else match tokens[0]
      case Chars(data) => LastText(tokens[1..], pending + data)
      case Mark(_) => LastText(tokens[1..], "")
  }

  // ----- escaping -----

  function EscapeChar(c: char): string {
    if c == '&' then "&amp;" else if c == '<' then "&lt;" else if c == '"' then "&quot;"
    else if c == '>' then "&gt;" else [c]
  }

  function Escape(s: string): string {
    if s == "" then "" else EscapeChar(s[0]) + Escape(s[1..])
  }

  function Unescape(s: string): string
    decreases |s|
  {
    if s == "" then ""
    else if "&amp;" <= s then "&" + Unescape(s[5..])
    else if "&lt;" <= s then "<" + Unescape(s[4..])
    else if "&quot;" <= s then "\"" + Unescape(s[6..])
    else if "&gt;" <= s then ">" + Unescape(s[4..])
    else [s[0]] + Unescape(s[1..])
  }

  lemma UnescapeFirst(c: char, rest: string)
    ensures Unescape(EscapeChar(c) + rest) == [c] + Unescape(rest)
  {
    var s := EscapeChar(c) + rest;
    assert s[|EscapeChar(c)|..] == rest;
    if c == '&' {
      assert s[..5] == "&amp;";
    } else if c == '<' {
      assert s[..4] == "&lt;" && s[1] == 'l';
    } else if c == '"' {
      assert s[..6] == "&quot;" && s[1] == 'q';
    } else if c == '>' {
      assert s[..4] == "&gt;" && s[1] == 'g';
    } else {
      assert s[0] == c;
    }
  }

  /** Escaping loses nothing. */
  lemma {:induction false} UnescapeEscape(s: string)
    ensures Unescape(Escape(s)) == s
  {
    if s != "" {
      UnescapeFirst(s[0], Escape(s[1..]));
      UnescapeEscape(s[1..]);
    }
  }

  /** Escaped strings have no brackets and no quotes. */
  lemma {:induction false} EscapeSafe(s: string)
    ensures NoAngles(Escape(s)) && '"' !in Escape(s)
  {
    if s != "" { EscapeSafe(s[1..]); }
  }

  lemma {:induction false} EscapeConcat(a: string, b: string)
    ensures Escape(a + b) == Escape(a) + Escape(b)
  {
    if a == "" {
      assert a + b == b;
    } else {
      assert (a + b)[1..] == a[1..] + b;
      EscapeConcat(a[1..], b);
      Assoc(EscapeChar(a[0]), Escape(a[1..]), Escape(b));
    }
  }

  lemma {:induction false} EscapeBlank(s: string)
    requires AllBlank(s)
    ensures Escape(s) == s
  {
    if s != "" {
      assert IsBlank(s[0]);
      EscapeBlank(s[1..]);
      assert s == [s[0]] + s[1..];
    }
  }

  lemma EscapeEnds(s: string)
    requires s != ""
    ensures Escape(s) != "" && (IsBlank(Escape(s)[0]) <==> IsBlank(s[0]))
    ensures IsBlank(Escape(s)[|Escape(s)| - 1]) <==> IsBlank(s[|s| - 1])
  {
    var z := s[|s| - 1];
    assert s == s[..|s| - 1] + [z];
    EscapeConcat(s[..|s| - 1], [z]);
    assert Escape([z]) == EscapeChar(z) + "";
    LastOf(Escape(s[..|s| - 1]), EscapeChar(z));
    LastOfEscape(z);
    LastOfEscape(s[0]);
    assert Escape(s)[0] == EscapeChar(s[0])[0];
  }

  lemma LastOfEscape(c: char)
    ensures var e := EscapeChar(c);
            e != "" && (IsBlank(e[0]) <==> IsBlank(c)) && (IsBlank(e[|e| - 1]) <==> IsBlank(c))
  {
  }

  /** Stripping and escaping can be done in either order. */
  lemma StripEscape(s: string)
    ensures Strip(Escape(s)) == Escape(Strip(s))
  {
    hide Strip, IsBlank;
    var a, b := StripParts(s);
    var t := Strip(s);
    EscapeConcat(a + t, b);
    EscapeConcat(a, t);
    EscapeBlank(a);
    EscapeBlank(b);
    if t != "" { EscapeEnds(t); }
    StripUnique(a, Escape(t), b);
  }

  // ----- toxml -----

  /** Attributes as written: a space, the name, the escaped value, for the names in turn. */
  function AttrList(attrs: map<string, string>, names: seq<string>): (r: seq<Attr>)
    requires forall n :: n in names ==> n in attrs
    ensures |r| == |names|
    ensures forall i :: 0 <= i < |names| ==> r[i] == Attr(" ", names[i], Escape(attrs[names[i]]))
  {
    if names == [] then []
    else [Attr(" ", names[0], Escape(attrs[names[0]]))] + AttrList(attrs, names[1..])
  }

  /** `toxml` writes the attributes in the order of their names. */
  function Attributes(attrs: map<string, string>): seq<Attr> {
    AttrList(attrs, Sorting.Sorted(attrs.Keys))
  }

  function Written(node: Node): Markup {
    match node
    case Start(tag, attrs) => Tag(Opening, tag, Attributes(attrs), "")
    case Empty(tag, attrs) => Tag(SelfClosing, tag, Attributes(attrs), "")
    case End(tag) => Tag(Closing, tag, [], "")
    case Plain(mark) => mark
  }

  function WrittenPiece(p: Piece): Segment {
    Segment(Escape(p.text), Written(p.node))
  }

  function WrittenAll(ps: seq<Piece>): (r: seq<Segment>)
    ensures |r| == |ps| && forall i :: 0 <= i < |ps| ==> r[i] == WrittenPiece(ps[i])
  {
    hide WrittenPiece;
    if ps == [] then [] else [WrittenPiece(ps[0])] + WrittenAll(ps[1..])
  }

  /** `toxml`, node by node. */
  function ToXml(ts: seq<Tree>): string {
    if ts == [] then ""
    else
      (match ts[0]
       case CharData(data) => Escape(data)
       case Other(mark) => Show(mark)
       case Element(tag, attrs, kids) =>
         "<" + tag + ShowAttrs(Attributes(attrs))
         + (if kids == [] then "/>" else ">" + ToXml(kids) + "</" + tag + ">"))
      + ToXml(ts[1..])
  }

  function ShowTokens(tokens: seq<Token>): string {
    if tokens == [] then ""
    else (match tokens[0] case Chars(data) => Escape(data) case Mark(node) => Show(Written(node)))
         + ShowTokens(tokens[1..])
  }

  lemma {:induction false} ShowTokensAppend(a: seq<Token>, b: seq<Token>)
    ensures ShowTokens(a + b) == ShowTokens(a) + ShowTokens(b)
  {
    if a == [] {
      assert a + b == b;
    } else {
      assert (a + b)[1..] == a[1..] + b;
      ShowTokensAppend(a[1..], b);
    }
  }

  lemma ShowOneToken(node: Node)
    ensures ShowTokens([Mark(node)]) == Show(Written(node))
  {
    assert ShowTokens([Mark(node)][1..]) == "";
  }

  lemma ShowStart(tag: string, attrs: map<string, string>)
    ensures Show(Written(Start(tag, attrs))) == "<" + tag + ShowAttrs(Attributes(attrs)) + ">"
    ensures Show(Written(Empty(tag, attrs))) == "<" + tag + ShowAttrs(Attributes(attrs)) + "/>"
  {
    assert "<" + "" == "<";
    var a := "<" + tag + ShowAttrs(Attributes(attrs));
    assert a + "" == a;
  }

  lemma ShowEnd(tag: string)
    ensures Show(Written(End(tag))) == "</" + tag + ">"
  {
    assert "<" + "/" == "</";
    assert "</" + tag + "" + "" == "</" + tag;
  }

  /** `toxml` writes the document in reading order. */
  lemma {:induction false} ToXmlIsTokens(ts: seq<Tree>)
    ensures ToXml(ts) == ShowTokens(Tokens(ts))
  {
    if ts != [] {
      ToXmlIsTokens(ts[1..]);
      ShowTokensAppend(Tokens([ts[0]]), Tokens(ts[1..]));
      TokensFirst(ts);
      ToXmlFirst(ts);
      match ts[0] {
        case CharData(data) =>
          assert Tokens([ts[0]]) == [Chars(data)];
          assert ShowTokens([Chars(data)]) == Escape(data) + ShowTokens([Chars(data)][1..]);
        case Other(mark) =>
          assert Tokens([ts[0]]) == [Mark(Plain(mark))];
          ShowOneToken(Plain(mark));
        case Element(tag, attrs, kids) =>
          ToXmlIsTokens(kids);
          ElementTokens(tag, attrs, kids);
      }
    }
  }

  lemma TokensFirst(ts: seq<Tree>)
    requires ts != []
    ensures Tokens(ts) == Tokens([ts[0]]) + Tokens(ts[1..])
  {
    assert Tokens([ts[0]][1..]) == [];
  }

  lemma ToXmlFirst(ts: seq<Tree>)
    requires ts != []
    ensures ToXml(ts) == ToXml([ts[0]]) + ToXml(ts[1..])
  {
    hide Attributes, Escape, ShowAttrs, Show;
    assert [ts[0]][1..] == [];
    assert ToXml([]) == "";
  }

  lemma ElementTokens(tag: string, attrs: map<string, string>, kids: seq<Tree>)
    ensures ShowTokens(Tokens([Element(tag, attrs, kids)]))
            == "<" + tag + ShowAttrs(Attributes(attrs))
               + (if kids == [] then "/>" else ">" + ShowTokens(Tokens(kids)) + "</" + tag + ">")
  {
    hide ShowTokens, Show, ShowAttrs, Attributes, Written;
    var t := Element(tag, attrs, kids);
    assert Tokens([t][1..]) == [];
    ShowStart(tag, attrs);
    if kids == [] {
      assert Tokens([t]) == [Mark(Empty(tag, attrs))];
      ShowOneToken(Empty(tag, attrs));
    } else {
      assert Tokens([t]) == [Mark(Start(tag, attrs))] + Tokens(kids) + [Mark(End(tag))];
      ShowTokensAppend([Mark(Start(tag, attrs))] + Tokens(kids), [Mark(End(tag))]);
      ShowTokensAppend([Mark(Start(tag, attrs))], Tokens(kids));
      ShowOneToken(Start(tag, attrs));
      ShowOneToken(End(tag));
      ShowEnd(tag);
      Enclose("<" + tag + ShowAttrs(Attributes(attrs)), ShowTokens(Tokens(kids)), "</" + tag, ">");
      assert "</" + tag + ">" == "</" + (tag + ">");
    }
  }

  lemma Enclose(a: string, k: string, e: string, g: string)
    ensures a + ">" + k + (e + g) == a + (">" + k + (e + g))
  {
  }

  /** The text of the pieces is the text of the tokens. */
  lemma {:induction false} ShowPieces(tokens: seq<Token>, pending: string)
    ensures ShowAll(WrittenAll(Pieces(tokens, pending))) + Escape(LastText(tokens, pending))
            == Escape(pending) + ShowTokens(tokens)
  {
    if tokens == [] {
      assert "" + Escape(pending) == Escape(pending) + "";
    } else {
      var more := tokens[1..];
      match tokens[0] {
        case Chars(data) =>
          ShowPieces(more, pending + data);
          EscapeConcat(pending, data);
          Assoc(Escape(pending), Escape(data), ShowTokens(more));
        case Mark(node) =>
          ShowPieces(more, "");
          var ps := Pieces(more, "");
          assert ([Piece(pending, node)] + ps)[1..] == ps;
          assert WrittenAll([Piece(pending, node)] + ps) == [WrittenPiece(Piece(pending, node))] + WrittenAll(ps);
          var s := WrittenPiece(Piece(pending, node));
          assert ([s] + WrittenAll(ps))[1..] == WrittenAll(ps);
          Assoc(Escape(pending) + Show(Written(node)), ShowAll(WrittenAll(ps)), Escape(LastText(more, "")));
          Assoc(Escape(pending), Show(Written(node)), ShowTokens(more));
          assert "" + ShowTokens(more) == ShowTokens(more);
      }
    }
  }
}
