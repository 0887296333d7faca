/** Reading a document back does not make it one that cannot be printed, as long as no instruction has a
    carriage return in it. */
module StillWritable {
  import opened Text
  import opened XmlMarkup
  import opened Scanner
  import opened LinePrinter
  import opened TagLines
  import opened XmlTree
  import opened TunerTree
  import opened TunerTokens
  import opened TunerPieces
  import opened Settling
  import opened SavedFile
  import Sorting

  // ----- tags -----

  lemma SettledList(attrs: map<string, string>)
    ensures |Attributes(SettleMap(attrs))| == |Attributes(attrs)|
    ensures forall i :: 0 <= i < |Attributes(attrs)| ==>
              var a := Attributes(SettleMap(attrs))[i];
              a.lead == " " && a.name == Attributes(attrs)[i].name && a.name in attrs
                  && a.value == Escape(Flat(attrs[a.name]))
  {
    hide Escape, Flat, Sorting.Sorted, Sorting.Below;
    var names := Sorting.Sorted(attrs.Keys);
    assert SettleMap(attrs).Keys == attrs.Keys;
    assert forall i :: 0 <= i < |names| ==> names[i] in names;
  }

  lemma FlatValue(v: string)
    ensures var e := Escape(Flat(v)); NoAngles(e) && '"' !in e && '\n' !in e
  {
    EscapeSafe(Flat(v));
    FlatEscape(v);
    FlatIsFlat(Escape(v));
  }

  lemma SettledAttrs(attrs: map<string, string>)
    requires GoodAttrs(Attributes(attrs))
    ensures GoodAttrs(Attributes(SettleMap(attrs)))
    ensures forall i :: 0 <= i < |Attributes(SettleMap(attrs))| ==> '\n' !in Attributes(SettleMap(attrs))[i].value
    ensures Attributes(SettleMap(attrs)) == [] <==> Attributes(attrs) == []
  {
    SettledList(attrs);
    hide GoodName, Escape, Flat, NoAngles, Attributes, SettleMap;
    var list := Attributes(SettleMap(attrs));
    forall i | 0 <= i < |list|
      ensures GoodAttr(list[i]) && '\n' !in list[i].value
    {
      assert GoodAttr(Attributes(attrs)[i]);
      FlatValue(attrs[list[i].name]);
    }
  }

  lemma SettledTag(kind: Kind, tag: string, attrs: map<string, string>)
    requires var m := Tag(kind, tag, Attributes(attrs), ""); Legal(m) && Printable(m)
    ensures var m := Tag(kind, tag, Attributes(SettleMap(attrs)), ""); Legal(m) && Printable(m)
  {
    SettledAttrs(attrs);
    hide Attributes, SettleMap, GoodAttrs, GoodName, ElemStartLen;
    var a, b := Tag(kind, tag, Attributes(attrs), ""), Tag(kind, tag, Attributes(SettleMap(attrs)), "");
    assert Head(a) == Head(b);
    if a.attrs == [] { assert b == a; }
  }

  // ----- other markup -----

  lemma EndLinesFirst(s: string, c: char)
    requires s != "" && c != '\n' && c != '\r'
    ensures EndLines(s) != "" && (EndLines(s)[0] == c <==> s[0] == c)
  {
    EndLinesSome(s);
    EndLinesPrefixChar(s, c);
    if EndLines(s)[0] == c { assert EndLines(s)[..1] == [c]; }
    if s[0] == c { assert s[..1] == [c]; }
  }

  lemma {:induction false} EndLinesPrefixChar(s: string, c: char)
    requires c != '\n' && c != '\r'
    ensures [c] <= EndLines(s) <==> [c] <= s
  {
    if s != "" { EndLinesPrefixChar(s[1..], c); }
  }

  lemma EndLinesLast(s: string)
    requires s != "" && s[|s| - 1] != '-'
    ensures EndLines(s) != "" && EndLines(s)[|EndLines(s)| - 1] != '-'
  {
    var z := s[|s| - 1];
    assert s == s[..|s| - 1] + [z];
    EndLinesSome(s);
    EndLinesEnd(s[..|s| - 1], z);
  }

  lemma {:induction false} EndLinesEnd(a: string, z: char)
    requires z != '-'
    ensures EndLines(a + [z]) != "" && EndLines(a + [z])[|EndLines(a + [z])| - 1] != '-'
  {
    var s := a + [z];
    if a == "" {
      assert s[1..] == "";
    } else {
      assert s[1..] == a[1..] + [z];
      EndLinesEnd(a[1..], z);
    }
  }

  lemma GlimpseEndLines(body: string)
    ensures Glimpse(EndLines(body)) == EndLines(Glimpse(body))
  {
    var k := Find(body, ">");
    if k < 0 {
      EndLinesFind(body, ">");
    } else {
      AtChar(body, ">", k, 0);
      BeforeFirstClose(body);
      var g, r := body[..k], body[k + 1..];
      assert body == g + (">" + r);
      EndLinesConcat(g, ">" + r);
      assert EndLines(">" + r) == ">" + EndLines(r) by { assert (">" + r)[1..] == r; }
      NoCloseInLines(g);
      var t := EndLines(g) + (">" + EndLines(r));
      FindChar(t, '>', |EndLines(g)|);
      assert t[..|EndLines(g)|] == EndLines(g);
    }
  }

  lemma BeforeFirstClose(body: string)
    requires Find(body, ">") >= 0
    ensures '>' !in body[..Find(body, ">")]
  {
    var k := Find(body, ">");
    if i :| 0 <= i < k && body[i] == '>' {
      assert body[i..i + 1] == ">";
      FindFirst(body, ">", i);
    }
  }

  lemma {:induction false} NoCloseInLines(s: string)
    requires '>' !in s
    ensures '>' !in EndLines(s)
  {
    if s != "" {
      assert s[0] in s && forall c :: c in s[1..] ==> c in s;
      NoCloseInLines(s[1..]);
    }
  }

  lemma DashClosePrefix(body: string)
    ensures |body| > 1 && body[0] == '-' && body[1] == '>' <==> "->" <= body
  {
    if "->" <= body { assert body[..2] == "->"; }
    if |body| > 1 && body[0] == '-' && body[1] == '>' { assert body[..2] == "->"; }
  }

  lemma SettledComment(body: string)
    requires Legal(Comment(body)) && Scannable(Comment(body))
    ensures Legal(Comment(EndLines(body))) && Scannable(Comment(EndLines(body)))
  {
    NoWhitePatterns();
    hide Find, EndLines, Glimpse;
    EndLinesFind(body, "--");
    GlimpseEndLines(body);
    EndLinesFind(Glimpse(body), "<![CDATA[");
    EndLinesPrefix(body, "->");
    DashClosePrefix(body);
    DashClosePrefix(EndLines(body));
    if body != "" {
      EndLinesLast(body);
      EndLinesFirst(body, '>');
    } else {
      NoLines();
    }
  }

  lemma NoWhitePatterns()
    ensures NoWhite("--") && NoWhite("<![CDATA[") && NoWhite("->") && NoWhite("]]>")
  {
  }

  lemma NoLines()
    ensures EndLines("") == ""
  {
  }

  lemma SettledCData(body: string)
    requires Legal(CData(body))
    ensures Legal(CData(EndLines(body)))
  {
    NoWhitePatterns();
    hide Find, EndLines;
    EndLinesFind(body, "]]>");
  }

  // ----- nodes and documents -----

  /** No instruction is changed by reading it. */
  predicate SameInstruction(node: Node) {
    node.Plain? && node.mark.Instruction? ==> '\r' !in node.mark.body
  }

  lemma SettledGood(node: Node)
    requires GoodNode(node) && SameInstruction(node)
    ensures GoodNode(SettleNode(node))
  {
    hide Legal, Scannable, Printable, Attributes, SettleMap, EndLines;
    match node {
      case Start(tag, attrs) =>
        SettledTag(Opening, tag, attrs);
        TagsScan(Tag(Opening, tag, Attributes(SettleMap(attrs)), ""));
      case Empty(tag, attrs) =>
        SettledTag(SelfClosing, tag, attrs);
        TagsScan(Tag(SelfClosing, tag, Attributes(SettleMap(attrs)), ""));
      case End(_) =>
      case Plain(mark) =>
        match mark {
          case Comment(body) =>
            SettledComment(body);
            CommentsPrint(EndLines(body));
          case CData(body) =>
            SettledCData(body);
            CommentsPrint(EndLines(body));
          case Instruction(body) => EndLinesKeeps(body);
          case Tag(_, _, _, _) =>
        }
    }
  }

  lemma TagsScan(m: Markup)
    requires m.Tag?
    ensures Scannable(m)
  {
  }

  lemma CommentsPrint(body: string)
    ensures Printable(Comment(body)) && Printable(CData(body)) && Scannable(CData(body))
  {
  }

  /** No instruction of the document has a carriage return. */
  predicate NoReturns(ts: seq<Tree>) {
    ts == [] ||
    ((match ts[0]
      case Element(_, _, kids) => NoReturns(kids)
      case CharData(_) => true
      case Other(mark) => mark.Instruction? ==> '\r' !in mark.body)
     && NoReturns(ts[1..]))
  }

  lemma {:induction false} NoReturnsAppend(a: seq<Tree>, b: seq<Tree>)
    ensures NoReturns(a + b) <==> NoReturns(a) && NoReturns(b)
  {
    if a == [] {
      assert a + b == b;
    } else {
      assert (a + b)[1..] == a[1..] + b;
      NoReturnsAppend(a[1..], b);
    }
  }

  lemma {:induction false} NoReturnsFresh(new_: seq<Tree>)
    requires Fresh(new_)
    ensures NoReturns(new_)
  {
    hide IsOld;
    if new_ != [] {
      NoReturnsFresh(new_[1..]);
      assert NoReturns(new_[0].kids);
    }
  }

  lemma {:induction false} NoReturnsRemove(ts: seq<Tree>, inside: bool)
    requires NoReturns(ts)
    ensures NoReturns(RemoveOld(ts, inside))
  {
    hide IsOld;
    if ts != [] {
      NoReturnsRemove(ts[1..], inside);
      if ts[0].Element? { NoReturnsRemove(ts[0].kids, inside || ts[0].tag == "category"); }
    }
  }

  lemma {:induction false} NoReturnsAdd(ts: seq<Tree>, new_: seq<Tree>)
    requires NoReturns(ts) && Fresh(new_)
    ensures NoReturns(AddNew(ts, new_))
  {
    hide HasMarker, Fresh;
    if ts != [] {
      NoReturnsAdd(ts[1..], new_);
      if ts[0].Element? {
        var kids := ts[0].kids;
        NoReturnsAdd(kids, new_);
        NoReturnsFresh(new_);
        NoReturnsAppend(AddNew(kids, new_), new_);
        assert AddNew(kids, new_) + [] == AddNew(kids, new_);
      }
    }
  }

  predicate SameInstructions(ps: seq<Piece>) {
    forall i :: 0 <= i < |ps| ==> SameInstruction(ps[i].node)
  }

  predicate SameTokens(tokens: seq<Token>) {
    forall i :: 0 <= i < |tokens| && tokens[i].Mark? ==> SameInstruction(tokens[i].node)
  }

  lemma {:induction false} SamePieces(tokens: seq<Token>, text: string)
    requires SameTokens(tokens)
    ensures SameInstructions(Pieces(tokens, text))
  {
    hide SameInstruction;
    if tokens != [] {
      assert forall i :: 0 <= i < |tokens[1..]| ==> tokens[1..][i] == tokens[i + 1];
      match tokens[0] {
        case Chars(data) => SamePieces(tokens[1..], text + data);
        case Mark(node) => SamePieces(tokens[1..], "");
      }
    }
  }

  lemma {:induction false} NoReturnsTokens(ts: seq<Tree>)
    requires NoReturns(ts)
    ensures SameTokens(Tokens(ts))
    decreases ts
  {
    if ts != [] {
      TokensFirst(ts);
      NoReturnsTokens(ts[1..]);
      match ts[0] {
        case Element(tag, attrs, kids) =>
          TokensOne(tag, attrs, kids);
          if kids != [] { NoReturnsTokens(kids); }
        case CharData(_) => TokensLeaf(ts[0]);
        case Other(_) => TokensLeaf(ts[0]);
      }
    }
  }

  /** Tokens are good if the nodes of their pieces are. */
  lemma {:induction false} GoodByPieces(tokens: seq<Token>, text: string)
    requires GoodPieces(Pieces(tokens, text))
    ensures GoodTokens(tokens)
  {
    hide GoodNode;
    if tokens != [] {
      match tokens[0] {
        case Chars(data) => GoodByPieces(tokens[1..], text + data);
        case Mark(node) =>
          var ps := Pieces(tokens, text);
          assert ps[0].node == node && ps[1..] == Pieces(tokens[1..], "");
          assert forall i :: 0 <= i < |ps[1..]| ==> ps[1..][i] == ps[i + 1];
          GoodByPieces(tokens[1..], "");
      }
    }
  }

  /** What looks like a document that can be printed, read back, can be printed. */
  lemma ReadWritable(ts: seq<Tree>, again: seq<Tree>)
    requires Writable(ts) && NoReturns(ts) && View(again) == SettleAll(View(ts))
    ensures Writable(again)
  {
    PiecesGood(Tokens(ts), "");
    NoReturnsTokens(ts);
    SamePieces(Tokens(ts), "");
    hide GoodNode, SameInstruction, Pieces, Tokens, SettleNode, Strip, EndLines;
    var p, q := Pieces(Tokens(ts), ""), Pieces(Tokens(again), "");
    assert |q| == |View(again)| == |View(ts)| == |p|;
    forall i | 0 <= i < |q|
      ensures GoodNode(q[i].node)
    {
      assert q[i].node == View(again)[i].node == SettleNode(View(ts)[i].node) == SettleNode(p[i].node);
      SettledGood(p[i].node);
    }
    GoodByPieces(Tokens(again), "");
  }
}
