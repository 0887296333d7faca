/** A second refresh with the same tuners writes the same file
    (packages/addons/official/driver/hdhomerun/source/resources/lib/functions.py). */
module RefreshLaws {
  import opened Text
  import opened XmlMarkup
  import opened LinePrinter
  import opened TagLines
  import opened PrettyPrinter
  import opened PrintLaws
  import opened Nesting
  import opened XmlTree
  import opened TunerTree
  import opened TunerTokens
  import opened TunerPieces
  import opened Settling
  import opened SavedFile
  import opened StillWritable

  // ----- text outside the root -----

  lemma {:induction false} PiecesAppend(a: seq<Token>, b: seq<Token>, text: string)
    ensures Pieces(a + b, text) == Pieces(a, text) + Pieces(b, LastText(a, text))
  {
    if a == [] {
      assert a + b == b;
    } else {
      assert (a + b)[1..] == a[1..] + b;
      match a[0] {
        case Chars(data) => PiecesAppend(a[1..], b, text + data);
        case Mark(node) => PiecesAppend(a[1..], b, "");
      }
    }
  }

  function InsideAfter(ps: seq<Piece>, e: nat): nat {
    if ps == [] then e else InsideAfter(ps[1..], Inside(e, ps[0].node))
  }

  lemma {:induction false} DropAppend(a: seq<Piece>, b: seq<Piece>, e: nat)
    ensures DropTop(a + b, e) == DropTop(a, e) + DropTop(b, InsideAfter(a, e))
    ensures InsideAfter(a + b, e) == InsideAfter(b, InsideAfter(a, e))
  {
    if a == [] {
      assert a + b == b;
    } else {
      assert (a + b)[1..] == a[1..] + b;
      DropAppend(a[1..], b, Inside(e, a[0].node));
    }
  }

  lemma DropOne(p: Piece, e: nat)
    ensures DropTop([p], e) == [Piece(if e == 0 then "" else p.text, p.node)]
    ensures InsideAfter([p], e) == Inside(e, p.node)
  {
    assert [p][1..] == [];
  }

  /** Below the root no text is dropped. */
  lemma {:induction false} NothingDropped(ts: seq<Tree>, text: string, e: nat)
    requires e > 0 || (text == "" && NoTopText(ts))
    ensures DropTop(Pieces(Tokens(ts), text), e) == Pieces(Tokens(ts), text)
    ensures InsideAfter(Pieces(Tokens(ts), text), e) == e
    ensures e == 0 ==> LastText(Tokens(ts), text) == ""
    decreases ts, 0
  {
    if ts != [] {
      var a, b := Tokens([ts[0]]), Tokens(ts[1..]);
      TokensFirst(ts);
      PiecesAppend(a, b, text);
      LastTextAppend(a, b, text);
      OneNotDropped(ts[0], text, e);
      NothingDropped(ts[1..], LastText(a, text), e);
      DropAppend(Pieces(a, text), Pieces(b, LastText(a, text)), e);
    }
  }

  lemma OneMark(node: Node, text: string)
    ensures Pieces([Mark(node)], text) == [Piece(text, node)] && LastText([Mark(node)], text) == ""
  {
    assert [Mark(node)][1..] == [];
  }

  /** An element around tokens of which nothing is dropped. */
  lemma {:induction false} AroundNotDropped(tag: string, attrs: map<string, string>, inner: seq<Token>, text: string,
                                            e: nat)
    requires e > 0 || text == ""
    requires DropTop(Pieces(inner, ""), e + 1) == Pieces(inner, "") && InsideAfter(Pieces(inner, ""), e + 1) == e + 1
    ensures var all := [Mark(Start(tag, attrs))] + inner + [Mark(End(tag))];
            var ps := Pieces(all, text);
            DropTop(ps, e) == ps && InsideAfter(ps, e) == e && LastText(all, text) == ""
  {
    hide DropTop, InsideAfter, Pieces, LastText;
    var open, close := [Mark(Start(tag, attrs))], [Mark(End(tag))];
    var last := LastText(inner, "");
    OneMark(Start(tag, attrs), text);
    OneMark(End(tag), last);
    DropOne(Piece(text, Start(tag, attrs)), e);
    DropOne(Piece(last, End(tag)), e + 1);
    PiecesAppend(open + inner, close, text);
    PiecesAppend(open, inner, text);
    LastTextAppend(open, inner, text);
    LastTextAppend(open + inner, close, text);
    DropAppend(Pieces(open, text) + Pieces(inner, ""), Pieces(close, last), e);
    DropAppend(Pieces(open, text), Pieces(inner, ""), e);
  }

  lemma NothingOfText(data: string, text: string, e: nat)
    ensures var ps := Pieces([Chars(data)], text);
            ps == [] && DropTop(ps, e) == ps && InsideAfter(ps, e) == e
  {
    assert [Chars(data)][1..] == [];
  }

  lemma {:induction false} OneNotDropped(t: Tree, text: string, e: nat)
    requires e > 0 || (text == "" && !t.CharData?)
    ensures var ps := Pieces(Tokens([t]), text);
            DropTop(ps, e) == ps && InsideAfter(ps, e) == e && (e == 0 ==> LastText(Tokens([t]), text) == "")
    decreases t, 0
  {
    hide DropTop, InsideAfter, Pieces, LastText, Tokens;
    match t {
      case CharData(data) =>
        TokensLeaf(t);
        NothingOfText(data, text, e);
      case Other(mark) =>
        TokensLeaf(t);
        OneMark(Plain(mark), text);
        DropOne(Piece(text, Plain(mark)), e);
      case Element(tag, attrs, kids) =>
        TokensOne(tag, attrs, kids);
        if kids == [] {
          OneMark(Empty(tag, attrs), text);
          DropOne(Piece(text, Empty(tag, attrs)), e);
        } else {
          NothingDropped(kids, "", e + 1);
          AroundNotDropped(tag, attrs, Tokens(kids), text, e);
        }
    }
  }

  lemma {:induction false} TrimDrop(a: seq<Piece>, b: seq<Piece>, e: nat)
    requires Trim(a) == Trim(b)
    ensures Trim(DropTop(a, e)) == Trim(DropTop(b, e))
  {
    TrimFirst(a, b);
    if a != [] {
      var x := if e == 0 then "" else a[0].text;
      var y := if e == 0 then "" else b[0].text;
      TrimDrop(a[1..], b[1..], Inside(e, a[0].node));
      TrimCons(Piece(x, a[0].node), DropTop(a[1..], Inside(e, a[0].node)));
      TrimCons(Piece(y, b[0].node), DropTop(b[1..], Inside(e, b[0].node)));
    }
  }

  // ----- reading the saved file -----

  /** The layout of the saved file, without its first line. */
  function SavedBody(ts: seq<Tree>): seq<Segment> {
    Pretty(WrittenAll(Pieces(Tokens(ts), "")), "\n", 0, 2, 80)
  }

  lemma PrettyCons(m: Markup, rest: seq<Segment>, level: int, indent: int, width: int)
    requires !m.Tag?
    ensures var p := Pretty([Segment("", m)] + rest, "", level, indent, width);
            p != [] && p[0].mark == m && p[1..] == Pretty(rest, "\n", level, indent, width)
  {
    assert ([Segment("", m)] + rest)[1..] == rest;
  }

  lemma PrettyOfDoc(ts: seq<Tree>)
    ensures Body(Pretty(DocOf(ts), "", 0, 2, 80)) == SavedBody(ts)
  {
    DeclarationIsOne();
    PrettyCons(DECLARATION, WrittenAll(Pieces(Tokens(ts), "")), 0, 2, 80);
    hide Pretty, IsDeclaration, Tokens, Pieces, WrittenAll;
  }

  /** Where text is dropped does not depend on settling. */
  lemma {:induction false} DropSettle(ps: seq<Piece>, e: nat)
    ensures DropTop(SettleAll(ps), e) == SettleAll(DropTop(ps, e))
  {
    hide SettleNode;
    if ps != [] {
      SameDecisions(ps[0].node);
      var s := SettleAll(ps);
      assert s[0] == SettlePiece(ps[0]) && s[1..] == SettleAll(ps[1..]);
      DropSettle(ps[1..], Inside(e, ps[0].node));
      SettleCons(Piece(if e == 0 then "" else ps[0].text, ps[0].node), DropTop(ps[1..], Inside(e, ps[0].node)));
      assert EndLines("") == "";
    }
  }

  lemma ReadBodyLooksSaved(ts: seq<Tree>)
    requires NoTopText(ts) && Writable(ts)
    ensures Trim(DropTop(SettleAll(ReadAll(SavedBody(ts))), 0)) == SettleAll(View(ts))
  {
    PiecesGood(Tokens(ts), "");
    assert AllBlank("\n");
    hide Pieces, Tokens, Trim, DropTop, ReadAll, SettleAll, GoodPieces, Pretty, AllBlank;
    var ps, read := Pieces(Tokens(ts), ""), ReadAll(SavedBody(ts));
    ReadPretty(ps, "\n", 0, 2, 80);
    TrimSettle(read);
    TrimSettle(ps);
    TrimDrop(SettleAll(read), SettleAll(ps), 0);
    DropSettle(ps, 0);
    NothingDropped(ts, "", 0);
  }

  lemma SavedLayout(ts: seq<Tree>, doc: seq<Segment>, trailer: string)
    requires NoTopText(ts) && Writable(ts) && Document(Saved(ts), doc, trailer)
    ensures Body(doc) == SavedBody(ts)
  {
    PiecesGood(Tokens(ts), "");
    DocGood(ts);
    ReadBack(DocOf(ts), 2, 80, doc, trailer);
    PrettyOfDoc(ts);
  }

  /** Whatever is parsed from a saved file looks like what was saved, settled: so it looks like what was
      saved exactly when that is steady. */
  lemma ParsedLooksSaved(ts: seq<Tree>, again: seq<Tree>)
    requires NoTopText(ts) && Writable(ts) && Parsed(Saved(ts), again)
    ensures View(again) == SettleAll(View(ts))
    ensures View(again) == View(ts) <==> SteadyDocument(ts)
  {
    hide Document, Writable, DropTop, ReadAll, SettleAll, Body, Pieces, Tokens, Trim, Saved, Steady;
    var doc, trailer :| Document(Saved(ts), doc, trailer)
                        && DropTop(SettleAll(ReadAll(Body(doc))), 0) == Pieces(Tokens(again), "");
    SavedLayout(ts, doc, trailer);
    ReadBodyLooksSaved(ts);
    SteadyExactly(View(ts));
  }

  lemma {:induction false} SameViewSameCanon(a: seq<Piece>, b: seq<Piece>)
    requires Trim(a) == Trim(b)
    ensures Canon(WrittenAll(a)) == Canon(WrittenAll(b))
  {
    TrimFirst(a, b);
    if a != [] {
      SameViewSameCanon(a[1..], b[1..]);
      StripEscape(a[0].text);
      StripEscape(b[0].text);
      assert WrittenAll(a)[1..] == WrittenAll(a[1..]) && WrittenAll(b)[1..] == WrittenAll(b[1..]);
      assert CanonOne(WrittenPiece(a[0])) == CanonOne(WrittenPiece(b[0]));
    }
  }

  /** Documents that look the same are saved as the same file. */
  lemma SameViewSameFile(a: seq<Tree>, b: seq<Tree>)
    requires View(a) == View(b)
    ensures Saved(a) == Saved(b)
  {
    var x, y := WrittenAll(Pieces(Tokens(a), "")), WrittenAll(Pieces(Tokens(b), ""));
    SameViewSameCanon(Pieces(Tokens(a), ""), Pieces(Tokens(b), ""));
    assert DocOf(a)[1..] == x && DocOf(b)[1..] == y;
    RenderByCanon(DocOf(a), DocOf(b), 0, 2, 80);
  }

  lemma CanonAttributes(attrs: seq<Attr>)
    requires forall i :: 0 <= i < |attrs| ==> attrs[i].lead == " "
    ensures CanonAttrs(attrs) == attrs
  {
  }

  lemma CanonWritten(node: Node)
    requires node.Plain? ==> !node.mark.Tag?
    ensures CanonMark(Written(node)) == Written(node)
  {
    var m := Written(node);
    hide Prefixed;
    if m.Tag? { CanonAttributes(m.attrs); }
    NotPrefixed(m);
  }

  lemma NotPrefixed(m: Markup)
    ensures Prefixed(m) ==> m.Tag?
  {
  }

  lemma WrittenBack(node: Node)
    requires node.Plain? ==> !node.mark.Tag?
    ensures NodeOf(Written(node)) == node
  {
    if node.Start? || node.Empty? { AttributesBack(node.attrs); }
  }

  /** The canonical form of what is written for a piece determines the piece up to white space. */
  lemma CanonPiece(a: Piece, b: Piece)
    requires CanonOne(WrittenPiece(a)) == CanonOne(WrittenPiece(b))
    requires (a.node.Plain? ==> !a.node.mark.Tag?) && (b.node.Plain? ==> !b.node.mark.Tag?)
    ensures Strip(a.text) == Strip(b.text) && a.node == b.node
  {
    hide Strip, Written, CanonMark, NodeOf, Escape, Unescape;
    CanonWritten(a.node);
    CanonWritten(b.node);
    WrittenBack(a.node);
    WrittenBack(b.node);
    StripEscape(a.text);
    StripEscape(b.text);
    UnescapeEscape(Strip(a.text));
    UnescapeEscape(Strip(b.text));
  }

  lemma SameCanonSameView(a: seq<Piece>, b: seq<Piece>)
    requires Canon(WrittenAll(a)) == Canon(WrittenAll(b)) && GoodPieces(a) && GoodPieces(b)
    ensures Trim(a) == Trim(b)
  {
    hide Strip, CanonOne, WrittenPiece, GoodMark;
    var x, y := WrittenAll(a), WrittenAll(b);
    assert |a| == |Canon(x)| == |Canon(y)| == |b|;
    forall i | 0 <= i < |a|
      ensures Strip(a[i].text) == Strip(b[i].text) && a[i].node == b[i].node
    {
      assert CanonOne(x[i]) == Canon(x)[i] == Canon(y)[i] == CanonOne(y[i]);
      CanonPiece(a[i], b[i]);
    }
  }

  /** Writable documents are saved as the same file only if they look the same. */
  lemma SameFileSameView(a: seq<Tree>, b: seq<Tree>)
    requires Writable(a) && Writable(b) && Saved(a) == Saved(b)
    ensures View(a) == View(b)
  {
    hide GoodTokens, GoodPieces, Good, Render, Canon, Tokens, Pieces, WrittenAll, CanonOne;
    PiecesGood(Tokens(a), "");
    PiecesGood(Tokens(b), "");
    DocGood(a);
    DocGood(b);
    SamePrintIffSameCanon(DocOf(a), DocOf(b), 2, 80);
    CanonTail(DocOf(a)[0], WrittenAll(Pieces(Tokens(a), "")));
    CanonTail(DocOf(b)[0], WrittenAll(Pieces(Tokens(b), "")));
    SameCanonSameView(Pieces(Tokens(a), ""), Pieces(Tokens(b), ""));
  }

  lemma CanonTail(s: Segment, doc: seq<Segment>)
    ensures Canon([s] + doc)[1..] == Canon(doc)
  {
    assert ([s] + doc)[1..] == doc;
  }

  lemma {:induction false} GoodAppend(a: seq<Token>, b: seq<Token>)
    ensures GoodTokens(a + b) <==> GoodTokens(a) && GoodTokens(b)
  {
    hide GoodNode;
    assert forall i :: 0 <= i < |a| ==> a[i] == (a + b)[i];
    assert forall i :: 0 <= i < |b| ==> b[i] == (a + b)[|a| + i];
  }

  lemma StartOrEmpty(tag: string, attrs: map<string, string>)
    ensures GoodNode(Start(tag, attrs)) <==> GoodNode(Empty(tag, attrs))
  {
    hide Attributes, Legal, Printable;
    SameName(tag, Attributes(attrs));
    GoodTagNode(Start(tag, attrs), Tag(Opening, tag, Attributes(attrs), ""));
    GoodTagNode(Empty(tag, attrs), Tag(SelfClosing, tag, Attributes(attrs), ""));
  }

  lemma GoodTagNode(node: Node, m: Markup)
    requires m.Tag? && Written(node) == m && !node.Plain?
    ensures GoodNode(node) <==> Legal(m) && Printable(m)
  {
    hide Legal, Printable, Written;
  }

  lemma SameName(name: string, attrs: seq<Attr>)
    ensures var a, b := Tag(Opening, name, attrs, ""), Tag(SelfClosing, name, attrs, "");
            (Legal(a) <==> Legal(b)) && (Printable(a) <==> Printable(b))
  {
    hide ElemStartLen, GoodAttrs, GoodName;
    var a, b := Tag(Opening, name, attrs, ""), Tag(SelfClosing, name, attrs, "");
    assert Head(a) == Head(b);
  }

  lemma WritableElement(tag: string, attrs: map<string, string>, kids: seq<Tree>)
    ensures Writable([Element(tag, attrs, kids)]) <==>
            if kids == [] then GoodNode(Empty(tag, attrs))
            else GoodNode(Start(tag, attrs)) && GoodNode(End(tag)) && Writable(kids)
  {
    hide GoodNode;
    TokensOne(tag, attrs, kids);
    GoodOne(Empty(tag, attrs));
    if kids != [] {
      GoodOne(Start(tag, attrs));
      GoodOne(End(tag));
      GoodAppend([Mark(Start(tag, attrs))] + Tokens(kids), [Mark(End(tag))]);
      GoodAppend([Mark(Start(tag, attrs))], Tokens(kids));
    }
  }

  lemma GoodOne(node: Node)
    ensures GoodTokens([Mark(node)]) <==> GoodNode(node)
  {
    hide GoodNode;
    assert [Mark(node)][0] == Mark(node);
  }

  lemma WritableAppend(a: seq<Tree>, b: seq<Tree>)
    ensures Writable(a + b) <==> Writable(a) && Writable(b)
  {
    hide GoodTokens, Tokens;
    TokensAppend(a, b);
    GoodAppend(Tokens(a), Tokens(b));
  }

  lemma WritableCons(ts: seq<Tree>)
    requires ts != []
    ensures Writable(ts) <==> Writable([ts[0]]) && Writable(ts[1..])
  {
    WritableAppend([ts[0]], ts[1..]);
    assert [ts[0]] + ts[1..] == ts;
  }

  lemma {:induction false} RemoveWritable(ts: seq<Tree>, inside: bool)
    requires Writable(ts)
    ensures Writable(RemoveOld(ts, inside))
    decreases ts
  {
    hide GoodNode, Writable;
    if ts != [] {
      WritableCons(ts);
      RemoveWritable(ts[1..], inside);
      var more := RemoveOld(ts[1..], inside);
      match ts[0] {
        case Element(tag, attrs, kids) =>
          var left := RemoveOld(kids, inside || tag == "category");
          WritableElement(tag, attrs, kids);
          if kids != [] {
            RemoveWritable(kids, inside || tag == "category");
            StartOrEmpty(tag, attrs);
          }
          WritableElement(tag, attrs, left);
          WritableAppend([Element(tag, attrs, left)], more);
        case _ =>
          WritableAppend([ts[0]], more);
      }
    }
  }

  lemma {:induction false} AddWritable(ts: seq<Tree>, new_: seq<Tree>)
    requires Writable(ts) && Writable(new_)
    ensures Writable(AddNew(ts, new_))
    decreases ts
  {
    hide GoodNode, Writable;
    if ts != [] {
      WritableCons(ts);
      AddWritable(ts[1..], new_);
      var more := AddNew(ts[1..], new_);
      match ts[0] {
        case Element(tag, attrs, kids) =>
          var extra := if tag == "category" && HasMarker(kids) then new_ else [];
          WritableElement(tag, attrs, kids);
          AddNonEmpty(kids, new_);
          if kids != [] {
            AddWritable(kids, new_);
            NothingWritable();
            WritableAppend(AddNew(kids, new_), extra);
          } else {
            assert AddNew(kids, new_) + extra == [];
          }
          WritableElement(tag, attrs, AddNew(kids, new_) + extra);
          WritableAppend([Element(tag, attrs, AddNew(kids, new_) + extra)], more);
        case _ =>
          WritableAppend([ts[0]], more);
      }
    }
  }

  lemma NothingWritable()
    ensures Writable([])
  {
  }

  /** A refreshed document can be written if the original could. */
  lemma RefreshWritable(ts: seq<Tree>, new_: seq<Tree>)
    requires Writable(ts) && Writable(new_)
    ensures Writable(Refresh(ts, new_))
  {
    RemoveWritable(ts, false);
    AddWritable(RemoveOld(ts, false), new_);
  }

  lemma {:induction false} SameViewGood(a: seq<Piece>, b: seq<Piece>)
    requires Trim(a) == Trim(b) && GoodPieces(a)
    ensures GoodPieces(b)
  {
    hide GoodNode;
    forall i | 0 <= i < |b|
      ensures GoodNode(b[i].node)
    {
      assert Trim(a)[i] == Trim(b)[i];
      assert Trim(a)[i].node == a[i].node;
      assert Trim(b)[i].node == b[i].node;
    }
  }

  /** Refreshing the saved file with other tuners gives the file that refreshing the original with them
      would have given exactly when the original without its tuner settings is steady; then refreshing it
      with the same tuners changes nothing. Only a carriage return in an instruction can make a parsed file
      one that cannot be printed. */
  lemma SameFileAgain(ts: seq<Tree>, first: seq<Tree>, again: seq<Tree>, second: seq<Tree>)
    requires NoTopText(ts) && Writable(ts) && Fresh(first) && Writable(first) && Fresh(second) && Writable(second)
    requires Parsed(Saved(Refresh(ts, first)), again)
    ensures SteadyDocument(RemoveOld(ts, false)) ==>
              && Saved(Refresh(again, second)) == Saved(Refresh(ts, second))
              && NoTopText(Refresh(again, second)) && Good(DocOf(Refresh(again, second)))
    ensures NoReturns(ts) ==> Writable(again)
    ensures Writable(again) ==>
              (Saved(Refresh(again, second)) == Saved(Refresh(ts, second)) <==> SteadyDocument(RemoveOld(ts, false)))
  {
    hide View, Good, GoodPieces, Writable, Trim, SettleAll, Steady, Saved, NoReturns;
    RefreshNoTopText(ts, first);
    RefreshWritable(ts, first);
    RefreshWritable(ts, second);
    ParsedLooksSaved(Refresh(ts, first), again);
    SecondRefresh(ts, first, again, second);
    RefreshNoTopText(again, second);
    if NoReturns(ts) {
      NoReturnsRemove(ts, false);
      NoReturnsAdd(RemoveOld(ts, false), first);
      ReadWritable(Refresh(ts, first), again);
    }
    if SteadyDocument(RemoveOld(ts, false)) {
      SameViewSameFile(Refresh(again, second), Refresh(ts, second));
      GoodByView(Refresh(ts, second), Refresh(again, second));
    } else if Writable(again) && Saved(Refresh(again, second)) == Saved(Refresh(ts, second)) {
      RefreshWritable(again, second);
      SameFileSameView(Refresh(again, second), Refresh(ts, second));
    }
  }

  lemma GoodByView(a: seq<Tree>, b: seq<Tree>)
    requires Writable(a) && View(a) == View(b)
    ensures Good(DocOf(b))
  {
    hide GoodTokens, Good, GoodPieces;
    PiecesGood(Tokens(a), "");
    SameViewGood(Pieces(Tokens(a), ""), Pieces(Tokens(b), ""));
    DocGood(b);
  }

  // ----- the saved file can be parsed -----

  function TextIf(s: string): seq<Tree> {
    if s == "" then [] else [CharData(s)]
  }

  function Nodes(ps: seq<Piece>): (r: seq<Node>)
    ensures |r| == |ps| && forall i :: 0 <= i < |ps| ==> r[i] == ps[i].node
  {
    if ps == [] then [] else [ps[0].node] + Nodes(ps[1..])
  }

  function NodesIn(ts: seq<Tree>): seq<Node> {
    Nodes(Pieces(Tokens(ts), ""))
  }

  lemma {:induction false} NodesAppend(a: seq<Token>, b: seq<Token>, text: string)
    ensures Nodes(Pieces(a + b, text)) == Nodes(Pieces(a, "")) + Nodes(Pieces(b, ""))
  {
    if a == [] {
      assert a + b == b;
      NodesAnyText(b, text, "");
    } else {
      assert (a + b)[1..] == a[1..] + b;
      match a[0] {
        case Chars(data) =>
          NodesAppend(a[1..], b, text + data);
          NodesAnyText(a[1..], "" + data, "");
        case Mark(node) =>
          NodesAppend(a[1..], b, "");
          NodesCons(Piece(text, node), Pieces(a[1..] + b, ""));
          NodesCons(Piece("", node), Pieces(a[1..], ""));
      }
    }
  }

  lemma NodesCons(p: Piece, ps: seq<Piece>)
    ensures Nodes([p] + ps) == [p.node] + Nodes(ps)
  {
    assert ([p] + ps)[1..] == ps;
  }

  lemma {:induction false} NodesAnyText(tokens: seq<Token>, s: string, t: string)
    ensures Nodes(Pieces(tokens, s)) == Nodes(Pieces(tokens, t))
  {
    if tokens != [] {
      match tokens[0] {
        case Chars(data) => NodesAnyText(tokens[1..], s + data, t + data);
        case Mark(node) =>
          NodesCons(Piece(s, node), Pieces(tokens[1..], ""));
          NodesCons(Piece(t, node), Pieces(tokens[1..], ""));
      }
    }
  }

  lemma NodesFirst(ts: seq<Tree>)
    requires ts != []
    ensures NodesIn(ts) == NodesIn([ts[0]]) + NodesIn(ts[1..])
  {
    TokensFirst(ts);
    NodesAppend(Tokens([ts[0]]), Tokens(ts[1..]), "");
  }

  lemma NodesOfMark(node: Node)
    ensures Nodes(Pieces([Mark(node)], "")) == [node]
  {
    assert [Mark(node)][1..] == [];
    assert Pieces([Mark(node)], "") == [Piece("", node)];
  }

  lemma NodesOfText(data: string)
    ensures Pieces([Chars(data)], "") == []
  {
    assert [Chars(data)][1..] == [];
    assert Pieces([], "" + data) == [];
  }

  lemma NodesOne(t: Tree)
    ensures t.CharData? ==> NodesIn([t]) == []
    ensures t.Other? ==> NodesIn([t]) == [Plain(t.mark)]
    ensures t.Element? && t.kids == [] ==> NodesIn([t]) == [Empty(t.tag, t.attrs)]
    ensures t.Element? && t.kids != [] ==> NodesIn([t]) == [Start(t.tag, t.attrs)] + NodesIn(t.kids) + [End(t.tag)]
  {
    match t {
      case CharData(data) =>
        TokensLeaf(t);
        NodesOfText(data);
      case Other(mark) =>
        TokensLeaf(t);
        NodesOfMark(Plain(mark));
      case Element(tag, attrs, kids) =>
        TokensOne(tag, attrs, kids);
        NodesOfMark(Empty(tag, attrs));
        NodesBetween(tag, attrs, Tokens(kids));
    }
  }

  lemma NodesBetween(tag: string, attrs: map<string, string>, inner: seq<Token>)
    ensures Nodes(Pieces(Between(tag, attrs, inner), ""))
            == [Start(tag, attrs)] + Nodes(Pieces(inner, "")) + [End(tag)]
  {
    NodesOfMark(Start(tag, attrs));
    NodesOfMark(End(tag));
    NodesAppend([Mark(Start(tag, attrs))] + inner, [Mark(End(tag))], "");
    NodesAppend([Mark(Start(tag, attrs))], inner, "");
  }

  /** Every closing node closes something. */
  predicate EndsInside(ps: seq<Piece>, e: nat) {
    ps == [] || ((ps[0].node.End? ==> e > 0) && EndsInside(ps[1..], Inside(e, ps[0].node)))
  }

  /** The tree with the texts of `ps` in front of its nodes, and nowhere else. */
  function Refill(ts: seq<Tree>, ps: seq<Piece>): seq<Tree>
    requires Nodes(ps) == NodesIn(ts)
    decreases ts, 0
  {
    if ts == [] then []
    else
      NodesFirst(ts);
      var n := |NodesIn([ts[0]])|;
      assert Nodes(ps[..n]) == NodesIn([ts[0]]);
      assert Nodes(ps[n..]) == NodesIn(ts[1..]);
      RefillOne(ts[0], ps[..n]) + Refill(ts[1..], ps[n..])
  }

  function RefillOne(t: Tree, ps: seq<Piece>): seq<Tree>
    requires Nodes(ps) == NodesIn([t])
    decreases t, 0
  {
    NodesOne(t);
    match t
    case CharData(_) => []
    case Other(_) => TextIf(ps[0].text) + [t]
    case Element(tag, attrs, kids) =>
      if kids == [] then TextIf(ps[0].text) + [t]
      else
        var last := |ps| - 1;
        assert Nodes(ps[1..last]) == NodesIn(kids);
        TextIf(ps[0].text) + [Element(tag, attrs, Refill(kids, ps[1..last]) + TextIf(ps[last].text))]
  }

  lemma TextThen(s: string, b: seq<Token>, text: string)
    ensures Pieces(Tokens(TextIf(s)) + b, text) == Pieces(b, text + s)
    ensures LastText(Tokens(TextIf(s)) + b, text) == LastText(b, text + s)
  {
    if s == "" {
      assert Tokens([]) + b == b;
      assert text + s == text;
    } else {
      TokensLeaf(CharData(s));
      assert ([Chars(s)] + b)[1..] == b;
    }
  }

  /** Texts that a document can have at its closing nodes: an element that is not written as empty has some. */
  predicate EndTexts(ps: seq<Piece>) {
    forall i :: 0 <= i < |ps| && ps[i].node.End? ==> ps[i].text != ""
  }

  /** The refilled tree reads exactly as the pieces say. */
  lemma {:induction false} RefillReads(ts: seq<Tree>, ps: seq<Piece>)
    requires Nodes(ps) == NodesIn(ts) && EndTexts(ps)
    ensures Pieces(Tokens(Refill(ts, ps)), "") == ps && LastText(Tokens(Refill(ts, ps)), "") == ""
    decreases ts, 0
  {
    if ts != [] {
      var p, q := RefillFirst(ts, ps);
      RefillOneReads(ts[0], p);
      RefillReads(ts[1..], q);
      var a, b := RefillOne(ts[0], p), Refill(ts[1..], q);
      hide *;
      TokensAppend(a, b);
      PiecesAppend(Tokens(a), Tokens(b), "");
      LastTextAppend(Tokens(a), Tokens(b), "");
    } else {
      assert ps == [];
    }
  }

  /** The pieces of the first tree and those of the others. */
  lemma RefillFirst(ts: seq<Tree>, ps: seq<Piece>) returns (p: seq<Piece>, q: seq<Piece>)
    requires ts != [] && Nodes(ps) == NodesIn(ts)
    ensures ps == p + q && Nodes(p) == NodesIn([ts[0]]) && Nodes(q) == NodesIn(ts[1..])
    ensures Refill(ts, ps) == RefillOne(ts[0], p) + Refill(ts[1..], q)
    ensures EndTexts(ps) ==> EndTexts(p) && EndTexts(q)
  {
    hide RefillOne, Pieces, Tokens, EndTexts;
    NodesFirst(ts);
    var n := |NodesIn([ts[0]])|;
    p, q := ps[..n], ps[n..];
    NodesSplit(ps, NodesIn([ts[0]]), NodesIn(ts[1..]));
  }

  lemma NodesSplit(ps: seq<Piece>, a: seq<Node>, b: seq<Node>)
    requires Nodes(ps) == a + b
    ensures Nodes(ps[..|a|]) == a && Nodes(ps[|a|..]) == b
    ensures EndTexts(ps) ==> EndTexts(ps[..|a|]) && EndTexts(ps[|a|..])
  {
    hide Nodes;
    var p, q := ps[..|a|], ps[|a|..];
    assert |ps| == |Nodes(ps)|;
    forall i | 0 <= i < |p|
      ensures Nodes(p)[i] == a[i] && p[i] == ps[i]
    {
      assert p[i].node == ps[i].node == Nodes(ps)[i] == a[i];
    }
    forall i | 0 <= i < |q|
      ensures Nodes(q)[i] == b[i] && q[i] == ps[|a| + i]
    {
      assert q[i].node == ps[|a| + i].node == Nodes(ps)[|a| + i] == b[i];
    }
  }

  lemma {:induction false} NodesMiddle(ps: seq<Piece>, a: Node, mid: seq<Node>, b: Node)
    requires Nodes(ps) == [a] + mid + [b] && EndTexts(ps)
    ensures |ps| == |mid| + 2 && ps[0].node == a && ps[|ps| - 1].node == b
    ensures Nodes(ps[1..|ps| - 1]) == mid && EndTexts(ps[1..|ps| - 1])
    ensures ps == [ps[0]] + ps[1..|ps| - 1] + [ps[|ps| - 1]]
  {
    hide Nodes;
    var m := ps[1..|ps| - 1];
    assert |ps| == |Nodes(ps)|;
    assert ps[0].node == Nodes(ps)[0] && ps[|ps| - 1].node == Nodes(ps)[|ps| - 1];
    forall i | 0 <= i < |m|
      ensures Nodes(m)[i] == mid[i] && (m[i].node.End? ==> m[i].text != "")
    {
      assert m[i] == ps[i + 1] && ps[i + 1].node == Nodes(ps)[i + 1] == ([a] + mid + [b])[i + 1] == mid[i];
    }
  }

  lemma {:induction false} RefillOneReads(t: Tree, ps: seq<Piece>)
    requires Nodes(ps) == NodesIn([t]) && EndTexts(ps)
    ensures Pieces(Tokens(RefillOne(t, ps)), "") == ps && LastText(Tokens(RefillOne(t, ps)), "") == ""
    decreases t, 0
  {
    NodesOne(t);
    match t {
      case CharData(_) =>
      case Other(mark) =>
        TokensLeaf(t);
        RefillLeafReads(t, Plain(mark), ps);
      case Element(tag, attrs, kids) =>
        if kids == [] {
          TokensOne(tag, attrs, kids);
          RefillLeafReads(t, Empty(tag, attrs), ps);
        } else {
          var last := |ps| - 1;
          NodesMiddle(ps, Start(tag, attrs), NodesIn(kids), End(tag));
          RefillReads(kids, ps[1..last]);
          var filled := Refill(kids, ps[1..last]);
          RefilledElement(tag, attrs, filled, ps[1..last], ps[0].text, ps[last].text);
          RefillOneIs(t, ps, filled);
        }
    }
  }

  lemma RefillOneIs(t: Tree, ps: seq<Piece>, filled: seq<Tree>)
    requires Nodes(ps) == NodesIn([t]) && t.Element? && t.kids != [] && |ps| > 1
    requires Nodes(ps[1..|ps| - 1]) == NodesIn(t.kids) && filled == Refill(t.kids, ps[1..|ps| - 1])
    ensures RefillOne(t, ps)
            == TextIf(ps[0].text) + [Element(t.tag, t.attrs, filled + TextIf(ps[|ps| - 1].text))]
  {
  }

  lemma {:induction false} RefillLeafReads(t: Tree, node: Node, ps: seq<Piece>)
    requires Tokens([t]) == [Mark(node)] && Nodes(ps) == [node]
    ensures var r := TextIf(ps[0].text) + [t];
            Pieces(Tokens(r), "") == ps && LastText(Tokens(r), "") == ""
  {
    ReadsOne(ps[0].text, t, [Mark(node)]);
    DropOne(Piece(ps[0].text, node), 0);
    assert ps[0].node == Nodes(ps)[0] == node;
    assert ps == [ps[0]];
  }

  lemma ReadsOne(s: string, t: Tree, tokens: seq<Token>)
    requires Tokens([t]) == tokens
    ensures Pieces(Tokens(TextIf(s) + [t]), "") == Pieces(tokens, s)
    ensures LastText(Tokens(TextIf(s) + [t]), "") == LastText(tokens, s)
  {
    TokensAppend(TextIf(s), [t]);
    TextThen(s, tokens, "");
    assert "" + s == s;
  }

  lemma RefilledElement(tag: string, attrs: map<string, string>, filled: seq<Tree>, inner: seq<Piece>,
                        s: string, e: string)
    requires Pieces(Tokens(filled), "") == inner && LastText(Tokens(filled), "") == "" && e != ""
    ensures var t := Element(tag, attrs, filled + TextIf(e));
            && Pieces(Tokens(TextIf(s) + [t]), "") == [Piece(s, Start(tag, attrs))] + inner + [Piece(e, End(tag))]
            && LastText(Tokens(TextIf(s) + [t]), "") == ""
  {
    hide *;
    var kids := filled + TextIf(e);
    var t := Element(tag, attrs, kids);
    SomeKids(filled, e);
    TokensOne(tag, attrs, kids);
    EndFilled(filled, inner, e);
    ReadsOne(s, t, Between(tag, attrs, Tokens(kids)));
    AroundFilled(tag, attrs, Tokens(kids), inner, s, e);
  }

  lemma SomeKids(filled: seq<Tree>, e: string)
    requires e != ""
    ensures filled + TextIf(e) != []
  {
  }

  lemma EndFilled(filled: seq<Tree>, inner: seq<Piece>, e: string)
    requires Pieces(Tokens(filled), "") == inner && LastText(Tokens(filled), "") == ""
    ensures Pieces(Tokens(filled + TextIf(e)), "") == inner && LastText(Tokens(filled + TextIf(e)), "") == e
  {
    hide Tokens, TextIf;
    TokensAppend(filled, TextIf(e));
    PiecesAppend(Tokens(filled), Tokens(TextIf(e)), "");
    LastTextAppend(Tokens(filled), Tokens(TextIf(e)), "");
    TextThen(e, [], "");
    assert Tokens(TextIf(e)) + [] == Tokens(TextIf(e));
    assert "" + e == e;
    assert inner + [] == inner;
  }

  lemma AroundFilled(tag: string, attrs: map<string, string>, tokens: seq<Token>, inner: seq<Piece>, s: string,
                     e: string)
    requires Pieces(tokens, "") == inner && LastText(tokens, "") == e
    ensures Pieces(Between(tag, attrs, tokens), s) == [Piece(s, Start(tag, attrs))] + inner + [Piece(e, End(tag))]
    ensures LastText(Between(tag, attrs, tokens), s) == ""
  {
    hide Pieces, LastText;
    var open, close := [Mark(Start(tag, attrs))], [Mark(End(tag))];
    PiecesAppend(open + tokens, close, s);
    PiecesAppend(open, tokens, s);
    LastTextAppend(open + tokens, close, s);
    LastTextAppend(open, tokens, s);
    OneMark(Start(tag, attrs), s);
    OneMark(End(tag), e);
  }

  // Closing nodes of a document have the printer's white space in front of them.

  lemma {:induction false} EndsAppend(a: seq<Piece>, b: seq<Piece>, e: nat)
    ensures EndsInside(a + b, e) <==> EndsInside(a, e) && EndsInside(b, InsideAfter(a, e))
  {
    if a == [] {
      assert a + b == b;
    } else {
      assert (a + b)[1..] == a[1..] + b;
      EndsAppend(a[1..], b, Inside(e, a[0].node));
    }
  }

  lemma EndsOne(p: Piece, e: nat)
    ensures EndsInside([p], e) <==> (p.node.End? ==> e > 0)
  {
    assert [p][1..] == [];
  }

  lemma {:induction false} ForestEnds(ts: seq<Tree>, text: string, e: nat)
    ensures EndsInside(Pieces(Tokens(ts), text), e)
    ensures InsideAfter(Pieces(Tokens(ts), text), e) == e
    decreases ts, 0
  {
    if ts != [] {
      var a, b := Tokens([ts[0]]), Tokens(ts[1..]);
      TokensFirst(ts);
      PiecesAppend(a, b, text);
      TreeEnds(ts[0], text, e);
      ForestEnds(ts[1..], LastText(a, text), e);
      EndsAppend(Pieces(a, text), Pieces(b, LastText(a, text)), e);
      DropAppend(Pieces(a, text), Pieces(b, LastText(a, text)), e);
    }
  }

  lemma {:induction false} TreeEnds(t: Tree, text: string, e: nat)
    ensures EndsInside(Pieces(Tokens([t]), text), e)
    ensures InsideAfter(Pieces(Tokens([t]), text), e) == e
    decreases t, 0
  {
    match t {
      case CharData(data) =>
        TokensLeaf(t);
        assert Tokens([t])[1..] == [];
      case Other(mark) =>
        TokensLeaf(t);
        DropOne(Piece(text, Plain(mark)), e);
        EndsOne(Piece(text, Plain(mark)), e);
      case Element(tag, attrs, kids) =>
        TokensOne(tag, attrs, kids);
        if kids == [] {
          DropOne(Piece(text, Empty(tag, attrs)), e);
          EndsOne(Piece(text, Empty(tag, attrs)), e);
        } else {
          ForestEnds(kids, "", e + 1);
          AroundEnds(tag, attrs, Tokens(kids), text, e);
        }
    }
  }

  lemma AroundEnds(tag: string, attrs: map<string, string>, inner: seq<Token>, text: string, e: nat)
    requires EndsInside(Pieces(inner, ""), e + 1) && InsideAfter(Pieces(inner, ""), e + 1) == e + 1
    ensures var ps := Pieces([Mark(Start(tag, attrs))] + inner + [Mark(End(tag))], text);
            EndsInside(ps, e) && InsideAfter(ps, e) == e
  {
    hide EndsInside, InsideAfter, Pieces, LastText;
    var open, close := [Mark(Start(tag, attrs))], [Mark(End(tag))];
    var last := LastText(inner, "");
    OneMark(Start(tag, attrs), text);
    OneMark(End(tag), last);
    DropOne(Piece(text, Start(tag, attrs)), e);
    EndsOne(Piece(text, Start(tag, attrs)), e);
    DropOne(Piece(last, End(tag)), e + 1);
    EndsOne(Piece(last, End(tag)), e + 1);
    PiecesAppend(open + inner, close, text);
    PiecesAppend(open, inner, text);
    LastTextAppend(open, inner, text);
    EndsAppend(Pieces(open, text) + Pieces(inner, ""), Pieces(close, last), e);
    EndsAppend(Pieces(open, text), Pieces(inner, ""), e);
    DropAppend(Pieces(open, text) + Pieces(inner, ""), Pieces(close, last), e);
    DropAppend(Pieces(open, text), Pieces(inner, ""), e);
  }

  predicate AllTexts(ps: seq<Piece>) {
    forall i :: 0 <= i < |ps| ==> ps[i].text != ""
  }

  lemma {:induction false} DroppedEnds(ps: seq<Piece>, e: nat)
    requires AllTexts(ps) && EndsInside(ps, e)
    ensures EndTexts(DropTop(ps, e))
  {
    if ps != [] {
      var more := DropTop(ps[1..], Inside(e, ps[0].node));
      DroppedEnds(ps[1..], Inside(e, ps[0].node));
      var d := DropTop(ps, e);
      assert d[1..] == more;
      forall i | 0 <= i < |d| && d[i].node.End?
        ensures d[i].text != ""
      {
        if i > 0 { assert d[i] == more[i - 1]; }
      }
    }
  }

  lemma {:induction false} SameNodesEnds(a: seq<Piece>, b: seq<Piece>, e: nat)
    requires Trim(a) == Trim(b) && EndsInside(a, e)
    ensures EndsInside(b, e) && Nodes(a) == Nodes(b)
  {
    TrimFirst(a, b);
    if a != [] { SameNodesEnds(a[1..], b[1..], Inside(e, a[0].node)); }
  }

  lemma UnescapeSome(s: string)
    requires s != ""
    ensures Unescape(s) != ""
  {
  }

  lemma {:induction false} PrettyTexts(doc: seq<Segment>, level: int, indent: int, width: int)
    ensures AllTexts(ReadAll(Pretty(doc, "\n", level, indent, width)))
  {
    if doc != [] {
      var first := PrettyOne(doc[0], "\n", level, indent, width);
      var more := Pretty(doc[1..], "\n", LevelAfter(doc[0].mark, level, indent), indent, width);
      PrettyTexts(doc[1..], LevelAfter(doc[0].mark, level, indent), indent, width);
      assert first.text != "";
      UnescapeSome(first.text);
      assert Pretty(doc, "\n", level, indent, width) == [first] + more;
      ReadCons(first, more);
      hide *;
      SomeText(Piece(Unescape(first.text), NodeOf(first.mark)), ReadAll(more));
    }
  }

  lemma SomeText(p: Piece, ps: seq<Piece>)
    requires p.text != "" && AllTexts(ps)
    ensures AllTexts([p] + ps)
  {
  }

  lemma {:induction false} DropNodes(ps: seq<Piece>, e: nat)
    ensures Nodes(DropTop(ps, e)) == Nodes(ps)
  {
    if ps != [] { DropNodes(ps[1..], Inside(e, ps[0].node)); }
  }

  lemma {:induction false} TopStaysEmpty(ts: seq<Tree>, ps: seq<Piece>)
    requires Nodes(ps) == NodesIn(ts) && DropTop(ps, 0) == ps
    ensures NoTopText(Refill(ts, ps))
    decreases ts, 0
  {
    if ts != [] {
      var p, q := RefillFirst(ts, ps);
      DropAppend(p, q, 0);
      ForestEnds([ts[0]], "", 0);
      SameInside(Pieces(Tokens([ts[0]]), ""), p, 0);
      assert DropTop(p, 0) == p && DropTop(q, 0) == q;
      TopStaysEmpty(ts[1..], q);
      OneStaysEmpty(ts[0], p);
    }
  }

  lemma OneStaysEmpty(t: Tree, ps: seq<Piece>)
    requires Nodes(ps) == NodesIn([t]) && DropTop(ps, 0) == ps
    ensures NoTopText(RefillOne(t, ps))
  {
    NodesOne(t);
    if ps != [] { assert ps[0].text == DropTop(ps, 0)[0].text; }
  }

  lemma {:induction false} SameInside(a: seq<Piece>, b: seq<Piece>, e: nat)
    requires Nodes(a) == Nodes(b)
    ensures InsideAfter(a, e) == InsideAfter(b, e)
  {
    assert |a| == |Nodes(a)| == |Nodes(b)| == |b|;
    if a != [] {
      assert a[0].node == Nodes(a)[0] == Nodes(b)[0] == b[0].node;
      assert Nodes(a[1..]) == Nodes(a)[1..] == Nodes(b)[1..] == Nodes(b[1..]);
      SameInside(a[1..], b[1..], Inside(e, a[0].node));
    }
  }

  lemma {:induction false} DropTwice(ps: seq<Piece>, e: nat)
    ensures DropTop(DropTop(ps, e), e) == DropTop(ps, e)
  {
    if ps != [] {
      var first := Piece(if e == 0 then "" else ps[0].text, ps[0].node);
      DropTwice(ps[1..], Inside(e, ps[0].node));
      assert DropTop(ps, e)[1..] == DropTop(ps[1..], Inside(e, ps[0].node));
    }
  }

  lemma ReadBody(ts: seq<Tree>)
    requires Writable(ts)
    ensures Trim(ReadAll(SavedBody(ts))) == Trim(Pieces(Tokens(ts), "")) && AllTexts(ReadAll(SavedBody(ts)))
  {
    PiecesGood(Tokens(ts), "");
    assert AllBlank("\n");
    hide Trim, ReadAll, Pieces, Tokens, Pretty, AllTexts, GoodPieces;
    ReadPretty(Pieces(Tokens(ts), ""), "\n", 0, 2, 80);
    PrettyTexts(WrittenAll(Pieces(Tokens(ts), "")), 0, 2, 80);
  }

  /** The tree with what settles settled, texts aside. */
  function SettleTrees(ts: seq<Tree>): seq<Tree> {
    if ts == [] then [] else [SettleTree(ts[0])] + SettleTrees(ts[1..])
  }

  function SettleTree(t: Tree): Tree {
    match t
    case Element(tag, attrs, kids) => Element(tag, SettleMap(attrs), SettleTrees(kids))
    case CharData(_) => t
    case Other(mark) => Other(SettleMark(mark))
  }

  function SettleNodes(nodes: seq<Node>): (r: seq<Node>)
    ensures |r| == |nodes| && forall i :: 0 <= i < |nodes| ==> r[i] == SettleNode(nodes[i])
  {
    if nodes == [] then [] else [SettleNode(nodes[0])] + SettleNodes(nodes[1..])
  }

  lemma SettleNodesAppend(a: seq<Node>, b: seq<Node>)
    ensures SettleNodes(a + b) == SettleNodes(a) + SettleNodes(b)
  {
    hide SettleNode;
  }

  lemma NodesSettle(ps: seq<Piece>)
    ensures Nodes(SettleAll(ps)) == SettleNodes(Nodes(ps))
  {
    hide EndLines, SettleNode;
  }

  lemma {:induction false} SettledNodesIn(ts: seq<Tree>)
    ensures NodesIn(SettleTrees(ts)) == SettleNodes(NodesIn(ts))
    decreases ts, 0
  {
    hide NodesIn, SettleNodes, SettleTree;
    if ts != [] {
      NodesFirst(ts);
      NodesFirst(SettleTrees(ts));
      assert SettleTrees(ts)[1..] == SettleTrees(ts[1..]);
      SettledNodesOne(ts[0]);
      SettledNodesIn(ts[1..]);
      SettleNodesAppend(NodesIn([ts[0]]), NodesIn(ts[1..]));
    } else {
      NoNodes();
    }
  }

  lemma NoNodes()
    ensures NodesIn([]) == [] && SettleNodes([]) == []
  {
  }

  lemma {:induction false} SettledNodesOne(t: Tree)
    ensures NodesIn([SettleTree(t)]) == SettleNodes(NodesIn([t]))
    decreases t, 0
  {
    hide NodesIn, SettleMap, SettleMark, SettleTrees;
    NodesOne(t);
    NodesOne(SettleTree(t));
    match t {
      case CharData(_) =>
      case Other(mark) =>
        SettleOneNode(Plain(mark));
      case Element(tag, attrs, kids) =>
        SameEmptiness(kids);
        SettleOneNode(Start(tag, attrs));
        SettleOneNode(Empty(tag, attrs));
        SettleOneNode(End(tag));
        SettledNodesIn(kids);
        SettleNodesAppend([Start(tag, attrs)] + NodesIn(kids), [End(tag)]);
        SettleNodesAppend([Start(tag, attrs)], NodesIn(kids));
    }
  }

  lemma SameEmptiness(ts: seq<Tree>)
    ensures SettleTrees(ts) == [] <==> ts == []
  {
  }

  lemma SettleOneNode(node: Node)
    ensures SettleNodes([node]) == [SettleNode(node)] && SettleNodes([]) == []
  {
    assert [node][1..] == [];
  }

  lemma EndTextsSettle(ps: seq<Piece>)
    requires EndTexts(ps)
    ensures EndTexts(SettleAll(ps))
  {
    hide EndLines, SettleNode;
    forall i | 0 <= i < |ps| && SettleAll(ps)[i].node.End?
      ensures SettleAll(ps)[i].text != ""
    {
      SameDecisions(ps[i].node);
      EndLinesSome(ps[i].text);
    }
  }

  lemma SavedNodes(ts: seq<Tree>, ps: seq<Piece>)
    requires NoTopText(ts) && Writable(ts) && ps == DropTop(SettleAll(ReadAll(SavedBody(ts))), 0)
    ensures Nodes(ps) == NodesIn(SettleTrees(ts)) && EndTexts(ps)
  {
    hide Trim, DropTop, ReadAll, SettleAll, Writable, Pieces, Tokens, Nodes, EndsInside, SavedBody, EndTexts, AllTexts;
    hide SettleTrees, SettleNodes;
    ReadBody(ts);
    var read := ReadAll(SavedBody(ts));
    ForestEnds(ts, "", 0);
    SameNodesEnds(Pieces(Tokens(ts), ""), read, 0);
    DroppedEnds(read, 0);
    DropNodes(read, 0);
    DropSettle(read, 0);
    NodesSettle(DropTop(read, 0));
    EndTextsSettle(DropTop(read, 0));
    SettledNodesIn(ts);
  }

  lemma SavedIsDocument(ts: seq<Tree>)
    requires Writable(ts)
    ensures Document(Saved(ts), Pretty(DocOf(ts), "", 0, 2, 80), "\n")
  {
    PiecesGood(Tokens(ts), "");
    DocGood(ts);
    OutputIsDocument(DocOf(ts), 2, 80);
  }

  /** A saved file can always be parsed. */
  lemma SavedCanBeParsed(ts: seq<Tree>)
    requires NoTopText(ts) && Writable(ts)
    ensures exists again :: Parsed(Saved(ts), again)
  {
    hide SavedBody, DropTop, ReadAll, SettleAll, SettleTrees, Pieces, Tokens, Nodes, EndTexts, Refill, Saved, Document;
    hide Pretty, Writable, Body;
    var read := SettleAll(ReadAll(SavedBody(ts)));
    var ps := DropTop(read, 0);
    SavedNodes(ts, ps);
    RefillReads(SettleTrees(ts), ps);
    DropTwice(read, 0);
    TopStaysEmpty(SettleTrees(ts), ps);
    SavedIsDocument(ts);
    PrettyOfDoc(ts);
    assert Parsed(Saved(ts), Refill(SettleTrees(ts), ps));
  }
}
