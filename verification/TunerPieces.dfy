/** The refresh does not depend on the white space between tags: after a first refresh, documents that
    agree up to that white space still agree after a second one. */
module TunerPieces {
  import opened Text
  import opened XmlTree
  import opened TunerTree
  import opened TunerTokens

  // ----- a refreshed document is orderly -----

  lemma {:induction false} NewOrderly(new_: seq<Tree>, d: nat, st: State)
    requires Fresh(new_) && st.since == More
    ensures Orderly(Tokens(new_), d, st) && StateAfter(Tokens(new_), d, st).since == More
  {
    if new_ != [] {
      var t := new_[0];
      TokensFirst(new_);
      TokensOne(t.tag, t.attrs, t.kids);
      OneMark(Empty(t.tag, t.attrs), d, st);
      AppendTokens(Tokens([t]), Tokens(new_[1..]), d, st);
      NewOrderly(new_[1..], d, Next(st, d, Empty(t.tag, t.attrs)));
    }
  }

  lemma OneText(data: string, d: nat, st: State)
    ensures Orderly([Chars(data)], d, st) <==> (st.gone ==> AllBlank(data))
    ensures StateAfter([Chars(data)], d, st) == st
  {
    assert [Chars(data)][1..] == [];
  }

  /** Adding to a clean document makes an orderly one. */
  lemma {:induction false} OrderlyAdd(ts: seq<Tree>, new_: seq<Tree>, d: nat, st: State)
    requires NoOld(ts, d > 0) && Fresh(new_) && st.since != OnlyGone && !st.gone
    ensures var s := StateAfter(Tokens(AddNew(ts, new_)), d, st);
            && Orderly(Tokens(AddNew(ts, new_)), d, st)
            && !s.gone && (s.since == st.since || s.since == More) && (HasMarker(ts) ==> s.since == More)
    decreases ts, 0
  {
    if ts != [] {
      AddCons(ts, new_);
      TokensAppend(AddNew([ts[0]], new_), AddNew(ts[1..], new_));
      OrderlyAddOne(ts[0], new_, d, st);
      var first := Tokens(AddNew([ts[0]], new_));
      AppendTokens(first, Tokens(AddNew(ts[1..], new_)), d, st);
      OrderlyAdd(ts[1..], new_, d, StateAfter(first, d, st));
    }
  }

  lemma {:induction false} OrderlyAddOne(t: Tree, new_: seq<Tree>, d: nat, st: State)
    requires NoOld([t], d > 0) && Fresh(new_) && st.since != OnlyGone && !st.gone
    ensures var s := StateAfter(Tokens(AddNew([t], new_)), d, st);
            && Orderly(Tokens(AddNew([t], new_)), d, st) && DepthAfter(Tokens(AddNew([t], new_)), d) == d
            && !s.gone && (s.since == st.since || s.since == More) && (HasMarker([t]) ==> s.since == More)
    decreases t, 0
  {
    assert [t][1..] == [];
    ForestDepth(AddNew([t], new_), d);
    match t {
      case Element(tag, attrs, kids) =>
        if kids == [] {
          assert AddNew(kids, new_) + [] == [];
          assert AddNew([t], new_) == [t];
          TokensOne(tag, attrs, kids);
          OneMark(Empty(tag, attrs), d, st);
        } else {
          var extra := if tag == "category" && HasMarker(kids) then new_ else [];
          var d', inside := Depth(d, Start(tag, attrs)), State(Nothing, false);
          var before, gens := Tokens(AddNew(kids, new_)), Tokens(extra);
          NewElement(tag, attrs, kids, new_, extra);
          OrderlyAdd(kids, new_, d', inside);
          AppendTokens(before, gens, d', inside);
          ForestDepth(AddNew(kids, new_), d');
          ForestDepth(extra, d');
          if extra != [] { NewOrderly(extra, d', StateAfter(before, d', inside)); }
          AroundTokens(tag, attrs, before + gens, d, st);
        }
      case CharData(data) =>
        assert AddNew([t], new_) == [t];
        TokensLeaf(t);
        OneText(data, d, st);
        assert !HasMarker([t][1..]);
      case Other(mark) =>
        assert AddNew([t], new_) == [t];
        TokensLeaf(t);
        OneMark(Plain(mark), d, st);
    }
  }

  // ----- the same, on pieces -----

  function PWithout(ps: seq<Piece>, pending: string, d: nat): seq<Piece> {
    if ps == [] then []
    else
      var p := ps[0];
      if Gone(d, p.node) then PWithout(ps[1..], pending + p.text, Depth(d, p.node))
      else [Piece(pending + p.text, p.node)] + PWithout(ps[1..], "", Depth(d, p.node))
  }

  /** New nodes take the text in front of the node they are put before. */
  function PNew(text: string, nodes: seq<Node>, node: Node): seq<Piece>
    decreases |nodes|
  {
    if nodes == [] then [Piece(text, node)] else [Piece(text, nodes[0])] + PNew("", nodes[1..], node)
  }

  function PAdded(ps: seq<Piece>, flags: seq<bool>, nodes: seq<Node>): seq<Piece> {
    if ps == [] then []
    else PNew(ps[0].text, if Due(flags, ps[0].node) then nodes else [], ps[0].node)
         + PAdded(ps[1..], Flags(flags, ps[0].node), nodes)
  }

  predicate POrderly(ps: seq<Piece>, d: nat, st: State) {
    ps == [] ||
    (&& (st.gone ==> AllBlank(ps[0].text)) && MayFollow(st, d, ps[0].node)
     && POrderly(ps[1..], Depth(d, ps[0].node), Next(st, d, ps[0].node)))
  }

  lemma {:induction false} PiecesWithout(tokens: seq<Token>, pending: string, text: string, d: nat)
    ensures Pieces(Without(tokens, d), pending + text) == PWithout(Pieces(tokens, text), pending, d)
  {
    if tokens != [] {
      var more := tokens[1..];
      match tokens[0] {
        case Chars(data) =>
          PiecesWithout(more, pending, text + data, d);
          assert pending + text + data == pending + (text + data);
          assert ([tokens[0]] + Without(more, d))[1..] == Without(more, d);
        case Mark(node) =>
          assert ([Piece(text, node)] + Pieces(more, ""))[1..] == Pieces(more, "");
          assert pending + text + "" == pending + text;
          if Gone(d, node) {
            PiecesWithout(more, pending + text, "", Depth(d, node));
            assert [] + Without(more, Depth(d, node)) == Without(more, Depth(d, node));
          } else {
            PiecesWithout(more, "", "", Depth(d, node));
            assert "" + "" == "";
            assert ([tokens[0]] + Without(more, Depth(d, node)))[1..] == Without(more, Depth(d, node));
          }
      }
    }
  }

  function MarksOf(nodes: seq<Node>): seq<Token> {
    if nodes == [] then [] else [Mark(nodes[0])] + MarksOf(nodes[1..])
  }

  lemma {:induction false} PiecesNew(text: string, nodes: seq<Node>, node: Node, more: seq<Token>)
    ensures Pieces(MarksOf(nodes) + [Mark(node)] + more, text) == PNew(text, nodes, node) + Pieces(more, "")
    decreases |nodes|
  {
    var all := MarksOf(nodes) + [Mark(node)] + more;
    if nodes == [] {
      assert all == [Mark(node)] + more;
      assert all[1..] == more;
    } else {
      assert all[1..] == MarksOf(nodes[1..]) + [Mark(node)] + more;
      PiecesNew("", nodes[1..], node, more);
    }
  }

  lemma {:induction false} PiecesAdded(tokens: seq<Token>, text: string, flags: seq<bool>, nodes: seq<Node>)
    ensures Pieces(Added(tokens, flags, MarksOf(nodes)), text) == PAdded(Pieces(tokens, text), flags, nodes)
  {
    if tokens != [] {
      var more := tokens[1..];
      match tokens[0] {
        case Chars(data) =>
          PiecesAdded(more, text + data, flags, nodes);
          var rest := Added(more, flags, MarksOf(nodes));
          assert ([tokens[0]] + rest)[1..] == rest;
        case Mark(node) =>
          var rest := Added(more, Flags(flags, node), MarksOf(nodes));
          PiecesAdded(more, "", Flags(flags, node), nodes);
          PiecesNew(text, if Due(flags, node) then nodes else [], node, rest);
          assert ([Piece(text, node)] + Pieces(more, ""))[1..] == Pieces(more, "");
      }
    }
  }

  lemma BlankAppend(a: string, b: string)
    ensures AllBlank(a + b) <==> AllBlank(a) && AllBlank(b)
  {
    assert forall i :: 0 <= i < |a| ==> a[i] == (a + b)[i];
    assert forall i :: 0 <= i < |b| ==> b[i] == (a + b)[|a| + i];
  }

  /** Being orderly is a matter of the pieces (and the last text). */
  lemma {:induction false} OrderlyPieces(tokens: seq<Token>, text: string, d: nat, st: State)
    requires AllBlank(LastText(tokens, text))
    ensures Orderly(tokens, d, st) && (st.gone ==> AllBlank(text)) <==> POrderly(Pieces(tokens, text), d, st)
  {
    if tokens != [] {
      var more := tokens[1..];
      match tokens[0] {
        case Chars(data) =>
          OrderlyPieces(more, text + data, d, st);
          BlankAppend(text, data);
        case Mark(node) =>
          OrderlyPieces(more, "", Depth(d, node), Next(st, d, node));
          assert ([Piece(text, node)] + Pieces(more, ""))[1..] == Pieces(more, "");
      }
    }
  }

  // ----- up to white space -----

  function Trim(ps: seq<Piece>): (r: seq<Piece>)
    ensures |r| == |ps| && forall i :: 0 <= i < |ps| ==> r[i] == Piece(Strip(ps[i].text), ps[i].node)
  {
    if ps == [] then [] else [Piece(Strip(ps[0].text), ps[0].node)] + Trim(ps[1..])
  }

  lemma TrimFirst(a: seq<Piece>, b: seq<Piece>)
    requires Trim(a) == Trim(b)
    ensures |a| == |b|
    ensures a != [] ==> Strip(a[0].text) == Strip(b[0].text) && a[0].node == b[0].node && Trim(a[1..]) == Trim(b[1..])
  {
    assert |a| == |Trim(a)| == |Trim(b)| == |b|;
    if a != [] {
      assert Trim(a)[0] == Trim(b)[0];
      assert Trim(a[1..]) == Trim(a)[1..] == Trim(b)[1..] == Trim(b[1..]);
    }
  }

  lemma {:induction false} TrimOrderly(a: seq<Piece>, b: seq<Piece>, d: nat, st: State)
    requires Trim(a) == Trim(b) && POrderly(a, d, st)
    ensures POrderly(b, d, st)
  {
    TrimFirst(a, b);
    if a != [] {
      StripBlank(a[0].text);
      StripBlank(b[0].text);
      TrimOrderly(a[1..], b[1..], Depth(d, a[0].node), Next(st, d, a[0].node));
    }
  }

  lemma StripSum(p: string, a: string, q: string, b: string, gone: bool)
    requires Strip(p) == Strip(q) && Strip(a) == Strip(b)
    requires if gone then AllBlank(a) else p == "" && q == ""
    ensures Strip(p + a) == Strip(q + b)
  {
    if gone {
      SameBlank(a, b);
      StripRight(p, a);
      StripRight(q, b);
    } else {
      StripLeft(a);
      StripLeft(b);
    }
  }

  lemma SameBlank(a: string, b: string)
    requires Strip(a) == Strip(b) && AllBlank(a)
    ensures AllBlank(b)
  {
    StripBlank(a);
    StripBlank(b);
  }

  lemma StripLeft(a: string)
    ensures Strip("" + a) == Strip(a)
  {
    assert "" + a == a;
  }

  lemma StripRight(p: string, a: string)
    requires AllBlank(a)
    ensures Strip(p + a) == Strip(p)
  {
    StripFrame("", p, a);
    assert "" + p + a == p + a;
  }

  /** Removal respects equality up to white space on orderly pieces. */
  lemma {:induction false} TrimWithout(a: seq<Piece>, p: string, b: seq<Piece>, q: string, d: nat, st: State)
    requires Trim(a) == Trim(b) && POrderly(a, d, st)
    requires Strip(p) == Strip(q) && (!st.gone ==> p == "" && q == "")
    ensures Trim(PWithout(a, p, d)) == Trim(PWithout(b, q, d))
  {
    TrimFirst(a, b);
    if a != [] {
      var node := a[0].node;
      StripSum(p, a[0].text, q, b[0].text, st.gone);
      if Gone(d, node) {
        TrimWithout(a[1..], p + a[0].text, b[1..], q + b[0].text, Depth(d, node), Next(st, d, node));
      } else {
        TrimWithout(a[1..], "", b[1..], "", Depth(d, node), Next(st, d, node));
        TrimCons(Piece(p + a[0].text, node), PWithout(a[1..], "", Depth(d, node)));
        TrimCons(Piece(q + b[0].text, node), PWithout(b[1..], "", Depth(d, node)));
      }
    }
  }

  lemma TrimCons(p: Piece, ps: seq<Piece>)
    ensures Trim([p] + ps) == [Piece(Strip(p.text), p.node)] + Trim(ps)
  {
    assert ([p] + ps)[1..] == ps;
  }

  lemma {:induction false} TrimAppend(a: seq<Piece>, b: seq<Piece>)
    ensures Trim(a + b) == Trim(a) + Trim(b)
  {
    if a == [] {
      assert a + b == b;
    } else {
      assert (a + b)[1..] == a[1..] + b;
      TrimAppend(a[1..], b);
    }
  }

  lemma {:induction false} TrimNew(s: string, t: string, nodes: seq<Node>, node: Node)
    requires Strip(s) == Strip(t)
    ensures Trim(PNew(s, nodes, node)) == Trim(PNew(t, nodes, node))
  {
    if nodes != [] {
      TrimCons(Piece(s, nodes[0]), PNew("", nodes[1..], node));
      TrimCons(Piece(t, nodes[0]), PNew("", nodes[1..], node));
    } else {
      TrimCons(Piece(s, node), []);
      TrimCons(Piece(t, node), []);
    }
  }

  /** Addition respects equality up to white space. */
  lemma {:induction false} TrimAdded(a: seq<Piece>, b: seq<Piece>, flags: seq<bool>, nodes: seq<Node>)
    requires Trim(a) == Trim(b)
    ensures Trim(PAdded(a, flags, nodes)) == Trim(PAdded(b, flags, nodes))
  {
    TrimFirst(a, b);
    if a != [] {
      var due := if Due(flags, a[0].node) then nodes else [];
      TrimAdded(a[1..], b[1..], Flags(flags, a[0].node), nodes);
      TrimNew(a[0].text, b[0].text, due, a[0].node);
      TrimAppend(PNew(a[0].text, due, a[0].node), PAdded(a[1..], Flags(flags, a[0].node), nodes));
      TrimAppend(PNew(b[0].text, due, b[0].node), PAdded(b[1..], Flags(flags, b[0].node), nodes));
    }
  }

  // ----- the second refresh -----

  function NodesOf(new_: seq<Tree>): seq<Node>
    requires Fresh(new_)
  {
    if new_ == [] then [] else [Empty(new_[0].tag, new_[0].attrs)] + NodesOf(new_[1..])
  }

  lemma {:induction false} TokensOfNew(new_: seq<Tree>)
    requires Fresh(new_)
    ensures Tokens(new_) == MarksOf(NodesOf(new_))
  {
    if new_ != [] {
      TokensFirst(new_);
      TokensOne(new_[0].tag, new_[0].attrs, []);
      TokensOfNew(new_[1..]);
    }
  }

  /** What a document looks like to a reader who does not see white space around texts. */
  function View(ts: seq<Tree>): seq<Piece> {
    Trim(Pieces(Tokens(ts), ""))
  }

  /** A document has no text outside its elements. */
  predicate NoTopText(ts: seq<Tree>) {
    forall i :: 0 <= i < |ts| ==> !ts[i].CharData?
  }

  lemma {:induction false} LastTextAfter(a: seq<Token>, node: Node, text: string)
    ensures LastText(a + [Mark(node)], text) == ""
  {
    var s := a + [Mark(node)];
    if a == [] {
      assert s[1..] == [];
    } else {
      assert s[1..] == a[1..] + [Mark(node)];
      match a[0] {
        case Chars(data) => LastTextAfter(a[1..], node, text + data);
        case Mark(_) => LastTextAfter(a[1..], node, "");
      }
    }
  }

  lemma {:induction false} LastTextAppend(a: seq<Token>, b: seq<Token>, text: string)
    ensures LastText(a + b, text) == LastText(b, LastText(a, text))
  {
    if a == [] {
      assert a + b == b;
    } else {
      assert (a + b)[1..] == a[1..] + b;
      match a[0] {
        case Chars(data) => LastTextAppend(a[1..], b, text + data);
        case Mark(_) => LastTextAppend(a[1..], b, "");
      }
    }
  }

  lemma {:induction false} NoLastText(ts: seq<Tree>)
    requires NoTopText(ts)
    ensures LastText(Tokens(ts), "") == ""
  {
    if ts != [] {
      TokensFirst(ts);
      LastTextAppend(Tokens([ts[0]]), Tokens(ts[1..]), "");
      NoLastText(ts[1..]);
      match ts[0] {
        case Element(tag, attrs, kids) =>
          TokensOne(tag, attrs, kids);
          LastTextAfter([Mark(Start(tag, attrs))] + Tokens(kids), End(tag), "");
          LastTextAfter([], Empty(tag, attrs), "");
          assert [] + [Mark(Empty(tag, attrs))] == [Mark(Empty(tag, attrs))];
        case Other(mark) =>
          TokensLeaf(ts[0]);
          LastTextAfter([], Plain(mark), "");
          assert [] + [Mark(Plain(mark))] == [Mark(Plain(mark))];
      }
    }
  }

  lemma {:induction false} RefreshNoTopText(ts: seq<Tree>, new_: seq<Tree>)
    requires NoTopText(ts)
    ensures NoTopText(RemoveOld(ts, false)) && NoTopText(AddNew(ts, new_)) && NoTopText(Refresh(ts, new_))
  {
    RemoveNoTopText(ts);
    AddNoTopText(ts, new_);
    AddNoTopText(RemoveOld(ts, false), new_);
  }

  lemma {:induction false} RemoveNoTopText(ts: seq<Tree>)
    requires NoTopText(ts)
    ensures NoTopText(RemoveOld(ts, false))
  {
    if ts != [] { RemoveNoTopText(ts[1..]); }
  }

  lemma {:induction false} AddNoTopText(ts: seq<Tree>, new_: seq<Tree>)
    requires NoTopText(ts)
    ensures NoTopText(AddNew(ts, new_))
  {
    if ts != [] { AddNoTopText(ts[1..], new_); }
  }

  lemma ViewOfAdd(ts: seq<Tree>, new_: seq<Tree>)
    requires Fresh(new_)
    ensures Pieces(Tokens(AddNew(ts, new_)), "") == PAdded(Pieces(Tokens(ts), ""), [], NodesOf(new_))
  {
    AddInOrder(ts, new_, [], []);
    assert Tokens(ts) + [] == Tokens(ts);
    assert Tokens(AddNew(ts, new_)) + [] == Tokens(AddNew(ts, new_));
    TokensOfNew(new_);
    PiecesAdded(Tokens(ts), "", [], NodesOf(new_));
  }

  lemma ViewOfRemove(ts: seq<Tree>, st: State)
    requires Orderly(Tokens(ts), 0, st)
    ensures Pieces(Tokens(RemoveOld(ts, false)), "") == PWithout(Pieces(Tokens(ts), ""), "", 0)
  {
    RemoveInOrder(ts, 0, st);
    PiecesWithout(Tokens(ts), "", "", 0);
    assert "" + "" == "";
  }
}
