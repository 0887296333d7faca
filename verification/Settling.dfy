/** What an XML parser makes of white space in what `toxml` writes unescaped: every line break in a text
    becomes a line feed (XML 1.0, section 2.11), and in the value of an attribute a line break or a tab
    becomes a space (section 3.3.3). A document that has none of these is read as it was written. */
module Settling {
  import opened Text
  import opened XmlMarkup
  import opened XmlTree
  import opened TunerTree
  import opened TunerTokens
  import opened TunerPieces

  // ----- strings -----

  /** Line breaks: a carriage return in front of a line feed goes, any other becomes a line feed. */
  function EndLines(s: string): string {
    if s == "" then ""
    else if s[0] == '\r' then (if |s| > 1 && s[1] == '\n' then EndLines(s[1..]) else "\n" + EndLines(s[1..]))
    else [s[0]] + EndLines(s[1..])
  }

  predicate Moved(c: char) {
    c == '\t' || c == '\n' || c == '\r'
  }

  /** The value of an attribute. */
  function Flat(s: string): string {
    if s == "" then ""
    else if s[0] == '\r' && |s| > 1 && s[1] == '\n' then Flat(s[1..])
    else [if Moved(s[0]) then ' ' else s[0]] + Flat(s[1..])
  }

  /** A carriage return and a line feed count as one break, in a text and in a value. */
  lemma PairIsOne(s: string)
    ensures EndLines("\r\n" + s) == "\n" + EndLines(s) && Flat("\r\n" + s) == " " + Flat(s)
  {
    var t, u := "\r\n" + s, "\n" + s;
    assert t[1..] == u && u[1..] == s;
  }

  /** Any other white space character counts by itself: a break becomes a line feed, and in a value a space. */
  lemma WhiteAlone(c: char, s: string)
    requires c in "\t\n\r" && (c == '\r' ==> s == "" || s[0] != '\n')
    ensures EndLines([c] + s) == (if c == '\t' then "\t" else "\n") + EndLines(s)
    ensures Flat([c] + s) == " " + Flat(s)
  {
    var t := [c] + s;
    assert t[1..] == s;
  }

  predicate OnOneLine(s: string) {
    forall i :: 0 <= i < |s| ==> !Moved(s[i])
  }

  lemma {:induction false} NoReturnLeft(s: string)
    ensures '\r' !in EndLines(s)
  {
    if s != "" { NoReturnLeft(s[1..]); }
  }

  lemma {:induction false} EndLinesKeeps(s: string)
    requires '\r' !in s
    ensures EndLines(s) == s
  {
    if s != "" {
      EndLinesKeeps(s[1..]);
      assert s[0] in s && s == [s[0]] + s[1..];
    }
  }

  /** A text stays as it is exactly when it has no carriage return. */
  lemma EndLinesExactly(s: string)
    ensures EndLines(s) == s <==> '\r' !in s
  {
    NoReturnLeft(s);
    if '\r' !in s { EndLinesKeeps(s); }
  }

  lemma {:induction false} FlatIsFlat(s: string)
    ensures OnOneLine(Flat(s))
  {
    if s != "" { FlatIsFlat(s[1..]); }
  }

  lemma {:induction false} FlatKeeps(s: string)
    requires OnOneLine(s)
    ensures Flat(s) == s
  {
    if s != "" {
      assert !Moved(s[0]);
      FlatKeeps(s[1..]);
      assert s == [s[0]] + s[1..];
    }
  }

  /** A value stays as it is exactly when it has no tab and no line break. */
  lemma FlatExactly(s: string)
    ensures Flat(s) == s <==> OnOneLine(s)
  {
    FlatIsFlat(s);
    if OnOneLine(s) { FlatKeeps(s); }
  }

  lemma {:induction false} EndLinesConcat(a: string, b: string)
    requires a == "" || b == "" || a[|a| - 1] != '\r' || b[0] != '\n'
    ensures EndLines(a + b) == EndLines(a) + EndLines(b)
  {
    if a == "" {
      assert a + b == b;
    } else {
      assert (a + b)[1..] == a[1..] + b;
      EndLinesConcat(a[1..], b);
    }
  }

  lemma {:induction false} EndLinesBlank(s: string)
    requires AllBlank(s)
    ensures AllBlank(EndLines(s))
  {
    if s != "" {
      assert IsBlank(s[0]) && IsBlank('\n');
      EndLinesBlank(s[1..]);
    }
  }

  lemma {:induction false} EndLinesSome(s: string)
    requires s != ""
    ensures EndLines(s) != ""
  {
    if |s| > 1 { EndLinesSome(s[1..]); }
  }

  /** Ends that are not blank stay the ends. */
  lemma EndLinesTrimmed(t: string)
    requires Trimmed(t)
    ensures Trimmed(EndLines(t))
  {
    if t != "" {
      var z := t[|t| - 1];
      assert IsBlank('\r') && IsBlank('\n');
      assert t == t[..|t| - 1] + [z];
      EndLinesConcat(t[..|t| - 1], [z]);
      assert EndLines([z]) == [z];
    }
  }

  /** Stripping and reading the line breaks can be done in either order. */
  lemma StripEndLines(s: string)
    ensures Strip(EndLines(s)) == EndLines(Strip(s))
  {
    hide Strip;
    var a, b := StripParts(s);
    var t := Strip(s);
    EndLinesBlank(a);
    EndLinesBlank(b);
    EndLinesTrimmed(t);
    if t == "" {
      assert s == a + b;
      BlankAppend(a, b);
      EndLinesBlank(s);
      StripBlank(EndLines(s));
    } else {
      EndLinesParts(a, t, b);
      StripUnique(EndLines(a), EndLines(t), EndLines(b));
    }
  }

  lemma EndLinesParts(a: string, t: string, b: string)
    requires t != "" && Trimmed(t)
    ensures EndLines(a + t + b) == EndLines(a) + EndLines(t) + EndLines(b)
  {
    assert IsBlank('\r') && IsBlank('\n');
    EndLinesConcat(a, t);
    EndLinesConcat(a + t, b);
  }

  // ----- entities -----

  /** The entities have no white space: they can be resolved before or after the line breaks are read. */
  lemma {:induction false} EndLinesEscape(s: string)
    ensures EndLines(Escape(s)) == Escape(EndLines(s))
  {
    if s != "" {
      EndLinesEscape(s[1..]);
      var e, more := EscapeChar(s[0]), Escape(s[1..]);
      EscapeStart(s[1..]);
      EscapedIsPlain(s[0]);
      if s[0] == '\r' {
        assert (e + more)[1..] == more;
      } else {
        EndLinesConcat(e, more);
        EndLinesKeeps(e);
      }
    }
  }

  lemma EscapeStart(s: string)
    ensures s == "" <==> Escape(s) == ""
    ensures s != "" ==> (Escape(s)[0] == '\n' <==> s[0] == '\n')
  {
  }

  lemma EscapedIsPlain(c: char)
    ensures c == '\r' ==> EscapeChar(c) == "\r"
    ensures c != '\r' ==> '\r' !in EscapeChar(c)
  {
  }

  lemma {:induction false} FlatConcat(a: string, b: string)
    requires a == "" || b == "" || a[|a| - 1] != '\r' || b[0] != '\n'
    ensures Flat(a + b) == Flat(a) + Flat(b)
  {
    if a == "" {
      assert a + b == b;
    } else {
      assert (a + b)[1..] == a[1..] + b;
      FlatConcat(a[1..], b);
    }
  }

  lemma {:induction false} FlatEscape(s: string)
    ensures Flat(Escape(s)) == Escape(Flat(s))
  {
    if s != "" {
      FlatEscape(s[1..]);
      var e, more := EscapeChar(s[0]), Escape(s[1..]);
      EscapeStart(s[1..]);
      EscapedIsFlat(s[0]);
      if Moved(s[0]) {
        assert (e + more)[1..] == more;
      } else {
        FlatConcat(e, more);
        FlatKeeps(e);
      }
    }
  }

  lemma EscapedIsFlat(c: char)
    ensures Moved(c) ==> EscapeChar(c) == [c]
    ensures !Moved(c) ==> OnOneLine(EscapeChar(c))
    ensures EscapeChar(' ') == " "
  {
  }

  /** A parser reads line breaks first and entities then: for what `toxml` writes the order is immaterial. */
  lemma ReadingOrder(s: string)
    ensures Unescape(EndLines(Escape(s))) == EndLines(Unescape(Escape(s)))
    ensures Unescape(Flat(Escape(s))) == Flat(Unescape(Escape(s)))
  {
    EndLinesEscape(s);
    FlatEscape(s);
    UnescapeEscape(s);
    UnescapeEscape(EndLines(s));
    UnescapeEscape(Flat(s));
  }

  // ----- what is looked for -----

  predicate Has(s: string, pat: string) {
    s != "" && (pat <= s || Has(s[1..], pat))
  }

  predicate NoWhite(pat: string) {
    forall i :: 0 <= i < |pat| ==> !Moved(pat[i]) && pat[i] != ' '
  }

  lemma {:induction false} FlatPrefix(s: string, pat: string)
    requires NoWhite(pat)
    ensures pat <= Flat(s) <==> pat <= s
  {
    if pat != "" && s != "" {
      assert !Moved(pat[0]) && pat[0] != ' ';
      if s[0] == pat[0] {
        FlatPrefix(s[1..], pat[1..]);
        PrefixTail(s[0], s[1..], pat);
        PrefixTail(s[0], Flat(s[1..]), pat);
        assert s == [s[0]] + s[1..];
      }
    }
  }

  lemma PrefixTail(c: char, s: string, pat: string)
    requires pat != "" && pat[0] == c
    ensures pat <= [c] + s <==> pat[1..] <= s
  {
    assert pat == [c] + pat[1..];
    if pat <= [c] + s { assert ([c] + s)[1..] == s && pat[1..] == ([c] + s)[1..][..|pat| - 1]; }
  }

  lemma {:induction false} FlatHas(s: string, pat: string)
    requires NoWhite(pat) && pat != ""
    ensures Has(Flat(s), pat) <==> Has(s, pat)
  {
    if s != "" {
      FlatHas(s[1..], pat);
      FlatPrefix(s, pat);
      assert !Moved(pat[0]);
    }
  }

  lemma {:induction false} FindFromHas(s: string, pat: string, i: nat)
    requires pat != "" && i <= |s|
    ensures FindFrom(s, pat, i) >= 0 <==> Has(s[i..], pat)
    decreases |s| - i
  {
    if i < |s| {
      FindFromHas(s, pat, i + 1);
      assert s[i..][1..] == s[i + 1..];
      if |s| < i + |pat| {
        assert !(pat <= s[i..]);
        assert |s| < i + 1 + |pat|;
      } else {
        assert s[i..i + |pat|] == s[i..][..|pat|];
      }
    }
  }

  lemma FlatFind(s: string, pat: string)
    requires NoWhite(pat) && pat != ""
    ensures Find(Flat(s), pat) >= 0 <==> Find(s, pat) >= 0
    ensures Find(Flat(s), pat) == 0 <==> Find(s, pat) == 0
  {
    FindFromHas(s, pat, 0);
    FindFromHas(Flat(s), pat, 0);
    assert s[0..] == s && Flat(s)[0..] == Flat(s);
    FlatHas(s, pat);
    FlatPrefix(s, pat);
    FindStart(s, pat);
    FindStart(Flat(s), pat);
  }

  lemma FindStart(s: string, pat: string)
    ensures Find(s, pat) == 0 <==> pat <= s
  {
    if Find(s, pat) == 0 { assert At(s, pat, 0) && s[0..|pat|] == s[..|pat|]; }
    if pat <= s { assert s[0..|pat|] == s[..|pat|] == pat; }
  }

  lemma {:induction false} EndLinesPrefix(s: string, pat: string)
    requires NoWhite(pat)
    ensures pat <= EndLines(s) <==> pat <= s
  {
    if pat != "" && s != "" {
      assert !Moved(pat[0]);
      if s[0] == pat[0] {
        EndLinesPrefix(s[1..], pat[1..]);
        PrefixTail(s[0], s[1..], pat);
        PrefixTail(s[0], EndLines(s[1..]), pat);
        assert s == [s[0]] + s[1..];
      }
    }
  }

  lemma {:induction false} EndLinesHas(s: string, pat: string)
    requires NoWhite(pat) && pat != ""
    ensures Has(EndLines(s), pat) <==> Has(s, pat)
  {
    if s != "" {
      EndLinesHas(s[1..], pat);
      EndLinesPrefix(s, pat);
      assert !Moved(pat[0]);
      if s[0] == '\r' && !(|s| > 1 && s[1] == '\n') { assert ("\n" + EndLines(s[1..]))[1..] == EndLines(s[1..]); }
    }
  }

  /** What has no white space is found in a text before and after the line breaks are read. */
  lemma EndLinesFind(s: string, pat: string)
    requires NoWhite(pat) && pat != ""
    ensures Find(EndLines(s), pat) >= 0 <==> Find(s, pat) >= 0
  {
    FindFromHas(s, pat, 0);
    FindFromHas(EndLines(s), pat, 0);
    assert s[0..] == s && EndLines(s)[0..] == EndLines(s);
    EndLinesHas(s, pat);
  }

  // ----- nodes -----

  function SettleMap(attrs: map<string, string>): (r: map<string, string>)
    ensures r.Keys == attrs.Keys
  {
    map n | n in attrs :: Flat(attrs[n])
  }

  function SettleMark(m: Markup): Markup {
    match m
    case Tag(_, _, _, _) => m
    case Comment(body) => Comment(EndLines(body))
    case CData(body) => CData(EndLines(body))
    case Instruction(body) => Instruction(EndLines(body))
  }

  function SettleNode(node: Node): Node {
    match node
    case Start(tag, attrs) => Start(tag, SettleMap(attrs))
    case Empty(tag, attrs) => Empty(tag, SettleMap(attrs))
    case End(_) => node
    case Plain(mark) => Plain(SettleMark(mark))
  }

  predicate SteadyMark(m: Markup) {
    m.Tag? || '\r' !in m.body
  }

  predicate SteadyNode(node: Node) {
    match node
    case Start(_, attrs) => forall n :: n in attrs ==> OnOneLine(attrs[n])
    case Empty(_, attrs) => forall n :: n in attrs ==> OnOneLine(attrs[n])
    case End(_) => true
    case Plain(mark) => SteadyMark(mark)
  }

  lemma SettleMapExactly(attrs: map<string, string>)
    ensures SettleMap(attrs) == attrs <==> forall n :: n in attrs ==> OnOneLine(attrs[n])
  {
    forall n | n in attrs
      ensures SettleMap(attrs)[n] == attrs[n] <==> OnOneLine(attrs[n])
    {
      FlatExactly(attrs[n]);
    }
    hide OnOneLine, Flat;
  }

  lemma SettleNodeExactly(node: Node)
    ensures SettleNode(node) == node <==> SteadyNode(node)
  {
    hide OnOneLine, EndLines, SettleMap;
    match node {
      case Start(_, attrs) => SettleMapExactly(attrs);
      case Empty(_, attrs) => SettleMapExactly(attrs);
      case End(_) =>
      case Plain(mark) => if !mark.Tag? { EndLinesExactly(mark.body); }
    }
  }

  lemma SettledMarker(tag: string, attrs: map<string, string>)
    ensures IsMarker(tag, SettleMap(attrs)) <==> IsMarker(tag, attrs)
    ensures IsOld(tag, SettleMap(attrs)) <==> IsOld(tag, attrs)
  {
    assert NoWhite(MARKER_LABEL) && NoWhite(TUNER_PREFIX);
    hide Find, Flat, NoWhite;
    if "label" in attrs { FlatFind(attrs["label"], MARKER_LABEL); }
    if "id" in attrs { FlatFind(attrs["id"], TUNER_PREFIX); }
  }

  /** None of the decisions of a refresh depends on what settles. */
  lemma SameDecisions(node: Node)
    ensures forall d :: Depth(d, SettleNode(node)) == Depth(d, node) && (Gone(d, SettleNode(node)) <==> Gone(d, node))
    ensures forall d :: Filled(d, SettleNode(node)) <==> Filled(d, node)
    ensures forall flags :: Flags(flags, SettleNode(node)) == Flags(flags, node)
    ensures forall flags :: Due(flags, SettleNode(node)) <==> Due(flags, node)
    ensures SettleNode(node).Start? == node.Start? && SettleNode(node).End? == node.End?
  {
    hide IsOld, IsMarker, SettleMap, Raise;
    if node.Start? || node.Empty? { SettledMarker(node.tag, node.attrs); }
  }

  // ----- pieces -----

  function SettlePiece(p: Piece): Piece {
    Piece(EndLines(p.text), SettleNode(p.node))
  }

  function SettleAll(ps: seq<Piece>): (r: seq<Piece>)
    ensures |r| == |ps| && forall i :: 0 <= i < |ps| ==> r[i] == SettlePiece(ps[i])
  {
    if ps == [] then [] else [SettlePiece(ps[0])] + SettleAll(ps[1..])
  }

  predicate Steady(ps: seq<Piece>) {
    forall i :: 0 <= i < |ps| ==> '\r' !in ps[i].text && SteadyNode(ps[i].node)
  }

  /** Pieces are read as they were written exactly when they are steady. */
  lemma SteadyExactly(ps: seq<Piece>)
    ensures SettleAll(ps) == ps <==> Steady(ps)
  {
    hide EndLines, SettleNode, SteadyNode;
    forall i | 0 <= i < |ps|
      ensures SettlePiece(ps[i]) == ps[i] <==> '\r' !in ps[i].text && SteadyNode(ps[i].node)
    {
      EndLinesExactly(ps[i].text);
      SettleNodeExactly(ps[i].node);
    }
    hide SettlePiece;
    if Steady(ps) {
      assert forall i :: 0 <= i < |ps| ==> SettleAll(ps)[i] == ps[i];
    }
  }


  lemma SettleCons(p: Piece, ps: seq<Piece>)
    ensures SettleAll([p] + ps) == [SettlePiece(p)] + SettleAll(ps)
  {
    hide SettlePiece;
  }

  /** Settling and trimming can be done in either order. */
  lemma TrimSettle(ps: seq<Piece>)
    ensures Trim(SettleAll(ps)) == SettleAll(Trim(ps))
  {
    hide Strip, EndLines, SettleNode;
    forall i | 0 <= i < |ps|
      ensures Trim(SettleAll(ps))[i] == SettleAll(Trim(ps))[i]
    {
      StripEndLines(ps[i].text);
    }
  }

  /** What is removed does not depend on settling, apart from white space around texts. */
  lemma {:induction false} WithoutSettles(ps: seq<Piece>, p: string, q: string, d: nat, st: State)
    requires POrderly(ps, d, st)
    requires Strip(q) == Strip(EndLines(p)) && (!st.gone ==> p == "" && q == "")
    ensures Trim(PWithout(SettleAll(ps), q, d)) == Trim(SettleAll(PWithout(ps, p, d)))
  {
    hide Strip, EndLines, SettleNode, Gone, Depth, Next, MayFollow;
    if ps != [] {
      var text, node := ps[0].text, ps[0].node;
      SameDecisions(node);
      PendingSettles(p, q, text, st.gone);
      var s := SettleAll(ps);
      assert s[0] == SettlePiece(ps[0]) && s[1..] == SettleAll(ps[1..]);
      GoneNext(st, d, node);
      if Gone(d, node) {
        WithoutSettles(ps[1..], p + text, q + EndLines(text), Depth(d, node), Next(st, d, node));
      } else {
        WithoutSettles(ps[1..], "", "", Depth(d, node), Next(st, d, node));
        var more := PWithout(ps[1..], "", Depth(d, node));
        TrimCons(Piece(q + EndLines(text), SettleNode(node)), PWithout(s[1..], "", Depth(d, node)));
        SettleCons(Piece(p + text, node), more);
        TrimCons(SettlePiece(Piece(p + text, node)), SettleAll(more));
      }
    }
  }

  lemma GoneNext(st: State, d: nat, node: Node)
    ensures Next(st, d, node).gone <==> Gone(d, node)
    ensures Strip("") == Strip(EndLines(""))
  {
  }

  lemma PendingSettles(p: string, q: string, text: string, gone: bool)
    requires Strip(q) == Strip(EndLines(p))
    requires if gone then AllBlank(text) else p == "" && q == ""
    ensures Strip(q + EndLines(text)) == Strip(EndLines(p + text))
  {
    hide Strip, EndLines;
    if gone {
      EndLinesBlank(text);
      StripRight(q, EndLines(text));
      StripRight(p, text);
      StripEndLines(p + text);
      StripEndLines(p);
    } else {
      assert "" + EndLines(text) == EndLines(text) && "" + text == text;
    }
  }

  lemma {:induction false} NewSettles(text: string, nodes: seq<Node>, node: Node, other: string)
    requires Strip(other) == Strip(text)
    ensures |PNew(text, nodes, node)| == |nodes| + 1
    ensures PNew(text, nodes, node)[|nodes|].node == node
    ensures Strip(PNew(text, nodes, node)[0].text) == Strip(other)
    decreases |nodes|
  {
    if nodes != [] { NewSettles("", nodes[1..], node, ""); }
  }

  /** After an addition two documents, one of which is the other one settled, look the same only if they
      did before. */
  lemma {:induction false} AddedApart(a: seq<Piece>, b: seq<Piece>, flags: seq<bool>, nodes: seq<Node>)
    requires a == SettleAll(b) && Trim(PAdded(a, flags, nodes)) == Trim(PAdded(b, flags, nodes))
    ensures Trim(a) == Trim(b)
  {
    hide Strip, EndLines, SettleNode, Flags, Due;
    if b != [] {
      SameDecisions(b[0].node);
      var due := if Due(flags, b[0].node) then nodes else [];
      var x, y := PNew(a[0].text, due, a[0].node), PNew(b[0].text, due, b[0].node);
      var f := Flags(flags, b[0].node);
      NewSettles(a[0].text, due, a[0].node, a[0].text);
      NewSettles(b[0].text, due, b[0].node, b[0].text);
      SplitTrim(x, PAdded(a[1..], f, nodes), y, PAdded(b[1..], f, nodes));
      assert a[1..] == SettleAll(b[1..]);
      AddedApart(a[1..], b[1..], f, nodes);
      assert Trim(x)[0] == Trim(y)[0] && Trim(x)[|due|] == Trim(y)[|due|];
    }
  }

  lemma SplitTrim(x: seq<Piece>, xs: seq<Piece>, y: seq<Piece>, ys: seq<Piece>)
    requires Trim(x + xs) == Trim(y + ys) && |x| == |y|
    ensures Trim(x) == Trim(y) && Trim(xs) == Trim(ys)
  {
    TrimAppend(x, xs);
    TrimAppend(y, ys);
    assert Trim(x) == (Trim(x) + Trim(xs))[..|x|] && Trim(y) == (Trim(y) + Trim(ys))[..|x|];
    assert Trim(xs) == (Trim(x) + Trim(xs))[|x|..] && Trim(ys) == (Trim(y) + Trim(ys))[|x|..];
  }

  // ----- the second refresh -----

  /** Nothing in the document is changed by writing and reading it, up to white space around texts: no
      carriage return in a text or in markup, no tab and no line break in a value. */
  predicate SteadyDocument(ts: seq<Tree>) {
    Steady(View(ts))
  }

  /** What is left of a refreshed document that was written and read, when the tuner settings are removed. */
  lemma CleanAgain(ts: seq<Tree>, first: seq<Tree>, again: seq<Tree>)
    requires Fresh(first) && NoTopText(ts) && NoTopText(again)
    requires View(again) == SettleAll(View(Refresh(ts, first)))
    ensures View(RemoveOld(again, false)) == SettleAll(View(RemoveOld(ts, false)))
  {
    hide Strip, AllBlank, POrderly, Orderly, Pieces, Tokens, PWithout, Trim, SettleAll, EndLines;
    var st := State(More, false);
    var clean := RemoveOld(ts, false);
    var once := AddNew(clean, first);
    RemovedAll(ts, false);
    RefreshNoTopText(ts, first);
    OrderlyAdd(clean, first, 0, st);
    NoLastText(once);
    NoLastText(again);
    BlankEmpty();
    OrderlyPieces(Tokens(once), "", 0, st);
    SettleOrderly(Pieces(Tokens(once), ""), 0, st);
    var settled := SettleAll(Pieces(Tokens(once), ""));
    TrimSettle(Pieces(Tokens(once), ""));
    TrimOrderly(settled, Pieces(Tokens(again), ""), 0, st);
    OrderlyPieces(Tokens(again), "", 0, st);
    ViewOfRemove(once, st);
    ViewOfRemove(again, st);
    TrimWithout(Pieces(Tokens(again), ""), "", settled, "", 0, st);
    WithoutSettles(Pieces(Tokens(once), ""), "", "", 0, st);
    RemoveUndoesAdd(clean, first, false);
    TrimSettle(Pieces(Tokens(clean), ""));
  }

  lemma BlankEmpty()
    ensures AllBlank("") && EndLines("") == ""
  {
  }

  lemma {:induction false} SettleOrderly(ps: seq<Piece>, d: nat, st: State)
    requires POrderly(ps, d, st)
    ensures POrderly(SettleAll(ps), d, st)
  {
    hide EndLines, SettleNode, Gone, Filled, Depth;
    if ps != [] {
      SameDecisions(ps[0].node);
      if st.gone { EndLinesBlank(ps[0].text); }
      SettleOrderly(ps[1..], Depth(d, ps[0].node), Next(st, d, ps[0].node));
    }
  }

  /** A refreshed document that was written and read, refreshed with other tuners, looks as if only the
      second refresh had been done, exactly when the original without its tuner settings is steady. */
  lemma SecondRefresh(ts: seq<Tree>, first: seq<Tree>, again: seq<Tree>, second: seq<Tree>)
    requires Fresh(first) && Fresh(second) && NoTopText(ts) && NoTopText(again)
    requires View(again) == SettleAll(View(Refresh(ts, first)))
    ensures View(Refresh(again, second)) == View(Refresh(ts, second)) <==> SteadyDocument(RemoveOld(ts, false))
  {
    hide Pieces, Tokens, Trim, SettleAll, PAdded;
    var clean, left := RemoveOld(ts, false), RemoveOld(again, false);
    CleanAgain(ts, first, again);
    ViewOfAdd(clean, second);
    ViewOfAdd(left, second);
    var ps, settled := Pieces(Tokens(clean), ""), SettleAll(Pieces(Tokens(clean), ""));
    TrimSettle(ps);
    TrimAdded(Pieces(Tokens(left), ""), settled, [], NodesOf(second));
    SteadyExactly(View(clean));
    if Trim(settled) == Trim(ps) {
      TrimAdded(settled, ps, [], NodesOf(second));
    }
    if View(Refresh(again, second)) == View(Refresh(ts, second)) {
      AddedApart(settled, ps, [], NodesOf(second));
    }
  }
}
