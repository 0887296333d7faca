/** The refresh seen from the reading order of the document: what it does to the sequence of tags and
    texts, and that it does not depend on how the texts between tags are laid out. */
module TunerTokens {
  import opened Text
  import opened XmlTree
  import opened TunerTree

  // ----- removal, in reading order -----

  /** How many categories are open after a node. */
  function Depth(d: nat, node: Node): nat {
    match node
    case Start(tag, _) => if tag == "category" then d + 1 else d
    case End(tag) => if tag == "category" && d > 0 then d - 1 else d
    case _ => d
  }

  /** An empty tuner setting below a category. */
  predicate Gone(d: nat, node: Node) {
    d > 0 && node.Empty? && IsOld(node.tag, node.attrs)
  }

  /** A tuner setting with content below a category. */
  predicate Filled(d: nat, node: Node) {
    d > 0 && node.Start? && IsOld(node.tag, node.attrs)
  }

  /** What stands since the last opening tag: nothing, only settings that will go, or something else. */
  datatype Since = Nothing | OnlyGone | More

  /** `gone`: the last node was a setting that will go. */
  datatype State = State(since: Since, gone: bool)

  function Next(st: State, d: nat, node: Node): State {
    State(if node.Start? then Nothing else if Gone(d, node) && st.since != More then OnlyGone else More,
          Gone(d, node))
  }

  predicate MayFollow(st: State, d: nat, node: Node) {
    !Filled(d, node) && !(node.End? && st.since == OnlyGone)
  }

  /** No tuner setting below a category has content, none of these settings is all that its element
      holds, and only white space follows one. */
  predicate Orderly(tokens: seq<Token>, d: nat, st: State) {
    tokens == [] ||
    (match tokens[0]
     case Chars(data) => (st.gone ==> AllBlank(data)) && Orderly(tokens[1..], d, st)
     case Mark(node) => MayFollow(st, d, node) && Orderly(tokens[1..], Depth(d, node), Next(st, d, node)))
  }

  function DepthAfter(tokens: seq<Token>, d: nat): nat {
    if tokens == [] then d
    else DepthAfter(tokens[1..], if tokens[0].Mark? then Depth(d, tokens[0].node) else d)
  }

  function StateAfter(tokens: seq<Token>, d: nat, st: State): State {
    if tokens == [] then st
    else match tokens[0]
      case Chars(_) => StateAfter(tokens[1..], d, st)
      case Mark(node) => StateAfter(tokens[1..], Depth(d, node), Next(st, d, node))
  }

  function Without(tokens: seq<Token>, d: nat): seq<Token> {
    if tokens == [] then []
    else if tokens[0].Chars? then [tokens[0]] + Without(tokens[1..], d)
    else (if Gone(d, tokens[0].node) then [] else [tokens[0]]) + Without(tokens[1..], Depth(d, tokens[0].node))
  }

  lemma {:induction false} AppendTokens(a: seq<Token>, b: seq<Token>, d: nat, st: State)
    ensures Without(a + b, d) == Without(a, d) + Without(b, DepthAfter(a, d))
    ensures DepthAfter(a + b, d) == DepthAfter(b, DepthAfter(a, d))
    ensures StateAfter(a + b, d, st) == StateAfter(b, DepthAfter(a, d), StateAfter(a, d, st))
    ensures Orderly(a + b, d, st) <==>
            Orderly(a, d, st) && Orderly(b, DepthAfter(a, d), StateAfter(a, d, st))
  {
    if a == [] {
      assert a + b == b;
    } else {
      assert (a + b)[1..] == a[1..] + b;
      if a[0].Chars? {
        AppendTokens(a[1..], b, d, st);
      } else {
        AppendTokens(a[1..], b, Depth(d, a[0].node), Next(st, d, a[0].node));
      }
    }
  }

  /** A single node. */
  lemma OneMark(node: Node, d: nat, st: State)
    ensures Without([Mark(node)], d) == if Gone(d, node) then [] else [Mark(node)]
    ensures DepthAfter([Mark(node)], d) == Depth(d, node)
    ensures StateAfter([Mark(node)], d, st) == Next(st, d, node)
    ensures Orderly([Mark(node)], d, st) <==> MayFollow(st, d, node)
  {
    assert [Mark(node)][1..] == [];
  }

  /** Tokens of the children between the tags of their element. */
  function Between(tag: string, attrs: map<string, string>, inner: seq<Token>): seq<Token> {
    [Mark(Start(tag, attrs))] + inner + [Mark(End(tag))]
  }

  lemma TokensOne(tag: string, attrs: map<string, string>, kids: seq<Tree>)
    ensures Tokens([Element(tag, attrs, kids)])
            == if kids == [] then [Mark(Empty(tag, attrs))] else Between(tag, attrs, Tokens(kids))
  {
    assert Tokens([Element(tag, attrs, kids)][1..]) == [];
  }

  lemma TokensLeaf(t: Tree)
    requires !t.Element?
    ensures Tokens([t]) == [if t.CharData? then Chars(t.data) else Mark(Plain(t.mark))]
  {
    assert Tokens([t][1..]) == [];
  }

  lemma AroundTokens(tag: string, attrs: map<string, string>, inner: seq<Token>, d: nat, st: State)
    requires DepthAfter(inner, Depth(d, Start(tag, attrs))) == Depth(d, Start(tag, attrs))
    ensures var d' := Depth(d, Start(tag, attrs));
            && DepthAfter(Between(tag, attrs, inner), d) == d
            && Without(Between(tag, attrs, inner), d) == Between(tag, attrs, Without(inner, d'))
            && StateAfter(Between(tag, attrs, inner), d, st) == State(More, false)
            && (Orderly(Between(tag, attrs, inner), d, st) <==>
                && !Filled(d, Start(tag, attrs))
                && Orderly(inner, d', State(Nothing, false))
                && StateAfter(inner, d', State(Nothing, false)).since != OnlyGone)
  {
    var d' := Depth(d, Start(tag, attrs));
    var open, close := [Mark(Start(tag, attrs))], [Mark(End(tag))];
    AppendTokens(open + inner, close, d, st);
    AppendTokens(open, inner, d, st);
    OneMark(Start(tag, attrs), d, st);
    OneMark(End(tag), d', StateAfter(inner, d', State(Nothing, false)));
  }

  /** A forest leaves the number of open categories as it was. */
  lemma {:induction false} ForestDepth(ts: seq<Tree>, d: nat)
    ensures DepthAfter(Tokens(ts), d) == d
  {
    if ts != [] {
      TokensFirst(ts);
      AppendTokens(Tokens([ts[0]]), Tokens(ts[1..]), d, State(More, false));
      ForestDepth(ts[1..], d);
      match ts[0] {
        case Element(tag, attrs, kids) =>
          TokensOne(tag, attrs, kids);
          OneMark(Empty(tag, attrs), d, State(More, false));
          ForestDepth(kids, Depth(d, Start(tag, attrs)));
          AroundTokens(tag, attrs, Tokens(kids), d, State(More, false));
        case CharData(_) =>
          TokensLeaf(ts[0]);
        case Other(mark) =>
          TokensLeaf(ts[0]);
          OneMark(Plain(mark), d, State(More, false));
      }
    }
  }

  /** If all of a forest goes, then all of it is settings that go. */
  lemma {:induction false} AllGone(ts: seq<Tree>, d: nat, st: State)
    requires ts != [] && RemoveOld(ts, d > 0) == [] && Orderly(Tokens(ts), d, st) && st.since != More
    ensures StateAfter(Tokens(ts), d, st).since == OnlyGone
  {
    TokensFirst(ts);
    AppendTokens(Tokens([ts[0]]), Tokens(ts[1..]), d, st);
    match ts[0] {
      case Element(tag, attrs, kids) =>
        TokensOne(tag, attrs, kids);
        OneMark(Empty(tag, attrs), d, st);
        ForestDepth(kids, Depth(d, Start(tag, attrs)));
        AroundTokens(tag, attrs, Tokens(kids), d, st);
        if ts[1..] != [] { AllGone(ts[1..], d, State(OnlyGone, true)); }
    }
  }

  /** Removing from the tree is removing from the reading order. */
  lemma {:induction false} RemoveInOrder(ts: seq<Tree>, d: nat, st: State)
    requires Orderly(Tokens(ts), d, st)
    ensures Tokens(RemoveOld(ts, d > 0)) == Without(Tokens(ts), d)
    decreases ts, 0
  {
    if ts != [] {
      TokensFirst(ts);
      AppendTokens(Tokens([ts[0]]), Tokens(ts[1..]), d, st);
      ForestDepth([ts[0]], d);
      RemoveInOrder(ts[1..], d, StateAfter(Tokens([ts[0]]), d, st));
      RemoveCons(ts, d > 0);
      RemoveOneInOrder(ts[0], d, st);
      TokensAppend(RemoveOld([ts[0]], d > 0), RemoveOld(ts[1..], d > 0));
    }
  }

  lemma RemoveCons(ts: seq<Tree>, inside: bool)
    requires ts != []
    ensures RemoveOld(ts, inside) == RemoveOld([ts[0]], inside) + RemoveOld(ts[1..], inside)
  {
    RemoveAppend([ts[0]], ts[1..], inside);
    assert [ts[0]] + ts[1..] == ts;
  }

  lemma {:induction false} TokensAppend(a: seq<Tree>, b: seq<Tree>)
    ensures Tokens(a + b) == Tokens(a) + Tokens(b)
  {
    if a == [] {
      assert a + b == b;
    } else {
      assert (a + b)[1..] == a[1..] + b && (a + b)[0] == a[0];
      TokensAppend(a[1..], b);
      TokensFirst(a);
      TokensFirst(a + b);
    }
  }

  lemma {:induction false} RemoveOneInOrder(t: Tree, d: nat, st: State)
    requires Orderly(Tokens([t]), d, st)
    ensures Tokens(RemoveOld([t], d > 0)) == Without(Tokens([t]), d)
    decreases t, 0
  {
    assert [t][1..] == [];
    match t {
      case Element(tag, attrs, kids) =>
        TokensOne(tag, attrs, kids);
        var d' := Depth(d, Start(tag, attrs));
        if kids == [] {
          OneMark(Empty(tag, attrs), d, st);
        } else {
          ForestDepth(kids, d');
          AroundTokens(tag, attrs, Tokens(kids), d, st);
          RemoveInOrder(kids, d', State(Nothing, false));
          var left := RemoveOld(kids, d' > 0);
          if left == [] { AllGone(kids, d', State(Nothing, false)); }
          assert RemoveOld([t], d > 0) == [Element(tag, attrs, left)];
          TokensOne(tag, attrs, left);
        }
      case CharData(_) => TokensLeaf(t);
      case Other(mark) =>
        TokensLeaf(t);
        OneMark(Plain(mark), d, st);
    }
  }

  // ----- addition, in reading order -----

  /** One flag per open category, innermost last: has a marker been seen in it? */
  function Raise(flags: seq<bool>): (r: seq<bool>)
    ensures |r| == |flags| && forall i :: 0 <= i < |r| ==> r[i]
  {
    if flags == [] then [] else [true] + Raise(flags[1..])
  }

  predicate Marks(node: Node) {
    (node.Start? || node.Empty?) && IsMarker(node.tag, node.attrs)
  }

  /** The flags after a node. */
  function Flags(flags: seq<bool>, node: Node): seq<bool> {
    if Marks(node) then Raise(flags)
    else if node.Start? && node.tag == "category" then flags + [false]
    else if node.End? && node.tag == "category" && flags != [] then flags[..|flags| - 1]
    else flags
  }

  /** A category with a marker is about to be closed. */
  predicate Due(flags: seq<bool>, node: Node) {
    node.End? && node.tag == "category" && flags != [] && flags[|flags| - 1]
  }

  function Added(tokens: seq<Token>, flags: seq<bool>, new_: seq<Token>): seq<Token> {
    if tokens == [] then []
    else match tokens[0]
      case Chars(_) => [tokens[0]] + Added(tokens[1..], flags, new_)
      case Mark(node) =>
        (if Due(flags, node) then new_ else []) + [tokens[0]] + Added(tokens[1..], Flags(flags, node), new_)
  }

  function Raised(flags: seq<bool>, raise: bool): (r: seq<bool>)
    ensures |r| == |flags|
  {
    if raise then Raise(flags) else flags
  }

  lemma RaiseTwice(flags: seq<bool>, a: bool, b: bool)
    ensures Raised(Raised(flags, a), b) == Raised(flags, a || b)
  {
  }

  lemma AddedFirst(t: Token, more: seq<Token>, flags: seq<bool>, new_: seq<Token>)
    ensures t.Chars? ==> Added([t] + more, flags, new_) == [t] + Added(more, flags, new_)
    ensures t.Mark? ==> Added([t] + more, flags, new_)
                        == (if Due(flags, t.node) then new_ else []) + [t] + Added(more, Flags(flags, t.node), new_)
  {
    assert ([t] + more)[1..] == more;
  }

  /** Adding to the tree is adding in reading order; a forest with a marker raises the flags around it. */
  lemma {:induction false} AddInOrder(ts: seq<Tree>, new_: seq<Tree>, more: seq<Token>, flags: seq<bool>)
    ensures Added(Tokens(ts) + more, flags, Tokens(new_))
            == Tokens(AddNew(ts, new_)) + Added(more, Raised(flags, HasMarker(ts)), Tokens(new_))
    decreases ts, 0
  {
    var g := Tokens(new_);
    if ts == [] {
      assert Tokens(ts) + more == more;
    } else {
      var rest := Tokens(ts[1..]) + more;
      TokensFirst(ts);
      AssocTokens(Tokens([ts[0]]), Tokens(ts[1..]), more);
      AddOneInOrder(ts[0], new_, rest, flags);
      AddInOrder(ts[1..], new_, more, Raised(flags, HasMarker([ts[0]])));
      RaiseTwice(flags, HasMarker([ts[0]]), HasMarker(ts[1..]));
      AddCons(ts, new_);
      TokensAppend(AddNew([ts[0]], new_), AddNew(ts[1..], new_));
      AssocTokens(Tokens(AddNew([ts[0]], new_)), Tokens(AddNew(ts[1..], new_)),
                  Added(more, Raised(flags, HasMarker(ts)), g));
    }
  }

  lemma AssocTokens(a: seq<Token>, b: seq<Token>, c: seq<Token>)
    ensures a + b + c == a + (b + c)
  {
  }

  lemma RegroupTokens(s: Token, a: seq<Token>, x: seq<Token>, e: Token, m: seq<Token>)
    ensures [s] + (a + (x + [e] + m)) == [s] + (a + x) + [e] + m
    ensures [s] + a + [e] + m == [s] + (a + ([e] + m))
  {
  }

  lemma AddCons(ts: seq<Tree>, new_: seq<Tree>)
    requires ts != []
    ensures AddNew(ts, new_) == AddNew([ts[0]], new_) + AddNew(ts[1..], new_)
    ensures HasMarker(ts) <==> HasMarker([ts[0]]) || HasMarker(ts[1..])
  {
    assert [ts[0]][1..] == [];
  }

  lemma {:induction false} AddOneInOrder(t: Tree, new_: seq<Tree>, more: seq<Token>, flags: seq<bool>)
    ensures Added(Tokens([t]) + more, flags, Tokens(new_))
            == Tokens(AddNew([t], new_)) + Added(more, Raised(flags, HasMarker([t])), Tokens(new_))
    decreases t, 0
  {
    assert [t][1..] == [];
    var g := Tokens(new_);
    match t {
      case Element(tag, attrs, kids) =>
        TokensOne(tag, attrs, kids);
        if kids == [] {
          AddedFirst(Mark(Empty(tag, attrs)), more, flags, g);
          assert AddNew(kids, new_) + [] == [];
          assert AddNew([t], new_) == [t];
        } else {
          AddElementInOrder(tag, attrs, kids, new_, more, flags);
        }
      case CharData(data) =>
        TokensLeaf(t);
        AddedFirst(Chars(data), more, flags, g);
        assert AddNew([t], new_) == [t];
      case Other(mark) =>
        TokensLeaf(t);
        AddedFirst(Mark(Plain(mark)), more, flags, g);
        assert AddNew([t], new_) == [t];
    }
  }

  lemma BetweenIs(tag: string, attrs: map<string, string>, inner: seq<Token>)
    ensures Between(tag, attrs, inner) == [Mark(Start(tag, attrs))] + inner + [Mark(End(tag))]
  {
  }

  lemma NotDueAtStart(flags: seq<bool>, tag: string, attrs: map<string, string>)
    ensures !Due(flags, Start(tag, attrs))
  {
  }

  lemma ExtraTokens(new_: seq<Tree>, extra: seq<Tree>, due: bool)
    requires extra == if due then new_ else []
    ensures Tokens(extra) == if due then Tokens(new_) else []
  {
  }

  lemma {:induction false} AddElementInOrder(tag: string, attrs: map<string, string>, kids: seq<Tree>, new_: seq<Tree>,
                                             more: seq<Token>, flags: seq<bool>)
    requires kids != []
    ensures var t := Element(tag, attrs, kids);
            Added(Between(tag, attrs, Tokens(kids)) + more, flags, Tokens(new_))
            == Tokens(AddNew([t], new_)) + Added(more, Raised(flags, HasMarker([t])), Tokens(new_))
    decreases kids, 1
  {
    hide *;
    var t := Element(tag, attrs, kids);
    var g := Tokens(new_);
    var extra := if tag == "category" && HasMarker(kids) then new_ else [];
    var open, end := Mark(Start(tag, attrs)), Mark(End(tag));
    var inner := Flags(flags, Start(tag, attrs));
    var atEnd := Raised(inner, HasMarker(kids));
    BetweenIs(tag, attrs, Tokens(kids));
    BetweenIs(tag, attrs, Tokens(AddNew(kids, new_)) + Tokens(extra));
    RegroupTokens(open, Tokens(kids), [], end, more);
    AddedFirst(open, Tokens(kids) + ([end] + more), flags, g);
    NotDueAtStart(flags, tag, attrs);
    AddInOrder(kids, new_, [end] + more, inner);
    AddedFirst(end, more, atEnd, g);
    FlagsAround(tag, attrs, flags, HasMarker(kids));
    NewElement(tag, attrs, kids, new_, extra);
    ExtraTokens(new_, extra, Due(atEnd, End(tag)));
    var rest := Added(more, Flags(atEnd, End(tag)), g);
    RegroupTokens(open, Tokens(AddNew(kids, new_)), Tokens(extra), end, rest);
    assert [] + [open] == [open];
  }

  lemma NewElement(tag: string, attrs: map<string, string>, kids: seq<Tree>, new_: seq<Tree>, extra: seq<Tree>)
    requires kids != [] && extra == if tag == "category" && HasMarker(kids) then new_ else []
    ensures var t := Element(tag, attrs, kids);
            && Tokens(AddNew([t], new_)) == Between(tag, attrs, Tokens(AddNew(kids, new_)) + Tokens(extra))
            && (HasMarker([t]) <==> IsMarker(tag, attrs) || HasMarker(kids))
  {
    var t := Element(tag, attrs, kids);
    assert [t][1..] == [];
    assert AddNew([t], new_) == [Element(tag, attrs, AddNew(kids, new_) + extra)];
    AddNonEmpty(kids, new_);
    TokensAppend(AddNew(kids, new_), extra);
    TokensOne(tag, attrs, AddNew(kids, new_) + extra);
  }

  lemma AddNonEmpty(ts: seq<Tree>, new_: seq<Tree>)
    ensures |AddNew(ts, new_)| == |ts|
  {
  }

  /** The flags of an element's end: a category sees its own flag, and leaves the outer ones. */
  lemma FlagsAround(tag: string, attrs: map<string, string>, flags: seq<bool>, marked: bool)
    ensures var atEnd := Raised(Flags(flags, Start(tag, attrs)), marked);
            && (Due(atEnd, End(tag)) ==> tag == "category")
            && (tag == "category" ==> (Due(atEnd, End(tag)) <==> marked))
            && Flags(atEnd, End(tag)) == Raised(flags, IsMarker(tag, attrs) || marked)
  {
    if tag == "category" {
      var inner := flags + [false];
      assert Flags(flags, Start(tag, attrs)) == inner;
      assert Raise(inner)[..|flags|] == Raise(flags);
      assert inner[..|flags|] == flags;
    }
  }
}
