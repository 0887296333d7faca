/** The document object model as the scripts use it: nodes changed in place by `appendChild`,
    `removeChild` and `setAttribute`, and searched by `getElementsByTagName`. */
module Dom {
  import opened Basics
  import opened XmlMarkup
  import opened XmlTree
  import opened Shapes

  datatype Kind = DocumentKind | ElementKind(tagName: string) | TextKind(data: string) | OtherKind(mark: Markup)

  class Node {
    const kind: Kind
    var attributes: map<string, string>
    var childNodes: seq<Node>
    var parentNode: Node?
    ghost var depth: nat

    /** `createElement` and its like. */
    constructor (kind: Kind)
      ensures this.kind == kind && attributes == map[] && childNodes == [] && parentNode == null
    {
      this.kind := kind;
      attributes, childNodes, parentNode, depth := map[], [], null, 0;
    }

    method SetAttribute(name: string, value: string)
      modifies this`attributes
      ensures attributes == old(attributes)[name := value]
    {
      attributes := attributes[name := value];
    }

    /** The two links that `appendChild` sets. */
    method Adopt(child: Node)
      requires child != this
      modifies this`childNodes, child`parentNode, child`depth
      ensures childNodes == old(childNodes) + [child]
      ensures child.parentNode == this && child.depth == depth + 1
    {
      childNodes := childNodes + [child];
      child.parentNode := this;
      child.depth := depth + 1;
    }

    function Parent(): Node
      requires parentNode != null
      reads this`parentNode
    {
      parentNode
    }

    ghost function Label(): Label
      reads this`attributes
    {
      match kind
      case DocumentKind => DocumentNode
      case ElementKind(tag) => ElementNode(tag, attributes)
      case TextKind(data) => TextNode(data)
      case OtherKind(mark) => OtherNode(mark)
    }
  }

  /** `childNodes.remove(x)`: takes out the first occurrence. */
  function Without(cs: seq<Node>, x: Node): seq<Node> {
    if cs == [] then [] else if cs[0] == x then cs[1..] else [cs[0]] + Without(cs[1..], x)
  }

  lemma {:induction false} WithoutIsMinus(cs: seq<Node>, x: Node)
    requires Distinct(cs)
    ensures Without(cs, x) == Minus(cs, {x})
  {
    if cs != [] {
      if cs[0] == x {
        MinusNothing(cs[1..], {x});
      } else {
        WithoutIsMinus(cs[1..], x);
      }
    }
  }

  /** Cutting a node off its parent. */
  lemma {:induction false} CutShape(s: Shape<Node>, s': Shape<Node>, labels: map<Node, Label>, p: Node, child: Node)
    requires Sound(s) && Leafy(s, labels) && child in s.parent && s.parent[child] == p && p in s.kids
    requires s'.kids == s.kids[p := Without(s.kids[p], child)] && s'.parent == s.parent - {child}
    requires s'.depth == s.depth && s'.top == s.top
    ensures Pruned(s, s', {child}) && Sound(s') && Leafy(s', labels)
  {
    CutIsPruned(s, s', p, child);
    hide Sound;
    PrunedSound(s, s', {child});
  }

  lemma {:induction false} CutIsPruned(s: Shape<Node>, s': Shape<Node>, p: Node, child: Node)
    requires Sound(s) && child in s.parent && s.parent[child] == p && p in s.kids
    requires s'.kids == s.kids[p := Without(s.kids[p], child)] && s'.parent == s.parent - {child}
    requires s'.depth == s.depth && s'.top == s.top
    ensures Pruned(s, s', {child})
  {
    hide Sound, Without, Distinct;
    forall n | n in s.kids
      ensures s'.kids[n] == Minus(s.kids[n], {child})
    {
      if n == p {
        KidsDistinct(s, n);
        WithoutIsMinus(s.kids[n], child);
      } else {
        NotAmong(s, child, n);
        MinusNothing(s.kids[n], {child});
      }
    }
  }

  lemma KidsDistinct(s: Shape<Node>, n: Node)
    requires Sound(s) && n in s.kids
    ensures Distinct(s.kids[n])
  {
    hide Distinct;
  }

  lemma {:induction false} NotAmong(s: Shape<Node>, c: Node, n: Node)
    requires Sound(s) && c in s.parent && n in s.kids && n != s.parent[c]
    ensures c !in s.kids[n]
  {
  }

  /** `s'` is `s` with a new childless node `c` at the end of the children of `n`. */
  ghost predicate Appended(s: Shape<Node>, s': Shape<Node>, n: Node, c: Node) {
    && n in s.kids && c !in s.kids && n in s.depth
    && s'.kids == s.kids[n := s.kids[n] + [c]][c := []]
    && s'.parent == s.parent[c := n]
    && s'.depth == s.depth[c := s.depth[n] + 1]
    && s'.top == s.top
  }

  lemma {:induction false} AppendedSound(s: Shape<Node>, s': Shape<Node>, labels: map<Node, Label>, n: Node, c: Node)
    requires Sound(s) && Appended(s, s', n, c) && s.depth[n] < s.top
    requires labels.Keys >= s'.kids.Keys && labels[c].ElementNode? && Leafy(s, labels)
    requires n in s.parent ==> labels[n].ElementNode?
    ensures Sound(s') && Leafy(s', labels)
  {
    hide *;
    AppendedKids(s, s', n, c);
    AppendedParents(s, s', n, c);
    AppendedLeafy(s, s', labels, n, c);
    SoundParts(s');
  }

  lemma {:induction false} SoundParts(s: Shape<Node>)
    requires forall n :: n in s.kids ==> n in s.depth && s.depth[n] <= s.top && Distinct(s.kids[n])
    requires forall n, c :: n in s.kids && c in s.kids[n] ==> c in s.parent && s.parent[c] == n
    requires forall c :: c in s.parent ==>
               && c in s.kids && s.parent[c] in s.kids && c in s.kids[s.parent[c]]
               && c in s.depth && s.parent[c] in s.depth && s.depth[c] == s.depth[s.parent[c]] + 1
    ensures Sound(s)
  {
  }

  lemma {:induction false} AppendedKids(s: Shape<Node>, s': Shape<Node>, n: Node, c: Node)
    requires Sound(s) && Appended(s, s', n, c) && s.depth[n] < s.top
    ensures forall n :: n in s'.kids ==> n in s'.depth && s'.depth[n] <= s'.top && Distinct(s'.kids[n])
    ensures forall n, c :: n in s'.kids && c in s'.kids[n] ==> c in s'.parent && s'.parent[c] == n
  {
    forall m | m in s'.kids
      ensures m in s'.depth && s'.depth[m] <= s'.top && Distinct(s'.kids[m])
    {
      AppendedList(s, s', n, c, m);
    }
    forall m, x | m in s'.kids && x in s'.kids[m]
      ensures x in s'.parent && s'.parent[x] == m
    {
      AppendedChild(s, s', n, c, m, x);
    }
  }

  lemma AppendedList(s: Shape<Node>, s': Shape<Node>, n: Node, c: Node, m: Node)
    requires Sound(s) && Appended(s, s', n, c) && s.depth[n] < s.top && m in s'.kids
    ensures m in s'.depth && s'.depth[m] <= s'.top && Distinct(s'.kids[m])
  {
    if m != c {
      assert Distinct(s.kids[m]);
      assert c !in s.kids[m];
    }
  }

  lemma AppendedChild(s: Shape<Node>, s': Shape<Node>, n: Node, c: Node, m: Node, x: Node)
    requires Sound(s) && Appended(s, s', n, c) && m in s'.kids && x in s'.kids[m]
    ensures x in s'.parent && s'.parent[x] == m
  {
    if m != c && x != c { assert x in s.kids[m]; }
  }

  lemma {:induction false} AppendedParents(s: Shape<Node>, s': Shape<Node>, n: Node, c: Node)
    requires Sound(s) && Appended(s, s', n, c)
    ensures forall x :: x in s'.parent ==>
              && x in s'.kids && s'.parent[x] in s'.kids && x in s'.kids[s'.parent[x]]
              && x in s'.depth && s'.parent[x] in s'.depth && s'.depth[x] == s'.depth[s'.parent[x]] + 1
  {
    forall x | x in s'.parent
      ensures x in s'.kids && s'.parent[x] in s'.kids && x in s'.kids[s'.parent[x]]
      ensures x in s'.depth && s'.parent[x] in s'.depth && s'.depth[x] == s'.depth[s'.parent[x]] + 1
    {
      if x != c { assert x in s.kids[s.parent[x]]; }
    }
  }

  lemma {:induction false} AppendedLeafy(s: Shape<Node>, s': Shape<Node>, labels: map<Node, Label>, n: Node, c: Node)
    requires Appended(s, s', n, c) && Leafy(s, labels) && labels.Keys >= s'.kids.Keys && labels[c].ElementNode?
    requires n in s.parent ==> labels[n].ElementNode?
    ensures Leafy(s', labels)
  {
  }

  // ----- searching -----

  ghost predicate AtOrBelow(s: Shape<Node>, x: Node, cs: seq<Node>)
    requires Sound(s)
  {
    exists j :: 0 <= j < |cs| && (x == cs[j] || Under(s, x, cs[j]))
  }

  /** `found` lists once each node with the tag among `cs` and below. */
  ghost predicate Hits(s: Shape<Node>, labels: map<Node, Label>, cs: seq<Node>, name: string, found: seq<Node>)
    requires Sound(s) && labels.Keys >= s.kids.Keys
  {
    && Distinct(found)
    && (forall x :: x in found ==> x in s.kids && IsTag(labels[x], name) && AtOrBelow(s, x, cs))
    && (forall x :: x in s.kids && IsTag(labels[x], name) && AtOrBelow(s, x, cs) ==> x in found)
  }

  /** `found` lists once each node with the tag below `n`. */
  ghost predicate HitsBelow(s: Shape<Node>, labels: map<Node, Label>, n: Node, name: string, found: seq<Node>)
    requires Sound(s) && labels.Keys >= s.kids.Keys
  {
    && Distinct(found)
    && (forall x :: x in found ==> x in s.kids && IsTag(labels[x], name) && Under(s, x, n))
    && (forall x :: x in s.kids && IsTag(labels[x], name) && Under(s, x, n) ==> x in found)
  }

  lemma {:induction false} HitsNothing(s: Shape<Node>, labels: map<Node, Label>, name: string)
    requires Sound(s) && labels.Keys >= s.kids.Keys
    ensures Hits(s, labels, [], name, [])
  {
  }

  lemma {:induction false} HitsAll(s: Shape<Node>, labels: map<Node, Label>, n: Node, name: string, found: seq<Node>)
    requires Sound(s) && labels.Keys >= s.kids.Keys && n in s.kids && Hits(s, labels, s.kids[n], name, found)
    ensures HitsBelow(s, labels, n, name, found)
  {
    forall x | x in s.kids
      ensures AtOrBelow(s, x, s.kids[n]) <==> Under(s, x, n)
    {
      BelowKids(s, n, x);
    }
  }

  lemma {:induction false} BelowKids(s: Shape<Node>, n: Node, x: Node)
    requires Sound(s) && n in s.kids
    ensures AtOrBelow(s, x, s.kids[n]) <==> Under(s, x, n)
  {
    if Under(s, x, n) {
      var k := ViaKid(s, x, n);
    }
    if AtOrBelow(s, x, s.kids[n]) {
      var j :| 0 <= j < |s.kids[n]| && (x == s.kids[n][j] || Under(s, x, s.kids[n][j]));
      KidsAreSiblings(s, n);
      if x != s.kids[n][j] { UnderTransitive(s, x, s.kids[n][j], n); }
    }
  }

  lemma {:induction false} BelowSnoc(s: Shape<Node>, x: Node, cs: seq<Node>, c: Node)
    requires Sound(s)
    ensures AtOrBelow(s, x, cs + [c]) <==> AtOrBelow(s, x, cs) || x == c || Under(s, x, c)
  {
    if AtOrBelow(s, x, cs) {
      var j :| 0 <= j < |cs| && (x == cs[j] || Under(s, x, cs[j]));
      assert (cs + [c])[j] == cs[j];
    }
    if x == c || Under(s, x, c) {
      assert (cs + [c])[|cs|] == c;
    }
  }

  /** Nodes below different children are different. */
  lemma {:induction false} BelowDisjoint(s: Shape<Node>, n: Node, i: nat, x: Node)
    requires Sound(s) && n in s.kids && i < |s.kids[n]|
    requires AtOrBelow(s, x, s.kids[n][..i])
    ensures x != s.kids[n][i] && !Under(s, x, s.kids[n][i])
  {
    var j :| 0 <= j < i && (x == s.kids[n][..i][j] || Under(s, x, s.kids[n][..i][j]));
    KidsAreSiblings(s, n);
    assert Distinct(s.kids[n]);
    if x == s.kids[n][i] || Under(s, x, s.kids[n][i]) {
      UnderOneChild(s, x, s.kids[n][j], s.kids[n][i]);
    }
  }

  lemma {:induction false} HitsStep(s: Shape<Node>, labels: map<Node, Label>, n: Node, i: nat, name: string,
                                    found: seq<Node>, sub: seq<Node>)
    requires Sound(s) && labels.Keys >= s.kids.Keys && n in s.kids && i < |s.kids[n]|
    requires Hits(s, labels, s.kids[n][..i], name, found) && HitsBelow(s, labels, s.kids[n][i], name, sub)
    requires s.kids[n][i] in s.kids
    ensures Hits(s, labels, s.kids[n][..i + 1], name,
                 found + (if IsTag(labels[s.kids[n][i]], name) then [s.kids[n][i]] else []) + sub)
  {
    hide Sound, Under, IsTag, Distinct, AtOrBelow;
    var c := s.kids[n][i];
    var mine := if IsTag(labels[c], name) then [c] else [];
    var cs, cs' := s.kids[n][..i], s.kids[n][..i + 1];
    assert cs' == cs + [c];
    forall x | x in s.kids
      ensures AtOrBelow(s, x, cs') <==> AtOrBelow(s, x, cs) || x == c || Under(s, x, c)
    {
      BelowSnoc(s, x, cs, c);
    }
    HitsApart(s, labels, n, i, name, found, sub, mine);
    DistinctSum(found, mine);
    DistinctSum(found + mine, sub);
  }

  /** What is found among different children is different. */
  lemma {:induction false} HitsApart(s: Shape<Node>, labels: map<Node, Label>, n: Node, i: nat, name: string,
                                     found: seq<Node>, sub: seq<Node>, mine: seq<Node>)
    requires Sound(s) && labels.Keys >= s.kids.Keys && n in s.kids && i < |s.kids[n]|
    requires Hits(s, labels, s.kids[n][..i], name, found) && HitsBelow(s, labels, s.kids[n][i], name, sub)
    requires s.kids[n][i] in s.kids && (mine == [] || mine == [s.kids[n][i]])
    ensures forall x :: x in found ==> x !in mine && x !in sub
    ensures forall x :: x in mine ==> x !in sub
    ensures Distinct(found) && Distinct(mine) && Distinct(sub)
  {
    hide Sound, Under, IsTag, AtOrBelow;
    var c := s.kids[n][i];
    forall x | x in found
      ensures x !in mine && x !in sub
    {
      BelowDisjoint(s, n, i, x);
    }
    NotBelowItself(s, c);
  }

  lemma {:induction false} NotBelowItself(s: Shape<Node>, c: Node)
    requires Sound(s)
    ensures !Under(s, c, c)
  {
    hide Sound;
    if Under(s, c, c) { UnderDeeper(s, c, c); }
  }

  lemma {:induction false} DistinctSum(a: seq<Node>, b: seq<Node>)
    requires Distinct(a) && Distinct(b) && forall x :: x in a ==> x !in b
    ensures Distinct(a + b)
  {
    forall i, j | 0 <= i < j < |a + b|
      ensures (a + b)[i] != (a + b)[j]
    {
      if i < |a| <= j {
        assert (a + b)[i] in a && (a + b)[j] in b;
      }
    }
  }

  class Document {
    const root: Node
    ghost var nodes: set<Node>
    ghost var top: nat

    constructor (ghost top: nat)
      ensures Valid() && fresh(nodes) && Trees() == []
    {
      var r := new Node(DocumentKind);
      root := r;
      nodes := {r};
      this.top := top;
      new;
      root.depth := 0;
      hide *;
      OnlyRoot();
    }

    lemma OnlyRoot()
      requires nodes == {root} && root.childNodes == [] && root.parentNode == null && root.kind.DocumentKind?
               && root.depth == 0
      ensures Valid() && Trees() == []
    {
      hide TreesOf;
      var s := TheShape();
      assert Sound(s) && Leafy(s, Labels());
      NoTreesOf(s, Labels(), 1);
    }

    ghost function TheShape(): Shape<Node>
      reads this, nodes
    {
      Shape.Shape(map n | n in nodes :: n.childNodes,
            map n | n in nodes && n.parentNode != null :: n.Parent(),
            map n | n in nodes :: n.depth,
            top)
    }

    ghost function Labels(): (labels: map<Node, Label>)
      reads this, nodes
      ensures labels.Keys == nodes
    {
      map n | n in nodes :: n.Label()
    }

    ghost predicate Valid()
      reads this, nodes
    {
      && root in nodes && Sound(TheShape()) && Leafy(TheShape(), Labels())
      && root.parentNode == null && root.kind.DocumentKind? && root.depth == 0
    }

    /** The document as a tree. */
    ghost function Trees(): seq<Tree>
      reads this, nodes
      requires Valid()
    {
      KidsAreSiblings(TheShape(), root);
      TreesOf(TheShape(), Labels(), root.childNodes, 1)
    }

    /** `s` and `labels` describe the nodes; `TheShape` and `Labels` do. */
    ghost predicate Describes(s: Shape<Node>, labels: map<Node, Label>, except: set<Node>)
      reads this, nodes
    {
      && s.kids.Keys == nodes && s.depth.Keys == nodes && labels.Keys == nodes && s.parent.Keys <= nodes && s.top == top
      && forall n :: n in nodes ==>
           && n.depth == s.depth[n] && n.Label() == labels[n]
           && (n !in except ==> n.childNodes == s.kids[n] && (n.parentNode != null <==> n in s.parent)
                                && (n.parentNode != null ==> n.parentNode == s.parent[n]))
    }

    lemma ShapeDescribes()
      requires Valid()
      ensures Describes(TheShape(), Labels(), {})
    {
      hide Leafy;
    }

    /** The shape after one node was cut off. */
    lemma {:induction false} AfterCut(s: Shape<Node>, labels: map<Node, Label>, p: Node, child: Node)
      requires Describes(s, labels, {p, child}) && Sound(s) && Leafy(s, labels)
      requires root in nodes && root.parentNode == null && root.kind.DocumentKind? && root.depth == 0
      requires child in s.parent && s.parent[child] == p && p in nodes && child in nodes && child != p
      requires p in s.kids && child in s.kids
      requires p.childNodes == Without(s.kids[p], child) && child.childNodes == s.kids[child]
      requires child.parentNode == null
      requires (p.parentNode != null <==> p in s.parent) && (p.parentNode != null ==> p.parentNode == s.parent[p])
      ensures Pruned(s, TheShape(), {child}) && Labels() == labels && Valid()
    {
      hide *;
      KidsNow(s, labels, p, child);
      ParentsNow(s, labels, p, child);
      LabelsNow(s, labels, {p, child});
      CutShape(s, TheShape(), labels, p, child);
      ValidNow();
    }

    lemma {:induction false} KidsNow(s: Shape<Node>, labels: map<Node, Label>, p: Node, child: Node)
      requires Describes(s, labels, {p, child}) && p in s.kids && child in s.kids && child.childNodes == s.kids[child]
      ensures TheShape().kids == s.kids[p := p.childNodes]
    {
    }

    lemma {:induction false} ParentsNow(s: Shape<Node>, labels: map<Node, Label>, p: Node, child: Node)
      requires Describes(s, labels, {p, child}) && child.parentNode == null && p in nodes
      requires (p.parentNode != null <==> p in s.parent) && (p.parentNode != null ==> p.parentNode == s.parent[p])
      ensures TheShape().parent == s.parent - {child}
    {
      hide Node.Label;
      assert forall n :: n in nodes && n != child ==> (n.parentNode != null <==> n in s.parent);
      assert forall n :: n in nodes && n.parentNode != null ==> n.parentNode == s.parent[n];
      hide Describes;
      assert TheShape().parent.Keys == s.parent.Keys - {child};
    }

    lemma {:induction false} LabelsNow(s: Shape<Node>, labels: map<Node, Label>, except: set<Node>)
      requires Describes(s, labels, except)
      ensures TheShape().depth == s.depth && TheShape().top == s.top && Labels() == labels
    {
    }

    lemma ValidNow()
      requires root in nodes && root.parentNode == null && root.kind.DocumentKind? && root.depth == 0
      requires Sound(TheShape()) && Leafy(TheShape(), Labels())
      ensures Valid()
    {
    }

    lemma ParentThere(child: Node)
      requires Valid() && child in nodes && child.parentNode != null
      ensures child.parentNode in nodes && child != root && child.parentNode != child
      ensures child in TheShape().parent && TheShape().parent[child] == child.parentNode
    {
      hide Leafy;
      assert child in TheShape().parent;
      assert TheShape().depth[child] == TheShape().depth[TheShape().parent[child]] + 1;
    }

    /** `removeChild` on the node's own parent. */
    method RemoveFromParent(child: Node)
      requires Valid() && child in nodes && child.parentNode != null
      modifies nodes
      ensures nodes == old(nodes) && top == old(top) && Valid()
      ensures Pruned(old(TheShape()), TheShape(), {child})
      ensures Labels() == old(Labels())
    {
      hide Sound, Leafy, Minus, Distinct, Pruned, Without;
      ghost var s, labels := TheShape(), Labels();
      ShapeDescribes();
      ParentThere(child);
      var p := child.parentNode;
      p.childNodes := Without(p.childNodes, child);
      child.parentNode := null;
      AfterCut(s, labels, p, child);
    }

    /** `getElementsByTagName`: a list of the descendants with the tag, in the order of the search. */
    method GetElementsByTagName(n: Node, name: string) returns (found: seq<Node>)
      requires Valid() && n in nodes
      ensures HitsBelow(TheShape(), Labels(), n, name, found)
      decreases top - n.depth
    {
      hide *;
      ghost var s, labels := TheShape(), Labels();
      found := [];
      Lists(n);
      HitsNothing(s, labels, name);
      var i := 0;
      while i < |n.childNodes|
        invariant 0 <= i <= |n.childNodes|
        invariant Hits(s, labels, s.kids[n][..i], name, found)
      {
        var c := n.childNodes[i];
        DeeperChild(n, i);
        ghost var before := found;
        if c.kind.ElementKind? && c.kind.tagName == name {
          found := found + [c];
        }
        var sub := GetElementsByTagName(c, name);
        TagOf(c, name);
        HitsStep(s, labels, n, i, name, before, sub);
        assert found == before + (if IsTag(labels[c], name) then [c] else []);
        found := found + sub;
        i := i + 1;
      }
      assert s.kids[n][..i] == s.kids[n];
      HitsAll(s, labels, n, name, found);
    }

    lemma Lists(n: Node)
      requires Valid() && n in nodes
      ensures Sound(TheShape()) && Labels().Keys == TheShape().kids.Keys
      ensures n in TheShape().kids && TheShape().kids[n] == n.childNodes
    {
      hide Sound, Leafy;
    }

    lemma DeeperChild(n: Node, i: nat)
      requires Valid() && n in nodes && i < |n.childNodes|
      ensures n.childNodes[i] in nodes && n.childNodes[i] in TheShape().kids
      ensures n.childNodes[i].depth == n.depth + 1 <= top && TheShape().kids[n] == n.childNodes
    {
      hide Leafy;
      KidsAreSiblings(TheShape(), n);
      assert TheShape().kids[n][i] in TheShape().kids;
    }

    lemma TagOf(c: Node, name: string)
      requires c in nodes
      ensures IsTag(Labels()[c], name) <==> c.kind.ElementKind? && c.kind.tagName == name
    {
    }

    // ----- appending -----

    /** The shape after a new node was appended to `n`; `s` and `labels` are those before. */
    lemma {:induction false} AfterAppend(s: Shape<Node>, labels: map<Node, Label>, n: Node, c: Node)
      requires nodes == s.kids.Keys + {c} && c !in s.kids && n in s.kids && n in s.depth && n in labels
      requires Sound(s) && Leafy(s, labels) && labels.Keys == s.kids.Keys && s.depth.Keys == s.kids.Keys
      requires s.parent.Keys <= s.kids.Keys && s.top == top && s.depth[n] < top && labels[n].ElementNode?
      requires root in s.kids && root.parentNode == null && root.kind.DocumentKind? && root.depth == 0
      requires forall m :: m in s.kids ==> m.depth == s.depth[m] && m.Label() == labels[m]
      requires forall m :: m in s.kids ==> m.childNodes == (if m == n then s.kids[n] + [c] else s.kids[m])
      requires forall m :: m in s.kids ==>
                 (m.parentNode != null <==> m in s.parent) && (m.parentNode != null ==> m.parentNode == s.parent[m])
      requires c.childNodes == [] && c.parentNode == n && c.depth == s.depth[n] + 1 && c.kind.ElementKind?
      ensures Appended(s, TheShape(), n, c) && Labels() == labels[c := c.Label()] && Valid()
    {
      hide *;
      KidsGrown(s, n, c);
      ParentsGrown(s, n, c);
      LabelsGrown(s, labels, c);
      AppendedIs(s, TheShape(), n, c);
      ElementLabel(c);
      LeafyMore(s, labels, c, c.Label());
      AppendedSound(s, TheShape(), Labels(), n, c);
      ValidNow();
    }

    lemma ElementLabel(c: Node)
      requires c in nodes && c.kind.ElementKind?
      ensures Labels()[c].ElementNode? && Labels()[c] == c.Label()
      ensures TheShape().kids.Keys == nodes
    {
    }

    lemma {:induction false} KidsGrown(s: Shape<Node>, n: Node, c: Node)
      requires nodes == s.kids.Keys + {c} && c !in s.kids && n in s.kids && c.childNodes == []
      requires forall m :: m in s.kids ==> m.childNodes == (if m == n then s.kids[n] + [c] else s.kids[m])
      ensures TheShape().kids == s.kids[n := s.kids[n] + [c]][c := []]
    {
    }

    lemma {:induction false} ParentsGrown(s: Shape<Node>, n: Node, c: Node)
      requires nodes == s.kids.Keys + {c} && c !in s.kids && c.parentNode == n && s.parent.Keys <= s.kids.Keys
      requires forall m :: m in s.kids ==>
                 (m.parentNode != null <==> m in s.parent) && (m.parentNode != null ==> m.parentNode == s.parent[m])
      ensures TheShape().parent == s.parent[c := n]
    {
    }

    lemma {:induction false} LabelsGrown(s: Shape<Node>, labels: map<Node, Label>, c: Node)
      requires nodes == s.kids.Keys + {c} && c !in s.kids && labels.Keys == s.kids.Keys && s.depth.Keys == s.kids.Keys
      requires forall m :: m in s.kids ==> m.depth == s.depth[m] && m.Label() == labels[m]
      ensures TheShape().depth == s.depth[c := c.depth] && TheShape().top == top
      ensures Labels() == labels[c := c.Label()]
    {
    }

    lemma BeforeAppend(n: Node)
      requires Valid() && n in nodes && n.kind.ElementKind? && n.depth < top
      ensures var s, labels := TheShape(), Labels();
              && Sound(s) && Leafy(s, labels) && nodes == s.kids.Keys == s.depth.Keys == labels.Keys
              && s.parent.Keys <= s.kids.Keys && s.top == top && s.depth[n] < top && labels[n].ElementNode?
              && s.depth[n] == n.depth && s.kids[n] == n.childNodes
              && (forall m :: m in nodes ==> m.depth == s.depth[m] && m.Label() == labels[m])
              && (forall m :: m in nodes ==> m.childNodes == s.kids[m])
              && (forall m :: m in nodes ==> (m.parentNode != null <==> m in s.parent))
              && (forall m :: m in nodes && m.parentNode != null ==> m.parentNode == s.parent[m])
      ensures root in nodes && root.parentNode == null && root.kind.DocumentKind? && root.depth == 0
    {
      hide Sound, Leafy;
      ShapeDescribes();
    }

    /** `appendChild` of a node that is not in the document yet. */
    method AppendChild(n: Node, child: Node)
      requires Valid() && n in nodes && n.kind.ElementKind? && n.depth < top
      requires child !in nodes && child.kind.ElementKind? && child.childNodes == [] && child.parentNode == null
      modifies n`childNodes, child`parentNode, child`depth, this`nodes
      ensures nodes == old(nodes) + {child} && Valid()
      ensures Appended(old(TheShape()), TheShape(), n, child)
      ensures Labels() == old(Labels())[child := old(child.Label())]
    {
      hide *;
      ghost var s, labels, l := TheShape(), Labels(), child.Label();
      BeforeAppend(n);
      n.Adopt(child);
      nodes := nodes + {child};
      AfterAppend(s, labels, n, child);
      assert child.Label() == l;
    }
  }

  lemma {:induction false} LeafyMore(s: Shape<Node>, labels: map<Node, Label>, c: Node, l: Label)
    requires Leafy(s, labels) && c !in s.kids
    ensures Leafy(s, labels[c := l])
  {
  }

  lemma {:induction false} AppendedIs(s: Shape<Node>, s': Shape<Node>, n: Node, c: Node)
    requires n in s.kids && c !in s.kids && n in s.depth
    requires s'.kids == s.kids[n := s.kids[n] + [c]][c := []] && s'.parent == s.parent[c := n]
    requires s'.depth == s.depth[c := s.depth[n] + 1] && s'.top == s.top
    ensures Appended(s, s', n, c)
  {
  }
}
