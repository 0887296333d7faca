/** The shape of a mutable node tree as a value: children, parents and depths of the nodes. The nodes are
    identities of any type; `Dom` uses object references. */
module Shapes {
  import opened Basics
  import opened XmlMarkup
  import opened XmlTree
  import opened TunerTree

  /** `top` bounds the depths. */
  datatype Shape<!T> = Shape(kids: map<T, seq<T>>, parent: map<T, T>, depth: map<T, nat>, top: nat)

  datatype Label =
    | DocumentNode
    | ElementNode(tag: string, attrs: map<string, string>)
    | TextNode(data: string)
    | OtherNode(mark: Markup)

  /** Children and parents agree, children are one level deeper, and no child is listed twice. */
  ghost predicate Sound<T>(s: Shape<T>) {
    && (forall n :: n in s.kids ==> n in s.depth && s.depth[n] <= s.top && Distinct(s.kids[n]))
    && (forall n, c :: n in s.kids && c in s.kids[n] ==> c in s.parent && s.parent[c] == n)
    && (forall c :: c in s.parent ==>
          && c in s.kids && s.parent[c] in s.kids && c in s.kids[s.parent[c]]
          && s.depth[c] == s.depth[s.parent[c]] + 1)
  }

  /** `x` is a descendant of `a`. */
  ghost predicate Under<T>(s: Shape<T>, x: T, a: T)
    requires Sound(s)
    decreases if x in s.depth then s.depth[x] else 0
  {
    x in s.parent && (s.parent[x] == a || Under(s, s.parent[x], a))
  }

  lemma {:induction false} UnderTransitive<T>(s: Shape<T>, x: T, a: T, b: T)
    requires Sound(s) && Under(s, x, a) && Under(s, a, b)
    ensures Under(s, x, b)
    decreases if x in s.depth then s.depth[x] else 0
  {
    if s.parent[x] != a { UnderTransitive(s, s.parent[x], a, b); }
  }

  lemma {:induction false} UnderDeeper<T>(s: Shape<T>, x: T, a: T)
    requires Sound(s) && Under(s, x, a)
    ensures x in s.kids && a in s.kids && s.depth[x] > s.depth[a]
    decreases if x in s.depth then s.depth[x] else 0
  {
    if s.parent[x] != a { UnderDeeper(s, s.parent[x], a); }
  }

  /** A descendant is below exactly one child. */
  lemma {:induction false} UnderOneChild<T>(s: Shape<T>, x: T, a: T, b: T)
    requires Sound(s) && a in s.parent && b in s.parent && s.parent[a] == s.parent[b]
    requires x == a || Under(s, x, a)
    requires x == b || Under(s, x, b)
    ensures a == b
    decreases if x in s.depth then s.depth[x] else 0
  {
    if x == a {
      if x != b { UnderDeeper(s, x, b); }
    } else if x == b {
      UnderDeeper(s, x, a);
    } else {
      UnderOneChild(s, s.parent[x], a, b);
    }
  }

  /** Below a node is one of its children, or below one of them. */
  lemma {:induction false} UnderViaChild<T>(s: Shape<T>, x: T, n: T) returns (c: T)
    requires Sound(s) && Under(s, x, n)
    ensures n in s.kids && c in s.kids[n] && (x == c || Under(s, x, c))
    decreases if x in s.depth then s.depth[x] else 0
  {
    if s.parent[x] == n {
      c := x;
    } else {
      c := UnderViaChild(s, s.parent[x], n);
    }
  }

  // ----- reading the shape as a tree -----

  ghost predicate Siblings<T>(s: Shape<T>, cs: seq<T>, d: nat) {
    forall i :: 0 <= i < |cs| ==> cs[i] in s.kids && cs[i] in s.depth && s.depth[cs[i]] == d
  }

  lemma {:induction false} KidsAreSiblings<T>(s: Shape<T>, c: T)
    requires Sound(s) && c in s.kids
    ensures Siblings(s, s.kids[c], s.depth[c] + 1) && s.depth[c] <= s.top
    ensures forall i :: 0 <= i < |s.kids[c]| ==> s.kids[c][i] in s.parent && s.parent[s.kids[c][i]] == c
  {
    forall i | 0 <= i < |s.kids[c]|
      ensures s.kids[c][i] in s.parent && s.parent[s.kids[c][i]] == c
      ensures s.kids[c][i] in s.kids && s.kids[c][i] in s.depth && s.depth[s.kids[c][i]] == s.depth[c] + 1
    {
      assert s.kids[c][i] in s.kids[c];
    }
  }

  lemma {:induction false} SiblingsTail<T>(s: Shape<T>, cs: seq<T>, d: nat)
    requires cs != [] && Siblings(s, cs, d)
    ensures cs[0] in s.kids && cs[0] in s.depth && s.depth[cs[0]] == d && Siblings(s, cs[1..], d)
  {
  }

  ghost function TreesOf<T>(s: Shape<T>, labels: map<T, Label>, cs: seq<T>, d: nat): (ts: seq<Tree>)
    requires Sound(s) && labels.Keys >= s.kids.Keys && Siblings(s, cs, d)
    ensures |ts| == |cs|
    decreases s.top + 1 - d, |cs|
  {
    if cs == [] then []
    else
      var c := cs[0];
      SiblingsTail(s, cs, d);
      KidsAreSiblings(s, c);
      [match labels[c]
       case ElementNode(tag, attrs) => Element(tag, attrs, TreesOf(s, labels, s.kids[c], d + 1))
       case TextNode(data) => CharData(data)
       case OtherNode(mark) => Other(mark)
       case DocumentNode => CharData("")]
      + TreesOf(s, labels, cs[1..], d)
  }

  lemma {:induction false} TreesAppend<T>(s: Shape<T>, labels: map<T, Label>, a: seq<T>, b: seq<T>, d: nat)
    requires Sound(s) && labels.Keys >= s.kids.Keys && Siblings(s, a, d) && Siblings(s, b, d)
    ensures Siblings(s, a + b, d)
    ensures TreesOf(s, labels, a + b, d) == TreesOf(s, labels, a, d) + TreesOf(s, labels, b, d)
    decreases |a|
  {
    hide *;
    SiblingsSum(s, a, b, d);
    if a == [] {
      NoTreesOf(s, labels, d);
      assert a + b == b;
    } else {
      assert (a + b)[1..] == a[1..] + b;
      SiblingsTail(s, a, d);
      TreesAppend(s, labels, a[1..], b, d);
      TreesCons(s, labels, a, d);
      TreesCons(s, labels, a + b, d);
    }
  }

  lemma {:induction false} NoTreesOf<T>(s: Shape<T>, labels: map<T, Label>, d: nat)
    requires Sound(s) && labels.Keys >= s.kids.Keys
    ensures Siblings(s, [], d) && TreesOf(s, labels, [], d) == []
  {
  }

  lemma {:induction false} SiblingsSum<T>(s: Shape<T>, a: seq<T>, b: seq<T>, d: nat)
    requires Siblings(s, a, d) && Siblings(s, b, d)
    ensures Siblings(s, a + b, d)
  {
  }

  lemma {:induction false} SiblingsOne<T>(s: Shape<T>, c: T, d: nat)
    requires c in s.kids && c in s.depth && s.depth[c] == d
    ensures Siblings(s, [c], d)
  {
  }

  lemma {:induction false} TreesCons<T>(s: Shape<T>, labels: map<T, Label>, cs: seq<T>, d: nat)
    requires Sound(s) && labels.Keys >= s.kids.Keys && Siblings(s, cs, d) && cs != []
    ensures Siblings(s, [cs[0]], d) && Siblings(s, cs[1..], d)
    ensures TreesOf(s, labels, cs, d) == TreesOf(s, labels, [cs[0]], d) + TreesOf(s, labels, cs[1..], d)
  {
    SiblingsTail(s, cs, d);
    assert [cs[0]][1..] == [];
  }

  ghost predicate IsTag(l: Label, tag: string) {
    l.ElementNode? && l.tag == tag
  }

  ghost predicate OldLabel(l: Label) {
    l.ElementNode? && IsOld(l.tag, l.attrs)
  }

  ghost predicate MarkerLabel(l: Label) {
    l.ElementNode? && IsMarker(l.tag, l.attrs)
  }

  /** `x` has a category above it. */
  ghost predicate InCategory<T>(s: Shape<T>, labels: map<T, Label>, x: T)
    requires Sound(s) && labels.Keys >= s.kids.Keys
    decreases if x in s.depth then s.depth[x] else 0
  {
    x in s.parent && (IsTag(labels[s.parent[x]], "category") || InCategory(s, labels, s.parent[x]))
  }

  // ----- removal -----

  ghost function Minus<T>(cs: seq<T>, gone: set<T>): (r: seq<T>)
    ensures forall x :: x in r ==> x in cs && x !in gone
    ensures forall x :: x in cs && x !in gone ==> x in r
    ensures Distinct(cs) ==> Distinct(r)
  {
    if cs == [] then []
    else
      var r := Minus(cs[1..], gone);
      assert forall x :: x in cs ==> x == cs[0] || x in cs[1..];
      if cs[0] in gone then r else [cs[0]] + r
  }

  lemma {:induction false} MinusTwice<T>(cs: seq<T>, a: set<T>, b: set<T>)
    ensures Minus(Minus(cs, a), b) == Minus(cs, a + b)
  {
    if cs != [] { MinusTwice(cs[1..], a, b); }
  }

  lemma {:induction false} MinusNothing<T>(cs: seq<T>, gone: set<T>)
    requires forall x :: x in cs ==> x !in gone
    ensures Minus(cs, gone) == cs
  {
    if cs != [] {
      MinusNothing(cs[1..], gone);
      assert cs == [cs[0]] + cs[1..];
    }
  }

  /** `s'` is `s` with the nodes `gone` cut off from their parents. */
  ghost predicate Pruned<T>(s: Shape<T>, s': Shape<T>, gone: set<T>) {
    && s'.kids.Keys == s.kids.Keys && s'.depth == s.depth && s'.top == s.top
    && (forall n :: n in s.kids ==> s'.kids[n] == Minus(s.kids[n], gone))
    && s'.parent.Keys == s.parent.Keys - gone
    && (forall c :: c in s'.parent ==> s'.parent[c] == s.parent[c])
  }

  lemma {:induction false} PrunedSound<T>(s: Shape<T>, s': Shape<T>, gone: set<T>)
    requires Sound(s) && Pruned(s, s', gone)
    ensures Sound(s')
  {
    forall n | n in s'.kids
      ensures Distinct(s'.kids[n]) && forall c :: c in s'.kids[n] ==> c in s'.parent && s'.parent[c] == n
    {
      PrunedKids(s, s', gone, n);
    }
    forall c | c in s'.parent
      ensures c in s'.kids && s'.parent[c] in s'.kids && c in s'.kids[s'.parent[c]]
    {
      assert c in s.parent && c !in gone;
      assert s'.kids[s.parent[c]] == Minus(s.kids[s.parent[c]], gone);
    }
  }

  lemma {:induction false} PrunedKids<T>(s: Shape<T>, s': Shape<T>, gone: set<T>, n: T)
    requires Sound(s) && Pruned(s, s', gone) && n in s.kids
    ensures Distinct(s'.kids[n]) && forall c :: c in s'.kids[n] ==> c in s'.parent && s'.parent[c] == n
  {
    hide Minus;
    assert s'.kids[n] == Minus(s.kids[n], gone);
    assert Distinct(s.kids[n]);
    hide Distinct;
    forall c | c in s'.kids[n]
      ensures c in s'.parent && s'.parent[c] == n
    {
      assert c in s.kids[n];
    }
  }

  lemma {:induction false} PrunedMore<T>(s: Shape<T>, s1: Shape<T>, s2: Shape<T>, a: set<T>, b: set<T>)
    requires Pruned(s, s1, a) && Pruned(s1, s2, b)
    ensures Pruned(s, s2, a + b)
  {
    forall n | n in s.kids
      ensures s2.kids[n] == Minus(s.kids[n], a + b)
    {
      MinusTwice(s.kids[n], a, b);
    }
  }

  lemma {:induction false} PrunedUnder<T>(s: Shape<T>, s': Shape<T>, gone: set<T>, x: T, a: T)
    requires Sound(s) && Pruned(s, s', gone) && Sound(s') && Under(s', x, a)
    ensures Under(s, x, a)
    decreases if x in s.depth then s.depth[x] else 0
  {
    if s.parent[x] != a { PrunedUnder(s, s', gone, s'.parent[x], a); }
  }

  /** All that was cut off are tuner settings below categories, and none of these can be reached any more. */
  ghost predicate WellPruned<T>(s: Shape<T>, s': Shape<T>, labels: map<T, Label>, gone: set<T>, root: T) {
    && Sound(s) && Sound(s') && Pruned(s, s', gone)
    && labels.Keys >= s.kids.Keys
    && (forall x :: x in s.parent ==> labels[x] != DocumentNode)
    && (forall x :: x in gone && x in s.parent ==> OldLabel(labels[x]) && InCategory(s, labels, x))
    && (forall x {:trigger Left(s, s', labels, root, x)} :: x in s.parent ==> !Left(s, s', labels, root, x))
  }

  /** `x` is a tuner setting below a category that can still be reached. */
  ghost predicate Left<T>(s: Shape<T>, s': Shape<T>, labels: map<T, Label>, root: T, x: T)
    requires Sound(s) && Sound(s') && labels.Keys >= s.kids.Keys && x in s.kids
  {
    Under(s', x, root) && InCategory(s, labels, x) && OldLabel(labels[x])
  }

  /** The nodes of `cs` are children of `n`, which can still be reached. */
  ghost predicate Reached<T>(s: Shape<T>, s': Shape<T>, labels: map<T, Label>, root: T, n: T, cs: seq<T>, inside: bool)
    requires Sound(s) && Sound(s') && labels.Keys >= s.kids.Keys
  {
    && (n == root || Under(s', n, root))
    && forall i :: 0 <= i < |cs| ==>
         cs[i] in s.parent && s.parent[cs[i]] == n && (InCategory(s, labels, cs[i]) <==> inside)
  }

  /** A child that was not cut off can be reached, so it is no tuner setting below a category. */
  lemma {:induction false} StillThere<T>(s: Shape<T>, s': Shape<T>, labels: map<T, Label>, gone: set<T>,
                                         root: T, n: T, c: T)
    requires WellPruned(s, s', labels, gone, root) && (n == root || Under(s', n, root))
    requires c in s.parent && s.parent[c] == n && c !in gone
    ensures Under(s', c, root) && !(InCategory(s, labels, c) && OldLabel(labels[c]))
  {
    assert Under(s', c, root);
    assert !Left(s, s', labels, root, c);
  }

  lemma {:induction false} CutOff<T>(s: Shape<T>, s': Shape<T>, labels: map<T, Label>, gone: set<T>, root: T, c: T)
    requires WellPruned(s, s', labels, gone, root) && c in s.parent
    ensures labels[c] != DocumentNode
    ensures c in gone ==> InCategory(s, labels, c) && OldLabel(labels[c])
  {
  }

  lemma {:induction false} ReachedTail<T>(s: Shape<T>, s': Shape<T>, labels: map<T, Label>, root: T, n: T,
                                          cs: seq<T>, inside: bool)
    requires Sound(s) && Sound(s') && labels.Keys >= s.kids.Keys
    requires cs != [] && Reached(s, s', labels, root, n, cs, inside)
    ensures Reached(s, s', labels, root, n, cs[1..], inside)
    ensures cs[0] in s.kids && cs[0] in s.parent && s.parent[cs[0]] == n && (n == root || Under(s', n, root))
    ensures InCategory(s, labels, cs[0]) <==> inside
  {
    hide Under, InCategory;
    assert forall i :: 0 <= i < |cs[1..]| ==> cs[1..][i] == cs[i + 1];
  }

  lemma {:induction false} KidsReached<T>(s: Shape<T>, s': Shape<T>, labels: map<T, Label>, gone: set<T>, root: T,
                                          c: T, inside: bool)
    requires WellPruned(s, s', labels, gone, root) && Under(s', c, root) && c in s.kids
    requires InCategory(s, labels, c) <==> inside
    ensures Reached(s, s', labels, root, c, s.kids[c], inside || IsTag(labels[c], "category"))
    ensures c in s'.kids && s'.kids[c] == Minus(s.kids[c], gone)
  {
    KidsAreSiblings(s, c);
  }

  /** Then what can be reached is the original without tuner settings below categories. */
  lemma {:induction false} PruneIsRemove<T>(s: Shape<T>, s': Shape<T>, labels: map<T, Label>, gone: set<T>,
                                            root: T, n: T, cs: seq<T>, d: nat, inside: bool)
    requires WellPruned(s, s', labels, gone, root)
    requires Siblings(s, cs, d) && Reached(s, s', labels, root, n, cs, inside)
    ensures Siblings(s', Minus(cs, gone), d)
    ensures TreesOf(s', labels, Minus(cs, gone), d) == RemoveOld(TreesOf(s, labels, cs, d), inside)
    decreases s.top + 1 - d, |cs|
  {
    hide *;
    Facts(s, s', labels, gone, root);
    PrunedSiblings(s, s', gone, cs, d);
    if cs == [] {
      NoTrees(s, s', labels, gone, d, inside);
    } else {
      var c := cs[0];
      ReachedTail(s, s', labels, root, n, cs, inside);
      CutOff(s, s', labels, gone, root, c);
      if c !in gone { StillThere(s, s', labels, gone, root, n, c); }
      SiblingsTail(s, cs, d);
      SiblingsOne(s, c, d);
      PruneOne(s, s', labels, gone, root, c, d, inside);
      PruneIsRemove(s, s', labels, gone, root, n, cs[1..], d, inside);
      TreesCons(s, labels, cs, d);
      RemoveSplit(s, labels, c, cs[1..], d, inside);
      MinusFirst(cs, gone);
      if c !in gone {
        TreesCons(s', labels, Minus(cs, gone), d);
      }
    }
  }

  lemma {:induction false} Facts<T>(s: Shape<T>, s': Shape<T>, labels: map<T, Label>, gone: set<T>, root: T)
    requires WellPruned(s, s', labels, gone, root)
    ensures Sound(s) && Sound(s') && Pruned(s, s', gone)
    ensures labels.Keys >= s.kids.Keys && labels.Keys >= s'.kids.Keys && s'.top == s.top
  {
  }

  lemma {:induction false} NoTrees<T>(s: Shape<T>, s': Shape<T>, labels: map<T, Label>, gone: set<T>, d: nat,
                                      inside: bool)
    requires Sound(s) && Sound(s') && labels.Keys >= s.kids.Keys && labels.Keys >= s'.kids.Keys
    ensures Siblings(s, [], d) && Siblings(s', Minus([], gone), d)
    ensures TreesOf(s', labels, Minus([], gone), d) == RemoveOld(TreesOf(s, labels, [], d), inside)
  {
  }

  lemma {:induction false} MinusFirst<T>(cs: seq<T>, gone: set<T>)
    requires cs != []
    ensures cs[0] !in gone ==> Minus(cs, gone) == [cs[0]] + Minus(cs[1..], gone)
    ensures cs[0] in gone ==> Minus(cs, gone) == Minus(cs[1..], gone)
  {
  }

  /** One node and what is below it. */
  lemma {:induction false} PruneOne<T>(s: Shape<T>, s': Shape<T>, labels: map<T, Label>, gone: set<T>,
                                       root: T, c: T, d: nat, inside: bool)
    requires WellPruned(s, s', labels, gone, root)
    requires c in s.kids && c in s.depth && s.depth[c] == d && Siblings(s, [c], d) && c in s.parent
    requires labels[c] != DocumentNode
    requires InCategory(s, labels, c) <==> inside
    requires c in gone <==> inside && OldLabel(labels[c])
    requires c !in gone ==> Under(s', c, root)
    ensures c !in gone ==> Siblings(s', [c], d)
    ensures RemoveOld(TreesOf(s, labels, [c], d), inside) == if c in gone then [] else TreesOf(s', labels, [c], d)
    decreases s.top + 1 - d, 0
  {
    hide *;
    Facts(s, s', labels, gone, root);
    KidsAreSiblings(s, c);
    TreeOne(s, labels, c, d);
    if labels[c].ElementNode? {
      var tag := labels[c].tag;
      OldElement(labels[c]);
      RemoveElement(tag, labels[c].attrs, TreesOf(s, labels, s.kids[c], d + 1), inside);
      if c !in gone {
        KeptNode(s, s', gone, c, d);
        KidsReached(s, s', labels, gone, root, c, inside);
        IsTagOf(labels[c], "category");
        PruneIsRemove(s, s', labels, gone, root, c, s.kids[c], d + 1, inside || tag == "category");
        TreeOne(s', labels, c, d);
      }
    } else {
      OldElement(labels[c]);
      KeptNode(s, s', gone, c, d);
      RemoveLeaf(TreesOf(s, labels, [c], d)[0], inside);
      TreeOne(s', labels, c, d);
    }
  }

  lemma OldElement(l: Label)
    ensures OldLabel(l) <==> l.ElementNode? && IsOld(l.tag, l.attrs)
  {
  }

  lemma IsTagOf(l: Label, tag: string)
    ensures IsTag(l, tag) <==> l.ElementNode? && l.tag == tag
  {
  }

  lemma {:induction false} KeptNode<T>(s: Shape<T>, s': Shape<T>, gone: set<T>, c: T, d: nat)
    requires Pruned(s, s', gone) && c in s.kids && c in s.depth && s.depth[c] == d
    ensures c in s'.kids && c in s'.depth && s'.depth[c] == d
  {
  }

  lemma {:induction false} TreeOne<T>(s: Shape<T>, labels: map<T, Label>, c: T, d: nat)
    requires Sound(s) && labels.Keys >= s.kids.Keys && c in s.kids && c in s.depth && s.depth[c] == d
    requires labels[c] != DocumentNode
    ensures Siblings(s, [c], d) && Siblings(s, s.kids[c], d + 1)
    ensures TreesOf(s, labels, [c], d)
            == [match labels[c]
                case ElementNode(tag, attrs) => Element(tag, attrs, TreesOf(s, labels, s.kids[c], d + 1))
                case TextNode(data) => CharData(data)
                case OtherNode(mark) => Other(mark)]
  {
    assert [c][0] == c && [c][1..] == [];
    KidsAreSiblings(s, c);
  }

  lemma RemoveElement(tag: string, attrs: map<string, string>, kids: seq<Tree>, inside: bool)
    ensures RemoveOld([Element(tag, attrs, kids)], inside)
            == if inside && IsOld(tag, attrs) then []
               else [Element(tag, attrs, RemoveOld(kids, inside || tag == "category"))]
  {
    assert [Element(tag, attrs, kids)][1..] == [];
  }

  lemma RemoveLeaf(t: Tree, inside: bool)
    requires !t.Element?
    ensures RemoveOld([t], inside) == [t]
  {
    assert [t][1..] == [];
  }

  lemma {:induction false} PrunedSiblings<T>(s: Shape<T>, s': Shape<T>, gone: set<T>, cs: seq<T>, d: nat)
    requires Siblings(s, cs, d) && Pruned(s, s', gone)
    ensures Siblings(s', Minus(cs, gone), d)
  {
    var m := Minus(cs, gone);
    forall i | 0 <= i < |m|
      ensures m[i] in s'.kids && m[i] in s'.depth && s'.depth[m[i]] == d
    {
      assert m[i] in cs;
    }
  }

  lemma {:induction false} RemoveSplit<T>(s: Shape<T>, labels: map<T, Label>, c: T, cs: seq<T>, d: nat, inside: bool)
    requires Sound(s) && labels.Keys >= s.kids.Keys && Siblings(s, [c], d) && Siblings(s, cs, d)
    ensures RemoveOld(TreesOf(s, labels, [c], d) + TreesOf(s, labels, cs, d), inside)
            == RemoveOld(TreesOf(s, labels, [c], d), inside) + RemoveOld(TreesOf(s, labels, cs, d), inside)
  {
    RemoveAppend(TreesOf(s, labels, [c], d), TreesOf(s, labels, cs, d), inside);
  }

  /** Below a category in the pruned shape, as seen from the root. */
  lemma {:induction false} CategoryAbove<T>(s: Shape<T>, s': Shape<T>, labels: map<T, Label>, gone: set<T>, root: T,
                                            x: T)
    returns (k: T)
    requires Sound(s) && labels.Keys >= s.kids.Keys && Pruned(s, s', gone) && Sound(s')
    requires root in s.kids && root !in s.parent && !IsTag(labels[root], "category")
    requires Under(s', x, root) && InCategory(s, labels, x)
    ensures k in s.kids && IsTag(labels[k], "category") && Under(s', x, k) && Under(s', k, root)
    decreases if x in s.depth then s.depth[x] else 0
  {
    var p := s.parent[x];
    if IsTag(labels[p], "category") {
      k := p;
    } else {
      assert p != root;
      k := CategoryAbove(s, s', labels, gone, root, p);
    }
  }

  // ----- addition -----

  /** `s'` is `s` with new childless nodes: `added[n]` at the end of the children of `n`. */
  ghost predicate Grown<T>(s: Shape<T>, s': Shape<T>, added: map<T, seq<T>>) {
    && s.kids.Keys <= s'.kids.Keys && s'.top == s.top && added.Keys <= s.kids.Keys
    && (forall n :: n in s.kids ==> n in s.depth && n in s'.depth && s'.depth[n] == s.depth[n])
    && (forall n :: n in s.kids ==> s'.kids[n] == s.kids[n] + (if n in added then added[n] else []))
    && (forall c :: c in s.kids ==>
        (c in s'.parent <==> c in s.parent) && (c in s.parent ==> s'.parent[c] == s.parent[c]))
    && (forall c :: c in s'.kids && c !in s.kids ==>
          s'.kids[c] == [] && c in s'.parent && s'.parent[c] in added && c in added[s'.parent[c]])
  }

  lemma {:induction false} GrownUnder<T>(s: Shape<T>, s': Shape<T>, added: map<T, seq<T>>, x: T, a: T)
    requires Sound(s) && Sound(s') && Grown(s, s', added) && x in s.kids
    ensures Under(s', x, a) <==> Under(s, x, a)
    decreases if x in s.depth then s.depth[x] else 0
  {
    if x in s.parent && s.parent[x] != a { GrownUnder(s, s', added, s.parent[x], a); }
  }

  /** Some node with a marker label is below `n`. */
  ghost predicate Marked<T>(s: Shape<T>, labels: map<T, Label>, n: T)
    requires Sound(s) && labels.Keys >= s.kids.Keys
  {
    exists x :: x in s.kids && MarkerBelow(s, labels, x, n)
  }

  ghost predicate MarkerBelow<T>(s: Shape<T>, labels: map<T, Label>, x: T, n: T)
    requires Sound(s) && labels.Keys >= s.kids.Keys && x in s.kids
  {
    Under(s, x, n) && MarkerLabel(labels[x])
  }

  /** Labels of nodes that were there before stay. */
  ghost predicate SameLabels<T>(s: Shape<T>, labels: map<T, Label>, labels': map<T, Label>) {
    labels.Keys >= s.kids.Keys && labels'.Keys >= s.kids.Keys && forall n :: n in s.kids ==> labels'[n] == labels[n]
  }

  /** An old node below which a marker is. */
  lemma MarkedBy<T>(s: Shape<T>, labels: map<T, Label>, x: T, n: T)
    requires Sound(s) && labels.Keys >= s.kids.Keys && x in s.kids && Under(s, x, n) && MarkerLabel(labels[x])
    ensures Marked(s, labels, n)
  {
    hide Sound, Under;
    assert MarkerBelow(s, labels, x, n);
  }

  /** A new node is below the node it was added to, or that node itself is the one asked about. */
  lemma NewNodeUnder<T>(s: Shape<T>, s': Shape<T>, added: map<T, seq<T>>, x: T, n: T) returns (q: T)
    requires Sound(s') && Grown(s, s', added) && x in s'.kids && x !in s.kids && Under(s', x, n)
    ensures q in added && q in s.kids && (q == n || Under(s', q, n))
  {
    hide Sound;
    q := s'.parent[x];
  }

  /** A marker below a node to which a new one was added is below every node above. */
  lemma MarkedAbove<T>(s: Shape<T>, labels: map<T, Label>, q: T, n: T)
    requires Sound(s) && labels.Keys >= s.kids.Keys && Marked(s, labels, q) && Under(s, q, n)
    ensures Marked(s, labels, n)
  {
    hide Sound, Under;
    var y :| y in s.kids && MarkerBelow(s, labels, y, q);
    UnderTransitive(s, y, q, n);
    MarkedBy(s, labels, y, n);
  }

  /** The new nodes only went to marked nodes, so they mark nothing that was not marked before. */
  lemma {:induction false} GrownMarked<T>(s: Shape<T>, s': Shape<T>, added: map<T, seq<T>>,
                                          labels: map<T, Label>, labels': map<T, Label>, n: T)
    requires Sound(s) && Sound(s') && Grown(s, s', added) && SameLabels(s, labels, labels')
    requires labels'.Keys >= s'.kids.Keys && n in s.kids && n !in added
    requires forall q :: q in added ==> Marked(s, labels, q)
    ensures Marked(s', labels', n) <==> Marked(s, labels, n)
  {
    hide Sound, Grown, Under;
    if Marked(s, labels, n) {
      var x :| x in s.kids && MarkerBelow(s, labels, x, n);
      GrownUnder(s, s', added, x, n);
      OldStays(s, s', added, x);
      MarkedBy(s', labels', x, n);
    }
    if Marked(s', labels', n) {
      var x :| x in s'.kids && MarkerBelow(s', labels', x, n);
      if x in s.kids {
        GrownUnder(s, s', added, x, n);
        MarkedBy(s, labels, x, n);
      } else {
        var q := NewNodeUnder(s, s', added, x, n);
        GrownUnder(s, s', added, q, n);
        MarkedAbove(s, labels, q, n);
      }
    }
  }

  lemma OldStays<T>(s: Shape<T>, s': Shape<T>, added: map<T, seq<T>>, x: T)
    requires Grown(s, s', added) && x in s.kids
    ensures x in s'.kids
  {
  }

  // A marker below a node shows in its tree, and the other way round.

  lemma {:induction false} MarkerFirst(t: Tree, ts: seq<Tree>)
    ensures HasMarker([t] + ts) <==> HasMarker([t]) || HasMarker(ts)
    ensures HasMarker([t]) <==> t.Element? && (IsMarker(t.tag, t.attrs) || HasMarker(t.kids))
  {
    assert ([t] + ts)[1..] == ts;
    assert [t][1..] == [];
  }

  ghost predicate MarkerAmong<T>(s: Shape<T>, labels: map<T, Label>, cs: seq<T>, x: T)
    requires Sound(s) && labels.Keys >= s.kids.Keys && x in s.kids
  {
    MarkerLabel(labels[x]) && exists i :: 0 <= i < |cs| && (x == cs[i] || Under(s, x, cs[i]))
  }

  lemma BelowChild<T>(s: Shape<T>, c: T, i: nat, x: T)
    requires Sound(s) && c in s.kids && i < |s.kids[c]| && (x == s.kids[c][i] || Under(s, x, s.kids[c][i]))
    ensures Under(s, x, c)
  {
    assert s.kids[c][i] in s.kids[c];
    if x != s.kids[c][i] { UnderTransitive(s, x, s.kids[c][i], c); }
  }

  lemma {:induction false} TreeMarker<T>(s: Shape<T>, labels: map<T, Label>, cs: seq<T>, d: nat) returns (x: T)
    requires Sound(s) && labels.Keys >= s.kids.Keys && Siblings(s, cs, d)
    requires HasMarker(TreesOf(s, labels, cs, d))
    ensures x in s.kids && MarkerAmong(s, labels, cs, x)
    decreases s.top + 1 - d, |cs|
  {
    hide Under, Sound;
    var c := cs[0];
    SiblingsTail(s, cs, d);
    KidsAreSiblings(s, c);
    var ts := TreesOf(s, labels, cs, d);
    assert ts == [ts[0]] + ts[1..];
    MarkerFirst(ts[0], ts[1..]);
    if HasMarker([ts[0]]) {
      if MarkerLabel(labels[c]) {
        x := c;
      } else {
        x := TreeMarker(s, labels, s.kids[c], d + 1);
        var i :| 0 <= i < |s.kids[c]| && (x == s.kids[c][i] || Under(s, x, s.kids[c][i]));
        BelowChild(s, c, i, x);
      }
      assert x == cs[0] || Under(s, x, cs[0]);
    } else {
      x := TreeMarker(s, labels, cs[1..], d);
      var i :| 0 <= i < |cs[1..]| && (x == cs[1..][i] || Under(s, x, cs[1..][i]));
      assert cs[1..][i] == cs[i + 1];
    }
  }

  /** Only elements have children, apart from the document itself. */
  ghost predicate Leafy<T>(s: Shape<T>, labels: map<T, Label>) {
    labels.Keys >= s.kids.Keys &&
    forall n :: n in s.parent && n in s.kids ==>
      labels[n] != DocumentNode && (!labels[n].ElementNode? ==> s.kids[n] == [])
  }

  lemma {:induction false} TreesFirst<T>(s: Shape<T>, labels: map<T, Label>, cs: seq<T>, d: nat)
    requires Sound(s) && labels.Keys >= s.kids.Keys && Siblings(s, cs, d) && cs != []
    requires cs[0] in s.kids && cs[0] in s.depth && s.depth[cs[0]] == d && labels[cs[0]] != DocumentNode
    ensures Siblings(s, s.kids[cs[0]], d + 1) && Siblings(s, cs[1..], d)
    ensures var ts := TreesOf(s, labels, cs, d);
            && ts == [ts[0]] + ts[1..] && ts[1..] == TreesOf(s, labels, cs[1..], d)
            && (ts[0].Element? <==> labels[cs[0]].ElementNode?)
            && (ts[0].Element? ==> ts[0] == Element(labels[cs[0]].tag, labels[cs[0]].attrs,
                                                    TreesOf(s, labels, s.kids[cs[0]], d + 1)))
  {
    KidsAreSiblings(s, cs[0]);
    SiblingsTail(s, cs, d);
  }

  /** The nodes of `cs` are no roots. */
  ghost predicate Kids<T>(s: Shape<T>, cs: seq<T>) {
    forall j :: 0 <= j < |cs| ==> cs[j] in s.parent && cs[j] in s.kids
  }

  lemma {:induction false} KidsFirst<T>(s: Shape<T>, labels: map<T, Label>, cs: seq<T>)
    requires Sound(s) && Leafy(s, labels) && Kids(s, cs) && cs != []
    ensures Kids(s, cs[1..]) && Kids(s, s.kids[cs[0]]) && labels.Keys >= s.kids.Keys
    ensures labels[cs[0]] != DocumentNode && (!labels[cs[0]].ElementNode? ==> s.kids[cs[0]] == [])
  {
    KidsAreSiblings(s, cs[0]);
  }

  lemma {:induction false} ViaKid<T>(s: Shape<T>, x: T, n: T) returns (k: nat)
    requires Sound(s) && Under(s, x, n)
    ensures n in s.kids && k < |s.kids[n]| && (x == s.kids[n][k] || Under(s, x, s.kids[n][k]))
  {
    var c := UnderViaChild(s, x, n);
    k :| 0 <= k < |s.kids[n]| && s.kids[n][k] == c;
  }

  lemma MarkerOf(l: Label)
    ensures MarkerLabel(l) <==> l.ElementNode? && IsMarker(l.tag, l.attrs)
  {
  }

  lemma {:induction false} MarkerInTree<T>(s: Shape<T>, labels: map<T, Label>, cs: seq<T>, d: nat, x: T, i: nat)
    requires Sound(s) && Leafy(s, labels) && labels.Keys >= s.kids.Keys
    requires Siblings(s, cs, d) && Kids(s, cs) && x in s.kids && MarkerLabel(labels[x])
    requires i < |cs| && (x == cs[i] || Under(s, x, cs[i]))
    ensures HasMarker(TreesOf(s, labels, cs, d))
    decreases s.top + 1 - d, |cs|
  {
    hide *;
    SiblingsTail(s, cs, d);
    KidsFirst(s, labels, cs);
    KidsAreSiblings(s, cs[0]);
    TreesFirst(s, labels, cs, d);
    var ts := TreesOf(s, labels, cs, d);
    MarkerFirst(ts[0], ts[1..]);
    MarkerOf(labels[x]);
    if i > 0 {
      MarkerInTree(s, labels, cs[1..], d, x, i - 1);
    } else if x != cs[0] {
      var k := ViaKid(s, x, cs[0]);
      MarkerInTree(s, labels, s.kids[cs[0]], d + 1, x, k);
    }
  }

  lemma {:induction false} MarkedBelow<T>(s: Shape<T>, labels: map<T, Label>, n: T, x: T, k: nat)
    requires Sound(s) && labels.Keys >= s.kids.Keys && n in s.kids && x in s.kids && MarkerLabel(labels[x])
    requires k < |s.kids[n]| && (x == s.kids[n][k] || Under(s, x, s.kids[n][k]))
    ensures Marked(s, labels, n)
  {
    KidsAreSiblings(s, n);
    if x != s.kids[n][k] { UnderTransitive(s, x, s.kids[n][k], n); }
    assert MarkerBelow(s, labels, x, n);
  }

  lemma {:induction false} MarkedWitness<T>(s: Shape<T>, labels: map<T, Label>, n: T) returns (x: T)
    requires Sound(s) && labels.Keys >= s.kids.Keys && Marked(s, labels, n)
    ensures x in s.kids && Under(s, x, n) && MarkerLabel(labels[x])
  {
    x :| x in s.kids && MarkerBelow(s, labels, x, n);
  }

  lemma {:induction false} KidsOf<T>(s: Shape<T>, labels: map<T, Label>, n: T)
    requires Sound(s) && Leafy(s, labels) && n in s.kids
    ensures labels.Keys >= s.kids.Keys && n in s.depth
    ensures Siblings(s, s.kids[n], s.depth[n] + 1) && Kids(s, s.kids[n])
  {
    KidsAreSiblings(s, n);
  }

  lemma {:induction false} AmongOne<T>(s: Shape<T>, labels: map<T, Label>, cs: seq<T>, x: T) returns (k: nat)
    requires Sound(s) && labels.Keys >= s.kids.Keys && x in s.kids && MarkerAmong(s, labels, cs, x)
    ensures MarkerLabel(labels[x]) && k < |cs| && (x == cs[k] || Under(s, x, cs[k]))
  {
    k :| 0 <= k < |cs| && (x == cs[k] || Under(s, x, cs[k]));
  }

  /** The marker test of the tree is the one on the nodes. */
  lemma {:induction false} MarkedIsHasMarker<T>(s: Shape<T>, labels: map<T, Label>, n: T, d: nat)
    requires Sound(s) && Leafy(s, labels) && labels.Keys >= s.kids.Keys && n in s.kids && n in s.depth
             && s.depth[n] == d
    ensures Siblings(s, s.kids[n], d + 1)
    ensures HasMarker(TreesOf(s, labels, s.kids[n], d + 1)) <==> Marked(s, labels, n)
  {
    hide *;
    KidsOf(s, labels, n);
    if HasMarker(TreesOf(s, labels, s.kids[n], d + 1)) {
      var x := TreeMarker(s, labels, s.kids[n], d + 1);
      var k := AmongOne(s, labels, s.kids[n], x);
      MarkedBelow(s, labels, n, x, k);
    }
    if Marked(s, labels, n) {
      var x := MarkedWitness(s, labels, n);
      var k := ViaKid(s, x, n);
      MarkerInTree(s, labels, s.kids[n], d + 1, x, k);
    }
  }

  /** A category with a marker that can be reached from the root. */
  ghost predicate ToExtend<T>(s: Shape<T>, labels: map<T, Label>, root: T, q: T)
    requires Sound(s) && labels.Keys >= s.kids.Keys && q in s.kids
  {
    Under(s, q, root) && IsTag(labels[q], "category") && Marked(s, labels, q)
  }

  /** Exactly these got new children, and the new children read as `new_`. */
  ghost predicate WellGrown<T>(s: Shape<T>, s': Shape<T>, added: map<T, seq<T>>,
                               labels: map<T, Label>, labels': map<T, Label>, root: T, new_: seq<Tree>) {
    && Sound(s) && Sound(s') && Grown(s, s', added) && SameLabels(s, labels, labels')
    && labels'.Keys >= s'.kids.Keys && Leafy(s, labels)
    && (forall q {:trigger q in added} :: q in added ==>
          && q in s.kids && IsTag(labels[q], "category") && Marked(s, labels, q)
          && Siblings(s', added[q], s.depth[q] + 1)
          && TreesOf(s', labels', added[q], s.depth[q] + 1) == new_)
    && (forall q {:trigger ToExtend(s, labels, root, q)} :: q in s.kids && ToExtend(s, labels, root, q) ==> q in added)
  }

  ghost predicate BelowRoot<T>(s: Shape<T>, cs: seq<T>, root: T)
    requires Sound(s)
  {
    forall i :: 0 <= i < |cs| ==> cs[i] in s.parent && Under(s, cs[i], root)
  }

  lemma {:induction false} GrownFacts<T>(s: Shape<T>, s': Shape<T>, added: map<T, seq<T>>,
                                         labels: map<T, Label>, labels': map<T, Label>, root: T, new_: seq<Tree>)
    requires WellGrown(s, s', added, labels, labels', root, new_)
    ensures Sound(s) && Sound(s') && Leafy(s, labels) && labels.Keys >= s.kids.Keys && labels'.Keys >= s'.kids.Keys
    ensures s'.top == s.top
  {
  }

  lemma {:induction false} GrownNode<T>(s: Shape<T>, s': Shape<T>, added: map<T, seq<T>>,
                                        labels: map<T, Label>, labels': map<T, Label>, root: T, new_: seq<Tree>,
                                        c: T, d: nat)
    requires WellGrown(s, s', added, labels, labels', root, new_)
    requires c in s.parent && Under(s, c, root) && c in s.kids && c in s.depth && s.depth[c] == d
    ensures c in s'.kids && c in s'.depth && s'.depth[c] == d && labels'[c] == labels[c] && labels[c] != DocumentNode
    ensures s'.kids[c] == s.kids[c] + (if c in added then added[c] else [])
    ensures c in added <==> IsTag(labels[c], "category") && Marked(s, labels, c)
    ensures c in added ==> Siblings(s', added[c], d + 1) && TreesOf(s', labels', added[c], d + 1) == new_
    ensures Siblings(s', s.kids[c], d + 1)
  {
    hide *;
    GrownFacts(s, s', added, labels, labels', root, new_);
    GrownKids(s, s', added, labels, labels', root, new_, c);
    GrownThere(s, s', added, labels, labels', root, new_, c);
    KidsAreSiblings(s, c);
    GrownSiblings(s, s', added, labels, labels', root, new_, s.kids[c], d + 1);
  }

  lemma {:induction false} GrownKids<T>(s: Shape<T>, s': Shape<T>, added: map<T, seq<T>>,
                                        labels: map<T, Label>, labels': map<T, Label>, root: T, new_: seq<Tree>, c: T)
    requires WellGrown(s, s', added, labels, labels', root, new_) && c in s.kids && c in s.parent
    ensures c in s.depth && c in s'.kids && c in s'.depth && s'.depth[c] == s.depth[c]
    ensures c in labels && c in labels' && labels'[c] == labels[c] && labels[c] != DocumentNode
    ensures s'.kids[c] == s.kids[c] + (if c in added then added[c] else [])
  {
    hide Under, Marked, Siblings, TreesOf, IsTag;
  }

  lemma {:induction false} GrownThere<T>(s: Shape<T>, s': Shape<T>, added: map<T, seq<T>>,
                                         labels: map<T, Label>, labels': map<T, Label>, root: T, new_: seq<Tree>, c: T)
    requires WellGrown(s, s', added, labels, labels', root, new_)
    requires c in s.kids && c in s.depth && Under(s, c, root)
    ensures labels.Keys >= s.kids.Keys
    ensures c in added <==> IsTag(labels[c], "category") && Marked(s, labels, c)
    ensures c in added ==> Siblings(s', added[c], s.depth[c] + 1)
                           && TreesOf(s', labels', added[c], s.depth[c] + 1) == new_
  {
    hide Under, Marked, Siblings, TreesOf, IsTag, Grown, Leafy;
    if IsTag(labels[c], "category") && Marked(s, labels, c) {
      assert ToExtend(s, labels, root, c);
    }
  }

  lemma {:induction false} SiblingsStay<T>(s: Shape<T>, s': Shape<T>, added: map<T, seq<T>>, cs: seq<T>, d: nat)
    requires Grown(s, s', added) && Siblings(s, cs, d)
    ensures Siblings(s', cs, d)
  {
  }

  lemma {:induction false} KidsBelowRoot<T>(s: Shape<T>, c: T, root: T)
    requires Sound(s) && c in s.kids && Under(s, c, root)
    ensures BelowRoot(s, s.kids[c], root)
  {
    KidsAreSiblings(s, c);
  }

  lemma {:induction false} BelowRootTail<T>(s: Shape<T>, cs: seq<T>, root: T)
    requires Sound(s) && cs != [] && BelowRoot(s, cs, root)
    ensures cs[0] in s.parent && Under(s, cs[0], root) && BelowRoot(s, cs[1..], root)
  {
  }

  lemma GrownSiblings<T>(s: Shape<T>, s': Shape<T>, added: map<T, seq<T>>,
                         labels: map<T, Label>, labels': map<T, Label>, root: T, new_: seq<Tree>, cs: seq<T>, d: nat)
    requires WellGrown(s, s', added, labels, labels', root, new_) && Siblings(s, cs, d)
    ensures Siblings(s', cs, d)
  {
    SiblingsStay(s, s', added, cs, d);
  }

  lemma {:induction false} NothingGrown<T>(s: Shape<T>, s': Shape<T>, labels: map<T, Label>, labels': map<T, Label>,
                                           new_: seq<Tree>, d: nat)
    requires Sound(s) && Sound(s') && labels.Keys >= s.kids.Keys && labels'.Keys >= s'.kids.Keys
    ensures Siblings(s, [], d) && Siblings(s', [], d)
    ensures TreesOf(s', labels', [], d) == AddNew(TreesOf(s, labels, [], d), new_)
  {
  }

  lemma AddElement(tag: string, attrs: map<string, string>, kids: seq<Tree>, new_: seq<Tree>)
    ensures AddNew([Element(tag, attrs, kids)], new_)
            == [Element(tag, attrs, AddNew(kids, new_) + if tag == "category" && HasMarker(kids) then new_ else [])]
  {
    assert [Element(tag, attrs, kids)][1..] == [];
  }

  lemma AddLeaf(t: Tree, new_: seq<Tree>)
    requires !t.Element?
    ensures AddNew([t], new_) == [t]
  {
    assert [t][1..] == [];
  }

  lemma {:induction false} AddSplit(a: seq<Tree>, b: seq<Tree>, new_: seq<Tree>)
    ensures AddNew(a + b, new_) == AddNew(a, new_) + AddNew(b, new_)
  {
    if a == [] {
      assert a + b == b;
    } else {
      assert (a + b)[1..] == a[1..] + b;
      AddSplit(a[1..], b, new_);
    }
  }

  /** Growing the shape this way is adding to the tree. */
  lemma {:induction false} GrownIsAdd<T>(s: Shape<T>, s': Shape<T>, added: map<T, seq<T>>,
                                         labels: map<T, Label>, labels': map<T, Label>, root: T, new_: seq<Tree>,
                                         cs: seq<T>, d: nat)
    requires WellGrown(s, s', added, labels, labels', root, new_)
    requires Siblings(s, cs, d) && BelowRoot(s, cs, root)
    ensures Siblings(s', cs, d)
    ensures TreesOf(s', labels', cs, d) == AddNew(TreesOf(s, labels, cs, d), new_)
    decreases s.top + 1 - d, |cs|
  {
    hide *;
    GrownFacts(s, s', added, labels, labels', root, new_);
    GrownSiblings(s, s', added, labels, labels', root, new_, cs, d);
    if cs == [] {
      NothingGrown(s, s', labels, labels', new_, d);
    } else {
      var c := cs[0];
      SiblingsTail(s, cs, d);
      SiblingsOne(s, c, d);
      BelowRootTail(s, cs, root);
      GrownOne(s, s', added, labels, labels', root, new_, c, d);
      GrownIsAdd(s, s', added, labels, labels', root, new_, cs[1..], d);
      TreesCons(s, labels, cs, d);
      TreesCons(s', labels', cs, d);
      AddSplit(TreesOf(s, labels, [c], d), TreesOf(s, labels, cs[1..], d), new_);
    }
  }

  lemma {:induction false} GrownOne<T>(s: Shape<T>, s': Shape<T>, added: map<T, seq<T>>,
                                       labels: map<T, Label>, labels': map<T, Label>, root: T, new_: seq<Tree>,
                                       c: T, d: nat)
    requires WellGrown(s, s', added, labels, labels', root, new_)
    requires c in s.kids && c in s.depth && s.depth[c] == d && c in s.parent && Under(s, c, root) && Siblings(s, [c], d)
    ensures Siblings(s', [c], d)
    ensures TreesOf(s', labels', [c], d) == AddNew(TreesOf(s, labels, [c], d), new_)
    decreases s.top + 1 - d, 0
  {
    hide *;
    GrownFacts(s, s', added, labels, labels', root, new_);
    GrownNode(s, s', added, labels, labels', root, new_, c, d);
    KidsAreSiblings(s, c);
    TreeOne(s, labels, c, d);
    TreeOne(s', labels', c, d);
    if labels[c].ElementNode? {
      var tag, attrs, kids := labels[c].tag, labels[c].attrs, TreesOf(s, labels, s.kids[c], d + 1);
      IsTagOf(labels[c], "category");
      KidsBelowRoot(s, c, root);
      MarkedIsHasMarker(s, labels, c, d);
      GrownIsAdd(s, s', added, labels, labels', root, new_, s.kids[c], d + 1);
      if c in added {
        TreesAppend(s', labels', s.kids[c], added[c], d + 1);
      } else {
        assert s.kids[c] + [] == s.kids[c];
        assert AddNew(kids, new_) + [] == AddNew(kids, new_);
      }
      AddElement(tag, attrs, kids, new_);
    } else {
      AddLeaf(TreesOf(s, labels, [c], d)[0], new_);
    }
  }
}
