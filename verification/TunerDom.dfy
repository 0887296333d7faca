/** `remove_old_tuners` and `add_new_tuners` on the document in memory
    (packages/addons/official/driver/hdhomerun/source/resources/lib/functions.py and
    packages/addons/official/driver/sundtek-mediatv/source/resources/lib/functions.py). */
module TunerDom {
  import opened Text
  import opened TunerTree
  import opened Shapes
  import opened Dom

  // ----- removal: what the loops keep -----

  ghost function OldOnes(labels: map<Node, Label>, xs: seq<Node>): set<Node> {
    set x | x in xs && x in labels && OldLabel(labels[x])
  }

  ghost predicate CleanBelow(s: Shape<Node>, labels: map<Node, Label>, k: Node)
    requires Sound(s) && labels.Keys >= s.kids.Keys
  {
    forall x {:trigger OldBelow(s, labels, x, k)} :: x in s.kids ==> !OldBelow(s, labels, x, k)
  }

  ghost predicate OldBelow(s: Shape<Node>, labels: map<Node, Label>, x: Node, k: Node)
    requires Sound(s) && labels.Keys >= s.kids.Keys && x in s.kids
  {
    Under(s, x, k) && OldLabel(labels[x])
  }

  lemma {:induction false} UnderCategory(s: Shape<Node>, labels: map<Node, Label>, x: Node, k: Node)
    requires Sound(s) && labels.Keys >= s.kids.Keys && k in s.kids && IsTag(labels[k], "category") && Under(s, x, k)
    ensures InCategory(s, labels, x)
    decreases if x in s.depth then s.depth[x] else 0
  {
    if s.parent[x] != k { UnderCategory(s, labels, s.parent[x], k); }
  }

  ghost predicate Doomed(s: Shape<Node>, labels: map<Node, Label>, gone: set<Node>)
    requires Sound(s) && labels.Keys >= s.kids.Keys
  {
    forall x :: x in gone ==> x in s.kids && OldLabel(labels[x]) && InCategory(s, labels, x)
  }

  /** The state of the removal: `gone` has been cut off, the first `i` categories are clean. */
  ghost predicate Removing(s: Shape<Node>, s': Shape<Node>, labels: map<Node, Label>, gone: set<Node>,
                           category: seq<Node>, i: nat)
  {
    && Sound(s) && Sound(s') && labels.Keys == s.kids.Keys && Leafy(s, labels)
    && Pruned(s, s', gone) && Doomed(s, labels, gone)
    && i <= |category|
    && forall k :: 0 <= k < i ==> CleanBelow(s', labels, category[k])
  }

  lemma {:induction false} RemovingStart(s: Shape<Node>, labels: map<Node, Label>, category: seq<Node>)
    requires Sound(s) && labels.Keys == s.kids.Keys && Leafy(s, labels)
    ensures Removing(s, s, labels, {}, category, 0)
  {
    forall n | n in s.kids
      ensures s.kids[n] == Minus(s.kids[n], {})
    {
      MinusNothing(s.kids[n], {});
    }
  }

  lemma {:induction false} NothingPruned(s: Shape<Node>)
    requires Sound(s)
    ensures Pruned(s, s, {})
  {
    forall n | n in s.kids
      ensures s.kids[n] == Minus(s.kids[n], {})
    {
      MinusNothing(s.kids[n], {});
    }
  }

  lemma {:induction false} HitAt(s: Shape<Node>, labels: map<Node, Label>, k: Node, name: string, found: seq<Node>,
                                 j: nat)
    requires Sound(s) && labels.Keys >= s.kids.Keys && HitsBelow(s, labels, k, name, found) && j < |found|
    ensures found[j] in s.kids && IsTag(labels[found[j]], name) && Under(s, found[j], k) && found[j] in s.parent
    ensures found[j] !in found[..j]
  {
    hide Sound, IsTag;
    assert found[j] in found;
  }

  lemma SettingLabel(l: Label)
    requires IsTag(l, "setting")
    ensures l.ElementNode? && (OldLabel(l) <==> OldId(l.attrs))
  {
    hide OldId;
  }

  lemma OldOnesSnoc(labels: map<Node, Label>, setting: seq<Node>, j: nat)
    requires j < |setting| && setting[j] in labels
    ensures OldOnes(labels, setting[..j + 1])
            == OldOnes(labels, setting[..j]) + (if OldLabel(labels[setting[j]]) then {setting[j]} else {})
  {
    hide OldLabel;
    assert setting[..j + 1] == setting[..j] + [setting[j]];
  }

  lemma OldOneAmong(labels: map<Node, Label>, xs: seq<Node>, x: Node)
    ensures x in OldOnes(labels, xs) <==> x in xs && x in labels && OldLabel(labels[x])
  {
  }

  lemma {:induction false} PrunedParent(s: Shape<Node>, s': Shape<Node>, gone: set<Node>, x: Node)
    requires Pruned(s, s', gone)
    ensures x in s'.parent <==> x in s.parent && x !in gone
    ensures s'.kids.Keys == s.kids.Keys
  {
  }

  /** The next setting of the list is still in the document. */
  lemma {:induction false} StillListed(s1: Shape<Node>, s2: Shape<Node>, labels: map<Node, Label>, k: Node,
                                       setting: seq<Node>, j: nat)
    requires Sound(s1) && labels.Keys >= s1.kids.Keys && HitsBelow(s1, labels, k, "setting", setting) && j < |setting|
    requires Pruned(s1, s2, OldOnes(labels, setting[..j]))
    ensures setting[j] in s1.kids && setting[j] in s2.parent && labels[setting[j]].ElementNode?
    ensures OldLabel(labels[setting[j]]) <==> OldId(labels[setting[j]].attrs)
    ensures OldOnes(labels, setting[..j + 1])
            == OldOnes(labels, setting[..j]) + (if OldLabel(labels[setting[j]]) then {setting[j]} else {})
  {
    hide *;
    HitAt(s1, labels, k, "setting", setting, j);
    SettingLabel(labels[setting[j]]);
    OldOnesSnoc(labels, setting, j);
    OldOneAmong(labels, setting[..j], setting[j]);
    PrunedParent(s1, s2, OldOnes(labels, setting[..j]), setting[j]);
  }

  lemma {:induction false} HitThere(s: Shape<Node>, labels: map<Node, Label>, k: Node, name: string,
                                    found: seq<Node>, x: Node)
    requires Sound(s) && labels.Keys >= s.kids.Keys && HitsBelow(s, labels, k, name, found)
    requires x in s.kids && IsTag(labels[x], name) && Under(s, x, k)
    ensures x in found
  {
    hide Sound, IsTag;
  }

  lemma OldIsSetting(l: Label)
    requires OldLabel(l)
    ensures IsTag(l, "setting")
  {
  }

  lemma {:induction false} CleanAfterOne(s1: Shape<Node>, s2: Shape<Node>, labels: map<Node, Label>, k: Node,
                                         setting: seq<Node>, x: Node)
    requires Sound(s1) && Sound(s2) && labels.Keys >= s1.kids.Keys && labels.Keys >= s2.kids.Keys
    requires HitsBelow(s1, labels, k, "setting", setting) && Pruned(s1, s2, OldOnes(labels, setting))
    requires x in s2.kids && OldLabel(labels[x])
    ensures !Under(s2, x, k)
  {
    hide *;
    var gone := OldOnes(labels, setting);
    PrunedParent(s1, s2, gone, x);
    OldOneAmong(labels, setting, x);
    OldIsSetting(labels[x]);
    if Under(s2, x, k) {
      UnderHasParent(s2, x, k);
      PrunedUnder(s1, s2, gone, x, k);
      HitThere(s1, labels, k, "setting", setting, x);
      assert false;
    }
  }

  lemma {:induction false} UnderHasParent(s: Shape<Node>, x: Node, a: Node)
    requires Sound(s) && Under(s, x, a)
    ensures x in s.parent
  {
  }

  lemma {:induction false} CleanAfter(s1: Shape<Node>, s2: Shape<Node>, labels: map<Node, Label>, k: Node,
                                      setting: seq<Node>)
    requires Sound(s1) && Sound(s2) && labels.Keys >= s1.kids.Keys && labels.Keys >= s2.kids.Keys
    requires HitsBelow(s1, labels, k, "setting", setting) && Pruned(s1, s2, OldOnes(labels, setting))
    ensures CleanBelow(s2, labels, k)
  {
    hide Sound, Under, HitsBelow, Pruned, OldLabel, OldOnes;
    forall x | x in s2.kids
      ensures !OldBelow(s2, labels, x, k)
    {
      if OldLabel(labels[x]) { CleanAfterOne(s1, s2, labels, k, setting, x); }
    }
  }

  lemma {:induction false} CleanStays(s1: Shape<Node>, s2: Shape<Node>, labels: map<Node, Label>, gone: set<Node>,
                                      k: Node)
    requires Sound(s1) && Sound(s2) && labels.Keys >= s1.kids.Keys && labels.Keys >= s2.kids.Keys
    requires Pruned(s1, s2, gone) && CleanBelow(s1, labels, k)
    ensures CleanBelow(s2, labels, k)
  {
    forall x | x in s2.kids
      ensures !OldBelow(s2, labels, x, k)
    {
      if Under(s2, x, k) {
        PrunedUnder(s1, s2, gone, x, k);
        assert !OldBelow(s1, labels, x, k);
      }
    }
  }

  /** One more category has been dealt with. */
  lemma {:induction false} RemovingStep(s: Shape<Node>, s1: Shape<Node>, s2: Shape<Node>, labels: map<Node, Label>,
                                        gone: set<Node>, category: seq<Node>, i: nat, setting: seq<Node>)
    requires Removing(s, s1, labels, gone, category, i) && i < |category|
    requires category[i] in s.kids && IsTag(labels[category[i]], "category")
    requires HitsBelow(s1, labels, category[i], "setting", setting)
    requires Sound(s2) && Pruned(s1, s2, OldOnes(labels, setting))
    ensures Removing(s, s2, labels, gone + OldOnes(labels, setting), category, i + 1)
  {
    var more := OldOnes(labels, setting);
    PrunedMore(s, s1, s2, gone, more);
    forall x | x in more
      ensures x in s.kids && OldLabel(labels[x]) && InCategory(s, labels, x)
    {
      assert x in setting;
      PrunedUnder(s, s1, gone, x, category[i]);
      UnderCategory(s, labels, x, category[i]);
    }
    forall k | 0 <= k < i + 1
      ensures CleanBelow(s2, labels, category[k])
    {
      if k == i {
        CleanAfter(s1, s2, labels, category[i], setting);
      } else {
        CleanStays(s1, s2, labels, more, category[k]);
      }
    }
  }

  lemma {:induction false} RemovingFacts(s: Shape<Node>, s': Shape<Node>, labels: map<Node, Label>, gone: set<Node>,
                                         category: seq<Node>, i: nat)
    requires Removing(s, s', labels, gone, category, i)
    ensures Sound(s) && Sound(s') && labels.Keys == s.kids.Keys && Leafy(s, labels) && Pruned(s, s', gone)
    ensures s'.kids.Keys == s.kids.Keys && i <= |category|
  {
  }

  lemma {:induction false} CleanAt(s: Shape<Node>, s': Shape<Node>, labels: map<Node, Label>, gone: set<Node>,
                                   category: seq<Node>, k: Node, x: Node)
    requires Removing(s, s', labels, gone, category, |category|) && k in category && x in s'.kids
    requires Sound(s') && labels.Keys >= s'.kids.Keys
    ensures !(Under(s', x, k) && OldLabel(labels[x]))
  {
    hide Sound, Under, Pruned, OldLabel, Leafy, Doomed;
    var i :| 0 <= i < |category| && category[i] == k;
    assert CleanBelow(s', labels, category[i]);
    assert !OldBelow(s', labels, x, k);
  }

  lemma {:induction false} NothingLeft(s: Shape<Node>, s': Shape<Node>, labels: map<Node, Label>, gone: set<Node>,
                                       category: seq<Node>, root: Node, x: Node)
    requires Removing(s, s', labels, gone, category, |category|)
    requires root in s.kids && root !in s.parent && root in labels && labels[root] == DocumentNode
    requires Sound(s) && Sound(s') && labels.Keys >= s.kids.Keys && x in s.kids
    requires HitsBelow(s, labels, root, "category", category)
    ensures !(Under(s', x, root) && InCategory(s, labels, x) && OldLabel(labels[x]))
  {
    hide *;
    RemovingFacts(s, s', labels, gone, category, |category|);
    if Under(s', x, root) && InCategory(s, labels, x) && OldLabel(labels[x]) {
      IsTagOf(labels[root], "category");
      var k := CategoryAbove(s, s', labels, gone, root, x);
      PrunedUnder(s, s', gone, k, root);
      HitThere(s, labels, root, "category", category, k);
      CleanAt(s, s', labels, gone, category, k, x);
      assert false;
    }
  }

  lemma {:induction false} WellRemoved(s: Shape<Node>, s': Shape<Node>, labels: map<Node, Label>, gone: set<Node>,
                                       category: seq<Node>, root: Node)
    requires Removing(s, s', labels, gone, category, |category|)
    requires root in s.kids && root !in s.parent && root in labels && labels[root] == DocumentNode
    requires Sound(s) && labels.Keys >= s.kids.Keys && HitsBelow(s, labels, root, "category", category)
    ensures WellPruned(s, s', labels, gone, root)
  {
    hide Under, InCategory, OldLabel, Pruned, HitsBelow, CleanBelow;
    forall x | x in s.parent
      ensures x in s.kids && !Left(s, s', labels, root, x)
    {
      assert x in s.kids;
      NothingLeft(s, s', labels, gone, category, root, x);
    }
  }

  lemma {:induction false} TopLevel(s: Shape<Node>, labels: map<Node, Label>, root: Node)
    requires Sound(s) && labels.Keys >= s.kids.Keys && root in s.kids && root !in s.parent
    requires labels[root] == DocumentNode
    ensures Reached(s, s, labels, root, root, s.kids[root], false)
    ensures BelowRoot(s, s.kids[root], root)
  {
    KidsAreSiblings(s, root);
  }

  lemma {:induction false} ReachedPruned(s: Shape<Node>, s': Shape<Node>, labels: map<Node, Label>, root: Node)
    requires Sound(s) && Sound(s') && labels.Keys >= s.kids.Keys && root in s.kids
    requires Reached(s, s, labels, root, root, s.kids[root], false)
    ensures Reached(s, s', labels, root, root, s.kids[root], false)
  {
    hide Sound, InCategory;
  }

  lemma {:induction false} PrunedKidsOf(s: Shape<Node>, s': Shape<Node>, gone: set<Node>, n: Node)
    requires Pruned(s, s', gone) && n in s.kids
    ensures n in s'.kids && s'.kids[n] == Minus(s.kids[n], gone)
  {
    hide Minus;
  }

  /** With all categories dealt with, the document reads as `RemoveOld` says. */
  lemma {:induction false} RemovingDone(s: Shape<Node>, s': Shape<Node>, labels: map<Node, Label>, gone: set<Node>,
                                        category: seq<Node>, root: Node)
    requires Removing(s, s', labels, gone, category, |category|)
    requires root in s.kids && root !in s.parent && root in labels && labels[root] == DocumentNode
    requires root in s.depth && s.depth[root] == 0
    requires Sound(s) && labels.Keys >= s.kids.Keys && HitsBelow(s, labels, root, "category", category)
    ensures Sound(s') && root in s'.kids && Siblings(s, s.kids[root], 1) && Siblings(s', s'.kids[root], 1)
    ensures labels.Keys >= s'.kids.Keys
    ensures TreesOf(s', labels, s'.kids[root], 1) == RemoveOld(TreesOf(s, labels, s.kids[root], 1), false)
  {
    hide *;
    RemovingFacts(s, s', labels, gone, category, |category|);
    WellRemoved(s, s', labels, gone, category, root);
    TopLevel(s, labels, root);
    ReachedPruned(s, s', labels, root);
    PrunedKidsOf(s, s', gone, root);
    KidsAreSiblings(s, root);
    PruneIsRemove(s, s', labels, gone, root, root, s.kids[root], 1, false);
  }

  // ----- what the document's own description says -----

  lemma RootFacts(doc: Document)
    requires doc.Valid()
    ensures Sound(doc.TheShape()) && Leafy(doc.TheShape(), doc.Labels())
    ensures doc.Labels().Keys == doc.TheShape().kids.Keys == doc.nodes
    ensures doc.root in doc.nodes && doc.root in doc.TheShape().kids && doc.root !in doc.TheShape().parent
    ensures doc.root in doc.TheShape().depth && doc.TheShape().depth[doc.root] == 0
    ensures doc.root in doc.Labels() && doc.Labels()[doc.root] == DocumentNode
    ensures Siblings(doc.TheShape(), doc.TheShape().kids[doc.root], 1)
    ensures doc.Trees() == TreesOf(doc.TheShape(), doc.Labels(), doc.TheShape().kids[doc.root], 1)
  {
    hide Leafy;
    KidsAreSiblings(doc.TheShape(), doc.root);
  }

  lemma NodeFacts(doc: Document, n: Node)
    requires doc.Valid() && n in doc.TheShape().kids
    ensures n in doc.nodes && (n in doc.TheShape().parent <==> n.parentNode != null)
    ensures n in doc.Labels() && doc.Labels()[n] == n.Label()
    ensures doc.Labels()[n].ElementNode? ==> doc.Labels()[n].attrs == n.attributes
  {
    hide Leafy, Sound;
  }

  /** `remove_old_tuners`. */
  method RemoveOldTuners(doc: Document)
    requires doc.Valid()
    modifies doc.nodes
    ensures doc.Valid() && doc.nodes == old(doc.nodes) && doc.top == old(doc.top)
    ensures doc.Trees() == RemoveOld(old(doc.Trees()), false)
  {
    hide *;
    ghost var s, labels, gone := doc.TheShape(), doc.Labels(), {};
    RootFacts(doc);
    var category := doc.GetElementsByTagName(doc.root, "category");
    RemovingStart(s, labels, category);
    var i := 0;
    while i < |category|
      invariant 0 <= i <= |category|
      invariant doc.Valid() && doc.nodes == old(doc.nodes) && doc.top == old(doc.top) && doc.Labels() == labels
      invariant Removing(s, doc.TheShape(), labels, gone, category, i)
    {
      var nodeCat := category[i];
      ghost var s1 := doc.TheShape();
      RemovingFacts(s, s1, labels, gone, category, i);
      HitAt(s, labels, doc.root, "category", category, i);
      var setting := doc.GetElementsByTagName(nodeCat, "setting");
      NothingPruned(s1);
      NoneYet(labels, setting);
      var j := 0;
      while j < |setting|
        invariant 0 <= j <= |setting|
        invariant doc.Valid() && doc.nodes == old(doc.nodes) && doc.top == old(doc.top) && doc.Labels() == labels
        invariant Pruned(s1, doc.TheShape(), OldOnes(labels, setting[..j]))
      {
        var nodeSet := setting[j];
        ghost var s2 := doc.TheShape();
        StillListed(s1, s2, labels, nodeCat, setting, j);
        PrunedParent(s1, s2, OldOnes(labels, setting[..j]), nodeSet);
        NodeFacts(doc, nodeSet);
        IdIs(nodeSet.attributes);
        if "id" in nodeSet.attributes && Find(nodeSet.attributes["id"], TUNER_PREFIX) == 0 {
          doc.RemoveFromParent(nodeSet);
          PrunedMore(s1, s2, doc.TheShape(), OldOnes(labels, setting[..j]), {nodeSet});
        } else {
          assert OldOnes(labels, setting[..j]) + {} == OldOnes(labels, setting[..j]);
        }
        j := j + 1;
      }
      assert setting[..j] == setting;
      RootFacts(doc);
      RemovingStep(s, s1, doc.TheShape(), labels, gone, category, i, setting);
      gone := gone + OldOnes(labels, setting);
      i := i + 1;
    }
    RemovingDone(s, doc.TheShape(), labels, gone, category, doc.root);
    RootFacts(doc);
  }

  lemma IdIs(attrs: map<string, string>)
    ensures OldId(attrs) <==> "id" in attrs && Find(attrs["id"], TUNER_PREFIX) == 0
  {
  }

  lemma NoneYet(labels: map<Node, Label>, setting: seq<Node>)
    ensures OldOnes(labels, setting[..0]) == {}
  {
  }
}
