/** `add_hdhomerun`, `add_sundtek` and `add_new_tuners` on the document in memory
    (packages/addons/official/driver/hdhomerun/source/resources/lib/functions.py). */
module TunerAdditions {
  import opened Text
  import XmlTree
  import opened TunerTree
  import opened Shapes
  import opened Dom
  import opened TunerDom

  // ----- settings appended to one category -----

  /** The new nodes `gs` are childless, at depth `d`, and read as `news`. */
  ghost predicate Reads(s: Shape<Node>, s': Shape<Node>, labels': map<Node, Label>, gs: seq<Node>,
                        news: seq<XmlTree.Tree>, d: nat)
  {
    && |gs| == |news|
    && forall i :: 0 <= i < |gs| ==> ReadsAs(s, s', labels', gs[i], news[i], d)
  }

  ghost predicate ReadsAs(s: Shape<Node>, s': Shape<Node>, labels': map<Node, Label>, g: Node, t: XmlTree.Tree,
                          d: nat) {
    && g !in s.kids && g in s'.kids && s'.kids[g] == [] && g in s'.depth && s'.depth[g] == d && g in labels'
    && t.Element? && t.kids == [] && labels'[g] == ElementNode(t.tag, t.attrs)
  }

  lemma {:induction false} ReadsIsTrees(s: Shape<Node>, s': Shape<Node>, labels': map<Node, Label>, gs: seq<Node>,
                                        news: seq<XmlTree.Tree>, d: nat)
    requires Sound(s') && labels'.Keys >= s'.kids.Keys && Reads(s, s', labels', gs, news, d)
    ensures Siblings(s', gs, d) && TreesOf(s', labels', gs, d) == news
    decreases |gs|
  {
    hide Sound;
    assert forall i :: 0 <= i < |gs| ==> ReadsAs(s, s', labels', gs[i], news[i], d);
    if gs != [] {
      assert ReadsAs(s, s', labels', gs[0], news[0], d);
      ReadsIsTrees(s, s', labels', gs[1..], news[1..], d);
      TreeOne(s', labels', gs[0], d);
      NoTreesOf(s', labels', d + 1);
      TreesCons(s', labels', gs, d);
      assert news == [news[0]] + news[1..];
    }
  }

  /** The state while settings are appended to the category `c`. */
  ghost predicate Growing(s: Shape<Node>, s': Shape<Node>, labels: map<Node, Label>, labels': map<Node, Label>,
                          c: Node, gs: seq<Node>, news: seq<XmlTree.Tree>)
  {
    && c in s.kids && c in s.depth
    && Grown(s, s', map[c := gs]) && SameLabels(s, labels, labels') && labels'.Keys == s'.kids.Keys
    && Reads(s, s', labels', gs, news, s.depth[c] + 1)
  }

  lemma {:induction false} GrowingStart(s: Shape<Node>, labels: map<Node, Label>, c: Node)
    requires Sound(s) && labels.Keys == s.kids.Keys && c in s.kids
    ensures Growing(s, s, labels, labels, c, [], [])
  {
    assert forall n :: n in s.kids ==> s.kids[n] + [] == s.kids[n];
  }

  /** One more setting. */
  lemma {:induction false} GrowingStep(s: Shape<Node>, s1: Shape<Node>, s2: Shape<Node>, labels: map<Node, Label>,
                                       labels1: map<Node, Label>, labels2: map<Node, Label>, c: Node, gs: seq<Node>,
                                       news: seq<XmlTree.Tree>, g: Node, attrs: map<string, string>)
    requires Growing(s, s1, labels, labels1, c, gs, news) && Appended(s1, s2, c, g)
    requires labels2 == labels1[g := ElementNode("setting", attrs)]
    ensures Growing(s, s2, labels, labels2, c, gs + [g], news + [Setting(attrs)])
  {
    GrowingIs(s, s1, labels, labels1, c, gs, news);
    GrowingIs(s, s2, labels, labels2, c, gs + [g], news + [Setting(attrs)]);
    hide Reads, Grown, SameLabels, Setting, Growing;
    AppendedKeys(s1, s2, c, g);
    GrownByOne(s, s1, s2, c, gs, g);
    ReadsStep(s, s1, s2, labels1, labels2, c, gs, news, g, attrs);
    SameLabelsStep(s, s1, labels, labels1, labels2, c, gs, g);
  }

  lemma GrowingIs(s: Shape<Node>, s': Shape<Node>, labels: map<Node, Label>, labels': map<Node, Label>,
                  c: Node, gs: seq<Node>, news: seq<XmlTree.Tree>)
    ensures Growing(s, s', labels, labels', c, gs, news) <==>
              && c in s.kids && c in s.depth
              && Grown(s, s', map[c := gs]) && SameLabels(s, labels, labels') && labels'.Keys == s'.kids.Keys
              && Reads(s, s', labels', gs, news, s.depth[c] + 1)
  {
    hide Reads, Grown, SameLabels;
  }

  lemma AppendedKeys(s: Shape<Node>, s': Shape<Node>, n: Node, c: Node)
    requires Appended(s, s', n, c)
    ensures c !in s.kids && s'.kids.Keys == s.kids.Keys + {c}
  {
  }

  lemma {:induction false} SameLabelsStep(s: Shape<Node>, s1: Shape<Node>, labels: map<Node, Label>,
                                          labels1: map<Node, Label>, labels2: map<Node, Label>, c: Node,
                                          gs: seq<Node>, g: Node)
    requires Grown(s, s1, map[c := gs]) && SameLabels(s, labels, labels1) && g !in s1.kids
    requires labels2.Keys >= labels1.Keys && forall n :: n in labels1 && n != g ==> labels2[n] == labels1[n]
    ensures SameLabels(s, labels, labels2)
  {
  }

  lemma {:induction false} ReadsStep(s: Shape<Node>, s1: Shape<Node>, s2: Shape<Node>, labels1: map<Node, Label>,
                                     labels2: map<Node, Label>, c: Node, gs: seq<Node>, news: seq<XmlTree.Tree>,
                                     g: Node,
                                     attrs: map<string, string>)
    requires c in s.kids && c in s.depth && Grown(s, s1, map[c := gs]) && Appended(s1, s2, c, g)
    requires Reads(s, s1, labels1, gs, news, s.depth[c] + 1) && labels2 == labels1[g := ElementNode("setting", attrs)]
    ensures Reads(s, s2, labels2, gs + [g], news + [Setting(attrs)], s.depth[c] + 1)
  {
    var more, all := gs + [g], news + [Setting(attrs)];
    forall i | 0 <= i < |more|
      ensures ReadsAs(s, s2, labels2, more[i], all[i], s.depth[c] + 1)
    {
      if i < |gs| {
        assert ReadsAs(s, s1, labels1, gs[i], news[i], s.depth[c] + 1);
      }
    }
  }

  lemma {:induction false} GrownByOne(s: Shape<Node>, s1: Shape<Node>, s2: Shape<Node>, c: Node, gs: seq<Node>, g: Node)
    requires Grown(s, s1, map[c := gs]) && Appended(s1, s2, c, g) && c in s.kids
    ensures Grown(s, s2, map[c := gs + [g]])
  {
    OldKids(s, s1, s2, c, gs, g);
    OldLinks(s, s1, s2, c, gs, g);
    NewKids(s, s1, s2, c, gs, g);
    hide Appended;
  }

  lemma OldKids(s: Shape<Node>, s1: Shape<Node>, s2: Shape<Node>, c: Node, gs: seq<Node>, g: Node)
    requires Grown(s, s1, map[c := gs]) && Appended(s1, s2, c, g) && c in s.kids
    ensures s.kids.Keys <= s2.kids.Keys && s2.top == s.top
    ensures forall n :: n in s.kids ==> s2.kids[n] == s.kids[n] + (if n == c then gs + [g] else [])
  {
    forall n | n in s.kids
      ensures s2.kids[n] == s.kids[n] + (if n == c then gs + [g] else [])
    {
      if n == c {
        assert s1.kids[c] == s.kids[c] + gs;
      } else {
        assert s1.kids[n] == s.kids[n] + [];
      }
    }
  }

  lemma OldLinks(s: Shape<Node>, s1: Shape<Node>, s2: Shape<Node>, c: Node, gs: seq<Node>, g: Node)
    requires Grown(s, s1, map[c := gs]) && Appended(s1, s2, c, g) && c in s.kids
    ensures forall n :: n in s.kids ==> n in s.depth && n in s2.depth && s2.depth[n] == s.depth[n]
    ensures forall m :: m in s.kids ==>
              (m in s2.parent <==> m in s.parent) && (m in s.parent ==> s2.parent[m] == s.parent[m])
  {
    assert forall n :: n in s.kids ==> n in s1.kids && n != g;
  }

  lemma NewKids(s: Shape<Node>, s1: Shape<Node>, s2: Shape<Node>, c: Node, gs: seq<Node>, g: Node)
    requires Grown(s, s1, map[c := gs]) && Appended(s1, s2, c, g) && c in s.kids
    ensures forall x :: x in s2.kids && x !in s.kids ==>
              s2.kids[x] == [] && x in s2.parent && s2.parent[x] == c && x in gs + [g]
  {
    forall x | x in s2.kids && x !in s.kids
      ensures s2.kids[x] == [] && x in s2.parent && s2.parent[x] == c && x in gs + [g]
    {
      if x != g { assert x in s1.kids && s1.parent[x] == c && x in gs; }
    }
  }

  lemma {:induction false} GrowingFacts(s: Shape<Node>, s': Shape<Node>, labels: map<Node, Label>,
                                        labels': map<Node, Label>, c: Node, gs: seq<Node>, news: seq<XmlTree.Tree>)
    requires Growing(s, s', labels, labels', c, gs, news)
    ensures c in s.kids && c in s'.kids && c in s.depth && c in s'.depth && s'.depth[c] == s.depth[c]
    ensures c in labels && c in labels' && labels'[c] == labels[c] && s'.top == s.top
  {
  }

  lemma ElementFacts(doc: Document, n: Node)
    requires doc.Valid() && n in doc.TheShape().kids
    ensures n in doc.nodes && n in doc.TheShape().depth && doc.TheShape().depth[n] == n.depth
    ensures doc.TheShape().top == doc.top
    ensures n in doc.Labels() && (doc.Labels()[n].ElementNode? <==> n.kind.ElementKind?)
  {
    hide Leafy, Sound;
  }

  lemma SettingIs(n: Node)
    requires n.kind == ElementKind("setting")
    ensures n.Label() == ElementNode("setting", n.attributes)
  {
  }

  /** `news` has been appended to `nodeCat`, as the nodes `gs`, since the document looked like `s`. */
  ghost predicate Ready(doc: Document, nodeCat: Node, s: Shape<Node>, labels: map<Node, Label>, gs: seq<Node>,
                        news: seq<XmlTree.Tree>)
    reads doc, doc.nodes
  {
    && doc.Valid() && Growing(s, doc.TheShape(), labels, doc.Labels(), nodeCat, gs, news)
    && nodeCat in s.depth && s.depth[nodeCat] < s.top && nodeCat in labels && labels[nodeCat].ElementNode?
  }

  lemma ReadyStart(doc: Document, nodeCat: Node)
    requires doc.Valid() && nodeCat in doc.nodes && nodeCat.kind.ElementKind? && nodeCat.depth < doc.top
    ensures Ready(doc, nodeCat, doc.TheShape(), doc.Labels(), [], [])
  {
    RootFacts(doc);
    ElementFacts(doc, nodeCat);
    hide *;
    GrowingStart(doc.TheShape(), doc.Labels(), nodeCat);
    ReadyNow(doc, nodeCat, doc.TheShape(), doc.Labels(), [], []);
  }

  lemma ReadyNow(doc: Document, nodeCat: Node, s: Shape<Node>, labels: map<Node, Label>, gs: seq<Node>,
                 news: seq<XmlTree.Tree>)
    requires doc.Valid() && Growing(s, doc.TheShape(), labels, doc.Labels(), nodeCat, gs, news)
    requires nodeCat in s.depth && s.depth[nodeCat] < s.top && nodeCat in labels && labels[nodeCat].ElementNode?
    ensures Ready(doc, nodeCat, s, labels, gs, news)
  {
    hide Growing;
  }

  lemma ReadyMeans(doc: Document, nodeCat: Node, s: Shape<Node>, labels: map<Node, Label>, gs: seq<Node>,
                   news: seq<XmlTree.Tree>)
    requires Ready(doc, nodeCat, s, labels, gs, news)
    ensures doc.Valid() && Growing(s, doc.TheShape(), labels, doc.Labels(), nodeCat, gs, news)
    ensures nodeCat in s.depth && s.depth[nodeCat] < s.top && nodeCat in labels && labels[nodeCat].ElementNode?
  {
    hide Growing;
  }

  /** `appendChild` of a finished setting. */
  method AppendSetting(doc: Document, nodeCat: Node, node: Node, ghost s: Shape<Node>, ghost labels: map<Node, Label>,
                       ghost gs: seq<Node>, ghost news: seq<XmlTree.Tree>)
    requires Ready(doc, nodeCat, s, labels, gs, news)
    requires node.kind == ElementKind("setting") && node !in doc.nodes && node.childNodes == []
             && node.parentNode == null
    modifies nodeCat`childNodes, node`parentNode, node`depth, doc`nodes
    ensures doc.nodes == old(doc.nodes) + {node}
    ensures Ready(doc, nodeCat, s, labels, gs + [node], news + [Setting(node.attributes)])
  {
    hide *;
    ReadyMeans(doc, nodeCat, s, labels, gs, news);
    ghost var s1, labels1 := doc.TheShape(), doc.Labels();
    GrowingFacts(s, s1, labels, labels1, nodeCat, gs, news);
    ElementFacts(doc, nodeCat);
    SettingIs(node);
    doc.AppendChild(nodeCat, node);
    GrowingStep(s, s1, doc.TheShape(), labels, labels1, doc.Labels(), nodeCat, gs, news, node, node.attributes);
    ReadyNow(doc, nodeCat, s, labels, gs + [node], news + [Setting(node.attributes)]);
  }

  lemma HdhomerunSnoc(tuners: seq<string>, ix: nat)
    requires ix < |tuners|
    ensures Hdhomerun(tuners[..ix + 1]) == Hdhomerun(tuners[..ix]) + HdhomerunOne(tuners[ix])
  {
    hide HdhomerunOne;
    HdhomerunAppend(tuners[..ix], tuners[ix]);
    assert tuners[..ix + 1] == tuners[..ix] + [tuners[ix]];
  }

  lemma {:induction false} HdhomerunAppend(a: seq<string>, t: string)
    ensures Hdhomerun(a + [t]) == Hdhomerun(a) + HdhomerunOne(t)
  {
    hide HdhomerunOne;
    if a == [] {
      assert [t][1..] == [];
      assert HdhomerunOne(t) + [] == HdhomerunOne(t);
    } else {
      assert (a + [t])[1..] == a[1..] + [t];
      HdhomerunAppend(a[1..], t);
    }
  }

  lemma {:induction false} SundtekAppend(a: seq<Device>, t: Device)
    ensures Sundtek(a + [t]) == Sundtek(a) + SundtekOne(t)
  {
    hide SundtekOne;
    if a == [] {
      assert [t][1..] == [];
      assert SundtekOne(t) + [] == SundtekOne(t);
    } else {
      assert (a + [t])[1..] == a[1..] + [t];
      SundtekAppend(a[1..], t);
    }
  }

  lemma SundtekSnoc(devices: seq<Device>, ix: nat)
    requires ix < |devices|
    ensures Sundtek(devices[..ix + 1]) == Sundtek(devices[..ix]) + SundtekOne(devices[ix])
  {
    hide SundtekOne;
    SundtekAppend(devices[..ix], devices[ix]);
    assert devices[..ix + 1] == devices[..ix] + [devices[ix]];
  }

  lemma FourOf(tuner: string, news: seq<XmlTree.Tree>)
    ensures news + [Setting(DvbMode(tuner))] + [Setting(UseFullName(tuner))] + [Setting(Numbers(tuner))]
            + [Setting(Disable(tuner))]
            == news + HdhomerunOne(tuner)
  {
    hide Setting, DvbMode, UseFullName, Numbers, Disable;
  }

  lemma ThreeOf(d: Device, news: seq<XmlTree.Tree>)
    ensures news + [Setting(DeviceMode(d))] + [Setting(Protocol(d))] + [Setting(Keymap(d))] == news + SundtekOne(d)
  {
    hide Setting, DeviceMode, Protocol, Keymap;
  }

  method DvbModeNode(tuner: string) returns (node: Node)
    ensures fresh(node) && node.kind == ElementKind("setting") && node.childNodes == [] && node.parentNode == null
    ensures node.attributes == DvbMode(tuner)
  {
    node := new Node(ElementKind("setting"));
    node.SetAttribute("id", TUNER_PREFIX + tuner + "_DVBMODE");
    node.SetAttribute("label", "tuner serial " + tuner);
    node.SetAttribute("type", "labelenum");
    node.SetAttribute("default", "auto");
    node.SetAttribute("values", "auto|ATSC|DVB-C|DVB-T");
  }

  method FullNameNode(tuner: string) returns (node: Node)
    ensures fresh(node) && node.kind == ElementKind("setting") && node.childNodes == [] && node.parentNode == null
    ensures node.attributes == UseFullName(tuner)
  {
    node := new Node(ElementKind("setting"));
    node.SetAttribute("id", TUNER_PREFIX + tuner + "_FULLNAME");
    node.SetAttribute("label", "9020");
    node.SetAttribute("type", "bool");
    node.SetAttribute("default", "false");
  }

  method NumbersNode(tuner: string) returns (node: Node)
    ensures fresh(node) && node.kind == ElementKind("setting") && node.childNodes == [] && node.parentNode == null
    ensures node.attributes == Numbers(tuner)
  {
    node := new Node(ElementKind("setting"));
    node.SetAttribute("id", TUNER_PREFIX + tuner + "_NUMBERS");
    node.SetAttribute("label", "9025");
    node.SetAttribute("type", "labelenum");
    node.SetAttribute("default", "2");
    node.SetAttribute("values", "1|2|3|4|5|6|7|8");
  }

  method DisableNode(tuner: string) returns (node: Node)
    ensures fresh(node) && node.kind == ElementKind("setting") && node.childNodes == [] && node.parentNode == null
    ensures node.attributes == Disable(tuner)
  {
    node := new Node(ElementKind("setting"));
    node.SetAttribute("id", TUNER_PREFIX + tuner + "_DISABLE");
    node.SetAttribute("label", "9030");
    node.SetAttribute("type", "bool");
    node.SetAttribute("default", "false");
  }

  /** The settings of one tuner: the body of the loop of `add_hdhomerun`. */
  method AddHdhomerunTuner(doc: Document, nodeCat: Node, tuner: string, ghost s: Shape<Node>,
                           ghost labels: map<Node, Label>,
                   ghost gs: seq<Node>, ghost news: seq<XmlTree.Tree>)
    returns (ghost all: seq<Node>)
    requires Ready(doc, nodeCat, s, labels, gs, news)
    modifies nodeCat`childNodes, doc`nodes
    ensures old(doc.nodes) <= doc.nodes && fresh(doc.nodes - old(doc.nodes))
    ensures Ready(doc, nodeCat, s, labels, all, news + HdhomerunOne(tuner))
  {
    hide *;
    all := gs;
    ghost var sofar := news;

    var node1 := DvbModeNode(tuner);
    AppendSetting(doc, nodeCat, node1, s, labels, all, sofar);
    all, sofar := all + [node1], sofar + [Setting(node1.attributes)];

    var node2 := FullNameNode(tuner);
    AppendSetting(doc, nodeCat, node2, s, labels, all, sofar);
    all, sofar := all + [node2], sofar + [Setting(node2.attributes)];

    var node3 := NumbersNode(tuner);
    AppendSetting(doc, nodeCat, node3, s, labels, all, sofar);
    all, sofar := all + [node3], sofar + [Setting(node3.attributes)];

    var node4 := DisableNode(tuner);
    AppendSetting(doc, nodeCat, node4, s, labels, all, sofar);
    all, sofar := all + [node4], sofar + [Setting(node4.attributes)];

    FourOf(tuner, news);
  }

  /** `add_hdhomerun`. */
  method AddHdhomerun(doc: Document, nodeCat: Node, tuners: seq<string>, ghost s: Shape<Node>,
                      ghost labels: map<Node, Label>)
    returns (ghost gs: seq<Node>)
    requires doc.Valid() && s == doc.TheShape() && labels == doc.Labels() && nodeCat in doc.nodes
    requires nodeCat.kind.ElementKind? && nodeCat.depth < doc.top
    modifies nodeCat`childNodes, doc`nodes
    ensures doc.Valid() && old(doc.nodes) <= doc.nodes && fresh(doc.nodes - old(doc.nodes))
    ensures Growing(s, doc.TheShape(), labels, doc.Labels(), nodeCat, gs, Hdhomerun(tuners))
  {
    hide *;
    ReadyStart(doc, nodeCat);
    gs := [];
    HdhomerunNone(tuners);
    var ix := 0;
    while ix < |tuners|
      invariant 0 <= ix <= |tuners|
      invariant old(doc.nodes) <= doc.nodes && fresh(doc.nodes - old(doc.nodes))
      invariant Ready(doc, nodeCat, s, labels, gs, Hdhomerun(tuners[..ix]))
    {
      gs := AddHdhomerunTuner(doc, nodeCat, tuners[ix], s, labels, gs, Hdhomerun(tuners[..ix]));
      HdhomerunSnoc(tuners, ix);
      ix := ix + 1;
    }
    assert tuners[..ix] == tuners;
    ReadyMeans(doc, nodeCat, s, labels, gs, Hdhomerun(tuners));
  }

  lemma HdhomerunNone(tuners: seq<string>)
    ensures Hdhomerun(tuners[..0]) == []
  {
  }

  lemma SundtekNone(devices: seq<Device>)
    ensures Sundtek(devices[..0]) == []
  {
  }

  method DeviceModeNode(tuner: Device) returns (node: Node)
    ensures fresh(node) && node.kind == ElementKind("setting") && node.childNodes == [] && node.parentNode == null
    ensures node.attributes == DeviceMode(tuner)
  {
    node := new Node(ElementKind("setting"));
    node.SetAttribute("id", TUNER_PREFIX + tuner.serial + "_DVBMODE");
    node.SetAttribute("label", tuner.name + ", " + tuner.serial);
    node.SetAttribute("type", "labelenum");
    if !tuner.cable {
      node.SetAttribute("default", "DVB-S");
      node.SetAttribute("values", "DVB-S");
    } else {
      node.SetAttribute("default", "DVB-C");
      node.SetAttribute("values", "DVB-C|DVB-T");
    }
  }

  method ProtocolNode(tuner: Device) returns (node: Node)
    ensures fresh(node) && node.kind == ElementKind("setting") && node.childNodes == [] && node.parentNode == null
    ensures node.attributes == Protocol(tuner)
  {
    node := new Node(ElementKind("setting"));
    node.SetAttribute("id", TUNER_PREFIX + tuner.serial + "_IRPROT");
    node.SetAttribute("label", "9020");
    node.SetAttribute("type", "labelenum");
    node.SetAttribute("default", "auto");
    node.SetAttribute("values", "auto|RC5|NEC|RC6");
  }

  method KeymapNode(tuner: Device) returns (node: Node)
    ensures fresh(node) && node.kind == ElementKind("setting") && node.childNodes == [] && node.parentNode == null
    ensures node.attributes == Keymap(tuner)
  {
    node := new Node(ElementKind("setting"));
    node.SetAttribute("id", TUNER_PREFIX + tuner.serial + "_KEYMAP");
    node.SetAttribute("label", "9030");
    node.SetAttribute("type", "file");
    node.SetAttribute("mask", "*.map");
    node.SetAttribute("default", SUNDTEK_USERSPACE);
  }

  /** The settings of one tuner: the body of the loop of `add_sundtek`. */
  method AddSundtekTuner(doc: Document, nodeCat: Node, tuner: Device, ghost s: Shape<Node>,
                         ghost labels: map<Node, Label>,
                   ghost gs: seq<Node>, ghost news: seq<XmlTree.Tree>)
    returns (ghost all: seq<Node>)
    requires Ready(doc, nodeCat, s, labels, gs, news)
    modifies nodeCat`childNodes, doc`nodes
    ensures old(doc.nodes) <= doc.nodes && fresh(doc.nodes - old(doc.nodes))
    ensures Ready(doc, nodeCat, s, labels, all, news + SundtekOne(tuner))
  {
    hide *;
    all := gs;
    ghost var sofar := news;

    var node1 := DeviceModeNode(tuner);
    AppendSetting(doc, nodeCat, node1, s, labels, all, sofar);
    all, sofar := all + [node1], sofar + [Setting(node1.attributes)];

    var node2 := ProtocolNode(tuner);
    AppendSetting(doc, nodeCat, node2, s, labels, all, sofar);
    all, sofar := all + [node2], sofar + [Setting(node2.attributes)];

    var node3 := KeymapNode(tuner);
    AppendSetting(doc, nodeCat, node3, s, labels, all, sofar);
    all, sofar := all + [node3], sofar + [Setting(node3.attributes)];

    ThreeOf(tuner, news);
  }

  /** `add_sundtek`. */
  method AddSundtek(doc: Document, nodeCat: Node, tuners: seq<Device>, ghost s: Shape<Node>,
                    ghost labels: map<Node, Label>)
    returns (ghost gs: seq<Node>)
    requires doc.Valid() && s == doc.TheShape() && labels == doc.Labels() && nodeCat in doc.nodes
    requires nodeCat.kind.ElementKind? && nodeCat.depth < doc.top
    modifies nodeCat`childNodes, doc`nodes
    ensures doc.Valid() && old(doc.nodes) <= doc.nodes && fresh(doc.nodes - old(doc.nodes))
    ensures Growing(s, doc.TheShape(), labels, doc.Labels(), nodeCat, gs, Sundtek(tuners))
  {
    hide *;
    ReadyStart(doc, nodeCat);
    gs := [];
    SundtekNone(tuners);
    var ix := 0;
    while ix < |tuners|
      invariant 0 <= ix <= |tuners|
      invariant old(doc.nodes) <= doc.nodes && fresh(doc.nodes - old(doc.nodes))
      invariant Ready(doc, nodeCat, s, labels, gs, Sundtek(tuners[..ix]))
    {
      gs := AddSundtekTuner(doc, nodeCat, tuners[ix], s, labels, gs, Sundtek(tuners[..ix]));
      SundtekSnoc(tuners, ix);
      ix := ix + 1;
    }
    assert tuners[..ix] == tuners;
    ReadyMeans(doc, nodeCat, s, labels, gs, Sundtek(tuners));
  }

  // ----- one category -----

  lemma {:induction false} MarkedThere(s: Shape<Node>, labels: map<Node, Label>, c: Node, setting: seq<Node>, j: nat)
    requires Sound(s) && labels.Keys >= s.kids.Keys && HitsBelow(s, labels, c, "setting", setting) && j < |setting|
    requires setting[j] in labels && MarkerLabel(labels[setting[j]])
    ensures Marked(s, labels, c) && c in s.kids && c in s.depth && s.depth[c] < s.top
  {
    hide HitsBelow, Under, IsTag, MarkerLabel;
    HitAt(s, labels, c, "setting", setting, j);
    UnderDeeper(s, setting[j], c);
    assert MarkerBelow(s, labels, setting[j], c);
  }

  lemma MarkerIsSetting(l: Label)
    requires MarkerLabel(l)
    ensures IsTag(l, "setting")
  {
  }

  lemma MarkerSetting(l: Label)
    requires IsTag(l, "setting")
    ensures l.ElementNode?
    ensures MarkerLabel(l) <==> "label" in l.attrs && Find(l.attrs["label"], MARKER_LABEL) >= 0
  {
  }

  lemma {:induction false} UnmarkedThere(s: Shape<Node>, labels: map<Node, Label>, c: Node, setting: seq<Node>)
    requires Sound(s) && labels.Keys >= s.kids.Keys && HitsBelow(s, labels, c, "setting", setting)
    requires forall j :: 0 <= j < |setting| ==> setting[j] in labels && !MarkerLabel(labels[setting[j]])
    ensures !Marked(s, labels, c)
  {
    hide Sound, IsTag, Under, MarkerLabel;
    if Marked(s, labels, c) {
      var x := MarkedWitness(s, labels, c);
      MarkerIsSetting(labels[x]);
      HitThere(s, labels, c, "setting", setting, x);
    }
  }

  lemma GeneratedIs(tuners: Tuners)
    ensures tuners.HdhomerunTuners? ==> Generated(tuners) == Hdhomerun(tuners.names)
    ensures tuners.SundtekTuners? ==> Generated(tuners) == Sundtek(tuners.devices)
  {
  }

  /** The inner loop of `add_new_tuners`: the first marker ends the search. */
  method AddToCategory(doc: Document, nodeCat: Node, tuners: Tuners, ghost s: Shape<Node>,
                       ghost labels: map<Node, Label>)
    returns (ghost marked: bool, ghost gs: seq<Node>)
    requires doc.Valid() && s == doc.TheShape() && labels == doc.Labels() && Sound(s) && labels.Keys == s.kids.Keys
    requires nodeCat in s.kids && IsTag(labels[nodeCat], "category")
    modifies nodeCat`childNodes, doc`nodes
    ensures doc.Valid() && old(doc.nodes) <= doc.nodes && fresh(doc.nodes - old(doc.nodes))
    ensures marked <==> Marked(s, labels, nodeCat)
    ensures marked ==> Growing(s, doc.TheShape(), labels, doc.Labels(), nodeCat, gs, Generated(tuners))
    ensures !marked ==> doc.TheShape() == s && doc.Labels() == labels
  {
    hide *;
    marked, gs := false, [];
    RootFacts(doc);
    ElementFacts(doc, nodeCat);
    IsTagOf(labels[nodeCat], "category");
    GeneratedIs(tuners);
    var setting := doc.GetElementsByTagName(nodeCat, "setting");
    var j := 0;
    while j < |setting|
      invariant 0 <= j <= |setting| && !marked
      invariant doc.Valid() && doc.nodes == old(doc.nodes) && doc.TheShape() == s && doc.Labels() == labels
      invariant forall k :: 0 <= k < j ==> setting[k] in labels && !MarkerLabel(labels[setting[k]])
    {
      var nodeSet := setting[j];
      HitAt(s, labels, nodeCat, "setting", setting, j);
      NodeFacts(doc, nodeSet);
      MarkerSetting(labels[nodeSet]);
      if "label" in nodeSet.attributes && Find(nodeSet.attributes["label"], MARKER_LABEL) >= 0 {
        MarkedThere(s, labels, nodeCat, setting, j);
        match tuners {
          case HdhomerunTuners(names) => gs := AddHdhomerun(doc, nodeCat, names, s, labels);
          case SundtekTuners(devices) => gs := AddSundtek(doc, nodeCat, devices, s, labels);
        }
        marked := true;
        return;
      }
      j := j + 1;
    }
    UnmarkedThere(s, labels, nodeCat, setting);
  }

  // ----- all categories -----

  /** The state of the addition: the first `i` categories have been dealt with. */
  ghost predicate Adding(s: Shape<Node>, s': Shape<Node>, added: map<Node, seq<Node>>, labels: map<Node, Label>,
                         labels': map<Node, Label>, category: seq<Node>, i: nat, news: seq<XmlTree.Tree>)
  {
    && Sound(s) && Sound(s') && Grown(s, s', added) && SameLabels(s, labels, labels')
    && labels.Keys == s.kids.Keys && labels'.Keys == s'.kids.Keys && Leafy(s, labels)
    && i <= |category|
    && (forall q {:trigger q in added} :: q in added ==> AddedTo(s, s', added, labels, labels', category, i, news, q))
    && (forall k {:trigger category[k]} :: 0 <= k < i && category[k] in s.kids && Marked(s, labels, category[k])
          ==> category[k] in added)
  }

  ghost predicate AddedTo(s: Shape<Node>, s': Shape<Node>, added: map<Node, seq<Node>>, labels: map<Node, Label>,
                          labels': map<Node, Label>, category: seq<Node>, i: nat, news: seq<XmlTree.Tree>, q: Node)
    requires Sound(s) && labels.Keys >= s.kids.Keys && i <= |category|
  {
    && q in added && q in category[..i] && q in s.kids && q in s.depth && IsTag(labels[q], "category")
    && Marked(s, labels, q)
    && Reads(s, s', labels', added[q], news, s.depth[q] + 1)
  }

  lemma {:induction false} AddingStart(s: Shape<Node>, labels: map<Node, Label>, category: seq<Node>,
                                       news: seq<XmlTree.Tree>)
    requires Sound(s) && labels.Keys == s.kids.Keys && Leafy(s, labels)
    ensures Adding(s, s, map[], labels, labels, category, 0, news)
  {
    assert forall n :: n in s.kids ==> s.kids[n] + [] == s.kids[n];
  }

  lemma {:induction false} AddingFacts(s: Shape<Node>, s': Shape<Node>, added: map<Node, seq<Node>>,
                                       labels: map<Node, Label>,
                                       labels': map<Node, Label>, category: seq<Node>, i: nat, news: seq<XmlTree.Tree>)
    requires Adding(s, s', added, labels, labels', category, i, news)
    ensures Sound(s) && Sound(s') && Grown(s, s', added) && SameLabels(s, labels, labels')
    ensures labels.Keys == s.kids.Keys && labels'.Keys == s'.kids.Keys && Leafy(s, labels) && i <= |category|
    ensures forall n :: n in s.kids ==> n in s'.kids && labels'[n] == labels[n]
  {
    hide Sound, Leafy, Marked, AddedTo;
  }

  lemma {:induction false} NotYet(s: Shape<Node>, s': Shape<Node>, added: map<Node, seq<Node>>,
                                  labels: map<Node, Label>,
                                  labels': map<Node, Label>, category: seq<Node>, i: nat, news: seq<XmlTree.Tree>)
    requires Adding(s, s', added, labels, labels', category, i, news) && i < |category|
    requires category[i] !in category[..i]
    ensures category[i] !in added
  {
    hide Sound, Leafy, Marked, Grown, Reads, IsTag, SameLabels;
    assert forall q {:trigger q in added} :: q in added ==>
           AddedTo(s, s', added, labels, labels', category, i, news, q);
  }

  /** The next category has not been dealt with before, and it is marked exactly if it was at the start. */
  lemma {:induction false} NextMarked(s: Shape<Node>, s': Shape<Node>, added: map<Node, seq<Node>>,
                                      labels: map<Node, Label>,
                                      labels': map<Node, Label>, category: seq<Node>, i: nat, news: seq<XmlTree.Tree>)
    requires Adding(s, s', added, labels, labels', category, i, news) && i < |category|
    requires category[i] in s.kids && category[i] !in category[..i]
    requires Sound(s) && Sound(s') && labels.Keys >= s.kids.Keys && labels'.Keys >= s'.kids.Keys
    ensures category[i] !in added
    ensures Marked(s', labels', category[i]) <==> Marked(s, labels, category[i])
  {
    hide Sound, Leafy, Marked, Grown, Reads, IsTag, SameLabels;
    NotYet(s, s', added, labels, labels', category, i, news);
    forall q | q in added
      ensures q in s.kids && Marked(s, labels, q)
    {
      assert AddedTo(s, s', added, labels, labels', category, i, news, q);
    }
    AddingFacts(s, s', added, labels, labels', category, i, news);
    GrownMarked(s, s', added, labels, labels', category[i]);
  }

  lemma {:induction false} AddedToLater(s: Shape<Node>, s': Shape<Node>, added: map<Node, seq<Node>>,
                                        labels: map<Node, Label>,
                                        labels': map<Node, Label>, category: seq<Node>, i: nat,
                                        news: seq<XmlTree.Tree>, q: Node)
    requires Sound(s) && labels.Keys >= s.kids.Keys && i < |category|
    requires AddedTo(s, s', added, labels, labels', category, i, news, q)
    ensures AddedTo(s, s', added, labels, labels', category, i + 1, news, q)
  {
    hide Sound, Marked, Reads, IsTag;
    assert category[..i + 1] == category[..i] + [category[i]];
  }

  /** A category without a marker. */
  lemma {:induction false} AddingSkip(s: Shape<Node>, s': Shape<Node>, added: map<Node, seq<Node>>,
                                      labels: map<Node, Label>,
                                      labels': map<Node, Label>, category: seq<Node>, i: nat, news: seq<XmlTree.Tree>)
    requires Adding(s, s', added, labels, labels', category, i, news) && i < |category|
    requires Sound(s) && labels.Keys >= s.kids.Keys && category[i] in s.kids && !Marked(s, labels, category[i])
    ensures Adding(s, s', added, labels, labels', category, i + 1, news)
  {
    hide Sound, Leafy, Marked, Grown, SameLabels, AddedTo;
    forall q | q in added
      ensures AddedTo(s, s', added, labels, labels', category, i + 1, news, q)
    {
      AddedToLater(s, s', added, labels, labels', category, i, news, q);
    }
  }

  lemma {:induction false} GrownMoreKids(s: Shape<Node>, s1: Shape<Node>, s2: Shape<Node>, added: map<Node, seq<Node>>,
                                         c: Node, gs: seq<Node>, n: Node)
    requires Grown(s, s1, added) && Grown(s1, s2, map[c := gs]) && c in s.kids && c !in added && n in s.kids
    ensures n in s1.kids && n in s2.kids
    ensures s2.kids[n] == s.kids[n] + (if n == c then gs else if n in added then added[n] else [])
  {
    if n == c {
      assert s1.kids[n] == s.kids[n] + [] == s.kids[n];
    } else {
      assert s2.kids[n] == s1.kids[n] + [] == s1.kids[n];
    }
  }

  lemma {:induction false} GrownMoreNew(s: Shape<Node>, s1: Shape<Node>, s2: Shape<Node>, added: map<Node, seq<Node>>,
                                        c: Node, gs: seq<Node>, x: Node)
    requires Grown(s, s1, added) && Grown(s1, s2, map[c := gs]) && c in s.kids && c !in added
    requires x in s2.kids && x !in s.kids
    ensures s2.kids[x] == [] && x in s2.parent
    ensures (s2.parent[x] == c && x in gs) || (s2.parent[x] != c && s2.parent[x] in added && x in added[s2.parent[x]])
  {
    if x in s1.kids { assert s2.kids[x] == s1.kids[x] + [] == []; }
  }

  lemma {:induction false} GrownMoreOld(s: Shape<Node>, s1: Shape<Node>, s2: Shape<Node>, added: map<Node, seq<Node>>,
                                        c: Node, gs: seq<Node>)
    requires Grown(s, s1, added) && Grown(s1, s2, map[c := gs])
    ensures s.kids.Keys <= s2.kids.Keys && s2.top == s.top && added.Keys <= s.kids.Keys
    ensures forall n :: n in s.kids ==> n in s.depth && n in s2.depth && s2.depth[n] == s.depth[n]
    ensures forall c :: c in s.kids ==>
            (c in s2.parent <==> c in s.parent) && (c in s.parent ==> s2.parent[c] == s.parent[c])
  {
  }

  lemma {:induction false} GrownMore(s: Shape<Node>, s1: Shape<Node>, s2: Shape<Node>, added: map<Node, seq<Node>>,
                                     c: Node, gs: seq<Node>)
    requires Grown(s, s1, added) && Grown(s1, s2, map[c := gs]) && c in s.kids && c !in added
    ensures Grown(s, s2, added[c := gs])
  {
    hide *;
    GrownMoreOld(s, s1, s2, added, c, gs);
    forall n | n in s.kids
      ensures n in s2.kids && s2.kids[n] == s.kids[n] + (if n == c then gs else if n in added then added[n] else [])
    {
      GrownMoreKids(s, s1, s2, added, c, gs, n);
    }
    forall x | x in s2.kids && x !in s.kids
      ensures s2.kids[x] == [] && x in s2.parent
      ensures (s2.parent[x] == c && x in gs) || (s2.parent[x] != c && s2.parent[x] in added && x in added[s2.parent[x]])
    {
      GrownMoreNew(s, s1, s2, added, c, gs, x);
    }
    GrownTogether(s, s2, added, c, gs);
  }

  lemma {:induction false} GrownTogether(s: Shape<Node>, s2: Shape<Node>, added: map<Node, seq<Node>>, c: Node,
                                         gs: seq<Node>)
    requires s.kids.Keys <= s2.kids.Keys && s2.top == s.top && added.Keys <= s.kids.Keys && c in s.kids
    requires forall n :: n in s.kids ==> n in s.depth && n in s2.depth && s2.depth[n] == s.depth[n]
    requires forall c :: c in s.kids ==>
             (c in s2.parent <==> c in s.parent) && (c in s.parent ==> s2.parent[c] == s.parent[c])
    requires forall n :: n in s.kids ==>
             s2.kids[n] == s.kids[n] + (if n == c then gs else if n in added then added[n] else [])
    requires forall x :: x in s2.kids && x !in s.kids ==>
               && s2.kids[x] == [] && x in s2.parent
               && ((s2.parent[x] == c && x in gs)
                   || (s2.parent[x] != c && s2.parent[x] in added && x in added[s2.parent[x]]))
    ensures Grown(s, s2, added[c := gs])
  {
  }

  lemma {:induction false} ReadsLater(s: Shape<Node>, s1: Shape<Node>, s2: Shape<Node>, labels1: map<Node, Label>,
                                      labels2: map<Node, Label>, c: Node, gs: seq<Node>, old_: seq<Node>,
                                      news: seq<XmlTree.Tree>, d: nat)
    requires Reads(s, s1, labels1, old_, news, d) && Grown(s1, s2, map[c := gs]) && SameLabels(s1, labels1, labels2)
    requires c in s.kids
    ensures Reads(s, s2, labels2, old_, news, d)
  {
    forall i | 0 <= i < |old_|
      ensures ReadsAs(s, s2, labels2, old_[i], news[i], d)
    {
      assert ReadsAs(s, s1, labels1, old_[i], news[i], d);
      assert s1.kids[old_[i]] + [] == [];
    }
  }

  lemma {:induction false} ReadsFrom(s: Shape<Node>, s1: Shape<Node>, s2: Shape<Node>, added: map<Node, seq<Node>>,
                                     labels2: map<Node, Label>, gs: seq<Node>, news: seq<XmlTree.Tree>, d: nat)
    requires Grown(s, s1, added) && Reads(s1, s2, labels2, gs, news, d)
    ensures Reads(s, s2, labels2, gs, news, d)
  {
    forall i | 0 <= i < |gs|
      ensures ReadsAs(s, s2, labels2, gs[i], news[i], d)
    {
      assert ReadsAs(s1, s2, labels2, gs[i], news[i], d);
    }
  }

  lemma {:induction false} LabelsLater(s: Shape<Node>, s1: Shape<Node>, added: map<Node, seq<Node>>,
                                       labels: map<Node, Label>,
                                       labels1: map<Node, Label>, labels2: map<Node, Label>)
    requires Grown(s, s1, added) && SameLabels(s, labels, labels1) && SameLabels(s1, labels1, labels2)
    ensures SameLabels(s, labels, labels2)
  {
  }

  /** A category with a marker. */
  lemma {:induction false} AddingStep(s: Shape<Node>, s1: Shape<Node>, s2: Shape<Node>, added: map<Node, seq<Node>>,
                                      labels: map<Node, Label>, labels1: map<Node, Label>, labels2: map<Node, Label>,
                                      category: seq<Node>, i: nat, news: seq<XmlTree.Tree>, gs: seq<Node>)
    requires Adding(s, s1, added, labels, labels1, category, i, news) && i < |category|
    requires Sound(s) && labels.Keys >= s.kids.Keys && category[i] in s.kids && category[i] !in added
    requires IsTag(labels[category[i]], "category") && Marked(s, labels, category[i])
    requires Growing(s1, s2, labels1, labels2, category[i], gs, news) && Sound(s2)
    ensures Adding(s, s2, added[category[i] := gs], labels, labels2, category, i + 1, news)
  {
    hide *;
    var c, more := category[i], added[category[i] := gs];
    AddingFacts(s, s1, added, labels, labels1, category, i, news);
    GrowingParts(s1, s2, labels1, labels2, c, gs, news);
    GrownMore(s, s1, s2, added, c, gs);
    LabelsLater(s, s1, added, labels, labels1, labels2);
    forall q | q in more
      ensures AddedTo(s, s2, more, labels, labels2, category, i + 1, news, q)
    {
      if q == c {
        SameDepth(s, s1, added, c);
        ReadsFrom(s, s1, s2, added, labels2, gs, news, s1.depth[c] + 1);
        AddedNow(s, s2, more, labels, labels2, category, i, news);
      } else {
        AddedBefore(s, s1, added, labels, labels1, category, i, news, q);
        ReadsLater(s, s1, s2, labels1, labels2, c, gs, added[q], news, s.depth[q] + 1);
        AddedOld(s, s1, s2, added, more, labels, labels1, labels2, category, i, news, q);
      }
    }
    AddingNow(s, s1, s2, added, labels, labels1, labels2, category, i, news, more);
  }

  lemma {:induction false} SameDepth(s: Shape<Node>, s1: Shape<Node>, added: map<Node, seq<Node>>, c: Node)
    requires Grown(s, s1, added) && c in s.kids
    ensures c in s.depth && c in s1.depth && s1.depth[c] == s.depth[c]
  {
  }

  lemma {:induction false} GrowingParts(s: Shape<Node>, s': Shape<Node>, labels: map<Node, Label>,
                                        labels': map<Node, Label>,
                                        c: Node, gs: seq<Node>, news: seq<XmlTree.Tree>)
    requires Growing(s, s', labels, labels', c, gs, news)
    ensures c in s.depth && Grown(s, s', map[c := gs]) && SameLabels(s, labels, labels') && labels'.Keys == s'.kids.Keys
    ensures Reads(s, s', labels', gs, news, s.depth[c] + 1)
  {
    hide Grown, Reads, SameLabels;
  }

  lemma {:induction false} AddedNow(s: Shape<Node>, s': Shape<Node>, added: map<Node, seq<Node>>,
                                    labels: map<Node, Label>,
                                    labels': map<Node, Label>, category: seq<Node>, i: nat, news: seq<XmlTree.Tree>)
    requires Sound(s) && labels.Keys >= s.kids.Keys && i < |category|
    requires category[i] in s.kids && category[i] in added && category[i] in s.depth
    requires IsTag(labels[category[i]], "category") && Marked(s, labels, category[i])
    requires Reads(s, s', labels', added[category[i]], news, s.depth[category[i]] + 1)
    ensures AddedTo(s, s', added, labels, labels', category, i + 1, news, category[i])
  {
    hide Sound, Marked, Reads, IsTag;
    assert category[..i + 1][i] == category[i];
  }

  lemma {:induction false} AddedBefore(s: Shape<Node>, s1: Shape<Node>, added: map<Node, seq<Node>>,
                                       labels: map<Node, Label>,
                                       labels1: map<Node, Label>, category: seq<Node>, i: nat,
                                       news: seq<XmlTree.Tree>, q: Node)
    requires Adding(s, s1, added, labels, labels1, category, i, news) && q in added
    ensures Sound(s) && labels.Keys >= s.kids.Keys && i <= |category|
    ensures AddedTo(s, s1, added, labels, labels1, category, i, news, q) && q in s.depth
    ensures Reads(s, s1, labels1, added[q], news, s.depth[q] + 1)
  {
    hide Sound, Marked, Reads, IsTag, Grown, SameLabels, Leafy;
    assert AddedTo(s, s1, added, labels, labels1, category, i, news, q);
  }

  lemma {:induction false} AddedOld(s: Shape<Node>, s1: Shape<Node>, s2: Shape<Node>, added: map<Node, seq<Node>>,
                                    more: map<Node, seq<Node>>, labels: map<Node, Label>, labels1: map<Node, Label>,
                                    labels2: map<Node, Label>, category: seq<Node>, i: nat, news: seq<XmlTree.Tree>,
                                    q: Node)
    requires Sound(s) && labels.Keys >= s.kids.Keys && i < |category|
    requires AddedTo(s, s1, added, labels, labels1, category, i, news, q) && q in more && q in added
             && more[q] == added[q]
    requires q in s.depth && Reads(s, s2, labels2, added[q], news, s.depth[q] + 1)
    ensures AddedTo(s, s2, more, labels, labels2, category, i + 1, news, q)
  {
    hide Sound, Marked, Reads, IsTag;
    assert category[..i + 1] == category[..i] + [category[i]];
  }

  lemma {:induction false} AddingNow(s: Shape<Node>, s1: Shape<Node>, s2: Shape<Node>, added: map<Node, seq<Node>>,
                                     labels: map<Node, Label>, labels1: map<Node, Label>, labels2: map<Node, Label>,
                                     category: seq<Node>, i: nat, news: seq<XmlTree.Tree>, more: map<Node, seq<Node>>)
    requires Adding(s, s1, added, labels, labels1, category, i, news) && i < |category| && Sound(s2)
    requires Sound(s) && labels.Keys >= s.kids.Keys
    requires added.Keys + {category[i]} <= more.Keys
    requires Grown(s, s2, more) && SameLabels(s, labels, labels2) && labels2.Keys == s2.kids.Keys
    requires forall q {:trigger q in more} :: q in more ==>
               AddedTo(s, s2, more, labels, labels2, category, i + 1, news, q)
    ensures Adding(s, s2, more, labels, labels2, category, i + 1, news)
  {
    hide Sound, Marked, AddedTo, Grown, SameLabels, Leafy;
    forall k | 0 <= k < i + 1 && category[k] in s.kids && Marked(s, labels, category[k])
      ensures category[k] in more
    {
      assert k < i ==> category[k] in added;
    }
  }

  /** With all categories dealt with, exactly the marked ones that can be reached have grown. */
  lemma {:induction false} WellAdded(s: Shape<Node>, s': Shape<Node>, added: map<Node, seq<Node>>,
                                     labels: map<Node, Label>,
                                     labels': map<Node, Label>, category: seq<Node>, root: Node,
                                     news: seq<XmlTree.Tree>)
    requires Adding(s, s', added, labels, labels', category, |category|, news)
    requires Sound(s) && labels.Keys >= s.kids.Keys && HitsBelow(s, labels, root, "category", category)
    ensures WellGrown(s, s', added, labels, labels', root, news)
  {
    hide Sound, Marked, Grown, SameLabels, Leafy, Under, IsTag, Reads, HitsBelow, Siblings, TreesOf;
    forall q | q in added
      ensures q in s.kids && IsTag(labels[q], "category") && Marked(s, labels, q)
      ensures q in s.depth && Siblings(s', added[q], s.depth[q] + 1)
      ensures TreesOf(s', labels', added[q], s.depth[q] + 1) == news
    {
      assert AddedTo(s, s', added, labels, labels', category, |category|, news, q);
      ReadsIsTrees(s, s', labels', added[q], news, s.depth[q] + 1);
    }
    forall q | q in s.kids && ToExtend(s, labels, root, q)
      ensures q in added
    {
      HitThere(s, labels, root, "category", category, q);
      var k :| 0 <= k < |category| && category[k] == q;
    }
  }

  lemma {:induction false} RootStays(s: Shape<Node>, s': Shape<Node>, added: map<Node, seq<Node>>,
                                     labels: map<Node, Label>,
                                     labels': map<Node, Label>, root: Node, news: seq<XmlTree.Tree>)
    requires WellGrown(s, s', added, labels, labels', root, news)
    requires root in s.kids && root in labels && labels[root] == DocumentNode
    ensures root in s'.kids && s'.kids[root] == s.kids[root]
  {
    hide Sound, Marked, SameLabels, Leafy, Under, Siblings, TreesOf;
    assert s.kids[root] + [] == s.kids[root];
  }

  lemma {:induction false} AddingDone(s: Shape<Node>, s': Shape<Node>, added: map<Node, seq<Node>>,
                                      labels: map<Node, Label>,
                                      labels': map<Node, Label>, category: seq<Node>, root: Node,
                                      news: seq<XmlTree.Tree>)
    requires Adding(s, s', added, labels, labels', category, |category|, news)
    requires Sound(s) && labels.Keys >= s.kids.Keys && HitsBelow(s, labels, root, "category", category)
    requires root in s.kids && root !in s.parent && root in labels && labels[root] == DocumentNode
    requires root in s.depth && s.depth[root] == 0
    ensures Sound(s') && labels'.Keys >= s'.kids.Keys && root in s'.kids
    ensures Siblings(s, s.kids[root], 1) && Siblings(s', s'.kids[root], 1)
    ensures TreesOf(s', labels', s'.kids[root], 1) == AddNew(TreesOf(s, labels, s.kids[root], 1), news)
  {
    hide *;
    AddingFacts(s, s', added, labels, labels', category, |category|, news);
    WellAdded(s, s', added, labels, labels', category, root, news);
    RootStays(s, s', added, labels, labels', root, news);
    TopLevel(s, labels, root);
    KidsAreSiblings(s, root);
    GrownIsAdd(s, s', added, labels, labels', root, news, s.kids[root], 1);
  }

  /** `add_new_tuners`. */
  method AddNewTuners(doc: Document, tuners: Tuners)
    requires doc.Valid()
    modifies doc, doc.nodes
    ensures doc.Valid() && old(doc.nodes) <= doc.nodes && fresh(doc.nodes - old(doc.nodes))
    ensures doc.Trees() == AddNew(old(doc.Trees()), Generated(tuners))
  {
    hide *;
    ghost var s, labels, added, news := doc.TheShape(), doc.Labels(), map[], Generated(tuners);
    RootFacts(doc);
    var category := doc.GetElementsByTagName(doc.root, "category");
    AddingStart(s, labels, category, news);
    var i := 0;
    while i < |category|
      invariant 0 <= i <= |category|
      invariant doc.Valid() && old(doc.nodes) <= doc.nodes && fresh(doc.nodes - old(doc.nodes))
      invariant Adding(s, doc.TheShape(), added, labels, doc.Labels(), category, i, news)
    {
      var nodeCat := category[i];
      ghost var s1, labels1 := doc.TheShape(), doc.Labels();
      AddingFacts(s, s1, added, labels, labels1, category, i, news);
      HitAt(s, labels, doc.root, "category", category, i);
      NextMarked(s, s1, added, labels, labels1, category, i, news);
      ghost var marked, gs := AddToCategory(doc, nodeCat, tuners, s1, labels1);
      RootFacts(doc);
      if marked {
        AddingStep(s, s1, doc.TheShape(), added, labels, labels1, doc.Labels(), category, i, news, gs);
        added := added[nodeCat := gs];
      } else {
        AddingSkip(s, s1, added, labels, labels1, category, i, news);
      }
      i := i + 1;
    }
    AddingDone(s, doc.TheShape(), added, labels, doc.Labels(), category, doc.root, news);
    RootFacts(doc);
  }

  /** What a refresh does to the document between parsing and saving. */
  method RefreshTuners(doc: Document, tuners: Tuners)
    requires doc.Valid()
    modifies doc, doc.nodes
    ensures doc.Valid()
    ensures doc.Trees() == Refresh(old(doc.Trees()), Generated(tuners))
  {
    RemoveOldTuners(doc);
    AddNewTuners(doc, tuners);
  }
}
