/** The settings file and its backup: `settings_backup`, `settings_restore`, `save_settings` and the refresh
    of a whole file (packages/addons/official/driver/hdhomerun/source/resources/lib/functions.py).
    Failures are inputs: every operation is told where the file system lets it down. */
module SettingsFile {
  import opened Basics
  import opened Text
  import opened XmlMarkup
  import opened LinePrinter
  import opened PrettyPrinter
  import XmlTree
  import opened TunerTree
  import opened TunerPieces
  import opened SavedFile
  import RefreshLaws
  import opened Refreshes
  import opened Shapes
  import opened Dom
  import opened TunerDom
  import opened TunerAdditions

  // ----- `toxml` on the nodes -----

  lemma {:induction false} ChildFacts(doc: Document, n: Node, i: nat)
    requires doc.Valid() && n in doc.nodes && i < |n.childNodes|
    ensures n.childNodes[i] in doc.nodes && n.childNodes[i].depth == n.depth + 1 <= doc.top
    ensures doc.Labels()[n.childNodes[i]] != DocumentNode
    ensures doc.TheShape().kids[n] == n.childNodes
  {
    doc.DeeperChild(n, i);
    var s := doc.TheShape();
    KidsAreSiblings(s, n);
    assert s.kids[n][i] in s.parent;
    assert Leafy(s, doc.Labels());
  }

  lemma KidsFacts(doc: Document, n: Node)
    requires doc.Valid() && n in doc.nodes
    ensures Sound(doc.TheShape()) && doc.Labels().Keys == doc.TheShape().kids.Keys == doc.nodes
    ensures Siblings(doc.TheShape(), n.childNodes, n.depth + 1)
    ensures n in doc.TheShape().depth && doc.TheShape().depth[n] == n.depth
    ensures doc.TheShape().kids[n] == n.childNodes && doc.TheShape().top == doc.top && n.depth <= doc.top
  {
    hide Leafy;
    KidsAreSiblings(doc.TheShape(), n);
  }

  /** One more child. */
  lemma {:induction false} XmlSnoc(s: Shape<Node>, labels: map<Node, Label>, cs: seq<Node>, i: nat, d: nat)
    requires Sound(s) && labels.Keys >= s.kids.Keys && Siblings(s, cs, d) && i < |cs|
    ensures Siblings(s, cs[..i], d) && Siblings(s, [cs[i]], d) && Siblings(s, cs[..i + 1], d)
    ensures XmlTree.ToXml(TreesOf(s, labels, cs[..i + 1], d))
            == XmlTree.ToXml(TreesOf(s, labels, cs[..i], d)) + XmlTree.ToXml(TreesOf(s, labels, [cs[i]], d))
  {
    SiblingsParts(s, cs, i, d);
    hide *;
    TreesAppend(s, labels, cs[..i], [cs[i]], d);
    assert cs[..i + 1] == cs[..i] + [cs[i]];
    ToXmlAppend(TreesOf(s, labels, cs[..i], d), TreesOf(s, labels, [cs[i]], d));
  }

  lemma {:induction false} SiblingsParts(s: Shape<Node>, cs: seq<Node>, i: nat, d: nat)
    requires Siblings(s, cs, d) && i < |cs|
    ensures Siblings(s, cs[..i], d) && Siblings(s, [cs[i]], d) && Siblings(s, cs[..i + 1], d)
  {
  }

  lemma {:induction false} ToXmlAppend(a: seq<XmlTree.Tree>, b: seq<XmlTree.Tree>)
    ensures XmlTree.ToXml(a + b) == XmlTree.ToXml(a) + XmlTree.ToXml(b)
  {
    if a == [] {
      assert a + b == b;
      assert "" + XmlTree.ToXml(b) == XmlTree.ToXml(b);
    } else {
      assert (a + b)[1..] == a[1..] + b;
      ToXmlAppend(a[1..], b);
      hide XmlTree.ToXml, XmlTree.Attributes, XmlTree.Escape;
      XmlTree.ToXmlFirst(a + b);
      XmlTree.ToXmlFirst(a);
      assert a[0] == (a + b)[0];
      Assoc(XmlTree.ToXml([a[0]]), XmlTree.ToXml(a[1..]), XmlTree.ToXml(b));
    }
  }

  lemma NoXml(s: Shape<Node>, labels: map<Node, Label>, cs: seq<Node>, d: nat)
    requires Sound(s) && labels.Keys >= s.kids.Keys
    ensures Siblings(s, cs[..0], d) && XmlTree.ToXml(TreesOf(s, labels, cs[..0], d)) == ""
  {
  }

  lemma XmlOne(t: XmlTree.Tree)
    ensures XmlTree.ToXml([t])
            == match t
               case CharData(data) => XmlTree.Escape(data)
               case Other(mark) => Show(mark)
               case Element(tag, attrs, kids) =>
                 "<" + tag + ShowAttrs(XmlTree.Attributes(attrs))
                 + (if kids == [] then "/>" else ">" + XmlTree.ToXml(kids) + "</" + tag + ">")
  {
    hide XmlTree.Attributes, XmlTree.Escape, ShowAttrs, Show;
    assert [t][1..] == [];
    assert XmlTree.ToXml([t][1..]) == "";
  }

  lemma KindLabel(doc: Document, n: Node)
    requires n in doc.nodes
    ensures n in doc.Labels()
    ensures doc.Labels()[n] == match n.kind
                               case DocumentKind => DocumentNode
                               case ElementKind(tag) => ElementNode(tag, n.attributes)
                               case TextKind(data) => TextNode(data)
                               case OtherKind(mark) => OtherNode(mark)
  {
  }

  /** `Node.writexml`. */
  method NodeXml(doc: Document, n: Node) returns (xml: string)
    requires doc.Valid() && n in doc.nodes && doc.Labels()[n] != DocumentNode
    ensures Siblings(doc.TheShape(), [n], n.depth)
    ensures xml == XmlTree.ToXml(TreesOf(doc.TheShape(), doc.Labels(), [n], n.depth))
    decreases doc.top - n.depth, 0
  {
    hide *;
    KidsFacts(doc, n);
    KindLabel(doc, n);
    TreeOne(doc.TheShape(), doc.Labels(), n, n.depth);
    XmlOne(TreesOf(doc.TheShape(), doc.Labels(), [n], n.depth)[0]);
    match n.kind {
      case TextKind(data) => xml := XmlTree.Escape(data);
      case OtherKind(mark) => xml := Show(mark);
      case ElementKind(tag) =>
        xml := "<" + tag + ShowAttrs(XmlTree.Attributes(n.attributes));
        if n.childNodes == [] {
          xml := xml + "/>";
        } else {
          var kids := KidsXml(doc, n);
          xml := xml + (">" + kids + "</" + tag + ">");
        }
    }
  }

  method KidsXml(doc: Document, n: Node) returns (xml: string)
    requires doc.Valid() && n in doc.nodes
    ensures Siblings(doc.TheShape(), n.childNodes, n.depth + 1)
    ensures xml == XmlTree.ToXml(TreesOf(doc.TheShape(), doc.Labels(), n.childNodes, n.depth + 1))
    decreases doc.top - n.depth - 1, 1
  {
    hide *;
    ghost var s, labels := doc.TheShape(), doc.Labels();
    KidsFacts(doc, n);
    NoXml(s, labels, n.childNodes, n.depth + 1);
    xml := "";
    var i := 0;
    while i < |n.childNodes|
      invariant 0 <= i <= |n.childNodes|
      invariant Siblings(s, n.childNodes[..i], n.depth + 1)
      invariant xml == XmlTree.ToXml(TreesOf(s, labels, n.childNodes[..i], n.depth + 1))
    {
      ChildFacts(doc, n, i);
      var one := NodeXml(doc, n.childNodes[i]);
      XmlSnoc(s, labels, n.childNodes, i, n.depth + 1);
      xml := xml + one;
      i := i + 1;
    }
    assert n.childNodes[..i] == n.childNodes;
  }

  /** `Document.toxml`. */
  method ToXmlText(doc: Document) returns (xml: string)
    requires doc.Valid()
    ensures xml == DocumentXml(doc.Trees())
  {
    hide *;
    RootFacts(doc);
    KidsFacts(doc, doc.root);
    var kids := KidsXml(doc, doc.root);
    xml := "<?xml version=\"1.0\" ?>" + kids;
    XmlOfTrees(doc.Trees());
  }

  lemma XmlOfTrees(ts: seq<XmlTree.Tree>)
    ensures DocumentXml(ts) == "<?xml version=\"1.0\" ?>" + XmlTree.ToXml(ts)
  {
  }

  // ----- files and their failures -----

  datatype Files = Files(settings: Option<string>, backup: Option<string>)

  /** `shutil.copyfile`: it copies, opens nothing for writing, or stops after `n` characters. */
  datatype CopyFault = Copies | Unopened | Cut(n: nat)

  function Take(s: string, n: nat): string {
    if n < |s| then s[..n] else s
  }

  function Copied(src: Option<string>, dst: Option<string>, fault: CopyFault): Option<string> {
    if src.None? || fault.Unopened? then dst
    else if fault.Cut? then Some(Take(src.value, fault.n))
    else src
  }

  /** The file holds the first `n` characters of `s`, or all of it if it is shorter. */
  predicate CutShort(file: Option<string>, s: string, n: nat) {
    file.Some? && file.value <= s && |file.value| == if n < |s| then n else |s|
  }

  lemma OneCut(file: Option<string>, s: string, n: nat)
    requires CutShort(file, s, n)
    ensures file == Some(Take(s, n))
  {
    assert file.value == s[..|file.value|] && s[..|s|] == s;
    assert file == Some(file.value);
  }

  predicate CopyRaises(src: Option<string>, fault: CopyFault) {
    src.None? || !fault.Copies?
  }

  /** Saving: no `IOError`, one from `open`, or one when `n` characters have reached the file. Then the restore
      has its own fate. A file that was opened is closed after the restore only, when the variable that holds it
      goes: up to `late` characters that were still in its buffer reach it then. */
  datatype SaveFault =
    | Saves
    | NotOpened(restore: CopyFault)
    | Breaks(n: nat, restore: CopyFault, late: nat)

  /** How far `write` gets before it raises `UnicodeEncodeError`. */
  function Reach(s: string): (k: nat)
    ensures k <= |s| && Ascii(s[..k])
    ensures k < |s| ==> !(s[k] < '\U{80}')
  {
    if s == "" || !(s[0] < '\U{80}') then 0
    else
      var k := Reach(s[1..]);
      assert s[..1 + k] == [s[0]] + s[1..][..k];
      1 + k
  }

  /** The file up to an offset; a file that is shorter is filled up with zeros. */
  function Padded(file: string, at: nat): (r: string)
    ensures |r| == (if |file| >= at then |file| else at) && r[..|file|] == file
    ensures forall i :: |file| <= i < |r| ==> r[i] == '\0'
    decreases at - |file|
  {
    if |file| >= at then file else Padded(file + ['\0'], at)
  }

  /** Characters written at an offset. */
  function Overlaid(file: string, at: nat, piece: string): string {
    if piece == "" then file
    else
      var base := Padded(file, at);
      base[..at] + piece + (if |base| > at + |piece| then base[at + |piece|..] else "")
  }

  /** What is written but not in the file yet when the save breaks. */
  function Pending(text: string, fault: SaveFault): string {
    if fault.Breaks? && fault.n <= Reach(text) then Take(text[fault.n..Reach(text)], fault.late) else ""
  }

  /** The buffer is written where the file ended before the restore. */
  function Flushed(file: Option<string>, at: nat, pending: string): Option<string> {
    if file.None? then None else Some(Overlaid(file.value, at, pending))
  }

  /** The file that `save_settings` leaves when it prints `text`. Only `IOError` is caught; when the text
      cannot be encoded, at most `stop` characters have been written. */
  function SaveStep(s: Files, text: string, fault: SaveFault, stop: nat): Files {
    if fault.NotOpened? then s.(settings := Copied(s.backup, s.settings, fault.restore))
    else if fault.Breaks? && fault.n <= Reach(text) then
      s.(settings := Flushed(Copied(s.backup, Some(Take(text, fault.n)), fault.restore), fault.n, Pending(text, fault)))
    else if !Ascii(text) then s.(settings := Some(Take(text[..Reach(text)], stop)))
    else s.(settings := Some(text))
  }

  /** The save ends with the error that is not caught. */
  predicate SaveRaises(text: string, fault: SaveFault) {
    !fault.NotOpened? && !(fault.Breaks? && fault.n <= Reach(text)) && !Ascii(text)
  }

  /** One refresh as the outside sees it: the fate of the backup, what the parser makes of the file, the
      tuners found, the fate of the save. */
  datatype Event = Event(backup: CopyFault, parsed: Option<seq<XmlTree.Tree>>, tuners: Tuners, save: SaveFault,
                         stop: nat)

  predicate BackupRaises(s: Files, e: Event) {
    s.backup.None? && CopyRaises(s.settings, e.backup)
  }

  function BackupStep(s: Files, e: Event): Files {
    if s.backup.Some? then s else s.(backup := Copied(s.settings, None, e.backup))
  }

  function Printed(e: Event): string
    requires e.parsed.Some?
  {
    Saved(Refresh(e.parsed.value, Generated(e.tuners)))
  }

  /** The refresh ends with an error that is not caught. */
  predicate Raises(s: Files, e: Event) {
    BackupRaises(s, e) || (e.parsed.Some? && SaveRaises(Printed(e), e.save))
  }

  function Step(s: Files, e: Event): Files {
    if BackupRaises(s, e) || e.parsed.None? then BackupStep(s, e)
    else SaveStep(BackupStep(s, e), Printed(e), e.save, e.stop)
  }

  lemma AsciiReach(s: string)
    ensures Ascii(s) <==> Reach(s) == |s|
  {
    if Reach(s) == |s| { assert s[..Reach(s)] == s; }
  }

  /** The contracts of the two copies leave no choice. */
  lemma Determined(src: Option<string>, dst: Option<string>, fault: CopyFault, file: Option<string>)
    requires src.Some? && fault.Copies? ==> file == src
    requires src.None? || fault.Unopened? ==> file == dst
    requires src.Some? && fault.Cut? ==> CutShort(file, src.value, fault.n)
    ensures file == Copied(src, dst, fault)
  {
    if src.Some? && fault.Cut? { OneCut(file, src.value, fault.n); }
  }

  class SettingsXml {
    var settings: Option<string>
    var backup: Option<string>

    ghost function State(): Files
      reads this
    {
      Files.Files(settings, backup)
    }

    /** `settings_backup`. */
    method SettingsBackup(fault: CopyFault) returns (raised: bool)
      modifies this`backup
      ensures old(backup).Some? ==> backup == old(backup) && !raised
      ensures old(backup).None? && settings.Some? && fault.Copies? ==> backup == settings && !raised
      ensures old(backup).None? && (settings.None? || fault.Unopened?) ==> backup.None? && raised
      ensures old(backup).None? && settings.Some? && fault.Cut? ==> CutShort(backup, settings.value, fault.n) && raised
    {
      raised := false;
      if backup.None? {
        backup := Copied(settings, None, fault);
        raised := CopyRaises(settings, fault);
      }
    }

    /** `settings_restore`. */
    method SettingsRestore(fault: CopyFault)
      modifies this`settings
      ensures backup.Some? && fault.Copies? ==> settings == backup
      ensures backup.None? || fault.Unopened? ==> settings == old(settings)
      ensures backup.Some? && fault.Cut? ==> CutShort(settings, backup.value, fault.n)
    {
      settings := Copied(backup, settings, fault);
    }

    lemma StateNow()
      ensures State() == Files.Files(settings, backup)
    {
    }

    /** `save_settings`; `stop` limits what reaches the file before an encoding error. */
    method SaveSettings(doc: Document, fault: SaveFault, stop: nat) returns (raised: bool)
      requires doc.Valid() && NoTopText(doc.Trees()) && Good(DocOf(doc.Trees()))
      modifies this`settings
      ensures State() == SaveStep(old(State()), Saved(doc.Trees()), fault, stop)
      ensures raised <==> SaveRaises(Saved(doc.Trees()), fault)
    {
      hide *;
      raised := false;
      ghost var before, ts := State(), doc.Trees();
      StateNow();
      SaveCases(before, Saved(ts), fault, stop);
      AsciiReach(Saved(ts));
      if fault.NotOpened? {
        SettingsRestore(fault.restore);
        Determined(backup, before.settings, fault.restore, settings);
        StateNow();
        return;
      }
      settings := Some("");
      var xml := ToXmlText(doc);
      var output := new Output();
      DocumentXmlIsDoc(ts);
      DocumentIs(DocOf(ts), xml);
      SavedIs(ts);
      Pprint(xml, output, 2, 80, DocOf(ts), "");
      var reach := Reach(output.text);
      if fault.Breaks? && fault.n <= reach {
        settings := Some(Take(output.text, fault.n));
        ghost var cut := settings;
        SettingsRestore(fault.restore);
        Determined(backup, cut, fault.restore, settings);
        settings := Flushed(settings, fault.n, Take(output.text[fault.n..reach], fault.late));
      } else if reach < |output.text| {
        settings := Some(Take(output.text[..reach], stop));
        raised := true;
      } else {
        settings := Some(output.text);
      }
      StateNow();
    }

    /** `refresh_hdhomerun_tuners` and `refresh_sundtek_tuners`; `xmldoc` is what the parser returns. */
    method RefreshSettings(xmldoc: Document?, tuners: Tuners, backupFault: CopyFault, fault: SaveFault, stop: nat)
      returns (raised: bool)
      requires xmldoc != null ==> xmldoc.Valid() && NoTopText(xmldoc.Trees()) && Writable(xmldoc.Trees())
      modifies this
      modifies if xmldoc == null then {} else {xmldoc} + xmldoc.nodes
      ensures var parsed := if xmldoc == null then None else Some(old(xmldoc.Trees()));
              var e := Event(backupFault, parsed, tuners, fault, stop);
              State() == Step(old(State()), e) && (raised <==> Raises(old(State()), e))
    {
      hide *;
      ghost var before := State();
      StateNow();
      if xmldoc == null {
        StepCases(before, Event(backupFault, None, tuners, fault, stop));
        raised := SettingsBackup(backupFault);
        BackedUp(before, backup, backupFault);
        StateNow();
        return;
      }
      ghost var ts := xmldoc.Trees();
      StepCases(before, Event(backupFault, Some(ts), tuners, fault, stop));
      raised := SettingsBackup(backupFault);
      BackedUp(before, backup, backupFault);
      StateNow();
      if raised {
        return;
      }
      RefreshReady(ts, tuners);
      RefreshTuners(xmldoc, tuners);
      raised := SaveSettings(xmldoc, fault, stop);
    }
  }

  lemma SaveCases(s: Files, text: string, fault: SaveFault, stop: nat)
    ensures fault.NotOpened? ==>
              SaveStep(s, text, fault, stop)
              == Files.Files(Copied(s.backup, s.settings, fault.restore), s.backup)
    ensures fault.Breaks? && fault.n <= Reach(text) ==>
              SaveStep(s, text, fault, stop)
              == Files.Files(Flushed(Copied(s.backup, Some(Take(text, fault.n)), fault.restore), fault.n,
                                     Take(text[fault.n..Reach(text)], fault.late)), s.backup)
    ensures !fault.NotOpened? && !(fault.Breaks? && fault.n <= Reach(text)) ==>
              SaveStep(s, text, fault, stop)
              == Files.Files(Some(if Ascii(text) then text else Take(text[..Reach(text)], stop)), s.backup)
    ensures SaveRaises(text, fault) <==> !fault.NotOpened? && !(fault.Breaks? && fault.n <= Reach(text)) && !Ascii(text)
  {
  }

  lemma StepCases(s: Files, e: Event)
    ensures var b := if s.backup.Some? then s.backup else Copied(s.settings, None, e.backup);
            if (s.backup.None? && CopyRaises(s.settings, e.backup)) || e.parsed.None? then
              Step(s, e) == Files.Files(s.settings, b)
            else
              var text := Saved(Refresh(e.parsed.value, Generated(e.tuners)));
              Step(s, e) == SaveStep(Files.Files(s.settings, b), text, e.save, e.stop)
    ensures Raises(s, e) <==>
              || (s.backup.None? && CopyRaises(s.settings, e.backup))
              || (e.parsed.Some? && SaveRaises(Saved(Refresh(e.parsed.value, Generated(e.tuners))), e.save))
  {
    hide SaveStep, Copied, CopyRaises, SaveRaises, Saved, Refresh, Generated;
  }

  lemma BackedUp(s: Files, backup: Option<string>, fault: CopyFault)
    requires s.backup.Some? ==> backup == s.backup
    requires s.backup.None? && s.settings.Some? && fault.Copies? ==> backup == s.settings
    requires s.backup.None? && (s.settings.None? || fault.Unopened?) ==> backup.None?
    requires s.backup.None? && s.settings.Some? && fault.Cut? ==> CutShort(backup, s.settings.value, fault.n)
    ensures backup == if s.backup.Some? then s.backup else Copied(s.settings, None, fault)
    ensures CopyRaises(s.settings, fault) <==> s.settings.None? || !fault.Copies?
  {
    if s.backup.None? { Determined(s.settings, None, fault, backup); }
  }

  lemma RefreshReady(ts: seq<XmlTree.Tree>, tuners: Tuners)
    requires NoTopText(ts) && Writable(ts)
    ensures NoTopText(Refresh(ts, Generated(tuners))) && Good(DocOf(Refresh(ts, Generated(tuners))))
  {
    hide *;
    RefreshNoTopText(ts, Generated(tuners));
    GeneratedWritable(tuners);
    RefreshLaws.RefreshWritable(ts, Generated(tuners));
    WritableGood(Refresh(ts, Generated(tuners)));
  }

  lemma DocumentIs(doc: seq<Segment>, xml: string)
    requires Good(doc) && xml == ShowAll(doc)
    ensures PrettyPrinter.Document(xml, doc, "")
  {
    hide Good, ShowAll;
    assert xml + "" == xml;
  }

  lemma SavedIs(ts: seq<XmlTree.Tree>)
    ensures "" + Render(DocOf(ts), 0, 2, 80) == Saved(ts)
  {
    hide DocOf, Render;
  }

  lemma WritableGood(ts: seq<XmlTree.Tree>)
    requires Writable(ts)
    ensures Good(DocOf(ts))
  {
    hide Good, GoodPieces, DocOf, GoodTokens;
    PiecesGood(XmlTree.Tokens(ts), "");
    DocGood(ts);
  }
}
