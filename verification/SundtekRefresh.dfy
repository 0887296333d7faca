/** `refresh_sundtek_tuners`, from the report of the devices to the files
    (packages/addons/official/driver/sundtek-mediatv/source/resources/lib/functions.py). */
module SundtekRefresh {
  import opened Basics
  import Text
  import XmlTree
  import opened TunerTree
  import opened TunerChoices
  import opened TunerPieces
  import opened SavedFile
  import opened Encoding
  import opened Shapes
  import opened Dom
  import opened TunerDom
  import opened TunerAdditions
  import SundtekReport
  import opened SettingsFile

  // ----- categories with a marker, on nodes and in the tree -----

  lemma MarkedFirst(ts: seq<XmlTree.Tree>)
    requires ts != []
    ensures MarkedCategories(ts)
            == (if !ts[0].Element? then 0
                else (if ts[0].tag == "category" && HasMarker(ts[0].kids) then 1 else 0) + MarkedCategories(ts[0].kids))
               + MarkedCategories(ts[1..])
  {
    if ts[0].Element? { MarkedExactly(ts[0].kids); }
    hide HasMarker, HoldsMark;
  }

  lemma CategoryOf(l: Label)
    ensures IsTag(l, "category") <==> l.ElementNode? && l.tag == "category"
  {
  }

  /** A marked category shows in the tree. */
  lemma {:induction false} CategoryInTree(s: Shape<Node>, labels: map<Node, Label>, cs: seq<Node>, d: nat, q: Node,
                                          i: nat)
    requires Sound(s) && Leafy(s, labels) && labels.Keys >= s.kids.Keys && Siblings(s, cs, d) && Kids(s, cs)
    requires q in s.kids && IsTag(labels[q], "category") && Marked(s, labels, q)
    requires i < |cs| && (q == cs[i] || Under(s, q, cs[i]))
    ensures MarkedCategories(TreesOf(s, labels, cs, d)) > 0
    decreases s.top + 1 - d, |cs|
  {
    hide *;
    SiblingsTail(s, cs, d);
    KidsFirst(s, labels, cs);
    KidsAreSiblings(s, cs[0]);
    TreesFirst(s, labels, cs, d);
    MarkedFirst(TreesOf(s, labels, cs, d));
    CategoryOf(labels[q]);
    if i > 0 {
      CategoryInTree(s, labels, cs[1..], d, q, i - 1);
    } else if q == cs[0] {
      MarkedIsHasMarker(s, labels, q, d);
    } else {
      var k := ViaKid(s, q, cs[0]);
      CategoryInTree(s, labels, s.kids[cs[0]], d + 1, q, k);
    }
  }

  ghost predicate Among(s: Shape<Node>, cs: seq<Node>, q: Node)
    requires Sound(s)
  {
    exists i :: 0 <= i < |cs| && (q == cs[i] || Under(s, q, cs[i]))
  }

  lemma AmongKids(s: Shape<Node>, cs: seq<Node>, q: Node)
    requires Sound(s) && cs != [] && cs[0] in s.kids && Among(s, s.kids[cs[0]], q)
    ensures Among(s, cs, q)
  {
    hide Sound, Under;
    var i :| 0 <= i < |s.kids[cs[0]]| && (q == s.kids[cs[0]][i] || Under(s, q, s.kids[cs[0]][i]));
    BelowChild(s, cs[0], i, q);
  }

  lemma AmongTail(s: Shape<Node>, cs: seq<Node>, q: Node)
    requires Sound(s) && cs != [] && (Among(s, cs[1..], q) || q == cs[0])
    ensures Among(s, cs, q)
  {
    hide Sound, Under;
    if Among(s, cs[1..], q) {
      var i :| 0 <= i < |cs[1..]| && (q == cs[1..][i] || Under(s, q, cs[1..][i]));
      assert cs[1..][i] == cs[i + 1];
    }
  }

  /** A marked category in the tree is one on the nodes. */
  lemma {:induction false} TreeCategory(s: Shape<Node>, labels: map<Node, Label>, cs: seq<Node>, d: nat)
    returns (q: Node)
    requires Sound(s) && Leafy(s, labels) && labels.Keys >= s.kids.Keys && Siblings(s, cs, d) && Kids(s, cs)
    requires MarkedCategories(TreesOf(s, labels, cs, d)) > 0
    ensures q in s.kids && IsTag(labels[q], "category") && Marked(s, labels, q) && Among(s, cs, q)
    decreases s.top + 1 - d, |cs|
  {
    hide *;
    if cs == [] { NoTrees(s, labels, d); }
    SiblingsTail(s, cs, d);
    KidsFirst(s, labels, cs);
    KidsAreSiblings(s, cs[0]);
    TreesFirst(s, labels, cs, d);
    MarkedFirst(TreesOf(s, labels, cs, d));
    var c := cs[0];
    CategoryOf(labels[c]);
    MarkedIsHasMarker(s, labels, c, d);
    if IsTag(labels[c], "category") && Marked(s, labels, c) {
      q := c;
      AmongTail(s, cs, q);
    } else if labels[c].ElementNode? && MarkedCategories(TreesOf(s, labels, s.kids[c], d + 1)) > 0 {
      q := TreeCategory(s, labels, s.kids[c], d + 1);
      AmongKids(s, cs, q);
    } else {
      q := TreeCategory(s, labels, cs[1..], d);
      AmongTail(s, cs, q);
    }
  }

  lemma NoTrees(s: Shape<Node>, labels: map<Node, Label>, d: nat)
    requires Sound(s) && labels.Keys >= s.kids.Keys && Siblings(s, [], d)
    ensures MarkedCategories(TreesOf(s, labels, [], d)) == 0
  {
  }

  /** The marked categories found from the root are those of the tree. */
  lemma AnyMarked(doc: Document, category: seq<Node>, found: bool)
    requires doc.Valid() && Sound(doc.TheShape()) && doc.Labels().Keys >= doc.TheShape().kids.Keys
    requires HitsBelow(doc.TheShape(), doc.Labels(), doc.root, "category", category)
    requires found <==> exists i :: 0 <= i < |category| && category[i] in doc.TheShape().kids
                                    && Marked(doc.TheShape(), doc.Labels(), category[i])
    ensures found <==> MarkedCategories(doc.Trees()) > 0
  {
    hide *;
    RootFacts(doc);
    var s, labels, root := doc.TheShape(), doc.Labels(), doc.root;
    KidsOf(s, labels, root);
    if found {
      var i :| 0 <= i < |category| && category[i] in s.kids && Marked(s, labels, category[i]);
      HitAt(s, labels, root, "category", category, i);
      var k := ViaKid(s, category[i], root);
      CategoryInTree(s, labels, s.kids[root], 1, category[i], k);
    }
    if MarkedCategories(doc.Trees()) > 0 {
      var q := TreeCategory(s, labels, s.kids[root], 1);
      AmongRoot(s, root, q);
      HitThere(s, labels, root, "category", category, q);
      var i :| 0 <= i < |category| && category[i] == q;
    }
  }

  lemma AmongRoot(s: Shape<Node>, root: Node, q: Node)
    requires Sound(s) && root in s.kids && Among(s, s.kids[root], q)
    ensures Under(s, q, root)
  {
    hide Sound, Under;
    var i :| 0 <= i < |s.kids[root]| && (q == s.kids[root][i] || Under(s, q, s.kids[root][i]));
    BelowChild(s, root, i, q);
  }

  // ----- devices without a serial number -----

  predicate Numbered(entries: seq<SundtekReport.Entry>) {
    forall i :: 0 <= i < |entries| ==> entries[i].serial.Some?
  }

  function Devices(entries: seq<SundtekReport.Entry>): (r: seq<Device>)
    requires Numbered(entries)
    ensures |r| == |entries|
    ensures forall i :: 0 <= i < |r| ==>
              r[i] == Device(entries[i].name, entries[i].serial.value, entries[i].cable)
  {
    if entries == [] then []
    else [Device(entries[0].name, entries[0].serial.value, entries[0].cable)] + Devices(entries[1..])
  }

  /** The search of `add_new_tuners` for a place to put settings. */
  method AnyMarkedCategory(doc: Document) returns (found: bool)
    requires doc.Valid()
    ensures found <==> MarkedCategories(doc.Trees()) > 0
  {
    hide *;
    found := false;
    RootFacts(doc);
    ghost var s, labels := doc.TheShape(), doc.Labels();
    var category := doc.GetElementsByTagName(doc.root, "category");
    var i := 0;
    while i < |category|
      invariant 0 <= i <= |category| && !found
      invariant forall k :: 0 <= k < i ==> category[k] in s.kids && !Marked(s, labels, category[k])
    {
      HitAt(s, labels, doc.root, "category", category, i);
      var marked := AnyMarker(doc, category[i]);
      if marked {
        found := true;
        AnyMarked(doc, category, true);
        return;
      }
      i := i + 1;
    }
    AnyMarked(doc, category, false);
  }

  method AnyMarker(doc: Document, nodeCat: Node) returns (marked: bool)
    requires doc.Valid() && nodeCat in doc.TheShape().kids
    requires Sound(doc.TheShape()) && doc.Labels().Keys >= doc.TheShape().kids.Keys
    ensures marked <==> Marked(doc.TheShape(), doc.Labels(), nodeCat)
  {
    hide *;
    marked := false;
    RootFacts(doc);
    ghost var s, labels := doc.TheShape(), doc.Labels();
    var setting := doc.GetElementsByTagName(nodeCat, "setting");
    var j := 0;
    while j < |setting|
      invariant 0 <= j <= |setting| && !marked
      invariant forall k :: 0 <= k < j ==> setting[k] in labels && !MarkerLabel(labels[setting[k]])
    {
      HitAt(s, labels, nodeCat, "setting", setting, j);
      NodeFacts(doc, setting[j]);
      MarkerSetting(labels[setting[j]]);
      if "label" in setting[j].attributes && Text.Find(setting[j].attributes["label"], MARKER_LABEL) >= 0 {
        MarkedThere(s, labels, nodeCat, setting, j);
        marked := true;
        return;
      }
      j := j + 1;
    }
    UnmarkedThere(s, labels, nodeCat, setting);
  }

  lemma {:induction false} NothingAdded(ts: seq<XmlTree.Tree>)
    ensures AddNew(ts, []) == ts
  {
    if ts != [] {
      NothingAdded(ts[1..]);
      if ts[0].Element? {
        NothingAdded(ts[0].kids);
        assert ts[0].kids + [] == ts[0].kids;
      }
      assert ts == [ts[0]] + ts[1..];
    }
  }

  /** `add_new_tuners` with entries of the parser: a device without a serial number, which has number 0, raises a
      `TypeError` as soon as its settings are to be put somewhere. What it leaves of the document is not used. */
  method AddEntries(doc: Document, entries: seq<SundtekReport.Entry>) returns (raised: bool)
    requires doc.Valid()
    modifies doc, doc.nodes
    ensures doc.Valid()
    ensures raised <==> !Numbered(entries) && MarkedCategories(old(doc.Trees())) > 0
    ensures !raised ==>
              doc.Trees() == AddNew(old(doc.Trees()), if Numbered(entries) then Sundtek(Devices(entries)) else [])
  {
    hide *;
    if Numbered(entries) {
      raised := false;
      GeneratedIs(SundtekTuners(Devices(entries)));
      AddNewTuners(doc, SundtekTuners(Devices(entries)));
    } else {
      raised := AnyMarkedCategory(doc);
      NothingAdded(doc.Trees());
    }
  }

  // ----- the refresh -----

  /** What a refresh from this report is: where the parser fails, or a number is missing where it is needed,
      nothing is saved, as if the settings could not be parsed. */
  function SundtekEvent(report: seq<string>, backup: CopyFault, parsed: Option<seq<XmlTree.Tree>>, save: SaveFault,
                        stop: nat): Event {
    match SundtekReport.Parse(SundtekReport.START, report)
    case Crashed => Event(backup, None, SundtekTuners([]), save, stop)
    case Found(entries) =>
      if Numbered(entries) then Event(backup, parsed, SundtekTuners(Devices(entries)), save, stop)
      else if NumberMissed(parsed) then Event(backup, None, SundtekTuners([]), save, stop)
      else Event(backup, parsed, SundtekTuners([]), save, stop)
  }

  predicate NumberMissed(parsed: Option<seq<XmlTree.Tree>>) {
    parsed.Some? && MarkedCategories(RemoveOld(parsed.value, false)) > 0
  }

  /** The report makes the refresh fail. */
  predicate ReportRaises(report: seq<string>, parsed: Option<seq<XmlTree.Tree>>) {
    match SundtekReport.Parse(SundtekReport.START, report)
    case Crashed => true
    case Found(entries) => !Numbered(entries) && NumberMissed(parsed)
  }

  lemma EventCases(report: seq<string>, backup: CopyFault, parsed: Option<seq<XmlTree.Tree>>, save: SaveFault,
                   stop: nat)
    ensures var e := SundtekEvent(report, backup, parsed, save, stop);
            var found := SundtekReport.Parse(SundtekReport.START, report);
            if found.Crashed? || (!Numbered(found.tuners) && NumberMissed(parsed)) then
              ReportRaises(report, parsed) && e == Event(backup, None, SundtekTuners([]), save, stop)
            else
              var devices := if Numbered(found.tuners) then Devices(found.tuners) else [];
              !ReportRaises(report, parsed) && e == Event(backup, parsed, SundtekTuners(devices), save, stop)
  {
    hide SundtekReport.Parse, Numbered, NumberMissed, Devices;
  }

  /** `refresh_sundtek_tuners`. */
  method RefreshSundtekTuners(files: SettingsXml, report: seq<string>, xmldoc: Document?, backupFault: CopyFault,
                              fault: SaveFault, stop: nat)
    returns (raised: bool)
    requires xmldoc != null ==> xmldoc.Valid() && NoTopText(xmldoc.Trees()) && Writable(xmldoc.Trees())
    modifies files
    modifies if xmldoc == null then {} else {xmldoc} + xmldoc.nodes
    ensures var parsed := if xmldoc == null then None else Some(old(xmldoc.Trees()));
            var e := SundtekEvent(report, backupFault, parsed, fault, stop);
            && files.State() == Step(old(files.State()), e)
            && (raised <==> Raises(old(files.State()), e) || ReportRaises(report, parsed))
  {
    hide *;
    ghost var before := files.State();
    ghost var parsed := if xmldoc == null then None else Some(xmldoc.Trees());
    files.StateNow();
    ghost var e := SundtekEvent(report, backupFault, parsed, fault, stop);
    EventCases(report, backupFault, parsed, fault, stop);
    StepCases(before, e);
    raised := files.SettingsBackup(backupFault);
    BackedUp(before, files.backup, backupFault);
    files.StateNow();
    if raised {
      return;
    }
    var found := SundtekReport.GetDevicesSundtek(report);
    if found.Crashed? {
      raised := true;
      return;
    }
    MissedCases(parsed);
    if xmldoc == null {
      return;
    }
    RemoveOldTuners(xmldoc);
    raised := AddEntries(xmldoc, found.tuners);
    if raised {
      return;
    }
    GeneratedIs(e.tuners);
    NoSundtek();
    RefreshIs(parsed.value, Generated(e.tuners));
    RefreshReady(parsed.value, e.tuners);
    raised := files.SaveSettings(xmldoc, fault, stop);
  }

  lemma MissedCases(parsed: Option<seq<XmlTree.Tree>>)
    ensures NumberMissed(parsed) <==> parsed.Some? && MarkedCategories(RemoveOld(parsed.value, false)) > 0
  {
  }

  lemma NoSundtek()
    ensures Sundtek([]) == []
  {
  }

  lemma RefreshIs(ts: seq<XmlTree.Tree>, new_: seq<XmlTree.Tree>)
    ensures Refresh(ts, new_) == AddNew(RemoveOld(ts, false), new_)
  {
  }

  // ----- printed reports -----

  lemma {:induction false} EntriesBack(devices: seq<Device>)
    ensures Numbered(SundtekReport.Entries(devices)) && Devices(SundtekReport.Entries(devices)) == devices
  {
    if devices != [] {
      var one, rest := SundtekReport.Entries([devices[0]])[0], SundtekReport.Entries(devices[1..]);
      EntriesBack(devices[1..]);
      assert SundtekReport.Entries(devices) == [one] + rest;
      hide SundtekReport.Entries;
      NumberedFirst(one, rest);
      assert devices == [devices[0]] + devices[1..];
    }
  }

  lemma NumberedFirst(one: SundtekReport.Entry, rest: seq<SundtekReport.Entry>)
    requires one.serial.Some? && Numbered(rest)
    ensures Numbered([one] + rest)
    ensures Devices([one] + rest) == [Device(one.name, one.serial.value, one.cable)] + Devices(rest)
  {
    var es := [one] + rest;
    assert es[1..] == rest;
    assert forall i :: 0 < i < |es| ==> es[i] == rest[i - 1];
  }

  /** From a printed report to the files: the refresh is the one with exactly the printed devices. */
  lemma PrintedReport(header: seq<string>, devices: seq<Device>, layouts: seq<SundtekReport.Layout>,
                      backup: CopyFault, parsed: Option<seq<XmlTree.Tree>>, save: SaveFault, stop: nat)
    requires SundtekReport.Sections(header) && !SundtekReport.AnyDvb(header)
    requires SundtekReport.AllPrintedWell(devices, layouts)
    ensures var report := header + SundtekReport.Report(SundtekReport.PrintedBlocks(devices, layouts));
            && SundtekEvent(report, backup, parsed, save, stop)
            == Event(backup, parsed, SundtekTuners(devices), save, stop)
            && !ReportRaises(report, parsed)
  {
    SundtekReport.DevicesFound(header, devices, layouts);
    EntriesBack(devices);
    hide SundtekReport.Parse, SundtekReport.Entries, Numbered, Devices, SundtekReport.Report,
         SundtekReport.PrintedBlocks;
  }

  /** From a printed report to what can be chosen: the setting of device `i` is offered cable television exactly if
      one of the sections behind its serial number has one of the three headers, and satellite television exactly
      if none has. */
  lemma OfferedAsPrinted(header: seq<string>, devices: seq<Device>, layouts: seq<SundtekReport.Layout>, i: nat,
                         backup: CopyFault, parsed: Option<seq<XmlTree.Tree>>, save: SaveFault, stop: nat)
    requires SundtekReport.Sections(header) && !SundtekReport.AnyDvb(header)
    requires SundtekReport.AllPrintedWell(devices, layouts) && i < |devices|
    ensures var report := header + SundtekReport.Report(SundtekReport.PrintedBlocks(devices, layouts));
            var settings := Generated(SundtekEvent(report, backup, parsed, save, stop).tuners);
            && |settings| == 3 * |devices| && settings[3 * i].Element?
            && (Offers(settings[3 * i].attrs, "DVB-C") <==> SundtekReport.AnyDvb(layouts[i].late))
            && (Offers(settings[3 * i].attrs, "DVB-S") <==> !SundtekReport.AnyDvb(layouts[i].late))
  {
    PrintedReport(header, devices, layouts, backup, parsed, save, stop);
    assert SundtekReport.PrintedWell(devices[i], layouts[i]);
    SettingsOfDevice(devices, i);
    DeviceOffers(devices[i]);
    FirstOfDevice(devices[i]);
    hide SundtekEvent, Sundtek, SundtekOne, Offers, DeviceMode, SundtekReport.AnyDvb, SundtekReport.Report,
         SundtekReport.PrintedBlocks, SundtekReport.Core, SundtekReport.AllSpace, SundtekReport.IsSerial,
         SundtekReport.Sections;
    assert Sundtek(devices)[3 * i] == Sundtek(devices)[3 * i..3 * i + 3][0];
  }

  lemma FirstOfDevice(d: Device)
    ensures |SundtekOne(d)| == 3 && SundtekOne(d)[0] == Setting(DeviceMode(d))
            == XmlTree.Element("setting", DeviceMode(d), [])
  {
  }

  /** Without a failure, the file is the print of the document refreshed with the printed devices. */
  lemma PrintedReportSaved(s: Files, header: seq<string>, devices: seq<Device>, layouts: seq<SundtekReport.Layout>,
                           backup: CopyFault, ts: seq<XmlTree.Tree>, stop: nat)
    requires SundtekReport.Sections(header) && !SundtekReport.AnyDvb(header)
    requires SundtekReport.AllPrintedWell(devices, layouts)
    requires Writable(ts) && AsciiRefresh(ts, SundtekTuners(devices))
    requires s.backup.Some? || (s.settings.Some? && backup.Copies?)
    ensures var report := header + SundtekReport.Report(SundtekReport.PrintedBlocks(devices, layouts));
            Step(s, SundtekEvent(report, backup, Some(ts), Saves, stop)).settings
            == Some(Saved(Refresh(ts, Sundtek(devices))))
  {
    hide *;
    var e := Event(backup, Some(ts), SundtekTuners(devices), Saves, stop);
    PrintedReport(header, devices, layouts, backup, Some(ts), Saves, stop);
    RefreshPrintsAscii(ts, SundtekTuners(devices));
    GeneratedIs(SundtekTuners(devices));
    StepCases(s, e);
    BackupCases(s, backup);
    SaveCases(Files.Files(s.settings, if s.backup.Some? then s.backup else Copied(s.settings, None, backup)),
              Saved(Refresh(ts, Sundtek(devices))), Saves, stop);
  }

  lemma BackupCases(s: Files, backup: CopyFault)
    ensures CopyRaises(s.settings, backup) <==> s.settings.None? || !backup.Copies?
  {
  }

  /** Where the report makes the refresh fail, the settings file stays what it was, and the backup is what
      `settings_backup` made it. */
  lemma FailedReport(s: Files, report: seq<string>, backup: CopyFault, parsed: Option<seq<XmlTree.Tree>>,
                     save: SaveFault, stop: nat)
    requires ReportRaises(report, parsed)
    ensures var s' := Step(s, SundtekEvent(report, backup, parsed, save, stop));
            && s'.settings == s.settings
            && s'.backup == if s.backup.Some? then s.backup else Copied(s.settings, None, backup)
  {
    hide *;
    EventCases(report, backup, parsed, save, stop);
    StepCases(s, Event(backup, None, SundtekTuners([]), save, stop));
  }
}
