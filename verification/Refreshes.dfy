/** Refreshes with real tuner lists: what the add-ons generate can always be written, so the laws of the
    file hold for every list of tuners. */
module Refreshes {
  import opened XmlMarkup
  import opened LinePrinter
  import opened TagLines
  import opened XmlTree
  import opened TunerTree
  import opened TunerTokens
  import opened TunerPieces
  import opened Settling
  import opened SavedFile
  import opened StillWritable
  import opened RefreshLaws
  import Sorting

  // ----- generated settings can be written -----

  predicate PlainNames(attrs: map<string, string>) {
    forall n :: n in attrs ==> GoodName(n)
  }

  lemma AttributesGood(attrs: map<string, string>)
    requires PlainNames(attrs)
    ensures GoodAttrs(Attributes(attrs))
  {
    hide Escape, GoodName, Sorting.Sorted, Sorting.Below;
    var names := Sorting.Sorted(attrs.Keys);
    forall i | 0 <= i < |Attributes(attrs)|
      ensures GoodAttr(Attributes(attrs)[i])
    {
      assert names[i] in names;
      assert Attributes(attrs)[i] == Attr(" ", names[i], Escape(attrs[names[i]]));
      EscapeSafe(attrs[names[i]]);
    }
  }

  /** A name without a colon does not take the wrapping branch. */
  lemma WordTag(name: string, attrs: seq<Attr>)
    requires name != "" && forall i :: 0 <= i < |name| ==> IsWord(name[i])
    ensures !Prefixed(Tag(SelfClosing, name, attrs, "")) && GoodName(name)
  {
    hide WordLen;
    var m := Tag(SelfClosing, name, attrs, "");
    assert Head(m) == "<" + name;
    assert Head(m)[1] == name[0];
    assert Head(m)[1..] == name;
    WordAll(name);
  }

  lemma SettingWritable(attrs: map<string, string>)
    requires PlainNames(attrs)
    ensures Writable([Setting(attrs)])
  {
    var node := Empty("setting", attrs);
    assert forall i :: 0 <= i < |"setting"| ==> IsWord("setting"[i]);
    GoodSetting("setting", attrs);
    hide *;
    SettingIsElement(attrs);
    WritableElement("setting", attrs, []);
  }

  lemma SettingIsElement(attrs: map<string, string>)
    ensures Setting(attrs) == Element("setting", attrs, [])
  {
  }

  lemma GoodSetting(name: string, attrs: map<string, string>)
    requires PlainNames(attrs) && name != "" && forall i :: 0 <= i < |name| ==> IsWord(name[i])
    ensures GoodNode(Empty(name, attrs))
  {
    hide Attributes, Prefixed, FullName, GoodAttrs, GoodName;
    AttributesGood(attrs);
    WordTag(name, Attributes(attrs));
  }

  lemma GoodEnd(name: string)
    requires name != "" && forall i :: 0 <= i < |name| ==> IsWord(name[i])
    ensures GoodNode(End(name))
  {
    WordTag(name, []);
    hide GoodName, Prefixed, FullName, OneLine;
    EndNotPrefixed(name);
    EndIs(name);
  }

  lemma EndIs(name: string)
    ensures Written(End(name)) == Tag(Closing, name, [], "")
  {
  }

  lemma EndNotPrefixed(name: string)
    requires name != "" && forall i :: 0 <= i < |name| ==> IsWord(name[i])
    ensures !Prefixed(Tag(Closing, name, [], ""))
  {
    hide WordLen;
    var m := Tag(Closing, name, [], "");
    assert Head(m) == "</" + name;
    assert Head(m)[1] == '/' && Head(m)[2..] == name;
    WordAll(name);
  }

  lemma GoodNames()
    ensures GoodName("id") && GoodName("label") && GoodName("type") && GoodName("default")
    ensures GoodName("values") && GoodName("mask")
  {
  }

  lemma AttributeNames(attrs: map<string, string>)
    requires attrs.Keys <= {"id", "label", "type", "default", "values", "mask"}
    ensures PlainNames(attrs)
  {
    GoodNames();
    hide GoodName;
    assert forall n :: n in attrs ==> n in attrs.Keys;
  }

  lemma HdhomerunNames(tuner: string)
    ensures PlainNames(DvbMode(tuner)) && PlainNames(UseFullName(tuner)) && PlainNames(Numbers(tuner))
            && PlainNames(Disable(tuner))
  {
    AttributeNames(DvbMode(tuner));
    AttributeNames(UseFullName(tuner));
    AttributeNames(Numbers(tuner));
    AttributeNames(Disable(tuner));
  }

  lemma SundtekNames(d: Device)
    ensures PlainNames(DeviceMode(d)) && PlainNames(Protocol(d)) && PlainNames(Keymap(d))
  {
    AttributeNames(DeviceMode(d));
    AttributeNames(Protocol(d));
    AttributeNames(Keymap(d));
  }

  lemma HdhomerunOneWritable(tuner: string)
    ensures Writable(HdhomerunOne(tuner))
  {
    HdhomerunNames(tuner);
    hide Writable, Setting, DvbMode, UseFullName, Numbers, Disable, PlainNames;
    var a, b, c, d := Setting(DvbMode(tuner)), Setting(UseFullName(tuner)), Setting(Numbers(tuner)),
        Setting(Disable(tuner));
    SettingWritable(DvbMode(tuner));
    SettingWritable(UseFullName(tuner));
    SettingWritable(Numbers(tuner));
    SettingWritable(Disable(tuner));
    WritableAppend([a], [b]);
    WritableAppend([a] + [b], [c]);
    WritableAppend([a] + [b] + [c], [d]);
    assert HdhomerunOne(tuner) == [a] + [b] + [c] + [d];
  }

  lemma SundtekOneWritable(device: Device)
    ensures Writable(SundtekOne(device))
  {
    SundtekNames(device);
    hide Writable, Setting, DeviceMode, Protocol, Keymap, PlainNames;
    var a, b, c := Setting(DeviceMode(device)), Setting(Protocol(device)), Setting(Keymap(device));
    SettingWritable(DeviceMode(device));
    SettingWritable(Protocol(device));
    SettingWritable(Keymap(device));
    WritableAppend([a], [b]);
    WritableAppend([a] + [b], [c]);
    assert SundtekOne(device) == [a] + [b] + [c];
  }

  lemma {:induction false} HdhomerunWritable(tuners: seq<string>)
    ensures Writable(Hdhomerun(tuners))
  {
    NothingWritable();
    hide Writable, HdhomerunOne;
    if tuners != [] {
      HdhomerunOneWritable(tuners[0]);
      HdhomerunWritable(tuners[1..]);
      WritableAppend(HdhomerunOne(tuners[0]), Hdhomerun(tuners[1..]));
    }
  }

  lemma {:induction false} SundtekWritable(devices: seq<Device>)
    ensures Writable(Sundtek(devices))
  {
    NothingWritable();
    hide Writable, SundtekOne;
    if devices != [] {
      SundtekOneWritable(devices[0]);
      SundtekWritable(devices[1..]);
      WritableAppend(SundtekOne(devices[0]), Sundtek(devices[1..]));
    }
  }

  /** Whatever the tuners are called. */
  lemma GeneratedWritable(tuners: Tuners)
    ensures Fresh(Generated(tuners)) && Writable(Generated(tuners))
  {
    GeneratedFresh(tuners);
    hide Writable, Fresh;
    match tuners
    case HdhomerunTuners(names) => HdhomerunWritable(names);
    case SundtekTuners(devices) => SundtekWritable(devices);
  }

  // ----- runs of refreshes -----

  /** A settings document without what a parser does not keep, tuner settings aside. */
  predicate Original(ts: seq<Tree>) {
    NoTopText(ts) && Writable(ts) && SteadyDocument(RemoveOld(ts, false))
  }

  /** `trees[i]` is what the parser makes of the file when refresh `i` starts. */
  ghost predicate FaultFree(trees: seq<seq<Tree>>, tuners: seq<Tuners>) {
    && |trees| == |tuners| && (trees != [] ==> Original(trees[0]))
    && forall i {:trigger trees[i]} :: 0 < i < |trees| ==>
         Parsed(Saved(Refresh(trees[i - 1], Generated(tuners[i - 1]))), trees[i])
  }

  lemma {:induction false} LaterFiles(trees: seq<seq<Tree>>, tuners: seq<Tuners>, i: nat)
    requires FaultFree(trees, tuners) && i < |trees|
    ensures Saved(Refresh(trees[i], Generated(tuners[i]))) == Saved(Refresh(trees[0], Generated(tuners[i])))
  {
    hide Parsed, Saved, Refresh, Generated, NoTopText, Writable, SteadyDocument, Fresh;
    if i > 0 {
      LaterFiles(trees, tuners, i - 1);
      assert Parsed(Saved(Refresh(trees[i - 1], Generated(tuners[i - 1]))), trees[i]);
      GeneratedWritable(tuners[i - 1]);
      GeneratedWritable(tuners[i]);
      SameFileAgain(trees[0], Generated(tuners[i - 1]), trees[i], Generated(tuners[i]));
    }
  }

  /** After any number of refreshes the file depends on the first document and the last list of tuners only. */
  lemma HistoryForgotten(trees: seq<seq<Tree>>, tuners: seq<Tuners>, i: nat, j: nat)
    requires FaultFree(trees, tuners) && i < |trees| && j < |trees| && tuners[i] == tuners[j]
    ensures Saved(Refresh(trees[i], Generated(tuners[i]))) == Saved(Refresh(trees[j], Generated(tuners[j])))
  {
    hide FaultFree, Saved, Refresh, Generated;
    LaterFiles(trees, tuners, i);
    LaterFiles(trees, tuners, j);
  }

  // ----- an example that is not steady -----

  const TABBED := "a\tb"

  function TabbedLabel(): seq<Tree> {
    [Element("settings", map["label" := TABBED], [])]
  }

  lemma TabbedWritable()
    ensures Writable(TabbedLabel()) && NoTopText(TabbedLabel())
  {
    var attrs := map["label" := TABBED];
    AttributeNames(attrs);
    assert forall i :: 0 <= i < |"settings"| ==> IsWord("settings"[i]);
    hide Writable, GoodNode, PlainNames;
    GoodSetting("settings", attrs);
    WritableElement("settings", attrs, []);
  }

  lemma TabbedUnsteady()
    ensures !SteadyDocument(TabbedLabel())
  {
    var attrs := map["label" := TABBED];
    TokensOne("settings", attrs, []);
    RefreshLaws.OneMark(Empty("settings", attrs), "");
    var ps := View(TabbedLabel());
    assert ps[0].node == Empty("settings", attrs);
    assert Moved(TABBED[1]);
    assert "label" in attrs && !OnOneLine(attrs["label"]);
    assert !SteadyNode(ps[0].node);
  }

  lemma TabbedStays()
    ensures RemoveOld(TabbedLabel(), false) == TabbedLabel() && NoReturns(TabbedLabel())
  {
    assert TabbedLabel()[1..] == [];
    assert RemoveOld([], false) == [];
  }

  /** A tab in a value is written as it is and read as a space: the second refresh changes the file, whatever the
      tuners are. */
  lemma TabIsLost(first: Tuners, again: seq<Tree>, second: Tuners)
    requires Parsed(Saved(Refresh(TabbedLabel(), Generated(first))), again)
    ensures Saved(Refresh(again, Generated(second))) != Saved(Refresh(TabbedLabel(), Generated(second)))
  {
    hide *;
    TabbedWritable();
    TabbedUnsteady();
    TabbedStays();
    GeneratedWritable(first);
    GeneratedWritable(second);
    SameFileAgain(TabbedLabel(), Generated(first), again, Generated(second));
  }
}
