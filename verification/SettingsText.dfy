/** What a refresh writes, character by character: the line of every generated setting, and a whole file
    (packages/addons/official/driver/hdhomerun/source/resources/lib/functions.py,
    packages/addons/official/driver/sundtek-mediatv/source/resources/lib/functions.py). */
module SettingsText {
  import opened Text
  import opened XmlMarkup
  import opened LinePrinter
  import opened TagLines
  import opened PrettyPrinter
  import opened XmlTree
  import opened TunerTree
  import opened TunerTokens
  import opened SavedFile
  import opened Refreshes
  import opened Instructions
  import Sorting

  // ----- tags -----

  function Named(name: string, value: string): string {
    " " + name + "=\"" + Escape(value) + "\""
  }

  function AllNamed(nvs: seq<(string, string)>): string {
    if nvs == [] then "" else Named(nvs[0].0, nvs[0].1) + AllNamed(nvs[1..])
  }

  function SettingLine(nvs: seq<(string, string)>): string {
    "<setting" + AllNamed(nvs) + "/>"
  }

  function Names(nvs: seq<(string, string)>): (r: seq<string>)
    ensures |r| == |nvs| && forall i :: 0 <= i < |nvs| ==> r[i] == nvs[i].0
  {
    if nvs == [] then [] else [nvs[0].0] + Names(nvs[1..])
  }

  /** These are the attributes, in the order of the first characters of their names. */
  predicate Lists(nvs: seq<(string, string)>, attrs: map<string, string>) {
    && (forall i, j :: 0 <= i < j < |nvs| ==> nvs[i].0 != "" && nvs[j].0 != "" && nvs[i].0[0] < nvs[j].0[0])
    && (forall i :: 0 <= i < |nvs| ==> nvs[i].0 in attrs && attrs[nvs[i].0] == nvs[i].1)
    && (forall n :: n in attrs ==> exists i :: 0 <= i < |nvs| && nvs[i].0 == n)
  }

  lemma NamesIncrease(nvs: seq<(string, string)>)
    requires forall i, j :: 0 <= i < j < |nvs| ==> nvs[i].0 != "" && nvs[j].0 != "" && nvs[i].0[0] < nvs[j].0[0]
    ensures Sorting.Increasing(Names(nvs))
  {
  }

  lemma NamesIn(nvs: seq<(string, string)>, attrs: map<string, string>, x: string)
    requires Lists(nvs, attrs)
    ensures x in Names(nvs) <==> x in attrs.Keys
  {
    var b := Names(nvs);
    hide Names, Escape;
    if x in b {
      var i :| 0 <= i < |b| && b[i] == x;
      assert nvs[i].0 == x;
    }
    if x in attrs {
      var i :| 0 <= i < |nvs| && nvs[i].0 == x;
      assert b[i] == x;
    }
  }

  lemma NamesSorted(nvs: seq<(string, string)>, attrs: map<string, string>)
    requires Lists(nvs, attrs)
    ensures Sorting.Sorted(attrs.Keys) == Names(nvs)
  {
    NamesIncrease(nvs);
    hide Names, Lists, Sorting.Sorted, Sorting.Increasing;
    var a, b := Sorting.Sorted(attrs.Keys), Names(nvs);
    forall x
      ensures x in a <==> x in b
    {
      NamesIn(nvs, attrs, x);
    }
    Sorting.IncreasingUnique(a, b);
  }

  lemma {:induction false} NamedAttrs(attrs: map<string, string>, nvs: seq<(string, string)>)
    requires forall i :: 0 <= i < |nvs| ==> nvs[i].0 in attrs && attrs[nvs[i].0] == nvs[i].1
    ensures forall n :: n in Names(nvs) ==> n in attrs
    ensures ShowAttrs(AttrList(attrs, Names(nvs))) == AllNamed(nvs)
  {
    hide Escape;
    if nvs != [] {
      assert forall i :: 0 <= i < |nvs[1..]| ==> nvs[1..][i] == nvs[i + 1];
      NamedAttrs(attrs, nvs[1..]);
      assert Names(nvs)[1..] == Names(nvs[1..]);
      NamedOne(nvs[0].0, nvs[0].1);
    }
  }

  lemma NamedOne(name: string, value: string)
    ensures " " + ShowAttr(Attr(" ", name, Escape(value))) == Named(name, value)
  {
    var v := Escape(value) + "\"";
    hide Escape;
    Around(" ", name, "=\"" + Escape(value) + "\"");
    Around(name, "=\"", v);
    Around(name + "=\"", Escape(value), "\"");
    Around(" ", name + "=\"", v);
    Around(" " + name + "=\"", Escape(value), "\"");
    Around(" ", name, "=\"");
  }

  lemma Around(a: string, b: string, c: string)
    ensures a + (b + c) == a + b + c
  {
  }

  /** A tag as it is written. */
  lemma TagText(tag: string, attrs: map<string, string>, nvs: seq<(string, string)>)
    requires Lists(nvs, attrs)
    ensures Show(Written(Empty(tag, attrs))) == "<" + tag + AllNamed(nvs) + "/>"
    ensures Show(Written(Start(tag, attrs))) == "<" + tag + AllNamed(nvs) + ">"
  {
    NamesSorted(nvs, attrs);
    NamedAttrs(attrs, nvs);
    ShowStart(tag, attrs);
    hide Show, Written, Lists, Names, AllNamed, Escape, ShowAttrs;
  }

  // ----- special characters -----

  predicate NoSpecial(s: string) {
    '&' !in s && '<' !in s && '"' !in s && '>' !in s
  }

  lemma {:induction false} EscapeNothing(s: string)
    requires NoSpecial(s)
    ensures Escape(s) == s
  {
    if s != "" {
      EscapeNothing(s[1..]);
      assert s == [s[0]] + s[1..];
    }
  }

  /** The four characters that are special in XML, and their names. */
  lemma EscapeSpecial()
    ensures Escape("&") == "&amp;" && Escape("<") == "&lt;" && Escape(">") == "&gt;" && Escape("\"") == "&quot;"
  {
  }

  // ----- the generated settings -----

  function DvbModeAttrs(tuner: string): seq<(string, string)> {
    [("default", "auto"), ("id", "ATTACHED_TUNER_" + tuner + "_DVBMODE"),
     ("label", "tuner serial " + tuner), ("type", "labelenum"), ("values", "auto|ATSC|DVB-C|DVB-T")]
  }

  function FullNameAttrs(tuner: string): seq<(string, string)> {
    [("default", "false"), ("id", "ATTACHED_TUNER_" + tuner + "_FULLNAME"), ("label", "9020"), ("type", "bool")]
  }

  function NumbersAttrs(tuner: string): seq<(string, string)> {
    [("default", "2"), ("id", "ATTACHED_TUNER_" + tuner + "_NUMBERS"), ("label", "9025"),
     ("type", "labelenum"), ("values", "1|2|3|4|5|6|7|8")]
  }

  function DisableAttrs(tuner: string): seq<(string, string)> {
    [("default", "false"), ("id", "ATTACHED_TUNER_" + tuner + "_DISABLE"), ("label", "9030"), ("type", "bool")]
  }

  function DeviceModeAttrs(d: Device): seq<(string, string)> {
    [("default", if d.cable then "DVB-C" else "DVB-S"), ("id", "ATTACHED_TUNER_" + d.serial + "_DVBMODE"),
     ("label", d.name + ", " + d.serial), ("type", "labelenum"),
     ("values", if d.cable then "DVB-C|DVB-T" else "DVB-S")]
  }

  function ProtocolAttrs(d: Device): seq<(string, string)> {
    [("default", "auto"), ("id", "ATTACHED_TUNER_" + d.serial + "_IRPROT"), ("label", "9020"),
     ("type", "labelenum"), ("values", "auto|RC5|NEC|RC6")]
  }

  function KeymapAttrs(d: Device): seq<(string, string)> {
    [("default", "/storage/.kodi/" + "userdata/addon_data/" + "driver.dvb." + "sundtek-mediatv/"),
     ("id", "ATTACHED_TUNER_" + d.serial + "_KEYMAP"), ("label", "9030"), ("mask", "*.map"), ("type", "file")]
  }

  /** In order by their first characters. */
  predicate Before(a: string, b: string) {
    a != "" && b != "" && a[0] < b[0]
  }

  lemma ListedSnoc(nvs: seq<(string, string)>, e: (string, string), attrs: map<string, string>)
    requires Lists(nvs, attrs) && (nvs != [] ==> Before(nvs[|nvs| - 1].0, e.0)) && e.0 != ""
    ensures Lists(nvs + [e], attrs[e.0 := e.1])
  {
    var all, more := nvs + [e], attrs[e.0 := e.1];
    assert forall i :: 0 <= i < |nvs| ==> all[i] == nvs[i] && nvs[i].0 != "" && nvs[i].0[0] < e.0[0];
    assert all[|nvs|] == e;
    forall n | n in more
      ensures exists i :: 0 <= i < |all| && all[i].0 == n
    {
      if n in attrs {
        var i :| 0 <= i < |nvs| && nvs[i].0 == n;
        assert all[i].0 == n;
      }
    }
  }

  lemma OneListed(a: (string, string))
    requires a.0 != ""
    ensures Lists([a], map[a.0 := a.1])
  {
    ListedSnoc([], a, map[]);
    assert [] + [a] == [a];
  }

  lemma TwoListed(a: (string, string), b: (string, string))
    requires Before(a.0, b.0)
    ensures Lists([a, b], map[a.0 := a.1, b.0 := b.1])
  {
    hide Lists;
    OneListed(a);
    ListedSnoc([a], b, map[a.0 := a.1]);
    assert [a] + [b] == [a, b];
  }

  lemma FourListed(a: (string, string), b: (string, string), c: (string, string), d: (string, string),
                   attrs: map<string, string>)
    requires Before(a.0, b.0) && Before(b.0, c.0) && Before(c.0, d.0)
    requires attrs == map[a.0 := a.1, b.0 := b.1, c.0 := c.1, d.0 := d.1]
    ensures Lists([a, b, c, d], attrs)
  {
    hide Lists;
    TwoListed(a, b);
    ListedSnoc([a, b], c, map[a.0 := a.1, b.0 := b.1]);
    assert [a, b] + [c] == [a, b, c];
    ListedSnoc([a, b, c], d, map[a.0 := a.1, b.0 := b.1, c.0 := c.1]);
    assert [a, b, c] + [d] == [a, b, c, d];
  }

  lemma FiveListed(a: (string, string), b: (string, string), c: (string, string), d: (string, string),
                   e: (string, string), attrs: map<string, string>)
    requires Before(a.0, b.0) && Before(b.0, c.0) && Before(c.0, d.0) && Before(d.0, e.0)
    requires attrs == map[a.0 := a.1, b.0 := b.1, c.0 := c.1, d.0 := d.1, e.0 := e.1]
    ensures Lists([a, b, c, d, e], attrs)
  {
    hide Lists;
    FourListed(a, b, c, d, map[a.0 := a.1, b.0 := b.1, c.0 := c.1, d.0 := d.1]);
    ListedSnoc([a, b, c, d], e, map[a.0 := a.1, b.0 := b.1, c.0 := c.1, d.0 := d.1]);
    assert [a, b, c, d] + [e] == [a, b, c, d, e];
  }

  lemma NamesInOrder()
    ensures Before("default", "id") && Before("id", "label") && Before("label", "type") && Before("type", "values")
    ensures Before("label", "mask") && Before("mask", "type")
  {
  }

  lemma KeysDiffer()
    ensures "default" != "id" && "default" != "label" && "default" != "type" && "default" != "values"
    ensures "default" != "mask" && "id" != "label" && "id" != "type" && "id" != "values" && "id" != "mask"
    ensures "label" != "type" && "label" != "values" && "label" != "mask" && "type" != "values" && "type" != "mask"
  {
    var d, i, l, t, v, m := "default", "id", "label", "type", "values", "mask";
    assert d[0] == 'd' && i[0] == 'i' && l[0] == 'l' && t[0] == 't' && v[0] == 'v' && m[0] == 'm';
  }

  lemma DvbModeListed(tuner: string)
    ensures Lists(DvbModeAttrs(tuner), DvbMode(tuner))
  {
    hide Lists;
    NamesInOrder();
    KeysDiffer();
    var s := DvbModeAttrs(tuner);
    FiveListed(s[0], s[1], s[2], s[3], s[4], DvbMode(tuner));
  }

  lemma FullNameListed(tuner: string)
    ensures Lists(FullNameAttrs(tuner), UseFullName(tuner))
  {
    hide Lists;
    NamesInOrder();
    KeysDiffer();
    var s := FullNameAttrs(tuner);
    FourListed(s[0], s[1], s[2], s[3], UseFullName(tuner));
  }

  lemma NumbersListed(tuner: string)
    ensures Lists(NumbersAttrs(tuner), Numbers(tuner))
  {
    hide Lists;
    NamesInOrder();
    KeysDiffer();
    var s := NumbersAttrs(tuner);
    FiveListed(s[0], s[1], s[2], s[3], s[4], Numbers(tuner));
  }

  lemma DisableListed(tuner: string)
    ensures Lists(DisableAttrs(tuner), Disable(tuner))
  {
    hide Lists;
    NamesInOrder();
    KeysDiffer();
    var s := DisableAttrs(tuner);
    FourListed(s[0], s[1], s[2], s[3], Disable(tuner));
  }

  lemma DeviceModeListed(d: Device)
    ensures Lists(DeviceModeAttrs(d), DeviceMode(d))
  {
    hide Lists;
    NamesInOrder();
    KeysDiffer();
    var s := DeviceModeAttrs(d);
    FiveListed(s[0], s[1], s[2], s[3], s[4], DeviceMode(d));
  }

  lemma ProtocolListed(d: Device)
    ensures Lists(ProtocolAttrs(d), Protocol(d))
  {
    hide Lists;
    NamesInOrder();
    KeysDiffer();
    var s := ProtocolAttrs(d);
    FiveListed(s[0], s[1], s[2], s[3], s[4], Protocol(d));
  }

  lemma KeymapListed(d: Device)
    ensures Lists(KeymapAttrs(d), Keymap(d))
  {
    hide Lists;
    NamesInOrder();
    KeysDiffer();
    var s := KeymapAttrs(d);
    FiveListed(s[0], s[1], s[2], s[3], s[4], Keymap(d));
  }

  /** Every generated setting as it is written, whatever the tuner is called. */
  lemma HdhomerunText(tuner: string)
    ensures Show(Written(Empty("setting", DvbMode(tuner)))) == SettingLine(DvbModeAttrs(tuner))
    ensures Show(Written(Empty("setting", UseFullName(tuner)))) == SettingLine(FullNameAttrs(tuner))
    ensures Show(Written(Empty("setting", Numbers(tuner)))) == SettingLine(NumbersAttrs(tuner))
    ensures Show(Written(Empty("setting", Disable(tuner)))) == SettingLine(DisableAttrs(tuner))
  {
    hide *;
    DvbModeListed(tuner);
    FullNameListed(tuner);
    NumbersListed(tuner);
    DisableListed(tuner);
    SettingText(DvbMode(tuner), DvbModeAttrs(tuner));
    SettingText(UseFullName(tuner), FullNameAttrs(tuner));
    SettingText(Numbers(tuner), NumbersAttrs(tuner));
    SettingText(Disable(tuner), DisableAttrs(tuner));
  }

  lemma SundtekText(d: Device)
    ensures Show(Written(Empty("setting", DeviceMode(d)))) == SettingLine(DeviceModeAttrs(d))
    ensures Show(Written(Empty("setting", Protocol(d)))) == SettingLine(ProtocolAttrs(d))
    ensures Show(Written(Empty("setting", Keymap(d)))) == SettingLine(KeymapAttrs(d))
  {
    hide *;
    DeviceModeListed(d);
    ProtocolListed(d);
    KeymapListed(d);
    SettingText(DeviceMode(d), DeviceModeAttrs(d));
    SettingText(Protocol(d), ProtocolAttrs(d));
    SettingText(Keymap(d), KeymapAttrs(d));
  }

  lemma SettingText(attrs: map<string, string>, nvs: seq<(string, string)>)
    requires Lists(nvs, attrs)
    ensures Show(Written(Empty("setting", attrs))) == SettingLine(nvs)
  {
    TagText("setting", attrs, nvs);
    assert "<" + "setting" == "<setting";
    hide Show, Written, Lists, AllNamed;
  }

  // ----- a document without text -----

  function Marks(nodes: seq<Node>): (r: seq<Token>)
    ensures |r| == |nodes| && forall i :: 0 <= i < |nodes| ==> r[i] == Mark(nodes[i])
  {
    if nodes == [] then [] else [Mark(nodes[0])] + Marks(nodes[1..])
  }

  /** The lines of the nodes, indented by two spaces a level. */
  function Indented(nodes: seq<Node>, level: int): seq<string> {
    if nodes == [] then []
    else
      var m := Written(nodes[0]);
      [Spaces(LevelAt(m, level, 2)) + Show(m)] + Indented(nodes[1..], LevelAfter(m, level, 2))
  }

  predicate NonePrefixed(nodes: seq<Node>) {
    forall i :: 0 <= i < |nodes| ==> !Prefixed(Written(nodes[i]))
  }

  lemma LineAlone(m: Markup, level: int)
    requires !Prefixed(m)
    ensures RenderOne(Segment("", m), level, 2, 80) == Spaces(LevelAt(m, level, 2)) + Show(m) + "\n"
  {
    StripBlank("");
    hide Show, Strip, Prefixed, LevelAt;
    var line := Spaces(LevelAt(m, level, 2)) + Show(m) + "\n";
    assert ContentText(level, Strip("")) == "";
    assert "" + line == line;
  }

  lemma {:induction false} RenderMarks(nodes: seq<Node>, level: int)
    requires NonePrefixed(nodes)
    ensures Render(WrittenAll(Pieces(Marks(nodes), "")), level, 2, 80) == Unlines(Indented(nodes, level))
  {
    hide Show, Written, RenderOne, Prefixed, LevelAt, LevelAfter;
    if nodes != [] {
      var m, rest := Written(nodes[0]), Pieces(Marks(nodes[1..]), "");
      assert forall i :: 0 <= i < |nodes[1..]| ==> nodes[1..][i] == nodes[i + 1];
      RenderMarks(nodes[1..], LevelAfter(m, level, 2));
      LineAlone(m, level);
      assert Marks(nodes)[1..] == Marks(nodes[1..]);
      PieceFirst(nodes[0], rest);
      UnlinesFirst(Spaces(LevelAt(m, level, 2)) + Show(m), Indented(nodes[1..], LevelAfter(m, level, 2)));
    }
  }

  lemma PieceFirst(node: Node, rest: seq<Piece>)
    ensures WrittenAll([Piece("", node)] + rest) == [Segment("", Written(node))] + WrittenAll(rest)
  {
    assert ([Piece("", node)] + rest)[1..] == rest;
    assert Escape("") == "";
    hide Written, Escape;
  }

  // ----- a whole file -----

  const PRE_WAIT := map["id" := "PRE_WAIT", "label" := "1020"]
  const OLD_TUNER := map["id" := "ATTACHED_TUNER_101ADD2B-1_DISABLE", "label" := "9030"]
  const REFRESH_BUTTON := map["id" := "refresh_tuners", "label" := "9010"]

  function Category(number: string, kids: seq<Tree>): Tree {
    Element("category", map["label" := number], kids)
  }

  /** The settings of the add-on in short, with a setting left by an earlier refresh. */
  function ShortSettings(): seq<Tree> {
    [Element("settings", map[],
             [Category("1000", [Setting(PRE_WAIT)]),
              Category("9000", [Setting(OLD_TUNER), Setting(REFRESH_BUTTON)])])]
  }

  function ShortRefreshed(tuner: string): seq<Tree> {
    [Element("settings", map[],
             [Category("1000", [Setting(PRE_WAIT)]),
              Category("9000", [Setting(REFRESH_BUTTON)] + HdhomerunOne(tuner))])]
  }

  lemma WhichAreOld()
    ensures IsOld("setting", OLD_TUNER) && !IsOld("setting", REFRESH_BUTTON) && !IsOld("setting", PRE_WAIT)
  {
    OldExactly("setting", OLD_TUNER, []);
    OldExactly("setting", REFRESH_BUTTON, []);
    OldExactly("setting", PRE_WAIT, []);
    hide IsOld;
    assert OLD_TUNER["id"][..15] == "ATTACHED_TUNER_";
    assert REFRESH_BUTTON["id"][0] == 'r' && PRE_WAIT["id"][0] == 'P';
  }

  lemma WhichMark()
    ensures IsMarker("setting", REFRESH_BUTTON) && !IsMarker("setting", PRE_WAIT)
  {
    MarkerExactly("setting", REFRESH_BUTTON, []);
    MarkerExactly("setting", PRE_WAIT, []);
    hide IsMarker;
    assert At("9010", "9010", 0);
    NineIsNot();
  }

  lemma NineIsNot()
    ensures !Contains("1020", "9010")
  {
    if k :| 0 <= k <= 4 && At("1020", "9010", k) {
      AtChar("1020", "9010", k, 0);
    }
  }

  lemma RemoveSetting(attrs: map<string, string>, rest: seq<Tree>)
    ensures RemoveOld([Setting(attrs)] + rest, true)
            == (if IsOld("setting", attrs) then [] else [Setting(attrs)]) + RemoveOld(rest, true)
  {
    hide IsOld;
    assert ([Setting(attrs)] + rest)[1..] == rest;
    assert RemoveOld([], true) == [];
  }

  lemma RemoveCategory(number: string, kids: seq<Tree>, rest: seq<Tree>)
    ensures RemoveOld([Category(number, kids)] + rest, false)
            == [Category(number, RemoveOld(kids, true))] + RemoveOld(rest, false)
  {
    assert ([Category(number, kids)] + rest)[1..] == rest;
  }

  lemma RemoveRoot(kids: seq<Tree>)
    ensures RemoveOld([Element("settings", map[], kids)], false)
            == [Element("settings", map[], RemoveOld(kids, false))]
  {
    assert [Element("settings", map[], kids)][1..] == [];
    assert "settings"[7] == 's' && |"category"| == 8 && "category"[7] == 'y';
  }

  lemma AddSettings(attrs: map<string, string>, new_: seq<Tree>)
    ensures AddNew([Setting(attrs)], new_) == [Setting(attrs)]
    ensures HasMarker([Setting(attrs)]) <==> IsMarker("setting", attrs)
  {
    hide IsMarker;
    assert [Setting(attrs)][1..] == [];
    assert "setting"[0] != "category"[0];
    assert Setting(attrs).kids == [] && !HasMarker([]);
    assert AddNew([], new_) == [] && AddNew([], new_) + [] == AddNew([], new_);
  }

  lemma AddCategory(number: string, kids: seq<Tree>, rest: seq<Tree>, new_: seq<Tree>)
    ensures AddNew([Category(number, kids)] + rest, new_)
            == [Category(number, AddNew(kids, new_) + if HasMarker(kids) then new_ else [])] + AddNew(rest, new_)
  {
    assert ([Category(number, kids)] + rest)[1..] == rest;
  }

  lemma AddRoot(kids: seq<Tree>, new_: seq<Tree>)
    ensures AddNew([Element("settings", map[], kids)], new_) == [Element("settings", map[], AddNew(kids, new_))]
  {
    assert [Element("settings", map[], kids)][1..] == [];
    assert "settings"[7] == 's' && |"category"| == 8 && "category"[7] == 'y';
    assert AddNew(kids, new_) + [] == AddNew(kids, new_);
  }

  lemma NothingLeft(new_: seq<Tree>)
    ensures RemoveOld([], true) == [] && RemoveOld([], false) == [] && AddNew([], new_) == []
  {
  }

  lemma OneTuner(tuner: string)
    ensures Hdhomerun([tuner]) == HdhomerunOne(tuner)
  {
    hide HdhomerunOne;
    assert [tuner][1..] == [];
    assert HdhomerunOne(tuner) + [] == HdhomerunOne(tuner);
  }

  /** The setting left over goes, the new ones come after the button, and the first category stays. */
  lemma ShortRefresh(tuner: string)
    ensures Refresh(ShortSettings(), Hdhomerun([tuner])) == ShortRefreshed(tuner)
  {
    WhichAreOld();
    WhichMark();
    OneTuner(tuner);
    var new_ := HdhomerunOne(tuner);
    NothingLeft(new_);
    hide RemoveOld, AddNew, HasMarker, IsOld, IsMarker, Setting, HdhomerunOne, Category, Hdhomerun;
    var a, b, c := Setting(PRE_WAIT), Setting(OLD_TUNER), Setting(REFRESH_BUTTON);
    RemoveSetting(PRE_WAIT, []);
    RemoveSetting(OLD_TUNER, [c]);
    RemoveSetting(REFRESH_BUTTON, []);
    assert [a] + [] == [a] && [b] + [c] == [b, c] && [c] + [] == [c] && [] + [c] == [c];
    var p, q := Category("1000", [a]), Category("9000", [b, c]);
    RemoveCategory("1000", [a], [q]);
    RemoveCategory("9000", [b, c], []);
    assert [p] + [q] == [p, q] && [q] + [] == [q];
    RemoveRoot([p, q]);
    var r := Category("9000", [c]);
    assert RemoveOld([p, q], false) == [p, r];
    AddSettings(PRE_WAIT, new_);
    AddSettings(REFRESH_BUTTON, new_);
    AddCategory("1000", [a], [r], new_);
    AddCategory("9000", [c], [], new_);
    assert [p] + [r] == [p, r] && [r] + [] == [r];
    AddRoot([p, r], new_);
    assert AddNew([p, r], new_) == [Category("1000", [a] + []), Category("9000", [c] + new_)];
  }

  /** The nodes of the refreshed settings, in the order in which they are written. */
  function ShortNodes(tuner: string): seq<Node> {
    [Start("settings", map[]), Start("category", map["label" := "1000"]), Empty("setting", PRE_WAIT), End("category"),
     Start("category", map["label" := "9000"]), Empty("setting", REFRESH_BUTTON),
     Empty("setting", DvbMode(tuner)), Empty("setting", UseFullName(tuner)), Empty("setting", Numbers(tuner)),
     Empty("setting", Disable(tuner)), End("category"), End("settings")]
  }

  lemma TokensFirst(t: Tree, rest: seq<Tree>)
    ensures Tokens([t] + rest) == Tokens([t]) + Tokens(rest)
  {
    TokensAppend([t], rest);
  }

  lemma TokensSetting(attrs: map<string, string>)
    ensures Tokens([Setting(attrs)]) == [Mark(Empty("setting", attrs))]
  {
    TokensOne("setting", attrs, []);
  }

  lemma TokensAround(tag: string, attrs: map<string, string>, kids: seq<Tree>)
    requires kids != []
    ensures Tokens([Element(tag, attrs, kids)]) == [Mark(Start(tag, attrs))] + Tokens(kids) + [Mark(End(tag))]
  {
    TokensOne(tag, attrs, kids);
  }

  lemma TokensNew(tuner: string)
    ensures Tokens(HdhomerunOne(tuner))
            == [Mark(Empty("setting", DvbMode(tuner))), Mark(Empty("setting", UseFullName(tuner))),
                Mark(Empty("setting", Numbers(tuner))), Mark(Empty("setting", Disable(tuner)))]
  {
    var a, b, c, d := DvbMode(tuner), UseFullName(tuner), Numbers(tuner), Disable(tuner);
    hide Tokens, Setting, DvbMode, UseFullName, Numbers, Disable;
    TokensSetting(a);
    TokensSetting(b);
    TokensSetting(c);
    TokensSetting(d);
    TokensFirst(Setting(a), [Setting(b), Setting(c), Setting(d)]);
    TokensFirst(Setting(b), [Setting(c), Setting(d)]);
    TokensFirst(Setting(c), [Setting(d)]);
    assert [Setting(a)] + [Setting(b), Setting(c), Setting(d)] == HdhomerunOne(tuner);
    assert [Setting(b)] + [Setting(c), Setting(d)] == [Setting(b), Setting(c), Setting(d)];
    assert [Setting(c)] + [Setting(d)] == [Setting(c), Setting(d)];
  }

  lemma ShortTokens(tuner: string)
    ensures Tokens(ShortRefreshed(tuner)) == Marks(ShortNodes(tuner))
  {
    TokensNew(tuner);
    hide Tokens, DvbMode, UseFullName, Numbers, Disable, HdhomerunOne, Setting, Marks;
    TokensSetting(PRE_WAIT);
    TokensSetting(REFRESH_BUTTON);
    TokensFirst(Setting(REFRESH_BUTTON), HdhomerunOne(tuner));
    var p, q := Category("1000", [Setting(PRE_WAIT)]),
        Category("9000", [Setting(REFRESH_BUTTON)] + HdhomerunOne(tuner));
    TokensAround("category", map["label" := "1000"], [Setting(PRE_WAIT)]);
    TokensAround("category", map["label" := "9000"], [Setting(REFRESH_BUTTON)] + HdhomerunOne(tuner));
    TokensFirst(p, [q]);
    TokensAround("settings", map[], [p, q]);
    assert [p] + [q] == [p, q];
    MarksAre(tuner);
  }

  lemma MarksAre(tuner: string)
    ensures Marks(ShortNodes(tuner))
            == [Mark(Start("settings", map[]))]
            + ([Mark(Start("category", map["label" := "1000"]))] + [Mark(Empty("setting", PRE_WAIT))]
               + [Mark(End("category"))]
               + ([Mark(Start("category", map["label" := "9000"]))]
                  + ([Mark(Empty("setting", REFRESH_BUTTON))]
                     + [Mark(Empty("setting", DvbMode(tuner))), Mark(Empty("setting", UseFullName(tuner))),
                        Mark(Empty("setting", Numbers(tuner))), Mark(Empty("setting", Disable(tuner)))])
                  + [Mark(End("category"))]))
            + [Mark(End("settings"))]
  {
    var ns := ShortNodes(tuner);
    hide DvbMode, UseFullName, Numbers, Disable, Marks, PRE_WAIT, REFRESH_BUTTON;
  }

  // ----- its lines -----

  lemma PlainTag(tag: string, attrs: map<string, string>)
    requires tag in {"settings", "category", "setting"}
    ensures !Prefixed(Written(Start(tag, attrs))) && !Prefixed(Written(Empty(tag, attrs)))
    ensures !Prefixed(Written(End(tag)))
  {
    TagWords(tag);
    WordTag(tag, Attributes(attrs));
    EndNotPrefixed(tag);
    hide ElemStartLen, Attributes;
  }

  lemma TagWords(tag: string)
    requires tag in {"settings", "category", "setting"}
    ensures tag != "" && forall i :: 0 <= i < |tag| ==> IsWord(tag[i])
  {
  }

  lemma ShortPlain(tuner: string)
    ensures NonePrefixed(ShortNodes(tuner))
  {
    hide Prefixed, Written, DvbMode, UseFullName, Numbers, Disable;
    forall i | 0 <= i < |ShortNodes(tuner)|
      ensures !Prefixed(Written(ShortNodes(tuner)[i]))
    {
      match ShortNodes(tuner)[i] {
        case Start(tag, attrs) => PlainTag(tag, attrs);
        case Empty(tag, attrs) => PlainTag(tag, attrs);
        case End(tag) => PlainTag(tag, map[]);
        case Plain(_) => assert false;
      }
    }
  }

  lemma CategoryText(number: string)
    ensures Show(Written(Start("category", map["label" := number]))) == "<category" + Named("label", number) + ">"
  {
    OneListed(("label", number));
    TagText("category", map["label" := number], [("label", number)]);
    assert AllNamed([("label", number)]) == Named("label", number) by {
      hide Named;
      assert [("label", number)][1..] == [];
      assert Named("label", number) + "" == Named("label", number);
    }
    assert "<" + "category" == "<category";
    hide Show, Written, AllNamed, Named;
  }

  lemma ButtonText(id: string, number: string)
    ensures Show(Written(Empty("setting", map["id" := id, "label" := number])))
            == SettingLine([("id", id), ("label", number)])
  {
    NamesInOrder();
    TwoListed(("id", id), ("label", number));
    hide *;
    SettingText(map["id" := id, "label" := number], [("id", id), ("label", number)]);
  }

  lemma RootText()
    ensures Show(Written(Start("settings", map[]))) == "<settings>"
  {
    TagText("settings", map[], []);
    assert "<" + "settings" + "" + ">" == "<settings>";
    hide Show, Written;
  }

  lemma EndTexts()
    ensures Show(Written(End("category"))) == "</category>" && Show(Written(End("settings"))) == "</settings>"
  {
    ShowEnd("category");
    ShowEnd("settings");
    hide Show, Written;
  }

  /** The file, line by line. */
  function ShortLines(tuner: string): seq<string> {
    ["<?xml version=\"1.0\" ?>",
     "<settings>",
     "  " + ("<category" + Named("label", "1000") + ">"),
     "    " + SettingLine([("id", "PRE_WAIT"), ("label", "1020")]),
     "  " + "</category>",
     "  " + ("<category" + Named("label", "9000") + ">"),
     "    " + SettingLine([("id", "refresh_tuners"), ("label", "9010")]),
     "    " + SettingLine(DvbModeAttrs(tuner)),
     "    " + SettingLine(FullNameAttrs(tuner)),
     "    " + SettingLine(NumbersAttrs(tuner)),
     "    " + SettingLine(DisableAttrs(tuner)),
     "  " + "</category>",
     "</settings>"]
  }

  lemma Indents()
    ensures Spaces(0) == "" && Spaces(2) == "  " && Spaces(4) == "    "
  {
    assert Spaces(1) == " " && Spaces(3) == "   ";
  }

  lemma IndentedFirst(node: Node, rest: seq<Node>, level: int)
    ensures Indented([node] + rest, level)
            == [Spaces(LevelAt(Written(node), level, 2)) + Show(Written(node))]
               + Indented(rest, LevelAfter(Written(node), level, 2))
  {
    assert ([node] + rest)[1..] == rest;
  }

  lemma LevelsOf(tag: string, attrs: map<string, string>, level: int)
    ensures LevelAt(Written(Start(tag, attrs)), level, 2) == level
            && LevelAfter(Written(Start(tag, attrs)), level, 2) == level + 2
    ensures LevelAt(Written(Empty(tag, attrs)), level, 2) == LevelAfter(Written(Empty(tag, attrs)), level, 2) == level
    ensures LevelAt(Written(End(tag)), level, 2) == LevelAfter(Written(End(tag)), level, 2) == level - 2
  {
  }

  lemma IndentStart(tag: string, attrs: map<string, string>, rest: seq<Node>, level: int)
    ensures Indented([Start(tag, attrs)] + rest, level)
            == [Spaces(level) + Show(Written(Start(tag, attrs)))] + Indented(rest, level + 2)
  {
    LevelsOf(tag, attrs, level);
    IndentedFirst(Start(tag, attrs), rest, level);
    hide *;
  }

  lemma IndentEmpty(tag: string, attrs: map<string, string>, rest: seq<Node>, level: int)
    ensures Indented([Empty(tag, attrs)] + rest, level)
            == [Spaces(level) + Show(Written(Empty(tag, attrs)))] + Indented(rest, level)
  {
    LevelsOf(tag, attrs, level);
    IndentedFirst(Empty(tag, attrs), rest, level);
    hide *;
  }

  lemma IndentEnd(tag: string, rest: seq<Node>, level: int)
    ensures Indented([End(tag)] + rest, level)
            == [Spaces(level - 2) + Show(Written(End(tag)))] + Indented(rest, level - 2)
  {
    LevelsOf(tag, map[], level);
    IndentedFirst(End(tag), rest, level);
    hide *;
  }

  /** From node `k` on, at this level, the lines are those from `k + 1` on. */
  predicate LinesFrom(tuner: string, k: nat, level: int) {
    k <= 12 && Indented(ShortNodes(tuner)[k..], level) == ShortLines(tuner)[k + 1..]
  }

  lemma LinesStep(tuner: string, k: nat, level: int, next: int)
    requires k < 12 && LinesFrom(tuner, k + 1, next)
    requires |ShortNodes(tuner)| == 12 && |ShortLines(tuner)| == 13
    requires Indented([ShortNodes(tuner)[k]] + ShortNodes(tuner)[k + 1..], level)
             == [ShortLines(tuner)[k + 1]] + Indented(ShortNodes(tuner)[k + 1..], next)
    ensures LinesFrom(tuner, k, level)
  {
    hide Indented, ShortNodes, ShortLines;
    var ns, ls := ShortNodes(tuner), ShortLines(tuner);
    assert ns[k..] == [ns[k]] + ns[k + 1..] && ls[k + 1..] == [ls[k + 1]] + ls[k + 2..];
  }

  lemma HeadLines(tuner: string)
    ensures var t := ShortLines(tuner);
            && |t| == 13 && t[0] == Show(DECLARATION)
            && t[1] == Spaces(0) + Show(Written(Start("settings", map[])))
            && t[2] == Spaces(2) + Show(Written(Start("category", map["label" := "1000"])))
            && t[3] == Spaces(4) + Show(Written(Empty("setting", PRE_WAIT)))
            && t[4] == t[11] == Spaces(2) + Show(Written(End("category")))
            && t[5] == Spaces(2) + Show(Written(Start("category", map["label" := "9000"])))
            && t[12] == Spaces(0) + Show(Written(End("settings")))
  {
    DeclarationText();
    Indents();
    RootText();
    EndTexts();
    CategoryText("1000");
    CategoryText("9000");
    ButtonText("PRE_WAIT", "1020");
    hide Show, Written, Spaces, Named, SettingLine, DECLARATION, DvbModeAttrs, FullNameAttrs, NumbersAttrs,
         DisableAttrs;
    assert "" + "<settings>" == "<settings>" && "" + "</settings>" == "</settings>";
  }

  lemma SettingLines(tuner: string)
    ensures var t := ShortLines(tuner);
            && |t| == 13
            && t[6] == Spaces(4) + Show(Written(Empty("setting", REFRESH_BUTTON)))
            && t[7] == Spaces(4) + Show(Written(Empty("setting", DvbMode(tuner))))
            && t[8] == Spaces(4) + Show(Written(Empty("setting", UseFullName(tuner))))
            && t[9] == Spaces(4) + Show(Written(Empty("setting", Numbers(tuner))))
            && t[10] == Spaces(4) + Show(Written(Empty("setting", Disable(tuner))))
  {
    Indents();
    ButtonText("refresh_tuners", "9010");
    HdhomerunText(tuner);
    hide Show, Written, Spaces, Named, SettingLine, DvbMode, UseFullName, Numbers, Disable, DvbModeAttrs, FullNameAttrs,
         NumbersAttrs, DisableAttrs;
  }

  lemma NodesAre(tuner: string)
    ensures var ns := ShortNodes(tuner);
            && |ns| == 12 && ns[0] == Start("settings", map[]) && ns[1] == Start("category", map["label" := "1000"])
            && ns[2] == Empty("setting", PRE_WAIT) && ns[3] == ns[10] == End("category")
            && ns[4] == Start("category", map["label" := "9000"]) && ns[5] == Empty("setting", REFRESH_BUTTON)
            && ns[6] == Empty("setting", DvbMode(tuner)) && ns[7] == Empty("setting", UseFullName(tuner))
            && ns[8] == Empty("setting", Numbers(tuner)) && ns[9] == Empty("setting", Disable(tuner))
            && ns[11] == End("settings")
  {
  }

  lemma LinesEnd(tuner: string)
    requires |ShortNodes(tuner)| == 12 && |ShortLines(tuner)| == 13
    ensures LinesFrom(tuner, 12, 0)
  {
    hide ShortNodes, ShortLines;
  }

  lemma NewLines(tuner: string)
    ensures LinesFrom(tuner, 6, 4)
  {
    hide *;
    NodesAre(tuner);
    HeadLines(tuner);
    SettingLines(tuner);
    LinesEnd(tuner);
    var ns := ShortNodes(tuner);
    IndentEnd("settings", ns[12..], 2);
    LinesStep(tuner, 11, 2, 0);
    IndentEnd("category", ns[11..], 4);
    LinesStep(tuner, 10, 4, 2);
    IndentEmpty("setting", Disable(tuner), ns[10..], 4);
    LinesStep(tuner, 9, 4, 4);
    IndentEmpty("setting", Numbers(tuner), ns[9..], 4);
    LinesStep(tuner, 8, 4, 4);
    IndentEmpty("setting", UseFullName(tuner), ns[8..], 4);
    LinesStep(tuner, 7, 4, 4);
    IndentEmpty("setting", DvbMode(tuner), ns[7..], 4);
    LinesStep(tuner, 6, 4, 4);
  }

  lemma AllLines(tuner: string)
    ensures LinesFrom(tuner, 0, 0)
  {
    hide *;
    NodesAre(tuner);
    HeadLines(tuner);
    SettingLines(tuner);
    NewLines(tuner);
    var ns := ShortNodes(tuner);
    IndentEmpty("setting", REFRESH_BUTTON, ns[6..], 4);
    LinesStep(tuner, 5, 4, 4);
    IndentStart("category", map["label" := "9000"], ns[5..], 2);
    LinesStep(tuner, 4, 2, 4);
    IndentEnd("category", ns[4..], 4);
    LinesStep(tuner, 3, 4, 2);
    IndentEmpty("setting", PRE_WAIT, ns[3..], 4);
    LinesStep(tuner, 2, 4, 4);
    IndentStart("category", map["label" := "1000"], ns[2..], 2);
    LinesStep(tuner, 1, 2, 4);
    IndentStart("settings", map[], ns[1..], 0);
    LinesStep(tuner, 0, 0, 2);
  }

  /** From the document to the file, for every tuner: what `refresh_hdhomerun_tuners` leaves, line by line. */
  lemma ShortFile(tuner: string)
    ensures Saved(Refresh(ShortSettings(), Hdhomerun([tuner]))) == Unlines(ShortLines(tuner))
  {
    hide *;
    ShortRefresh(tuner);
    ShortTokens(tuner);
    ShortPlain(tuner);
    RenderMarks(ShortNodes(tuner), 0);
    AllLines(tuner);
    LinesAll(tuner);
    HeadLines(tuner);
    SavedLines(ShortRefreshed(tuner), ShortNodes(tuner));
    var ls := ShortLines(tuner);
    assert ls == [ls[0]] + ls[1..];
    UnlinesFirst(ls[0], ls[1..]);
  }

  lemma LinesAll(tuner: string)
    requires LinesFrom(tuner, 0, 0)
    ensures Indented(ShortNodes(tuner), 0) == ShortLines(tuner)[1..]
  {
    hide ShortNodes, ShortLines;
    assert ShortNodes(tuner)[0..] == ShortNodes(tuner);
  }

  lemma SavedLines(ts: seq<Tree>, nodes: seq<Node>)
    requires Tokens(ts) == Marks(nodes)
    requires Render(WrittenAll(Pieces(Marks(nodes), "")), 0, 2, 80) == Unlines(Indented(nodes, 0))
    ensures Saved(ts) == Show(DECLARATION) + "\n" + Unlines(Indented(nodes, 0))
  {
    FirstLine();
    var rest := WrittenAll(Pieces(Marks(nodes), ""));
    hide Show, WrittenAll, Pieces, Marks, RenderOne, Tokens, Unlines, Indented;
    assert DocOf(ts)[1..] == rest;
  }

  // ----- the width -----

  function OneAttribute(value: string): seq<Tree> {
    [Element("a:b", map["c" := value], [])]
  }

  lemma OneAttributeDoc(value: string)
    ensures DocOf(OneAttribute(value))
            == [Segment("", DECLARATION), Segment("", Tag(SelfClosing, "a:b", [Attr(" ", "c", Escape(value))], ""))]
  {
    var attrs := map["c" := value];
    OneListed(("c", value));
    NamesSorted([("c", value)], attrs);
    TokensOne("a:b", attrs, []);
    hide Lists, Sorting.Sorted, DECLARATION, Escape;
    assert Names([("c", value)]) == ["c"];
    assert Attributes(attrs) == [Attr(" ", "c", Escape(value))] by { assert AttrList(attrs, ["c"][1..]) == []; }
    PieceFirst(Empty("a:b", attrs), []);
    assert [Piece("", Empty("a:b", attrs))] + [] == [Piece("", Empty("a:b", attrs))];
    assert Pieces([Mark(Empty("a:b", attrs))], "") == [Piece("", Empty("a:b", attrs))] by {
      assert [Mark(Empty("a:b", attrs))][1..] == [];
    }
  }

  /** A file is 80 columns wide: the attribute of a prefixed element is put on a line of its own, one column behind
      its tag, exactly if it would make the line longer than that. */
  lemma WidthIsEighty(value: string)
    ensures var attr := "c=\"" + Escape(value) + "\"";
            Saved(OneAttribute(value))
            == Show(DECLARATION) + "\n"
               + ("<a:b" + (if |"<a:b " + attr + "/>"| <= 80 then " " else "\n     ") + attr + "/>" + "\n")
  {
    hide *;
    var a := Attr(" ", "c", Escape(value));
    OneAttributeDoc(value);
    DeclarationKind();
    FirstLine();
    PrefixedLine(a);
    RenderTwo(Segment("", DECLARATION), Segment("", Tag(SelfClosing, "a:b", [a], "")));
    SavedIs(OneAttribute(value));
  }

  lemma SavedIs(ts: seq<Tree>)
    ensures Saved(ts) == Render(DocOf(ts), 0, 2, 80)
  {
  }

  lemma DeclarationKind()
    ensures DECLARATION.Instruction?
  {
  }

  lemma FirstLine()
    ensures RenderOne(Segment("", DECLARATION), 0, 2, 80) == Show(DECLARATION) + "\n"
  {
    LineAlone(DECLARATION, 0);
    hide Show, RenderOne;
    assert Spaces(0) + Show(DECLARATION) == Show(DECLARATION);
  }

  lemma RenderTwo(a: Segment, b: Segment)
    requires a.mark.Instruction?
    ensures Render([a, b], 0, 2, 80) == RenderOne(a, 0, 2, 80) + RenderOne(b, 0, 2, 80)
  {
    hide RenderOne;
    assert [a, b][1..] == [b] && [b][1..] == [];
    assert LevelAfter(a.mark, 0, 2) == 0;
    RenderLast(b, 0);
  }

  lemma RenderLast(b: Segment, level: int)
    ensures Render([b], level, 2, 80) == RenderOne(b, level, 2, 80)
  {
    hide RenderOne;
    assert [b][1..] == [];
    assert RenderOne(b, level, 2, 80) + "" == RenderOne(b, level, 2, 80);
  }

  lemma PrefixedLine(a: Attr)
    requires a.lead == " " && a.name == "c"
    ensures var attr := "c=\"" + a.value + "\"";
            RenderOne(Segment("", Tag(SelfClosing, "a:b", [a], "")), 0, 2, 80)
            == "<a:b" + (if |"<a:b " + attr + "/>"| <= 80 then " " else "\n     ") + attr + "/>" + "\n"
  {
    hide Leads, ShowAttr, ElemStartLen, Show, Prefixed, Spaces, RenderOne;
    var m, attr := Tag(SelfClosing, "a:b", [a], ""), "c=\"" + a.value + "\"";
    NamedC(a);
    OneLead(a);
    var lead := if |"<a:b " + attr + "/>"| <= 80 then " " else "\n     ";
    assert Relaid(m, 0, 80) == Tag(SelfClosing, "a:b", [a.(lead := lead)], "");
    ShowOneAttr(a, lead);
    AtMargin(m);
  }

  lemma NamedC(a: Attr)
    requires a.name == "c"
    ensures ShowAttr(a) == "c=\"" + a.value + "\""
  {
    assert "c" + "=\"" == "c=\"";
  }

  lemma AtMargin(m: Markup)
    requires m.Tag? && m.kind == SelfClosing
    ensures RenderOne(Segment("", m), 0, 2, 80) == Show(Relaid(m, 0, 80)) + "\n"
  {
    StripBlank("");
    hide Show, Relaid, Strip;
    assert ContentText(0, Strip("")) == "" && Spaces(0) == "";
    assert "" + Show(Relaid(m, 0, 80)) == Show(Relaid(m, 0, 80));
  }

  lemma OneLead(a: Attr)
    ensures var m := Tag(SelfClosing, "a:b", [a], "");
            && Prefixed(m) && |Spaces(0) + Head(m)| == 4 && Shown([a]) == [ShowAttr(a)]
            && Leads(Shown([a]), 0, 4, 4, Closer(SelfClosing), 80)
               == [if |ShowAttr(a)| + 7 <= 80 then " " else "\n     "]
  {
    PrefixedExample(a);
    hide ShowAttr, ElemStartLen, Prefixed;
    var shown := [ShowAttr(a)];
    assert Shown([a]) == shown;
    LeadsStep(shown, 0, 4, 4, "/>", 80);
    assert IndexOf(shown, ShowAttr(a)) == 0;
    FiveSpaces();
  }

  lemma FiveSpaces()
    ensures "\n" + Spaces(5) == "\n     "
  {
    Indents();
    assert Spaces(5) == " " + Spaces(4);
  }

  lemma PrefixedExample(a: Attr)
    ensures Prefixed(Tag(SelfClosing, "a:b", [a], "")) && Head(Tag(SelfClosing, "a:b", [a], "")) == "<a:b"
  {
    ExampleName();
    var h := Head(Tag(SelfClosing, "a:b", [a], ""));
    assert h == "<a:b" && h[1..] == "a:b";
    assert IsWord('a');
    hide PrefixedLen;
  }

  lemma ShowOneAttr(a: Attr, lead: string)
    ensures Show(Tag(SelfClosing, "a:b", [a.(lead := lead)], "")) == "<a:b" + lead + ShowAttr(a) + "/>"
  {
    hide ShowAttr;
    var b := a.(lead := lead);
    assert ShowAttr(b) == ShowAttr(a) by { SameShow(a, lead); }
    assert ShowAttrs([b]) == lead + ShowAttr(b) by { assert [b][1..] == []
                                                    && lead + ShowAttr(b) + "" == lead + ShowAttr(b); }
    assert "<" + "" + "a:b" == "<a:b";
    Around("<a:b", lead, ShowAttr(a));
    assert "<a:b" + (lead + ShowAttr(a)) + "" == "<a:b" + (lead + ShowAttr(a));
  }

  lemma SameShow(a: Attr, lead: string)
    ensures ShowAttr(a.(lead := lead)) == ShowAttr(a)
  {
  }
}
