/** The refresh of the tuner settings as a change of the document tree: `remove_old_tuners` and
    `add_new_tuners` (packages/addons/official/driver/hdhomerun/source/resources/lib/functions.py and
    packages/addons/official/driver/sundtek-mediatv/source/resources/lib/functions.py). */
module TunerTree {
  import opened Text
  import opened XmlTree

  const TUNER_PREFIX := "ATTACHED_TUNER_"
  const MARKER_LABEL := "9010"
  const SUNDTEK_USERSPACE := "/storage/.kodi/" + "userdata/addon_data/" + "driver.dvb." + "sundtek-mediatv/"

  /** `not getAttribute('id').find('ATTACHED_TUNER_')`: the id is there and starts with the prefix. */
  predicate OldId(attrs: map<string, string>) {
    "id" in attrs && Find(attrs["id"], TUNER_PREFIX) == 0
  }

  predicate IsMarker(tag: string, attrs: map<string, string>) {
    tag == "setting" && "label" in attrs && Find(attrs["label"], MARKER_LABEL) >= 0
  }

  predicate IsOld(tag: string, attrs: map<string, string>) {
    tag == "setting" && OldId(attrs)
  }

  // ----- the same in terms of the documents -----

  /** A setting whose id starts with the prefix of the tuners. */
  predicate TunerSetting(t: Tree) {
    t.Element? && t.tag == "setting" && "id" in t.attrs && "ATTACHED_TUNER_" <= t.attrs["id"]
  }

  /** A setting whose label contains the number of the list of tuners. */
  predicate Marks(t: Tree) {
    t.Element? && t.tag == "setting" && "label" in t.attrs && Contains(t.attrs["label"], "9010")
  }

  lemma OldExactly(tag: string, attrs: map<string, string>, kids: seq<Tree>)
    ensures IsOld(tag, attrs) <==> TunerSetting(Element(tag, attrs, kids))
  {
    hide Find;
    if "id" in attrs { FindExactly(attrs["id"], TUNER_PREFIX); }
  }

  lemma MarkerExactly(tag: string, attrs: map<string, string>, kids: seq<Tree>)
    ensures IsMarker(tag, attrs) <==> Marks(Element(tag, attrs, kids))
  {
    hide Find, Contains;
    if "label" in attrs { FindExactly(attrs["label"], MARKER_LABEL); }
  }

  /** All elements in reading order, at any depth. */
  function Elements(ts: seq<Tree>): seq<Tree> {
    if ts == [] then []
    else (if ts[0].Element? then [ts[0]] + Elements(ts[0].kids) else []) + Elements(ts[1..])
  }

  /** One of the elements marks the category. */
  predicate HoldsMark(kids: seq<Tree>) {
    exists t :: t in Elements(kids) && Marks(t)
  }

  /** Every tuner setting below a category goes, wherever it is; `inside` says whether the forest is
      below a category. */
  function RemoveOld(ts: seq<Tree>, inside: bool): seq<Tree> {
    if ts == [] then []
    else match ts[0]
      case Element(tag, attrs, kids) =>
        if inside && IsOld(tag, attrs) then RemoveOld(ts[1..], inside)
        else [Element(tag, attrs, RemoveOld(kids, inside || tag == "category"))] + RemoveOld(ts[1..], inside)
      case _ => [ts[0]] + RemoveOld(ts[1..], inside)
  }

  /** The forest holds a setting with the marker label, at any depth. */
  predicate HasMarker(ts: seq<Tree>) {
    ts != [] &&
    ((ts[0].Element? && (IsMarker(ts[0].tag, ts[0].attrs) || HasMarker(ts[0].kids))) || HasMarker(ts[1..]))
  }

  lemma {:induction false} MarkedExactly(ts: seq<Tree>)
    ensures HasMarker(ts) <==> HoldsMark(ts)
  {
    hide Marks, IsMarker;
    if ts != [] {
      MarkedExactly(ts[1..]);
      if ts[0].Element? {
        MarkedExactly(ts[0].kids);
        MarkerExactly(ts[0].tag, ts[0].attrs, ts[0].kids);
      }
    }
  }

  /** Every category with a marker below it gets the new settings at its end. */
  function AddNew(ts: seq<Tree>, new_: seq<Tree>): seq<Tree> {
    if ts == [] then []
    else match ts[0]
      case Element(tag, attrs, kids) =>
        [Element(tag, attrs,
                 AddNew(kids, new_) + if tag == "category" && HasMarker(kids) then new_ else [])]
        + AddNew(ts[1..], new_)
      case _ => [ts[0]] + AddNew(ts[1..], new_)
  }

  function Refresh(ts: seq<Tree>, new_: seq<Tree>): seq<Tree> {
    AddNew(RemoveOld(ts, false), new_)
  }

  // ----- the generated settings -----

  function Setting(attrs: map<string, string>): Tree {
    Element("setting", attrs, [])
  }

  function DvbMode(tuner: string): map<string, string> {
    map["id" := TUNER_PREFIX + tuner + "_DVBMODE", "label" := "tuner serial " + tuner,
        "type" := "labelenum", "default" := "auto", "values" := "auto|ATSC|DVB-C|DVB-T"]
  }

  function UseFullName(tuner: string): map<string, string> {
    map["id" := TUNER_PREFIX + tuner + "_FULLNAME", "label" := "9020", "type" := "bool", "default" := "false"]
  }

  function Numbers(tuner: string): map<string, string> {
    map["id" := TUNER_PREFIX + tuner + "_NUMBERS", "label" := "9025",
        "type" := "labelenum", "default" := "2", "values" := "1|2|3|4|5|6|7|8"]
  }

  function Disable(tuner: string): map<string, string> {
    map["id" := TUNER_PREFIX + tuner + "_DISABLE", "label" := "9030", "type" := "bool", "default" := "false"]
  }

  function HdhomerunOne(tuner: string): seq<Tree> {
    [Setting(DvbMode(tuner)), Setting(UseFullName(tuner)), Setting(Numbers(tuner)), Setting(Disable(tuner))]
  }

  function Hdhomerun(tuners: seq<string>): seq<Tree> {
    if tuners == [] then [] else HdhomerunOne(tuners[0]) + Hdhomerun(tuners[1..])
  }

  /** A sundtek device: name, serial number, and whether it is of type `c` rather than `s`. */
  datatype Device = Device(name: string, serial: string, cable: bool)

  function DeviceMode(d: Device): map<string, string> {
    map["id" := TUNER_PREFIX + d.serial + "_DVBMODE", "label" := d.name + ", " + d.serial,
        "type" := "labelenum", "default" := if d.cable then "DVB-C" else "DVB-S",
        "values" := if d.cable then "DVB-C|DVB-T" else "DVB-S"]
  }

  function Protocol(d: Device): map<string, string> {
    map["id" := TUNER_PREFIX + d.serial + "_IRPROT", "label" := "9020",
        "type" := "labelenum", "default" := "auto", "values" := "auto|RC5|NEC|RC6"]
  }

  function Keymap(d: Device): map<string, string> {
    map["id" := TUNER_PREFIX + d.serial + "_KEYMAP", "label" := "9030",
        "type" := "file", "mask" := "*.map", "default" := SUNDTEK_USERSPACE]
  }

  function SundtekOne(d: Device): seq<Tree> {
    [Setting(DeviceMode(d)), Setting(Protocol(d)), Setting(Keymap(d))]
  }

  function Sundtek(devices: seq<Device>): seq<Tree> {
    if devices == [] then [] else SundtekOne(devices[0]) + Sundtek(devices[1..])
  }

  /** The tuners of one of the two add-ons. */
  datatype Tuners = HdhomerunTuners(names: seq<string>) | SundtekTuners(devices: seq<Device>)

  function Generated(tuners: Tuners): seq<Tree> {
    match tuners
    case HdhomerunTuners(names) => Hdhomerun(names)
    case SundtekTuners(devices) => Sundtek(devices)
  }

  /** Childless tuner settings: all that is ever added. */
  predicate Fresh(new_: seq<Tree>) {
    forall i :: 0 <= i < |new_| ==> new_[i].Element? && new_[i].kids == [] && TunerSetting(new_[i])
  }

  lemma PrefixedId(rest: string)
    ensures Find(TUNER_PREFIX + rest, TUNER_PREFIX) == 0
  {
    assert (TUNER_PREFIX + rest)[0..|TUNER_PREFIX|] == TUNER_PREFIX;
    assert At(TUNER_PREFIX + rest, TUNER_PREFIX, 0);
  }

  lemma FreshId(name: string, suffix: string)
    ensures Find(TUNER_PREFIX + name + suffix, TUNER_PREFIX) == 0
  {
    assert TUNER_PREFIX + name + suffix == TUNER_PREFIX + (name + suffix);
    PrefixedId(name + suffix);
  }

  lemma {:induction false} HdhomerunFresh(tuners: seq<string>)
    ensures Fresh(Hdhomerun(tuners)) && |Hdhomerun(tuners)| == 4 * |tuners|
  {
    hide HdhomerunOne, IsOld;
    if tuners != [] {
      HdhomerunOneFresh(tuners[0]);
      HdhomerunFresh(tuners[1..]);
    }
  }

  lemma HdhomerunOneFresh(tuner: string)
    ensures Fresh(HdhomerunOne(tuner)) && |HdhomerunOne(tuner)| == 4
  {
    FreshId(tuner, "_DVBMODE");
    FreshId(tuner, "_FULLNAME");
    FreshId(tuner, "_NUMBERS");
    FreshId(tuner, "_DISABLE");
    hide Find;
  }

  lemma SundtekOneFresh(d: Device)
    ensures Fresh(SundtekOne(d)) && |SundtekOne(d)| == 3
  {
    FreshId(d.serial, "_DVBMODE");
    FreshId(d.serial, "_IRPROT");
    FreshId(d.serial, "_KEYMAP");
    hide Find;
  }

  lemma {:induction false} SundtekFresh(devices: seq<Device>)
    ensures Fresh(Sundtek(devices)) && |Sundtek(devices)| == 3 * |devices|
  {
    hide SundtekOne, IsOld;
    if devices != [] {
      SundtekOneFresh(devices[0]);
      SundtekFresh(devices[1..]);
    }
  }

  lemma GeneratedFresh(tuners: Tuners)
    ensures Fresh(Generated(tuners))
  {
    match tuners
    case HdhomerunTuners(names) => HdhomerunFresh(names);
    case SundtekTuners(devices) => SundtekFresh(devices);
  }

  // ----- what the edit does -----

  /** No tuner setting below a category. */
  predicate NoOld(ts: seq<Tree>, inside: bool) {
    ts == [] ||
    ((ts[0].Element? ==> !(inside && TunerSetting(ts[0]))
                         && NoOld(ts[0].kids, inside || ts[0].tag == "category"))
     && NoOld(ts[1..], inside))
  }

  lemma {:induction false} RemovedAll(ts: seq<Tree>, inside: bool)
    ensures NoOld(RemoveOld(ts, inside), inside)
  {
    if ts != [] {
      RemovedAll(ts[1..], inside);
      if ts[0].Element? {
        RemovedAll(ts[0].kids, inside || ts[0].tag == "category");
      }
    }
  }

  /** Removal leaves a document alone exactly when there is nothing to remove. */
  lemma {:induction false} RemoveNothing(ts: seq<Tree>, inside: bool)
    ensures RemoveOld(ts, inside) == ts <==> NoOld(ts, inside)
  {
    RemovedAll(ts, inside);
    if NoOld(ts, inside) { KeepClean(ts, inside); }
  }

  lemma {:induction false} KeepClean(ts: seq<Tree>, inside: bool)
    requires NoOld(ts, inside)
    ensures RemoveOld(ts, inside) == ts
  {
    if ts != [] {
      KeepClean(ts[1..], inside);
      if ts[0].Element? {
        KeepClean(ts[0].kids, inside || ts[0].tag == "category");
      }
      assert ts == [ts[0]] + ts[1..];
    }
  }

  lemma {:induction false} RemoveAppend(a: seq<Tree>, b: seq<Tree>, inside: bool)
    ensures RemoveOld(a + b, inside) == RemoveOld(a, inside) + RemoveOld(b, inside)
  {
    if a == [] {
      assert a + b == b;
    } else {
      assert (a + b)[1..] == a[1..] + b;
      RemoveAppend(a[1..], b, inside);
    }
  }

  lemma {:induction false} RemoveFresh(new_: seq<Tree>)
    requires Fresh(new_)
    ensures RemoveOld(new_, true) == []
  {
    if new_ != [] { RemoveFresh(new_[1..]); }
  }

  /** Removing after adding restores the document. */
  lemma {:induction false} RemoveUndoesAdd(ts: seq<Tree>, new_: seq<Tree>, inside: bool)
    requires NoOld(ts, inside) && Fresh(new_)
    ensures RemoveOld(AddNew(ts, new_), inside) == ts
  {
    if ts != [] {
      RemoveUndoesAdd(ts[1..], new_, inside);
      if ts[0].Element? {
        var kids := ts[0].kids;
        RemoveUndoesAdd(kids, new_, inside || ts[0].tag == "category");
        var extra := if ts[0].tag == "category" && HasMarker(kids) then new_ else [];
        RemoveAppend(AddNew(kids, new_), extra, inside || ts[0].tag == "category");
        if extra != [] { RemoveFresh(extra); }
        assert RemoveOld(AddNew(kids, new_) + extra, inside || ts[0].tag == "category") == kids;
        var a := AddNew(ts, new_);
        assert a[0] == Element(ts[0].tag, ts[0].attrs, AddNew(kids, new_) + extra);
        assert a[1..] == AddNew(ts[1..], new_);
      }
      assert ts == [ts[0]] + ts[1..];
    }
  }

  /** The frame of a refresh: apart from tuner settings below categories, nothing changes. */
  lemma RefreshFrame(ts: seq<Tree>, new_: seq<Tree>)
    requires Fresh(new_)
    ensures RemoveOld(Refresh(ts, new_), false) == RemoveOld(ts, false)
  {
    RemovedAll(ts, false);
    RemoveUndoesAdd(RemoveOld(ts, false), new_, false);
  }

  /** Only the last refresh counts; with the same tuners it changes nothing. */
  lemma RefreshTwice(ts: seq<Tree>, first: seq<Tree>, second: seq<Tree>)
    requires Fresh(first)
    ensures Refresh(Refresh(ts, first), second) == Refresh(ts, second)
  {
    RefreshFrame(ts, first);
  }

  /** All categories in reading order, at any depth. */
  function Categories(ts: seq<Tree>): seq<Tree> {
    if ts == [] then []
    else
      (if ts[0].Element? then
         (if ts[0].tag == "category" then [ts[0]] else []) + Categories(ts[0].kids)
       else [])
      + Categories(ts[1..])
  }

  lemma {:induction false} NoCategories(new_: seq<Tree>)
    requires Fresh(new_)
    ensures Categories(new_) == []
  {
    if new_ != [] {
      assert Categories(new_[0].kids) == [];
      NoCategories(new_[1..]);
    }
  }

  lemma {:induction false} CategoriesAppend(a: seq<Tree>, b: seq<Tree>)
    ensures Categories(a + b) == Categories(a) + Categories(b)
  {
    if a == [] {
      assert a + b == b;
    } else {
      assert a + b == [a[0]] + (a[1..] + b);
      assert a == [a[0]] + a[1..];
      CategoriesAppend(a[1..], b);
      hide Categories;
      CategoriesCons(a[0], a[1..] + b);
      CategoriesCons(a[0], a[1..]);
    }
  }

  lemma CategoriesCons(c: Tree, rest: seq<Tree>)
    ensures Categories([c] + rest)
            == (if !c.Element? then [] else (if c.tag == "category" then [c] else []) + Categories(c.kids))
               + Categories(rest)
  {
    assert ([c] + rest)[1..] == rest;
  }

  /** A category after the addition: what it held before, then the new settings if it has a marker. */
  function Extended(c: Tree, new_: seq<Tree>): Tree {
    if c.Element? then Element(c.tag, c.attrs, AddNew(c.kids, new_) + if HoldsMark(c.kids) then new_ else [])
    else c
  }

  function ExtendAll(cs: seq<Tree>, new_: seq<Tree>): (r: seq<Tree>)
    ensures |r| == |cs| && forall i :: 0 <= i < |cs| ==> r[i] == Extended(cs[i], new_)
  {
    if cs == [] then [] else [Extended(cs[0], new_)] + ExtendAll(cs[1..], new_)
  }

  lemma {:induction false} ExtendAppend(a: seq<Tree>, b: seq<Tree>, new_: seq<Tree>)
    ensures ExtendAll(a + b, new_) == ExtendAll(a, new_) + ExtendAll(b, new_)
  {
    hide Extended;
    if a == [] {
      assert a + b == b;
    } else {
      assert (a + b)[1..] == a[1..] + b;
      ExtendAppend(a[1..], b, new_);
    }
  }

  /** The categories stay the same ones in the same order, each extended. */
  lemma {:induction false} CategoryContents(ts: seq<Tree>, new_: seq<Tree>)
    requires Fresh(new_)
    ensures Categories(AddNew(ts, new_)) == ExtendAll(Categories(ts), new_)
  {
    if ts != [] {
      CategoryContents(ts[1..], new_);
      if ts[0].Element? {
        CategoryContents(ts[0].kids, new_);
      }
      CategoriesFirst(ts, new_);
      CategoriesCons(ts[0], ts[1..]);
      hide Categories, AddNew, Extended;
      assert ts == [ts[0]] + ts[1..];
      if ts[0].Element? {
        var one := if ts[0].tag == "category" then [ts[0]] else [];
        ExtendAppend(one + Categories(ts[0].kids), Categories(ts[1..]), new_);
        ExtendAppend(one, Categories(ts[0].kids), new_);
      } else {
        ExtendAppend([], Categories(ts[1..]), new_);
      }
    }
  }

  lemma CategoriesFirst(ts: seq<Tree>, new_: seq<Tree>)
    requires Fresh(new_) && ts != []
    ensures Categories(AddNew(ts, new_))
            == (if !ts[0].Element? then []
                else (if ts[0].tag == "category" then [Extended(ts[0], new_)] else [])
                     + Categories(AddNew(ts[0].kids, new_)))
               + Categories(AddNew(ts[1..], new_))
  {
    hide HoldsMark, HasMarker, Fresh;
    if ts[0].Element? {
      var kids := ts[0].kids;
      MarkedExactly(kids);
      var extra := if ts[0].tag == "category" && HasMarker(kids) then new_ else [];
      CategoriesAppend(AddNew(kids, new_), extra);
      NoCategories(extra);
      var c := Element(ts[0].tag, ts[0].attrs, AddNew(kids, new_) + extra);
      assert AddNew(ts, new_) == [c] + AddNew(ts[1..], new_);
      CategoriesCons(c, AddNew(ts[1..], new_));
      assert Categories(c.kids) == Categories(AddNew(kids, new_)) + [] == Categories(AddNew(kids, new_));
    } else {
      assert AddNew(ts, new_) == [ts[0]] + AddNew(ts[1..], new_);
      CategoriesCons(ts[0], AddNew(ts[1..], new_));
    }
  }

  /** The tuner settings below categories, in reading order. */
  function OldSettings(ts: seq<Tree>, inside: bool): seq<Tree> {
    if ts == [] then []
    else
      (if !ts[0].Element? then []
       else if inside && TunerSetting(ts[0]) then [ts[0]]
       else OldSettings(ts[0].kids, inside || ts[0].tag == "category"))
      + OldSettings(ts[1..], inside)
  }

  function Times(n: nat, new_: seq<Tree>): seq<Tree> {
    if n == 0 then [] else new_ + Times(n - 1, new_)
  }

  function MarkedCategories(ts: seq<Tree>): nat {
    if ts == [] then 0
    else
      (if ts[0].Element? then
         (if ts[0].tag == "category" && HoldsMark(ts[0].kids) then 1 else 0) + MarkedCategories(ts[0].kids)
       else 0)
      + MarkedCategories(ts[1..])
  }

  lemma {:induction false} TimesAppend(m: nat, n: nat, new_: seq<Tree>)
    ensures Times(m, new_) + Times(n, new_) == Times(m + n, new_)
  {
    if m > 0 {
      TimesAppend(m - 1, n, new_);
      assert new_ + Times(m - 1, new_) + Times(n, new_) == new_ + (Times(m - 1, new_) + Times(n, new_));
    } else {
      assert [] + Times(n, new_) == Times(n, new_);
    }
  }

  lemma {:induction false} OldAppend(a: seq<Tree>, b: seq<Tree>, inside: bool)
    ensures OldSettings(a + b, inside) == OldSettings(a, inside) + OldSettings(b, inside)
  {
    hide TunerSetting;
    if a == [] {
      assert a + b == b;
    } else {
      assert (a + b)[1..] == a[1..] + b;
      OldAppend(a[1..], b, inside);
    }
  }

  lemma {:induction false} OldFresh(new_: seq<Tree>)
    requires Fresh(new_)
    ensures OldSettings(new_, true) == new_
  {
    if new_ != [] {
      OldFresh(new_[1..]);
      assert new_ == [new_[0]] + new_[1..];
    }
  }

  /** After an addition to a clean document the tuner settings below categories are the new ones, once
      for every category with a marker, and no others. */
  lemma {:induction false} ExactlyTheNewOnes(ts: seq<Tree>, new_: seq<Tree>, inside: bool)
    requires NoOld(ts, inside) && Fresh(new_)
    ensures OldSettings(AddNew(ts, new_), inside) == Times(MarkedCategories(ts), new_)
  {
    hide TunerSetting, IsOld, HasMarker, HoldsMark, Fresh;
    if ts != [] {
      ExactlyTheNewOnes(ts[1..], new_, inside);
      var a := AddNew(ts, new_);
      assert a[1..] == AddNew(ts[1..], new_);
      if ts[0].Element? {
        var kids := ts[0].kids;
        MarkedExactly(kids);
        OldExactly(ts[0].tag, ts[0].attrs, kids);
        OldExactly(ts[0].tag, ts[0].attrs, a[0].kids);
        var marked := ts[0].tag == "category" && HasMarker(kids);
        ExactlyTheNewOnes(kids, new_, inside || ts[0].tag == "category");
        TimesAppend(MarkedCategories(kids) + (if marked then 1 else 0), MarkedCategories(ts[1..]), new_);
        OldInKids(AddNew(kids, new_), MarkedCategories(kids), new_, marked, inside || ts[0].tag == "category");
      }
    }
  }

  lemma OldInKids(kids: seq<Tree>, n: nat, new_: seq<Tree>, marked: bool, inside: bool)
    requires OldSettings(kids, inside) == Times(n, new_) && Fresh(new_) && (marked ==> inside)
    ensures OldSettings(kids + (if marked then new_ else []), inside) == Times(n + (if marked then 1 else 0), new_)
  {
    OldAppend(kids, if marked then new_ else [], inside);
    if marked {
      OldFresh(new_);
      TimesAppend(n, 1, new_);
      assert Times(1, new_) == new_ + [] == new_;
    }
  }

  /** What a refresh changes, exactly: with the tuner settings below categories aside the document is what it
      was; the categories are the same ones in the same order, each without its old tuner settings and, if it
      holds a marker, with the new ones at its end; and no other tuner setting is below a category. */
  lemma ExactEdit(ts: seq<Tree>, new_: seq<Tree>)
    requires Fresh(new_)
    ensures RemoveOld(Refresh(ts, new_), false) == RemoveOld(ts, false)
    ensures Categories(Refresh(ts, new_)) == ExtendAll(Categories(RemoveOld(ts, false)), new_)
    ensures OldSettings(Refresh(ts, new_), false) == Times(MarkedCategories(RemoveOld(ts, false)), new_)
  {
    hide RemoveOld, Categories, OldSettings, Fresh;
    RemovedAll(ts, false);
    RefreshFrame(ts, new_);
    CategoryContents(RemoveOld(ts, false), new_);
    ExactlyTheNewOnes(RemoveOld(ts, false), new_, false);
  }

  // ----- the ids -----

  lemma SameSuffixLength(a: string, s: string, b: string, t: string)
    requires a + s == b + t && |s| == |t|
    ensures a == b && s == t
  {
    assert |a| == |b|;
    assert a == (a + s)[..|a|] && b == (b + t)[..|b|];
    assert s == (a + s)[|a|..] && t == (b + t)[|b|..];
  }

  lemma LastTwo(a: string, s: string)
    requires |s| >= 2
    ensures |a + s| >= 2 && (a + s)[|a + s| - 1] == s[|s| - 1] && (a + s)[|a + s| - 2] == s[|s| - 2]
  {
  }

  predicate HdhomerunSuffix(s: string) {
    s == "_DVBMODE" || s == "_FULLNAME" || s == "_NUMBERS" || s == "_DISABLE"
  }

  predicate SundtekSuffix(s: string) {
    s == "_DVBMODE" || s == "_IRPROT" || s == "_KEYMAP"
  }

  /** Two generated ids are equal only for the same tuner and the same suffix. */
  lemma IdsDistinct(a: string, s: string, b: string, t: string)
    requires (HdhomerunSuffix(s) && HdhomerunSuffix(t)) || (SundtekSuffix(s) && SundtekSuffix(t))
    requires TUNER_PREFIX + a + s == TUNER_PREFIX + b + t
    ensures a == b && s == t
  {
    LastTwo(TUNER_PREFIX + a, s);
    LastTwo(TUNER_PREFIX + b, t);
    assert |s| == |t|;
    SameSuffixLength(TUNER_PREFIX + a, s, TUNER_PREFIX + b, t);
    assert a == (TUNER_PREFIX + a)[|TUNER_PREFIX|..];
    assert b == (TUNER_PREFIX + b)[|TUNER_PREFIX|..];
  }

  function HdhomerunSuffixes(): seq<string> {
    ["_DVBMODE", "_FULLNAME", "_NUMBERS", "_DISABLE"]
  }

  function SundtekSuffixes(): seq<string> {
    ["_DVBMODE", "_IRPROT", "_KEYMAP"]
  }

  lemma HdhomerunOneAt(tuner: string, k: nat)
    requires k < 4
    ensures |HdhomerunOne(tuner)| == |HdhomerunSuffixes()| == 4
    ensures HdhomerunOne(tuner)[k].Element? && "id" in HdhomerunOne(tuner)[k].attrs
    ensures HdhomerunOne(tuner)[k].attrs["id"] == TUNER_PREFIX + tuner + HdhomerunSuffixes()[k]
  {
  }

  lemma {:induction false} HdhomerunAt(tuners: seq<string>, k: nat)
    requires k < 4 * |tuners|
    ensures |Hdhomerun(tuners)| == 4 * |tuners|
    ensures Hdhomerun(tuners)[k].Element? && "id" in Hdhomerun(tuners)[k].attrs
    ensures Hdhomerun(tuners)[k].attrs["id"] == TUNER_PREFIX + tuners[k / 4] + HdhomerunSuffixes()[k % 4]
  {
    hide HdhomerunOne, IsOld, HdhomerunSuffixes;
    HdhomerunFresh(tuners);
    if k < 4 {
      HdhomerunOneAt(tuners[0], k);
      assert Hdhomerun(tuners)[k] == HdhomerunOne(tuners[0])[k];
    } else {
      HdhomerunOneAt(tuners[0], 0);
      HdhomerunAt(tuners[1..], k - 4);
      assert Hdhomerun(tuners)[k] == Hdhomerun(tuners[1..])[k - 4];
    }
  }

  lemma SundtekOneAt(d: Device, k: nat)
    requires k < 3
    ensures |SundtekOne(d)| == |SundtekSuffixes()| == 3
    ensures SundtekOne(d)[k].Element? && "id" in SundtekOne(d)[k].attrs
    ensures SundtekOne(d)[k].attrs["id"] == TUNER_PREFIX + d.serial + SundtekSuffixes()[k]
  {
  }

  lemma {:induction false} SundtekAt(devices: seq<Device>, k: nat)
    requires k < 3 * |devices|
    ensures |Sundtek(devices)| == 3 * |devices|
    ensures Sundtek(devices)[k].Element? && "id" in Sundtek(devices)[k].attrs
    ensures Sundtek(devices)[k].attrs["id"] == TUNER_PREFIX + devices[k / 3].serial + SundtekSuffixes()[k % 3]
  {
    hide SundtekOne, IsOld, SundtekSuffixes;
    SundtekFresh(devices);
    if k < 3 {
      SundtekOneAt(devices[0], k);
      assert Sundtek(devices)[k] == SundtekOne(devices[0])[k];
    } else {
      SundtekOneAt(devices[0], 0);
      SundtekAt(devices[1..], k - 3);
      assert Sundtek(devices)[k] == Sundtek(devices[1..])[k - 3];
    }
  }

  /** All ids generated for distinct tuners are distinct. */
  lemma HdhomerunIdsDistinct(tuners: seq<string>, i: nat, j: nat)
    requires forall x, y :: 0 <= x < y < |tuners| ==> tuners[x] != tuners[y]
    requires i < j < 4 * |tuners|
    ensures |Hdhomerun(tuners)| == 4 * |tuners|
    ensures Hdhomerun(tuners)[i].Element? && Hdhomerun(tuners)[j].Element?
    ensures "id" in Hdhomerun(tuners)[i].attrs && "id" in Hdhomerun(tuners)[j].attrs
    ensures Hdhomerun(tuners)[i].attrs["id"] != Hdhomerun(tuners)[j].attrs["id"]
  {
    HdhomerunAt(tuners, i);
    HdhomerunAt(tuners, j);
    if Hdhomerun(tuners)[i].attrs["id"] == Hdhomerun(tuners)[j].attrs["id"] {
      IdsDistinct(tuners[i / 4], HdhomerunSuffixes()[i % 4], tuners[j / 4], HdhomerunSuffixes()[j % 4]);
    }
  }

  lemma SundtekIdsDistinct(devices: seq<Device>, i: nat, j: nat)
    requires forall x, y :: 0 <= x < y < |devices| ==> devices[x].serial != devices[y].serial
    requires i < j < 3 * |devices|
    ensures |Sundtek(devices)| == 3 * |devices|
    ensures Sundtek(devices)[i].Element? && Sundtek(devices)[j].Element?
    ensures "id" in Sundtek(devices)[i].attrs && "id" in Sundtek(devices)[j].attrs
    ensures Sundtek(devices)[i].attrs["id"] != Sundtek(devices)[j].attrs["id"]
  {
    SundtekAt(devices, i);
    SundtekAt(devices, j);
    if Sundtek(devices)[i].attrs["id"] == Sundtek(devices)[j].attrs["id"] {
      IdsDistinct(devices[i / 3].serial, SundtekSuffixes()[i % 3], devices[j / 3].serial, SundtekSuffixes()[j % 3]);
    }
  }
}
