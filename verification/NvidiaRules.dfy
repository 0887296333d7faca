/** `make_nvidia_udev.py`: from a list of device ids to the rules that choose the driver service
    (packages/x11/driver/xf86-video-nvidia/scripts/make_nvidia_udev.py). */
module NvidiaRules {
  import opened Basics
  import opened Text
  import opened UdevRules
  import Sorting

  // ----- the ids -----

  function LowerChar(c: char): char {
    if 'A' <= c <= 'Z' then c - 'A' + 'a' else c
  }

  function Lower(s: string): (r: string)
    ensures |r| == |s| && forall i :: 0 <= i < |s| ==> r[i] == LowerChar(s[i])
  {
    if s == "" then "" else [LowerChar(s[0])] + Lower(s[1..])
  }

  /** `lower`: an upper-case letter becomes the character 32 places on, and nothing else changes. */
  lemma LowerExactly(s: string, i: nat)
    requires i < |s|
    ensures !('A' <= Lower(s)[i] <= 'Z')
    ensures Lower(s)[i] as int == s[i] as int + (if 65 <= s[i] as int <= 90 then 32 else 0)
  {
    assert Lower(s)[i] == LowerChar(s[i]);
    hide Lower, LowerChar;
    LowerCharExactly(s[i]);
  }

  lemma LowerCharExactly(c: char)
    ensures !('A' <= LowerChar(c) <= 'Z')
    ensures LowerChar(c) as int == c as int + (if 65 <= c as int <= 90 then 32 else 0)
  {
  }

  function UpToBlank(s: string): string {
    if s == "" || IsBlank(s[0]) then "" else [s[0]] + UpToBlank(s[1..])
  }

  /** `s.split()[0]`, or nothing where `split` gives no words. */
  function FirstWord(s: string): string {
    if s != "" && IsBlank(s[0]) then FirstWord(s[1..]) else UpToBlank(s)
  }

  lemma {:induction false} FirstWordOf(a: string, word: string, rest: string)
    requires AllBlank(a) && word != "" && (forall i :: 0 <= i < |word| ==> !IsBlank(word[i]))
    requires rest == "" || IsBlank(rest[0])
    ensures FirstWord(a + word + rest) == word
  {
    if a == "" {
      assert a + word + rest == word + rest;
      UpTo(word, rest);
      assert !IsBlank(word[0]);
    } else {
      assert (a + word + rest)[1..] == a[1..] + word + rest;
      FirstWordOf(a[1..], word, rest);
    }
  }

  lemma {:induction false} UpTo(word: string, rest: string)
    requires forall i :: 0 <= i < |word| ==> !IsBlank(word[i])
    requires rest == "" || IsBlank(rest[0])
    ensures UpToBlank(word + rest) == word
  {
    if word == "" {
      assert word + rest == rest;
    } else {
      assert (word + rest)[1..] == word[1..] + rest;
      UpTo(word[1..], rest);
    }
  }

  lemma {:induction false} NoWord(s: string)
    ensures FirstWord(s) == "" <==> AllBlank(s)
  {
    if s != "" && IsBlank(s[0]) { NoWord(s[1..]); }
  }

  /** The ids as the rules test for them. */
  ghost function Wanted(ids: seq<string>): set<string> {
    set i | 0 <= i < |ids| :: Lower(FirstWord(ids[i]))
  }

  // ----- the rules -----

  function Skip(place: string): Rule {
    [Clause(Goto, Assign, place)]
  }

  function Here(place: string): Rule {
    [Clause(Label, Assign, place)]
  }

  const END := "end_video"
  const PCI := "subsystem_pci"
  const CURRENT := "configure_nvidia"
  const LEGACY := "configure_nvidia-legacy"
  const CURRENT_SERVICE := "xorg-configure@nvidia.service"
  const LEGACY_SERVICE := "xorg-configure@nvidia-legacy.service"

  /** The two services by name: for the cards on the list, and for all others. */
  function Service(known: bool): string {
    if known then "xorg-configure@nvidia.service" else "xorg-configure@nvidia-legacy.service"
  }

  lemma ServicesAre()
    ensures CURRENT_SERVICE == Service(true) && LEGACY_SERVICE == Service(false)
  {
  }

  function OtherAction(): Rule {
    [Clause(Action, NoMatch, "add|change"), Clause(Goto, Assign, END)]
  }

  function IsCard(): Rule {
    [Clause(Subsystem, Match, "pci"), Clause(Attr("class"), Match, "0x030000"),
     Clause(Attrs("vendor"), Match, "0x10de"),
     Clause(Goto, Assign, PCI)]
  }

  function IsDevice(id: string): Rule {
    [Clause(Attrs("device"), Match, "0x" + id), Clause(Goto, Assign, CURRENT)]
  }

  function Configure(service: string): Rule {
    [Clause(Env("xorg_driver"), Assign, "nvidia"), Clause(Tag, Append, "systemd"),
     Clause(Env("SYSTEMD_WANTS"), Append, service)]
  }

  function Start(): seq<Option<Rule>> {
    [Some(OtherAction()), Some(IsCard()), Some(Skip(END)), None, Some(Here(PCI))]
  }

  function Devices(us: seq<string>): (r: seq<Option<Rule>>)
    ensures |r| == |us| && forall i :: 0 <= i < |us| ==> r[i] == Some(IsDevice(us[i]))
  {
    if us == [] then [] else [Some(IsDevice(us[0]))] + Devices(us[1..])
  }

  function Finish(): seq<Option<Rule>> {
    [Some(Skip(LEGACY)), None, Some(Here(CURRENT)), Some(Configure(CURRENT_SERVICE)), Some(Skip(END)), None,
     Some(Here(LEGACY)), Some(Configure(LEGACY_SERVICE)), Some(Skip(END)), None, Some(Here(END))]
  }

  /** The file, line by line; `None` is a blank line. */
  function Lines(us: seq<string>): seq<Option<Rule>> {
    Start() + Devices(us) + Finish()
  }

  function LineText(x: Option<Rule>): string {
    (match x case Some(r) => ShowRule(r) case None => "") + "\n"
  }

  function FileText(lines: seq<Option<Rule>>): string {
    if lines == [] then "" else LineText(lines[0]) + FileText(lines[1..])
  }

  lemma {:induction false} FileTextSnoc(lines: seq<Option<Rule>>, x: Option<Rule>)
    ensures FileText(lines + [x]) == FileText(lines) + LineText(x)
  {
    hide LineText;
    if lines == [] {
      assert [x][1..] == [] && [] + [x] == [x];
    } else {
      assert (lines + [x])[1..] == lines[1..] + [x];
      FileTextSnoc(lines[1..], x);
    }
  }

  method WriteLine(f: string, ghost lines: seq<Option<Rule>>, x: Option<Rule>)
    returns (f': string, ghost lines': seq<Option<Rule>>)
    requires f == FileText(lines)
    ensures lines' == lines + [x] && f' == FileText(lines')
  {
    FileTextSnoc(lines, x);
    hide LineText;
    f', lines' := f + LineText(x), lines + [x];
  }

  lemma DevicesSnoc(us: seq<string>, k: nat)
    requires k < |us|
    ensures Devices(us[..k + 1]) == Devices(us[..k]) + [Some(IsDevice(us[k]))]
  {
    hide IsDevice;
    var a, b := Devices(us[..k + 1]), Devices(us[..k]) + [Some(IsDevice(us[k]))];
    assert forall i :: 0 <= i < |a| ==> a[i] == b[i];
  }

  /** The whole script after the download: `IndexError` where an id has no words, else the file. */
  method MakeRules(ids: seq<string>) returns (file: Option<string>)
    ensures file.None? <==> exists i :: 0 <= i < |ids| && AllBlank(ids[i])
    ensures file.Some? ==> exists us :: Sorting.Increasing(us) && (forall x :: x in us <==> x in Wanted(ids))
                                        && file.value == FileText(Lines(us))
  {
    hide FirstWord, Lower, FileText, Lines, OtherAction, IsCard, Skip, Here, Configure, Sorting.Below, AllBlank;
    var unique: seq<string> := [];
    for n := 0 to |ids|
      invariant forall i :: 0 <= i < n ==> !AllBlank(ids[i])
      invariant |unique| == n && forall i :: 0 <= i < n ==> unique[i] == Lower(FirstWord(ids[i]))
    {
      NoWord(ids[n]);
      if FirstWord(ids[n]) == "" {
        return None;
      }
      unique := unique + [Lower(FirstWord(ids[n]))];
    }
    var us := Sorting.Sorted(set u | u in unique);
    assert forall x :: x in us <==> x in Wanted(ids);
    var f := WriteRules(us);
    file := Some(f);
  }

  method WriteRules(us: seq<string>) returns (f: string)
    ensures f == FileText(Lines(us))
  {
    hide *;
    f := "";
    ghost var w: seq<Option<Rule>> := [];
    NoLines();
    f, w := WriteLine(f, w, Some(OtherAction()));
    f, w := WriteLine(f, w, Some(IsCard()));
    f, w := WriteLine(f, w, Some(Skip(END)));
    f, w := WriteLine(f, w, None);
    f, w := WriteLine(f, w, Some(Here(PCI)));
    StartIs();
    NoDevices(us);
    for k := 0 to |us|
      invariant w == Start() + Devices(us[..k]) && f == FileText(w)
    {
      f, w := WriteLine(f, w, Some(IsDevice(us[k])));
      DevicesSnoc(us, k);
    }
    assert us[..|us|] == us;
    f, w := WriteLine(f, w, Some(Skip(LEGACY)));
    f, w := WriteLine(f, w, None);
    f, w := WriteLine(f, w, Some(Here(CURRENT)));
    f, w := WriteLine(f, w, Some(Configure(CURRENT_SERVICE)));
    f, w := WriteLine(f, w, Some(Skip(END)));
    f, w := WriteLine(f, w, None);
    f, w := WriteLine(f, w, Some(Here(LEGACY)));
    f, w := WriteLine(f, w, Some(Configure(LEGACY_SERVICE)));
    f, w := WriteLine(f, w, Some(Skip(END)));
    f, w := WriteLine(f, w, None);
    f, w := WriteLine(f, w, Some(Here(END)));
    FinishIs(us);
  }

  lemma NoLines()
    ensures FileText([]) == ""
  {
  }

  lemma StartIs()
    ensures [] + [Some(OtherAction())] + [Some(IsCard())] + [Some(Skip(END))] + [None] + [Some(Here(PCI))] == Start()
  {
    hide OtherAction, IsCard, Skip, Here;
  }

  lemma NoDevices(us: seq<string>)
    ensures Start() + Devices(us[..0]) == Start()
  {
    hide Start;
    assert Devices(us[..0]) == [];
  }

  lemma FinishIs(us: seq<string>)
    ensures Start() + Devices(us) + [Some(Skip(LEGACY))] + [None] + [Some(Here(CURRENT))]
            + [Some(Configure(CURRENT_SERVICE))]
            + [Some(Skip(END))] + [None] + [Some(Here(LEGACY))] + [Some(Configure(LEGACY_SERVICE))]
            + [Some(Skip(END))] + [None]
            + [Some(Here(END))] == Lines(us)
  {
    hide Start, Devices, Skip, Here, Configure;
  }

  // ----- the file read back -----

  function Rules(lines: seq<Option<Rule>>): seq<Rule> {
    if lines == [] then []
    else (match lines[0] case Some(r) => [r] case None => []) + Rules(lines[1..])
  }

  predicate GoodLines(lines: seq<Option<Rule>>) {
    forall i :: 0 <= i < |lines| && lines[i].Some? ==> GoodRule(lines[i].value) && lines[i].value != []
  }

  lemma {:induction false} FileBack(lines: seq<Option<Rule>>)
    requires GoodLines(lines)
    ensures ReadFile(FileText(lines)) == Some(Rules(lines))
  {
    hide ReadFile, GoodRule, ShowRule, ReadRule;
    if lines == [] {
      NothingInFile();
    } else {
      assert forall i :: 0 <= i < |lines[1..]| ==> lines[1..][i] == lines[i + 1];
      FileBack(lines[1..]);
      var rest := FileText(lines[1..]);
      match lines[0] {
        case Some(r) =>
          assert GoodRule(lines[0].value);
          RuleBack(r);
          ReadLine(ShowRule(r), rest);
        case None =>
          ReadLine("", rest);
          assert [] + Rules(lines[1..]) == Rules(lines[1..]);
      }
    }
  }

  lemma NothingInFile()
    ensures ReadFile("") == Some([])
  {
  }

  /** Ids that name one device each and can be quoted. */
  predicate GoodIds(us: seq<string>) {
    forall i :: 0 <= i < |us| ==> GoodId(us[i])
  }

  predicate GoodId(u: string) {
    '"' !in u && '\n' !in u && '|' !in u
  }

  lemma PlacesGood()
    ensures GoodValue(END) && GoodValue(PCI) && GoodValue(CURRENT) && GoodValue(LEGACY)
  {
  }

  lemma CurrentGood()
    ensures GoodValue(CURRENT_SERVICE)
  {
  }

  lemma LegacyGood()
    ensures GoodValue(LEGACY_SERVICE)
  {
  }

  lemma ServicesGood()
    ensures GoodValue(CURRENT_SERVICE) && GoodValue(LEGACY_SERVICE)
  {
    CurrentGood();
    LegacyGood();
  }

  lemma AttributesPlain()
    ensures Plain("class") && Plain("vendor")
  {
  }

  lemma DriverPlain()
    ensures Plain("xorg_driver")
  {
  }

  lemma WantsPlain()
    ensures Plain("SYSTEMD_WANTS")
  {
  }

  lemma ValuesGood()
    ensures GoodValue("add|change") && GoodValue("pci") && GoodValue("0x030000") && GoodValue("0x10de")
    ensures GoodValue("nvidia") && GoodValue("systemd")
  {
  }

  lemma OtherActionGood()
    ensures GoodRule(OtherAction()) && OtherAction() != []
  {
    ValuesGood();
    PlacesGood();
    hide GoodValue;
  }

  lemma IsCardGood()
    ensures GoodRule(IsCard()) && IsCard() != []
  {
    AttributesPlain();
    ValuesGood();
    PlacesGood();
    hide GoodValue, Plain;
  }

  lemma JumpGood(place: string)
    requires GoodValue(place)
    ensures GoodRule(Skip(place)) && Skip(place) != [] && GoodRule(Here(place)) && Here(place) != []
  {
  }

  lemma ConfigureGood(service: string)
    requires GoodValue(service)
    ensures GoodRule(Configure(service)) && Configure(service) != []
  {
    DriverPlain();
    WantsPlain();
    ValuesGood();
    hide GoodValue, Plain;
  }

  lemma FixedLinesGood()
    ensures GoodLines(Start()) && GoodLines(Finish())
  {
    PlacesGood();
    ServicesGood();
    OtherActionGood();
    IsCardGood();
    JumpGood(END);
    JumpGood(PCI);
    JumpGood(CURRENT);
    JumpGood(LEGACY);
    ConfigureGood(CURRENT_SERVICE);
    ConfigureGood(LEGACY_SERVICE);
    hide GoodRule, OtherAction, IsCard, Skip, Here, Configure, GoodValue;
  }

  lemma DeviceGood(u: string)
    requires GoodId(u)
    ensures GoodRule(IsDevice(u)) && IsDevice(u) != []
  {
  }

  lemma LinesGood(us: seq<string>)
    requires GoodIds(us)
    ensures GoodLines(Lines(us))
  {
    FixedLinesGood();
    hide Start, Finish, GoodRule, IsDevice, GoodId;
    var a := Start() + Devices(us);
    forall i | 0 <= i < |Lines(us)| && Lines(us)[i].Some?
      ensures GoodRule(Lines(us)[i].value) && Lines(us)[i].value != []
    {
      if i < |Start()| {
        assert Lines(us)[i] == Start()[i];
      } else if i < |a| {
        assert Lines(us)[i] == Devices(us)[i - |Start()|];
        DeviceGood(us[i - |Start()|]);
      } else {
        assert Lines(us)[i] == Finish()[i - |a|];
      }
    }
  }

  /** Reading the file gives back the rules. */
  lemma FileRead(us: seq<string>)
    requires GoodIds(us)
    ensures ReadFile(FileText(Lines(us))) == Some(Rules(Lines(us)))
  {
    hide *;
    LinesGood(us);
    FileBack(Lines(us));
  }

  // ----- what the rules do -----

  function DeviceRules(us: seq<string>): (r: seq<Rule>)
    ensures |r| == |us| && forall i :: 0 <= i < |us| ==> r[i] == IsDevice(us[i])
  {
    if us == [] then [] else [IsDevice(us[0])] + DeviceRules(us[1..])
  }

  /** The rules without the blank lines. */
  function Program(us: seq<string>): seq<Rule> {
    [OtherAction(), IsCard(), Skip(END), Here(PCI)]
    + DeviceRules(us)
    + [Skip(LEGACY), Here(CURRENT), Configure(CURRENT_SERVICE), Skip(END), Here(LEGACY), Configure(LEGACY_SERVICE),
       Skip(END), Here(END)]
  }

  lemma {:induction false} RulesAppend(a: seq<Option<Rule>>, b: seq<Option<Rule>>)
    ensures Rules(a + b) == Rules(a) + Rules(b)
  {
    if a == [] {
      assert a + b == b;
    } else {
      assert (a + b)[1..] == a[1..] + b;
      RulesAppend(a[1..], b);
    }
  }

  lemma {:induction false} RulesOfDevices(us: seq<string>)
    ensures Rules(Devices(us)) == DeviceRules(us)
  {
    hide IsDevice;
    if us != [] {
      assert Devices(us)[1..] == Devices(us[1..]);
      RulesOfDevices(us[1..]);
    }
  }

  lemma RulesFirst(x: Option<Rule>, rest: seq<Option<Rule>>)
    ensures Rules([x] + rest) == (match x case Some(r) => [r] case None => []) + Rules(rest)
  {
    assert ([x] + rest)[1..] == rest;
  }

  lemma RulesOfStart()
    ensures Rules(Start()) == [OtherAction(), IsCard(), Skip(END), Here(PCI)]
  {
    hide OtherAction, IsCard, Skip, Here, Rules;
    var a, b, c, d := OtherAction(), IsCard(), Skip(END), Here(PCI);
    assert Start() == [Some(a)] + ([Some(b)] + ([Some(c)] + ([None] + ([Some(d)] + []))));
    RulesFirst(Some(a), [Some(b)] + ([Some(c)] + ([None] + ([Some(d)] + []))));
    RulesFirst(Some(b), [Some(c)] + ([None] + ([Some(d)] + [])));
    RulesFirst(Some(c), [None] + ([Some(d)] + []));
    RulesFirst(None, [Some(d)] + []);
    RulesFirst(Some(d), []);
    NoRules();
  }

  lemma NoRules()
    ensures Rules([]) == []
  {
  }

  lemma RulesOfFinish()
    ensures Rules(Finish()) == [Skip(LEGACY), Here(CURRENT), Configure(CURRENT_SERVICE), Skip(END), Here(LEGACY),
                                Configure(LEGACY_SERVICE), Skip(END), Here(END)]
  {
    hide Skip, Here, Configure, Rules;
    var a, b, c, d, e, f, g := Skip(LEGACY), Here(CURRENT), Configure(CURRENT_SERVICE), Skip(END), Here(LEGACY),
                               Configure(LEGACY_SERVICE), Here(END);
    var m: seq<Option<Rule>> := [Some(e), Some(f), Some(d), None, Some(g)];
    assert Finish() == [Some(a), None, Some(b), Some(c), Some(d), None] + m;
    RulesAppend([Some(a), None, Some(b), Some(c), Some(d), None], m);
    SixRules(a, b, c, d);
    FiveRules(e, f, d, g);
  }

  lemma SixRules(a: Rule, b: Rule, c: Rule, d: Rule)
    ensures Rules([Some(a), None, Some(b), Some(c), Some(d), None]) == [a, b, c, d]
  {
    hide Rules;
    assert [Some(a), None, Some(b), Some(c), Some(d), None]
        == [Some(a)] + ([None] + ([Some(b)] + ([Some(c)] + ([Some(d)] + ([None] + [])))));
    RulesFirst(Some(a), [None] + ([Some(b)] + ([Some(c)] + ([Some(d)] + ([None] + [])))));
    RulesFirst(None, [Some(b)] + ([Some(c)] + ([Some(d)] + ([None] + []))));
    RulesFirst(Some(b), [Some(c)] + ([Some(d)] + ([None] + [])));
    RulesFirst(Some(c), [Some(d)] + ([None] + []));
    RulesFirst(Some(d), [None] + []);
    RulesFirst(None, []);
    NoRules();
  }

  lemma FiveRules(e: Rule, f: Rule, d: Rule, g: Rule)
    ensures Rules([Some(e), Some(f), Some(d), None, Some(g)]) == [e, f, d, g]
  {
    hide Rules;
    assert [Some(e), Some(f), Some(d), None, Some(g)]
           == [Some(e)] + ([Some(f)] + ([Some(d)] + ([None] + ([Some(g)] + []))));
    RulesFirst(Some(e), [Some(f)] + ([Some(d)] + ([None] + ([Some(g)] + []))));
    RulesFirst(Some(f), [Some(d)] + ([None] + ([Some(g)] + [])));
    RulesFirst(Some(d), [None] + ([Some(g)] + []));
    RulesFirst(None, [Some(g)] + []);
    RulesFirst(Some(g), []);
    NoRules();
  }

  /** The file means the program. */
  lemma FileIsProgram(us: seq<string>)
    requires GoodIds(us)
    ensures ReadFile(FileText(Lines(us))) == Some(Program(us))
  {
    FileRead(us);
    hide ReadFile, FileText, Rules, Start, Devices, Finish, GoodIds, OtherAction, IsCard, Skip, Here, Configure;
    RulesAppend(Start() + Devices(us), Finish());
    RulesAppend(Start(), Devices(us));
    RulesOfStart();
    RulesOfDevices(us);
    RulesOfFinish();
  }

  // ----- matching -----

  lemma CutActions()
    ensures "add|change" == "add" + "|" + "change" && '|' !in "add" && '|' !in "change"
  {
  }

  lemma AddOrChange()
    ensures Alternatives("add|change") == ["add"] + ["change"] == ["add", "change"]
  {
    hide *;
    CutActions();
    FirstAlternative("add", "change");
    OneAlternative("change");
  }

  lemma FixedAlternatives()
    ensures Alternatives("pci") == ["pci"] && Alternatives("0x030000") == ["0x030000"]
            && Alternatives("0x10de") == ["0x10de"]
  {
    hide Alternatives;
    OneAlternative("pci");
    OneAlternative("0x030000");
    OneAlternative("0x10de");
  }

  predicate Is(d: Device, name: string, value: string) {
    name in d.attrs && d.attrs[name] == value
  }

  predicate OnChain(e: Event, name: string, value: string) {
    exists j :: 0 <= j < |Chain(e)| && Is(Chain(e)[j], name, value)
  }

  predicate Added(e: Event) {
    e.action == "add" || e.action == "change"
  }

  predicate VideoDevice(e: Event) {
    e.own.subsystem == "pci" && Is(e.own, "class", "0x030000")
  }

  predicate Known(us: seq<string>, e: Event) {
    exists i :: 0 <= i < |us| && OnChain(e, "device", "0x" + us[i])
  }

  lemma OtherActionApplies(e: Event)
    ensures Applies(OtherAction(), e) <==> !Added(e)
    ensures Target(OtherAction()) == Some(END)
    ensures forall st :: Effects(OtherAction(), st) == st
  {
    AddOrChange();
    hide Alternatives;
    var r := OtherAction();
    assert r[1..] == [r[1]] && r[1..][1..] == [];
    assert AllAttrs(r, Chain(e)[0]);
    assert Holds(r[0], e) <==> !Added(e);
    assert Holds(r[1], e);
    forall st
      ensures Effects(r, st) == st
    {
      NoEffect(r, st);
    }
  }

  lemma {:induction false} NoEffect(r: Rule, st: State)
    requires forall i :: 0 <= i < |r| ==> !r[i].key.Env? && !r[i].key.Tag?
    ensures Effects(r, st) == st
    decreases |r|
  {
    if r != [] { NoEffect(r[1..], st); }
  }

  lemma IsCardApplies(e: Event)
    ensures Applies(IsCard(), e) <==> VideoDevice(e) && OnChain(e, "vendor", "0x10de")
    ensures Target(IsCard()) == Some(PCI)
    ensures forall st :: Effects(IsCard(), st) == st
  {
    FixedAlternatives();
    var r := IsCard();
    CardTarget();
    hide Alternatives, Target;
    assert Holds(r[0], e) <==> e.own.subsystem == "pci";
    assert Holds(r[1], e) <==> Is(e.own, "class", "0x030000");
    assert Holds(r[2], e) && Holds(r[3], e);
    forall j | 0 <= j < |Chain(e)|
      ensures AllAttrs(r, Chain(e)[j]) <==> Is(Chain(e)[j], "vendor", "0x10de")
    {
      CardAttrs(Chain(e)[j]);
    }
    forall st
      ensures Effects(r, st) == st
    {
      NoEffect(r, st);
    }
  }

  lemma CardAttrs(d: Device)
    ensures AllAttrs(IsCard(), d) <==> Is(d, "vendor", "0x10de")
  {
    FixedAlternatives();
    hide Alternatives;
    var r := IsCard();
    assert r[2].key == Attrs("vendor") && r[2].op == Match && r[2].value == "0x10de";
    assert HasAttr(r[2].op, d, "vendor", r[2].value) <==> Is(d, "vendor", "0x10de");
  }

  lemma CardTarget()
    ensures Target(IsCard()) == Some(PCI)
  {
    var r := IsCard();
    assert r[1..] == [r[1], r[2], r[3]] && r[1..][1..] == [r[2], r[3]] && r[1..][1..][1..] == [r[3]];
  }

  lemma IsDeviceApplies(u: string, e: Event)
    requires GoodId(u)
    ensures Applies(IsDevice(u), e) <==> OnChain(e, "device", "0x" + u)
    ensures Target(IsDevice(u)) == Some(CURRENT)
    ensures forall st :: Effects(IsDevice(u), st) == st
  {
    var r := IsDevice(u);
    assert '|' !in "0x" + u;
    OneAlternative("0x" + u);
    hide Alternatives;
    assert r[1..] == [r[1]];
    assert Holds(r[0], e) && Holds(r[1], e);
    forall j | 0 <= j < |Chain(e)|
      ensures AllAttrs(r, Chain(e)[j]) <==> Is(Chain(e)[j], "device", "0x" + u)
    {
      assert r[0].key == Attrs("device");
      assert HasAttr(r[0].op, Chain(e)[j], "device", r[0].value) <==> Is(Chain(e)[j], "device", "0x" + u);
    }
    forall st
      ensures Effects(r, st) == st
    {
      NoEffect(r, st);
    }
  }

  lemma SkipApplies(place: string, e: Event)
    ensures Applies(Skip(place), e) && Target(Skip(place)) == Some(place)
    ensures forall st :: Effects(Skip(place), st) == st
  {
    assert AllAttrs(Skip(place), Chain(e)[0]);
    forall st
      ensures Effects(Skip(place), st) == st
    {
      NoEffect(Skip(place), st);
    }
  }

  lemma HereApplies(place: string, e: Event)
    ensures Applies(Here(place), e) && Target(Here(place)) == None
    ensures forall st :: Effects(Here(place), st) == st
  {
    assert AllAttrs(Here(place), Chain(e)[0]);
    assert Here(place)[1..] == [];
    forall st
      ensures Effects(Here(place), st) == st
    {
      NoEffect(Here(place), st);
    }
  }

  /** The driver is set, and systemd is asked for the service on top of whatever it was asked for before. */
  function Configured(st: State, service: string): State {
    var env := st.env["xorg_driver" := "nvidia"];
    State(env["SYSTEMD_WANTS" := Appended(if "SYSTEMD_WANTS" in env then env["SYSTEMD_WANTS"] else "", service)],
          st.tags + {"systemd"})
  }

  lemma ThreeClauses(a: Clause, b: Clause, c: Clause, st: State)
    ensures Effects([a, b, c], st) == Effect(c, Effect(b, Effect(a, st)))
    ensures a.key != Goto && b.key != Goto && c.key != Goto ==> Target([a, b, c]) == None
  {
    hide Effect;
    var r := [a, b, c];
    assert r[1..] == [b, c] && [b, c][1..] == [c] && [c][1..] == [];
    assert Effects([c], Effect(b, Effect(a, st))) == Effect(c, Effect(b, Effect(a, st)));
    assert Effects([b, c], Effect(a, st)) == Effect(c, Effect(b, Effect(a, st)));
    assert Target([c]) == if c.key == Goto then Some(c.value) else None;
    assert Target([b, c]) == if b.key == Goto then Some(b.value) else Target([c]);
  }

  lemma ConfigureApplies(service: string, e: Event)
    ensures Applies(Configure(service), e) && Target(Configure(service)) == None
    ensures forall st :: Effects(Configure(service), st) == Configured(st, service)
  {
    var r := Configure(service);
    assert AllAttrs(r, Chain(e)[0]);
    forall st
      ensures Effects(r, st) == Configured(st, service) && Target(r) == None
    {
      ThreeClauses(r[0], r[1], r[2], st);
    }
    ThreeClauses(r[0], r[1], r[2], State(map[], {}));
  }

  // ----- the jumps -----

  lemma {:induction false} Places(us: seq<string>)
    ensures |Program(us)| == 12 + |us|
    ensures Program(us)[0] == OtherAction() && Program(us)[1] == IsCard() && Program(us)[2] == Skip(END)
            && Program(us)[3] == Here(PCI)
    ensures forall i :: 0 <= i < |us| ==> Program(us)[4 + i] == IsDevice(us[i])
    ensures Program(us)[4 + |us|] == Skip(LEGACY) && Program(us)[5 + |us|] == Here(CURRENT)
    ensures Program(us)[6 + |us|] == Configure(CURRENT_SERVICE) && Program(us)[7 + |us|] == Skip(END)
    ensures Program(us)[8 + |us|] == Here(LEGACY) && Program(us)[9 + |us|] == Configure(LEGACY_SERVICE)
    ensures Program(us)[10 + |us|] == Skip(END) && Program(us)[11 + |us|] == Here(END)
  {
    hide OtherAction, IsCard, Skip, Here, Configure, IsDevice;
  }

  lemma Unlabelled(place: string, other: string, u: string)
    ensures !Labelled(OtherAction(), place) && !Labelled(IsCard(), place) && !Labelled(Skip(other), place)
    ensures !Labelled(IsDevice(u), place) && !Labelled(Configure(other), place)
  {
  }

  lemma LabelledHere(place: string, other: string)
    ensures Labelled(Here(other), place) <==> place == other
  {
    assert Here(other)[0] == Clause(Label, Assign, other);
  }

  lemma FourPlaces()
    ensures END != PCI && END != CURRENT && END != LEGACY && PCI != CURRENT && PCI != LEGACY && CURRENT != LEGACY
  {
    assert |END| == 9 && |PCI| == 13 && |CURRENT| == 16 && |LEGACY| == 23;
  }

  function PlaceOf(us: seq<string>, place: string): nat {
    if place == PCI then 3 else if place == CURRENT then 5 + |us| else if place == LEGACY then 8 + |us| else 11 + |us|
  }

  lemma LabelledAt(us: seq<string>, place: string, j: nat)
    requires place == END || place == PCI || place == CURRENT || place == LEGACY
    requires j < 12 + |us|
    ensures |Program(us)| == 12 + |us| && (Labelled(Program(us)[j], place) <==> j == PlaceOf(us, place))
  {
    Places(us);
    FourPlaces();
    hide Labelled, Program, OtherAction, IsCard, Skip, Here, Configure, IsDevice;
    LabelledHere(place, PCI);
    LabelledHere(place, CURRENT);
    LabelledHere(place, LEGACY);
    LabelledHere(place, END);
    Unlabelled(place, END, "");
    Unlabelled(place, LEGACY, if 4 <= j < 4 + |us| then us[j - 4] else "");
    Unlabelled(place, CURRENT_SERVICE, "");
    Unlabelled(place, LEGACY_SERVICE, "");
    assert 4 <= j < 4 + |us| ==> Program(us)[j] == IsDevice(us[j - 4]);
  }

  /** A jump ahead ends at the label. */
  lemma Jump(us: seq<string>, i: nat, place: string)
    requires place == END || place == PCI || place == CURRENT || place == LEGACY
    requires i <= PlaceOf(us, place)
    ensures |Program(us)| == 12 + |us| && LabelFrom(Program(us), i, place) == PlaceOf(us, place)
  {
    hide Labelled, Program;
    var at := PlaceOf(us, place);
    LabelledAt(us, place, at);
    var k := LabelFrom(Program(us), i, place);
    if k < |Program(us)| { LabelledAt(us, place, k); }
  }

  // ----- the run -----

  lemma RunStep(rules: seq<Rule>, i: nat, e: Event, st: State)
    requires i < |rules|
    ensures !Applies(rules[i], e) ==> Run(rules, i, e, st) == Run(rules, i + 1, e, st)
    ensures Applies(rules[i], e) ==>
              Run(rules, i, e, st)
              == match Target(rules[i])
                 case None => Run(rules, i + 1, e, Effects(rules[i], st))
                 case Some(place) => Run(rules, LabelFrom(rules, i + 1, place), e, Effects(rules[i], st))
  {
  }

  lemma RunEnd(us: seq<string>, e: Event, st: State)
    ensures |Program(us)| == 12 + |us| && Run(Program(us), 11 + |us|, e, st) == st
  {
    hide *;
    Places(us);
    HereApplies(END, e);
    RunStep(Program(us), 11 + |us|, e, st);
    RunNothing(Program(us), e, st);
  }

  lemma RunNothing(rules: seq<Rule>, e: Event, st: State)
    ensures Run(rules, |rules|, e, st) == st
  {
  }

  lemma PlacesAre(us: seq<string>)
    ensures PlaceOf(us, PCI) == 3 && PlaceOf(us, CURRENT) == 5 + |us| && PlaceOf(us, LEGACY) == 8 + |us|
            && PlaceOf(us, END) == 11 + |us|
  {
    FourPlaces();
  }

  /** From a label on to the end. */
  lemma RunConfigure(us: seq<string>, at: nat, place: string, service: string, e: Event, st: State)
    requires at + 3 <= 11 + |us|
    requires |Program(us)| == 12 + |us| && Program(us)[at] == Here(place)
    requires Program(us)[at + 1] == Configure(service) && Program(us)[at + 2] == Skip(END)
    ensures Run(Program(us), at, e, st) == Configured(st, service)
  {
    hide *;
    PlacesAre(us);
    HereApplies(place, e);
    RunStep(Program(us), at, e, st);
    ConfigureApplies(service, e);
    RunStep(Program(us), at + 1, e, st);
    SkipApplies(END, e);
    RunStep(Program(us), at + 2, e, Configured(st, service));
    Jump(us, at + 3, END);
    RunEnd(us, e, Configured(st, service));
  }

  predicate KnownFrom(us: seq<string>, k: nat, e: Event) {
    exists i :: k <= i < |us| && OnChain(e, "device", "0x" + us[i])
  }

  lemma KnownStep(us: seq<string>, k: nat, e: Event)
    requires k < |us|
    ensures KnownFrom(us, k, e) <==> OnChain(e, "device", "0x" + us[k]) || KnownFrom(us, k + 1, e)
  {
    hide OnChain;
  }

  lemma KnownNever(us: seq<string>, e: Event)
    ensures !KnownFrom(us, |us|, e) && (KnownFrom(us, 0, e) <==> Known(us, e))
  {
    hide OnChain;
  }

  /** The list of ids, from the k-th on. */
  lemma {:induction false} RunDevices(us: seq<string>, k: nat, e: Event, st: State)
    requires GoodIds(us) && k <= |us|
    ensures |Program(us)| == 12 + |us|
    ensures Run(Program(us), 4 + k, e, st)
            == Configured(st, Service(KnownFrom(us, k, e)))
    decreases |us| - k
  {
    hide *;
    ServicesAre();
    Places(us);
    PlacesAre(us);
    if k == |us| {
      KnownNever(us, e);
      SkipApplies(LEGACY, e);
      RunStep(Program(us), 4 + k, e, st);
      Jump(us, 5 + k, LEGACY);
      RunConfigure(us, 8 + |us|, LEGACY, LEGACY_SERVICE, e, st);
    } else {
      KnownStep(us, k, e);
      IdGood(us, k);
      IsDeviceApplies(us[k], e);
      RunStep(Program(us), 4 + k, e, st);
      if OnChain(e, "device", "0x" + us[k]) {
        Jump(us, 5 + k, CURRENT);
        RunConfigure(us, 5 + |us|, CURRENT, CURRENT_SERVICE, e, st);
      } else {
        RunDevices(us, k + 1, e, st);
      }
    }
  }

  lemma IdGood(us: seq<string>, k: nat)
    requires GoodIds(us) && k < |us|
    ensures GoodId(us[k])
  {
    hide GoodId;
  }

  /** The whole program on any event. */
  lemma RulesChoose(us: seq<string>, e: Event, st: State)
    requires GoodIds(us)
    ensures Run(Program(us), 0, e, st)
            == if !(Added(e) && VideoDevice(e) && OnChain(e, "vendor", "0x10de")) then st
               else Configured(st, Service(Known(us, e)))
  {
    hide *;
    Places(us);
    PlacesAre(us);
    OtherActionApplies(e);
    RunStep(Program(us), 0, e, st);
    if !Added(e) {
      Jump(us, 1, END);
      RunEnd(us, e, st);
    } else {
      IsCardApplies(e);
      RunStep(Program(us), 1, e, st);
      if VideoDevice(e) && OnChain(e, "vendor", "0x10de") {
        Jump(us, 2, PCI);
        HereApplies(PCI, e);
        RunStep(Program(us), 3, e, st);
        RunDevices(us, 0, e, st);
        KnownNever(us, e);
      } else {
        SkipApplies(END, e);
        RunStep(Program(us), 2, e, st);
        Jump(us, 3, END);
        RunEnd(us, e, st);
      }
    }
  }

  /** Sorting and removing duplicates changes nothing: only membership counts. */
  lemma OnlyMembersCount(ids: seq<string>, us: seq<string>, e: Event)
    requires forall x :: x in us <==> x in Wanted(ids)
    ensures Known(us, e) <==> exists i :: 0 <= i < |ids| && OnChain(e, "device", "0x" + Lower(FirstWord(ids[i])))
  {
    hide OnChain, Lower, FirstWord;
    if Known(us, e) {
      var k :| 0 <= k < |us| && OnChain(e, "device", "0x" + us[k]);
      assert us[k] in us && us[k] in Wanted(ids);
      var i :| 0 <= i < |ids| && us[k] == Lower(FirstWord(ids[i]));
    }
    if i :| 0 <= i < |ids| && OnChain(e, "device", "0x" + Lower(FirstWord(ids[i]))) {
      assert Lower(FirstWord(ids[i])) in Wanted(ids);
      var k :| 0 <= k < |us| && us[k] == Lower(FirstWord(ids[i]));
    }
  }

  /** The id of some entry of the list is on the chain of the device. */
  predicate Listed(ids: seq<string>, e: Event) {
    exists i :: 0 <= i < |ids| && OnChain(e, "device", "0x" + Lower(FirstWord(ids[i])))
  }

  /** From the list of ids to the service: the file that `MakeRules` writes for `ids` can be read, and run on any
      event it selects the `nvidia` service exactly for the lower-cased first words of the list. */
  lemma IdsDecide(ids: seq<string>, file: string, e: Event, st: State)
    requires exists us ::
               Sorting.Increasing(us) && (forall x :: x in us <==> x in Wanted(ids)) && file == FileText(Lines(us))
    requires forall i :: 0 <= i < |ids| ==> GoodId(Lower(FirstWord(ids[i])))
    ensures ReadFile(file).Some?
    ensures Run(ReadFile(file).value, 0, e, st)
            == if !(Added(e) && VideoDevice(e) && OnChain(e, "vendor", "0x10de")) then st
               else Configured(st, Service(Listed(ids, e)))
  {
    hide GoodId, ReadFile, FileText, Lines, Run, Program, Added, VideoDevice, OnChain, Known, Configured, Lower,
         FirstWord;
    hide Sorting.Increasing;
    var us :| Sorting.Increasing(us) && (forall x :: x in us <==> x in Wanted(ids)) && file == FileText(Lines(us));
    forall k | 0 <= k < |us|
      ensures GoodId(us[k])
    {
      assert us[k] in us && us[k] in Wanted(ids);
    }
    FileIsProgram(us);
    RulesChoose(us, e, st);
    OnlyMembersCount(ids, us, e);
  }

  // ----- parents -----

  predicate KnownItself(us: seq<string>, e: Event) {
    exists i :: 0 <= i < |us| && Is(e.own, "device", "0x" + us[i])
  }

  /** A card with a listed number of its own, wherever it stands on the list. */
  lemma ListedCard(us: seq<string>, k: nat, e: Event)
    requires k < |us| && "device" in e.own.attrs && e.own.attrs["device"] == "0x" + us[k]
    ensures KnownItself(us, e)
  {
    assert Is(e.own, "device", "0x" + us[k]);
  }

  /** What the rules are for: the card itself decides. */
  function Intended(us: seq<string>, e: Event, st: State): State {
    if !(Added(e) && VideoDevice(e) && Is(e.own, "vendor", "0x10de")) then st
    else Configured(st, Service(KnownItself(us, e)))
  }

  /** No parent has the vendor's number if the card has not; no parent has a listed number if the card has none. */
  predicate ParentsSilent(us: seq<string>, e: Event) {
    && (OnChain(e, "vendor", "0x10de") ==> Is(e.own, "vendor", "0x10de"))
    && (Is(e.own, "vendor", "0x10de") && Known(us, e) ==> KnownItself(us, e))
  }

  lemma OwnIsOnChain(e: Event, name: string, value: string)
    ensures Is(e.own, name, value) ==> OnChain(e, name, value)
  {
    assert Chain(e)[0] == e.own;
  }

  lemma KnownItselfIsKnown(us: seq<string>, e: Event)
    ensures KnownItself(us, e) ==> Known(us, e)
  {
    if i :| 0 <= i < |us| && Is(e.own, "device", "0x" + us[i]) {
      OwnIsOnChain(e, "device", "0x" + us[i]);
    }
  }

  lemma ServicesDiffer()
    ensures |Service(true)| == 29 && |Service(false)| == 36
  {
  }

  lemma Different(st: State, a: string, b: string)
    requires 0 < |a| < |b|
    ensures Configured(st, a) != st && Configured(st, b) != st && Configured(st, a) != Configured(st, b)
  {
    var env := st.env["xorg_driver" := "nvidia"];
    var before := if "SYSTEMD_WANTS" in env then env["SYSTEMD_WANTS"] else "";
    assert Configured(st, a).env["SYSTEMD_WANTS"] == Appended(before, a);
    assert Configured(st, b).env["SYSTEMD_WANTS"] == Appended(before, b);
    assert |Appended(before, a)| > |before| && |Appended(before, b)| > |Appended(before, a)|;
    assert "xorg_driver"[0] != "SYSTEMD_WANTS"[0];
    assert "SYSTEMD_WANTS" in st.env ==> st.env["SYSTEMD_WANTS"] == before;
  }

  /** ATTRS looks at the parents too, so the card itself decides exactly when its parents have nothing to say. */
  lemma CardDecidesExactly(us: seq<string>, e: Event, st: State)
    requires GoodIds(us)
    ensures Run(Program(us), 0, e, st) == Intended(us, e, st) <==> (Added(e) && VideoDevice(e) ==> ParentsSilent(us, e))
  {
    RulesChoose(us, e, st);
    OwnIsOnChain(e, "vendor", "0x10de");
    KnownItselfIsKnown(us, e);
    ServicesDiffer();
    Different(st, Service(true), Service(false));
    hide Configured, OnChain, Is, Known, KnownItself, Added, VideoDevice, Program, Run, GoodIds;
  }

  /** A card that is not listed, behind a bridge with the number of a listed device. */
  function BehindBridge(): Event {
    Event("add", Device("pci", map["class" := "0x030000", "vendor" := "0x10de", "device" := "0x0040"]),
          [Device("pci", map["device" := "0x0fc0"])])
  }

  lemma BridgeIsKnown()
    ensures var e := BehindBridge();
            Added(e) && VideoDevice(e) && OnChain(e, "vendor", "0x10de") && Known(["0fc0"], e)
  {
    var us, e := ["0fc0"], BehindBridge();
    assert "0x" + us[0] == "0x0fc0";
    assert Is(Chain(e)[1], "device", "0x" + us[0]);
    OwnIsOnChain(e, "vendor", "0x10de");
  }

  lemma CardIsNot()
    ensures GoodIds(["0fc0"]) && !KnownItself(["0fc0"], BehindBridge())
  {
    assert "0x" + ["0fc0"][0] == "0x0fc0" != "0x0040";
  }

  lemma IntendedOther(us: seq<string>, e: Event, st: State)
    requires !KnownItself(us, e)
    ensures Intended(us, e, st) == st || Intended(us, e, st) == Configured(st, Service(false))
  {
  }

  /** It gets the service of the listed ones. */
  lemma BridgeDecides(st: State)
    ensures GoodIds(["0fc0"]) && !KnownItself(["0fc0"], BehindBridge())
    ensures Run(Program(["0fc0"]), 0, BehindBridge(), st) == Configured(st, Service(true))
    ensures Configured(st, Service(true)) != Intended(["0fc0"], BehindBridge(), st)
  {
    hide *;
    BridgeIsKnown();
    CardIsNot();
    RulesChoose(["0fc0"], BehindBridge(), st);
    IntendedOther(["0fc0"], BehindBridge(), st);
    ServicesDiffer();
    Different(st, Service(true), Service(false));
  }
}
