/** The rules file as text, in the words of the script
    (packages/x11/driver/xf86-video-nvidia/scripts/make_nvidia_udev.py). */
module RulesFile {
  import opened Basics
  import opened Text
  import opened UdevRules
  import opened NvidiaRules

  function DeviceLine(id: string): string {
    "ATTRS{device}==\"" + ("0x" + id) + "\"" + ", " + "GOTO=\"configure_nvidia\""
  }

  function DeviceLines(us: seq<string>): (r: seq<string>)
    ensures |r| == |us| && forall i :: 0 <= i < |us| ==> r[i] == DeviceLine(us[i])
  {
    if us == [] then [] else [DeviceLine(us[0])] + DeviceLines(us[1..])
  }

  function ConfigureLine(service: string): string {
    "ENV{xorg_driver}=\"nvidia\"" + ", " + "TAG+=\"systemd\"" + ", " + "ENV{SYSTEMD_WANTS}+=\"" + service + "\""
  }

  function FirstLines(): seq<string> {
    ["ACTION!=\"add|change\"" + ", " + "GOTO=\"end_video\"",
     "SUBSYSTEM==\"pci\"" + ", " + "ATTR{class}==\"0x030000\"" + ", " + "ATTRS{vendor}==\"0x10de\"" + ", "
     + "GOTO=\"subsystem_pci\"",
     "GOTO=\"end_video\"",
     "",
     "LABEL=\"subsystem_pci\""]
  }

  function LastLines(): seq<string> {
    ["GOTO=\"configure_nvidia-legacy\"",
     "",
     "LABEL=\"configure_nvidia\"",
     ConfigureLine("xorg-configure@nvidia.service"),
     "GOTO=\"end_video\"",
     "",
     "LABEL=\"configure_nvidia-legacy\"",
     ConfigureLine("xorg-configure@nvidia-legacy.service"),
     "GOTO=\"end_video\"",
     "",
     "LABEL=\"end_video\""]
  }

  // ----- clauses -----

  lemma ActionText()
    ensures ShowClause(Clause(Action, NoMatch, "add|change")) == "ACTION!=\"add|change\""
  {
  }

  lemma SubsystemText()
    ensures ShowClause(Clause(Subsystem, Match, "pci")) == "SUBSYSTEM==\"pci\""
  {
  }

  lemma ClassText()
    ensures ShowClause(Clause(Attr("class"), Match, "0x030000")) == "ATTR{class}==\"0x030000\""
  {
    assert ShowKey(Attr("class")) == "ATTR{class}";
  }

  lemma VendorText()
    ensures ShowClause(Clause(Attrs("vendor"), Match, "0x10de")) == "ATTRS{vendor}==\"0x10de\""
  {
    assert ShowKey(Attrs("vendor")) == "ATTRS{vendor}";
  }

  lemma DeviceText(id: string)
    ensures ShowClause(Clause(Attrs("device"), Match, id)) == "ATTRS{device}==\"" + id + "\""
  {
    assert ShowKey(Attrs("device")) == "ATTRS{device}";
    assert "ATTRS{device}" + "==" + "\"" == "ATTRS{device}==\"";
  }

  lemma DriverText()
    ensures ShowClause(Clause(Env("xorg_driver"), Assign, "nvidia")) == "ENV{xorg_driver}=\"nvidia\""
  {
    assert ShowKey(Env("xorg_driver")) == "ENV{xorg_driver}";
  }

  lemma TagText()
    ensures ShowClause(Clause(Tag, Append, "systemd")) == "TAG+=\"systemd\""
  {
  }

  lemma WantsText(service: string)
    ensures ShowClause(Clause(Env("SYSTEMD_WANTS"), Append, service)) == "ENV{SYSTEMD_WANTS}+=\"" + service + "\""
  {
    assert ShowKey(Env("SYSTEMD_WANTS")) == "ENV{SYSTEMD_WANTS}";
    assert "ENV{SYSTEMD_WANTS}" + "+=" + "\"" == "ENV{SYSTEMD_WANTS}+=\"";
  }

  lemma EndText()
    ensures ShowClause(Clause(Goto, Assign, END)) == "GOTO=\"end_video\""
    ensures ShowClause(Clause(Label, Assign, END)) == "LABEL=\"end_video\""
  {
  }

  lemma PciText()
    ensures ShowClause(Clause(Goto, Assign, PCI)) == "GOTO=\"subsystem_pci\""
    ensures ShowClause(Clause(Label, Assign, PCI)) == "LABEL=\"subsystem_pci\""
  {
  }

  lemma CurrentGoto()
    ensures ShowClause(Clause(Goto, Assign, CURRENT)) == "GOTO=\"configure_nvidia\""
  {
  }

  lemma CurrentLabel()
    ensures ShowClause(Clause(Label, Assign, CURRENT)) == "LABEL=\"configure_nvidia\""
  {
  }

  lemma LegacyGoto()
    ensures ShowClause(Clause(Goto, Assign, LEGACY)) == "GOTO=\"configure_nvidia-legacy\""
  {
  }

  lemma LegacyLabel()
    ensures ShowClause(Clause(Label, Assign, LEGACY)) == "LABEL=\"configure_nvidia-legacy\""
  {
  }

  // ----- lines -----

  lemma OneClause(a: Clause)
    ensures ShowRule([a]) == ShowClause(a)
  {
    hide ShowClause;
    assert ShowClause(a) + "" == ShowClause(a);
  }

  lemma MoreClauses(a: Clause, rest: Rule)
    requires rest != []
    ensures ShowRule([a] + rest) == ShowClause(a) + ", " + ShowRule(rest)
  {
    hide ShowClause;
    assert ([a] + rest)[1..] == rest;
  }

  lemma TwoClauses(a: Clause, b: Clause)
    ensures ShowRule([a, b]) == ShowClause(a) + ", " + ShowClause(b)
  {
    hide ShowClause, ShowRule;
    MoreClauses(a, [b]);
    OneClause(b);
    assert [a] + [b] == [a, b];
  }

  lemma ThreeTexts(a: Clause, b: Clause, c: Clause)
    ensures ShowRule([a, b, c]) == ShowClause(a) + ", " + ShowClause(b) + ", " + ShowClause(c)
  {
    hide ShowClause, ShowRule;
    MoreClauses(a, [b, c]);
    TwoClauses(b, c);
    assert [a] + [b, c] == [a, b, c];
  }

  lemma FourTexts(a: Clause, b: Clause, c: Clause, d: Clause)
    ensures ShowRule([a, b, c, d]) == ShowClause(a) + ", " + ShowClause(b) + ", " + ShowClause(c) + ", " + ShowClause(d)
  {
    hide ShowClause, ShowRule;
    MoreClauses(a, [b, c, d]);
    ThreeTexts(b, c, d);
    assert [a] + [b, c, d] == [a, b, c, d];
  }

  lemma OtherActionText()
    ensures ShowRule(OtherAction()) == FirstLines()[0]
  {
    ActionText();
    EndText();
    hide ShowClause, ShowRule;
    TwoClauses(OtherAction()[0], OtherAction()[1]);
  }

  lemma IsCardText()
    ensures ShowRule(IsCard()) == FirstLines()[1]
  {
    SubsystemText();
    ClassText();
    VendorText();
    PciText();
    hide ShowClause, ShowRule;
    FourTexts(IsCard()[0], IsCard()[1], IsCard()[2], IsCard()[3]);
  }

  lemma IsDeviceText(id: string)
    ensures ShowRule(IsDevice(id)) == DeviceLine(id)
  {
    DeviceText("0x" + id);
    CurrentGoto();
    hide ShowClause, ShowRule;
    TwoClauses(IsDevice(id)[0], IsDevice(id)[1]);
  }

  lemma ConfigureText(service: string)
    ensures ShowRule(Configure(service)) == ConfigureLine(service)
  {
    DriverText();
    TagText();
    WantsText(service);
    hide ShowClause, ShowRule;
    var c := Configure(service);
    ThreeTexts(c[0], c[1], c[2]);
    Around("ENV{xorg_driver}=\"nvidia\"" + ", " + "TAG+=\"systemd\"" + ", ", "ENV{SYSTEMD_WANTS}+=\"", service, "\"");
  }

  lemma Around(before: string, open: string, service: string, close: string)
    ensures before + (open + service + close) == before + open + service + close
  {
  }

  lemma JumpText(place: string)
    ensures ShowRule(Skip(place)) == ShowClause(Clause(Goto, Assign, place))
    ensures ShowRule(Here(place)) == ShowClause(Clause(Label, Assign, place))
  {
    hide ShowClause, ShowRule;
    OneClause(Skip(place)[0]);
    OneClause(Here(place)[0]);
  }

  // ----- the file -----

  /** The rule written on a line, or nothing on a blank line. */
  predicate Says(line: Option<Rule>, text: string) {
    match line case Some(r) => ShowRule(r) == text case None => text == ""
  }

  predicate AllSay(lines: seq<Option<Rule>>, texts: seq<string>) {
    |lines| == |texts| && forall i :: 0 <= i < |lines| ==> Says(lines[i], texts[i])
  }

  lemma {:induction false} SaidText(lines: seq<Option<Rule>>, texts: seq<string>)
    requires AllSay(lines, texts)
    ensures FileText(lines) == Unlines(texts)
  {
    hide ShowRule;
    if lines != [] {
      assert Says(lines[0], texts[0]);
      assert forall i :: 0 <= i < |lines[1..]| ==> lines[1..][i] == lines[i + 1] && texts[1..][i] == texts[i + 1];
      SaidText(lines[1..], texts[1..]);
    }
  }

  lemma SayAppend(a: seq<Option<Rule>>, s: seq<string>, b: seq<Option<Rule>>, t: seq<string>)
    requires AllSay(a, s) && AllSay(b, t)
    ensures AllSay(a + b, s + t)
  {
    hide Says;
  }

  lemma FirstSaid()
    ensures AllSay(Start(), FirstLines())
  {
    OtherActionText();
    IsCardText();
    JumpText(END);
    JumpText(PCI);
    EndText();
    PciText();
    hide ShowRule, ShowClause, OtherAction, IsCard, Skip, Here;
    assert FirstLines()[2] == "GOTO=\"end_video\"" && FirstLines()[4] == "LABEL=\"subsystem_pci\"";
  }

  lemma DevicesSaid(us: seq<string>)
    ensures AllSay(Devices(us), DeviceLines(us))
  {
    forall i | 0 <= i < |us|
      ensures Says(Devices(us)[i], DeviceLines(us)[i])
    {
      IsDeviceText(us[i]);
    }
  }

  lemma LastSaid()
    ensures AllSay(Finish(), LastLines())
  {
    JumpText(END);
    JumpText(CURRENT);
    JumpText(LEGACY);
    EndText();
    CurrentLabel();
    LegacyGoto();
    LegacyLabel();
    ServicesAre();
    ConfigureText(CURRENT_SERVICE);
    ConfigureText(LEGACY_SERVICE);
    hide ShowRule, ShowClause, Configure, Skip, Here, ConfigureLine;
  }

  /** The file is, line by line, what the script writes: the fixed lines around one line for every id. */
  lemma FileIs(us: seq<string>)
    ensures FileText(Lines(us)) == Unlines(FirstLines() + DeviceLines(us) + LastLines())
  {
    FirstSaid();
    DevicesSaid(us);
    LastSaid();
    hide *;
    SayAppend(Start(), FirstLines(), Devices(us), DeviceLines(us));
    SayAppend(Start() + Devices(us), FirstLines() + DeviceLines(us), Finish(), LastLines());
    LinesAre(us);
    SaidText(Lines(us), FirstLines() + DeviceLines(us) + LastLines());
  }

  lemma LinesAre(us: seq<string>)
    ensures Lines(us) == Start() + Devices(us) + Finish()
  {
  }
}
