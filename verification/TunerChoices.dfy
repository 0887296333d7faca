/** What the generated settings offer to choose from
    (packages/addons/official/driver/hdhomerun/source/resources/lib/functions.py and
    packages/addons/official/driver/sundtek-mediatv/source/resources/lib/functions.py). */
module TunerChoices {
  import opened Text
  import opened XmlTree
  import opened TunerTree

  /** A list to choose from shows the alternatives of its `values`. */
  predicate Offers(attrs: map<string, string>, choice: string) {
    "values" in attrs && choice in Alternatives(attrs["values"])
  }

  /** The default of a list is one of its alternatives. */
  predicate DefaultOffered(t: Tree) {
    t.Element? && "type" in t.attrs && "default" in t.attrs
    && (t.attrs["type"] == "labelenum" ==> Offers(t.attrs, t.attrs["default"]))
  }

  lemma CutCable()
    ensures "DVB-C|DVB-T" == "DVB-C" + "|" + "DVB-T"
  {
  }

  lemma CutAtsc()
    ensures "ATSC|DVB-C|DVB-T" == "ATSC" + "|" + "DVB-C|DVB-T"
  {
  }

  lemma CutAuto()
    ensures "auto|ATSC|DVB-C|DVB-T" == "auto" + "|" + "ATSC|DVB-C|DVB-T"
  {
  }

  lemma CutNec()
    ensures "NEC|RC6" == "NEC" + "|" + "RC6"
  {
  }

  lemma CutRc5()
    ensures "RC5|NEC|RC6" == "RC5" + "|" + "NEC|RC6"
  {
  }

  lemma CutProtocol()
    ensures "auto|RC5|NEC|RC6" == "auto" + "|" + "RC5|NEC|RC6"
  {
  }

  lemma NoBars()
    ensures '|' !in "DVB-C" && '|' !in "DVB-T" && '|' !in "DVB-S" && '|' !in "ATSC" && '|' !in "auto"
    ensures '|' !in "NEC" && '|' !in "RC5" && '|' !in "RC6"
  {
  }

  lemma CableChoices()
    ensures Alternatives("DVB-C|DVB-T") == ["DVB-C"] + ["DVB-T"] && Alternatives("DVB-S") == ["DVB-S"]
  {
    hide *;
    NoBars();
    CutCable();
    FirstAlternative("DVB-C", "DVB-T");
    OneAlternative("DVB-T");
    OneAlternative("DVB-S");
  }

  lemma ModeChoices()
    ensures Alternatives("auto|ATSC|DVB-C|DVB-T") == ["auto"] + (["ATSC"] + (["DVB-C"] + ["DVB-T"]))
  {
    hide *;
    NoBars();
    CableChoices();
    CutAuto();
    FirstAlternative("auto", "ATSC|DVB-C|DVB-T");
    CutAtsc();
    FirstAlternative("ATSC", "DVB-C|DVB-T");
  }

  lemma ProtocolChoices()
    ensures Alternatives("auto|RC5|NEC|RC6") == ["auto"] + (["RC5"] + (["NEC"] + ["RC6"]))
  {
    hide *;
    NoBars();
    CutProtocol();
    FirstAlternative("auto", "RC5|NEC|RC6");
    CutRc5();
    FirstAlternative("RC5", "NEC|RC6");
    CutNec();
    FirstAlternative("NEC", "RC6");
    OneAlternative("RC6");
  }

  /** Single characters between bars. */
  lemma {:induction false} SingleChoices(s: string, choice: string)
    requires |s| % 2 == 1 && forall i :: 0 <= i < |s| ==> (s[i] == '|' <==> i % 2 == 1)
    ensures choice in Alternatives(s) <==> |choice| == 1 && choice[0] != '|' && choice[0] in s
  {
    hide Alternatives;
    if |s| == 1 {
      OneAlternative(s);
      assert choice in [s] <==> choice == s;
      if |choice| == 1 && choice[0] == s[0] { assert choice == s; }
    } else {
      var a, rest := s[..1], s[2..];
      assert s == a + "|" + rest;
      assert forall i :: 0 <= i < |rest| ==> rest[i] == s[i + 2];
      FirstAlternative(a, rest);
      SingleChoices(rest, choice);
      InParts(s, choice);
      assert choice == a <==> |choice| == 1 && choice[0] == s[0];
    }
  }

  lemma InParts(s: string, choice: string)
    requires |s| > 2 && s[1] == '|'
    ensures |choice| == 1 && choice[0] != '|' ==> (choice[0] in s <==> choice[0] == s[0] || choice[0] in s[2..])
  {
    assert s == s[..2] + s[2..] && s[..2] == [s[0], s[1]];
  }

  lemma DigitChoices(choice: string)
    ensures choice in Alternatives("1|2|3|4|5|6|7|8") <==> |choice| == 1 && '1' <= choice[0] <= '8'
  {
    hide Alternatives;
    SingleChoices("1|2|3|4|5|6|7|8", choice);
  }

  /** A sundtek device is offered cable and terrestrial television exactly if it is of type `c`, and satellite
      television exactly if it is not; what is preset is one of the offers. */
  lemma DeviceOffers(d: Device)
    ensures Offers(DeviceMode(d), "DVB-C") <==> d.cable
    ensures Offers(DeviceMode(d), "DVB-T") <==> d.cable
    ensures Offers(DeviceMode(d), "DVB-S") <==> !d.cable
    ensures DefaultOffered(Setting(DeviceMode(d)))
  {
    hide Alternatives;
    CableChoices();
    ThreeNames();
  }

  lemma ThreeNames()
    ensures "DVB-C" != "DVB-T" && "DVB-C" != "DVB-S" && "DVB-T" != "DVB-S"
  {
    assert "DVB-C"[4] != "DVB-T"[4] && "DVB-C"[4] != "DVB-S"[4] && "DVB-T"[4] != "DVB-S"[4];
  }

  lemma ProtocolOffers(d: Device, choice: string)
    ensures Offers(Protocol(d), choice) <==> choice in {"auto", "RC5", "NEC", "RC6"}
    ensures DefaultOffered(Setting(Protocol(d))) && DefaultOffered(Setting(Keymap(d)))
  {
    ProtocolChoices();
    hide Alternatives;
  }

  /** A hdhomerun tuner is offered four modes, and one to eight of itself. */
  lemma TunerOffers(tuner: string, choice: string)
    ensures Offers(DvbMode(tuner), choice) <==> choice in {"auto", "ATSC", "DVB-C", "DVB-T"}
    ensures Offers(Numbers(tuner), choice) <==> |choice| == 1 && '1' <= choice[0] <= '8'
    ensures DefaultOffered(Setting(DvbMode(tuner))) && DefaultOffered(Setting(Numbers(tuner)))
    ensures DefaultOffered(Setting(UseFullName(tuner))) && DefaultOffered(Setting(Disable(tuner)))
  {
    hide Alternatives;
    ModeChoices();
    DigitChoices(choice);
    DigitChoices("2");
  }

  predicate AllOffered(ts: seq<Tree>) {
    forall i :: 0 <= i < |ts| ==> DefaultOffered(ts[i])
  }

  lemma OfferedAppend(a: seq<Tree>, b: seq<Tree>)
    requires AllOffered(a) && AllOffered(b)
    ensures AllOffered(a + b)
  {
    hide DefaultOffered;
  }

  lemma HdhomerunOneOffered(tuner: string)
    ensures AllOffered(HdhomerunOne(tuner))
  {
    TunerOffers(tuner, "");
    hide DefaultOffered, Offers, Setting, DvbMode, UseFullName, Numbers, Disable;
  }

  lemma SundtekOneOffered(device: Device)
    ensures AllOffered(SundtekOne(device))
  {
    DeviceOffers(device);
    ProtocolOffers(device, "");
    hide DefaultOffered, Offers, Setting, DeviceMode, Protocol, Keymap;
  }

  lemma {:induction false} HdhomerunDefaults(names: seq<string>)
    ensures AllOffered(Hdhomerun(names))
  {
    hide DefaultOffered, HdhomerunOne;
    if names != [] {
      HdhomerunOneOffered(names[0]);
      HdhomerunDefaults(names[1..]);
      OfferedAppend(HdhomerunOne(names[0]), Hdhomerun(names[1..]));
    }
  }

  lemma {:induction false} SundtekDefaults(devices: seq<Device>)
    ensures AllOffered(Sundtek(devices))
  {
    hide DefaultOffered, SundtekOne;
    if devices != [] {
      SundtekOneOffered(devices[0]);
      SundtekDefaults(devices[1..]);
      OfferedAppend(SundtekOne(devices[0]), Sundtek(devices[1..]));
    }
  }

  /** Whatever the tuners: every list is preset to one of its own choices. */
  lemma DefaultsOffered(tuners: Tuners)
    ensures AllOffered(Generated(tuners))
  {
    hide AllOffered, Hdhomerun, Sundtek;
    match tuners
    case HdhomerunTuners(names) => HdhomerunDefaults(names);
    case SundtekTuners(devices) => SundtekDefaults(devices);
  }

  /** The settings of device `i`. */
  lemma {:induction false} SettingsOfDevice(devices: seq<Device>, i: nat)
    requires i < |devices|
    ensures |Sundtek(devices)| == 3 * |devices| && Sundtek(devices)[3 * i..3 * i + 3] == SundtekOne(devices[i])
  {
    hide SundtekOne;
    SundtekFresh(devices);
    SundtekOneFresh(devices[0]);
    var rest := Sundtek(devices[1..]);
    assert Sundtek(devices) == SundtekOne(devices[0]) + rest;
    if i > 0 {
      SettingsOfDevice(devices[1..], i - 1);
      assert Sundtek(devices)[3 * i..3 * i + 3] == rest[3 * (i - 1)..3 * (i - 1) + 3];
    }
  }
}
