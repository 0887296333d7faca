/** `get_devices_sundtek`: the line-driven parser of the `mediaclient -e` report
    (packages/addons/official/driver/sundtek-mediatv/source/resources/lib/functions.py). */
module SundtekReport {
  import opened Basics
  import opened Text
  import TunerTree

  // ----- byte strings -----

  predicate AllSpace(s: string) {
    forall i :: 0 <= i < |s| ==> IsSpace(s[i])
  }

  function LeftStrip(s: string): string {
    if s != "" && IsSpace(s[0]) then LeftStrip(s[1..]) else s
  }

  function RightStrip(s: string): string {
    if s != "" && IsSpace(s[|s| - 1]) then RightStrip(s[..|s| - 1]) else s
  }

  /** `str.strip` on byte strings. */
  function StripBytes(s: string): string {
    RightStrip(LeftStrip(s))
  }

  predicate Core(t: string) {
    t != "" && !IsSpace(t[0]) && !IsSpace(t[|t| - 1])
  }

  lemma {:induction false} LeftStripOf(a: string, t: string)
    requires AllSpace(a) && t != "" && !IsSpace(t[0])
    ensures LeftStrip(a + t) == t
  {
    if a == "" {
      assert a + t == t;
    } else {
      assert (a + t)[1..] == a[1..] + t;
      LeftStripOf(a[1..], t);
    }
  }

  lemma {:induction false} RightStripOf(t: string, b: string)
    requires AllSpace(b) && t != "" && !IsSpace(t[|t| - 1])
    ensures RightStrip(t + b) == t
    decreases |b|
  {
    if b == "" {
      assert t + b == t;
    } else {
      assert (t + b)[..|t + b| - 1] == t + b[..|b| - 1];
      RightStripOf(t, b[..|b| - 1]);
    }
  }

  lemma StripOf(a: string, t: string, b: string)
    requires AllSpace(a) && AllSpace(b) && Core(t)
    ensures StripBytes(a + t + b) == t
  {
    assert a + t + b == a + (t + b);
    assert (t + b)[0] == t[0];
    LeftStripOf(a, t + b);
    RightStripOf(t, b);
  }

  predicate Starts(s: string, prefix: string) {
    prefix <= s
  }

  // ----- the parser -----

  /** An entry of the list; a device is entered with serial number 0, here `None`. */
  datatype Entry = Entry(name: string, serial: Option<string>, cable: bool)

  /** The list, and the variables `name` and `id`, unbound at first. */
  datatype Scan = Scan(tuners: seq<Entry>, name: Option<string>, id: Option<string>)

  /** `Crashed`: an unbound variable was used. */
  datatype Outcome = Found(tuners: seq<Entry>) | Crashed

  function NameIn(str: string): string {
    Slice(str, Find(str, "[") + 1, Find(str, "]"))
  }

  /** `str.split(':')[1].strip()`. */
  function IdIn(str: string): string {
    var rest := Slice(str, Find(str, ":") + 1, |str|);
    var k := Find(rest, ":");
    StripBytes(if k < 0 then rest else Slice(rest, 0, k))
  }

  predicate IsDvb(str: string) {
    Starts(str, "[DVB-C]:") || Starts(str, "[DVB-T]:") || Starts(str, "[DVB-T2]:")
  }

  /** `tuners[len(tuners)-1] = e`. */
  function SetLast(tuners: seq<Entry>, e: Entry): seq<Entry>
    requires tuners != []
  {
    tuners[..|tuners| - 1] + [e]
  }

  function AfterDevice(st: Scan, str: string): Scan {
    if Starts(str, "device ") then
      Scan(st.tuners + [Entry(NameIn(str), None, false)], Some(NameIn(str)), st.id)
    else st
  }

  function AfterSerial(st: Scan, str: string): Option<Scan> {
    if !Starts(str, "ID:") then Some(st)
    else if st.name.None? || st.tuners == [] then None
    else Some(Scan(SetLast(st.tuners, Entry(st.name.value, Some(IdIn(str)), false)), st.name, Some(IdIn(str))))
  }

  function AfterDvb(st: Scan, str: string): Option<Scan> {
    if !IsDvb(str) then Some(st)
    else if st.name.None? || st.id.None? || st.tuners == [] then None
    else Some(st.(tuners := SetLast(st.tuners, Entry(st.name.value, st.id, true))))
  }

  /** One turn of the loop on the lines that are left: the new state, and how many lines it read. */
  function Turn(st: Scan, lines: seq<string>): (Option<Scan>, nat)
    requires lines != []
  {
    var str := StripBytes(lines[0]);
    var st1 := AfterDevice(st, str);
    if !Starts(str, "[SERIAL]:") then (AfterDvb(st1, str), 1)
    else
      var next := if |lines| > 1 then StripBytes(lines[1]) else "";
      var st2 := AfterSerial(st1, next);
      (if st2.None? then None else AfterDvb(st2.value, next), if |lines| > 1 then 2 else 1)
  }

  function Parse(st: Scan, lines: seq<string>): Outcome
    decreases |lines|
  {
    if lines == [] then Found(st.tuners)
    else
      var (st', read) := Turn(st, lines);
      if st'.None? then Crashed
      else if read == 1 then Parse(st'.value, lines[1..])
      else if |lines| > 1 then Parse(st'.value, lines[2..])
      else Found(st'.value.tuners)
  }

  const START := Scan([], None, None)

  /** `get_devices_sundtek`; `report` is what `readline` gives until it gives nothing. */
  method GetDevicesSundtek(report: seq<string>) returns (r: Outcome)
    ensures r == Parse(START, report)
  {
    hide StripBytes, Starts, NameIn, IdIn, IsDvb;
    var tuners: seq<Entry> := [];
    var name: Option<string>, id: Option<string> := None, None;
    var at := 0;
    assert report[0..] == report;
    while at < |report|
      invariant 0 <= at <= |report|
      invariant Parse(START, report) == Parse(Scan(tuners, name, id), report[at..])
      decreases |report| - at
    {
      ghost var left := report[at..];
      assert left[0] == report[at] && left[1..] == report[at + 1..];
      assert |left| > 1 ==> left[1] == report[at + 1] && left[2..] == report[at + 2..];
      var str := StripBytes(report[at]);
      at := at + 1;
      if Starts(str, "device ") {
        name := Some(NameIn(str));
        tuners := tuners + [Entry(name.value, None, false)];
      }
      if Starts(str, "[SERIAL]:") {
        if at < |report| {
          str := StripBytes(report[at]);
          at := at + 1;
        } else {
          str := "";
        }
        if Starts(str, "ID:") {
          if name.None? || tuners == [] {
            return Crashed;
          }
          id := Some(IdIn(str));
          tuners := tuners[..|tuners| - 1] + [Entry(name.value, id, false)];
        }
      }
      if IsDvb(str) {
        if name.None? || id.None? || tuners == [] {
          return Crashed;
        }
        tuners := tuners[..|tuners| - 1] + [Entry(name.value, id, true)];
      }
    }
    r := Found(tuners);
  }

  // ----- reports made of blocks -----

  predicate IsDevice(line: string) {
    Starts(StripBytes(line), "device ")
  }

  predicate IsSerial(line: string) {
    Starts(StripBytes(line), "[SERIAL]:")
  }

  /** The sections of a device for cable or terrestrial television, whatever the parser makes of them. */
  const CABLE_KINDS := ["DVB-C", "DVB-T", "DVB-T2"]

  predicate DvbHeader(str: string) {
    exists k :: 0 <= k < |CABLE_KINDS| && "[" + CABLE_KINDS[k] + "]:" <= str
  }

  predicate DvbLine(line: string) {
    DvbHeader(StripBytes(line))
  }

  /** The parser's test takes exactly the three headers. */
  lemma HeadersExactly(str: string)
    ensures IsDvb(str) <==> DvbHeader(str)
  {
    assert "[" + "DVB-C" + "]:" == "[DVB-C]:" && "[" + "DVB-T" + "]:" == "[DVB-T]:";
    assert "[" + "DVB-T2" + "]:" == "[DVB-T2]:";
    assert CABLE_KINDS[0] == "DVB-C" && CABLE_KINDS[1] == "DVB-T" && CABLE_KINDS[2] == "DVB-T2";
  }

  predicate Section(line: string) {
    !IsDevice(line) && !IsSerial(line)
  }

  predicate Sections(lines: seq<string>) {
    forall i :: 0 <= i < |lines| ==> Section(lines[i])
  }

  predicate AnyDvb(lines: seq<string>) {
    exists i :: 0 <= i < |lines| && DvbLine(lines[i])
  }

  /** A device line; sections; perhaps the serial number on two lines, and more sections. */
  datatype Block = Block(head: string, early: seq<string>, serial: Option<(string, string)>, late: seq<string>)

  predicate GoodBlock(b: Block) {
    && IsDevice(b.head) && Sections(b.early) && Sections(b.late)
    && match b.serial
       case Some((serial, id)) => IsSerial(serial) && Starts(StripBytes(id), "ID:")
       case None => b.late == []
  }

  function Lines(b: Block): seq<string> {
    [b.head] + b.early + (match b.serial case Some((serial, id)) => [serial, id] case None => []) + b.late
  }

  function Report(blocks: seq<Block>): seq<string> {
    if blocks == [] then [] else Lines(blocks[0]) + Report(blocks[1..])
  }

  predicate GoodBlocks(blocks: seq<Block>) {
    forall i :: 0 <= i < |blocks| ==> GoodBlock(blocks[i])
  }

  function NameOf(b: Block): string {
    NameIn(StripBytes(b.head))
  }

  function SerialOf(b: Block): Option<string> {
    if b.serial.Some? then Some(IdIn(StripBytes(b.serial.value.1))) else None
  }

  /** What a block says about its device. */
  function Truth(b: Block): Entry {
    Entry(NameOf(b), SerialOf(b), AnyDvb(b.early) || AnyDvb(b.late))
  }

  function Truths(blocks: seq<Block>): (r: seq<Entry>)
    ensures |r| == |blocks| && forall i :: 0 <= i < |blocks| ==> r[i] == Truth(blocks[i])
  {
    if blocks == [] then [] else [Truth(blocks[0])] + Truths(blocks[1..])
  }

  /** What the parser makes of it: a DVB section in front of the serial number fails without the serial number
      `id` of an earlier device; it is forgotten when the device has a number of its own, and otherwise reported
      with the number of the earlier device. */
  function Reported(b: Block, id: Option<string>): Option<Entry> {
    if AnyDvb(b.early) && id.None? then None
    else if b.serial.Some? then Some(Entry(NameOf(b), SerialOf(b), AnyDvb(b.late)))
    else Some(Entry(NameOf(b), if AnyDvb(b.early) then id else None, AnyDvb(b.early)))
  }

  function NextId(b: Block, id: Option<string>): Option<string> {
    if b.serial.Some? then SerialOf(b) else id
  }

  function AllReported(blocks: seq<Block>, id: Option<string>): Outcome {
    if blocks == [] then Found([])
    else
      var one, rest := Reported(blocks[0], id), AllReported(blocks[1..], NextId(blocks[0], id));
      if one.None? || rest.Crashed? then Crashed else Found([one.value] + rest.tuners)
  }

  predicate Bound(st: Scan) {
    st.name.Some? && st.tuners != []
  }

  lemma DvbIsNothingElse(str: string)
    ensures IsDvb(str) ==> !Starts(str, "device ") && !Starts(str, "[SERIAL]:") && !Starts(str, "ID:")
    ensures Starts(str, "device ") ==> !Starts(str, "[SERIAL]:") && !Starts(str, "ID:")
    ensures Starts(str, "[SERIAL]:") ==> !Starts(str, "ID:")
  {
    if |str| > 1 && (IsDvb(str) || Starts(str, "device ") || Starts(str, "[SERIAL]:") || Starts(str, "ID:")) {
      assert Starts(str, "[SERIAL]:") ==> str[0] == '[' && str[1] == 'S';
      assert IsDvb(str) ==> str[0] == '[' && str[1] == 'D';
      assert Starts(str, "device ") ==> str[0] == 'd';
      assert Starts(str, "ID:") ==> str[0] == 'I';
    }
  }

  /** Sections: nothing happens until the first DVB section, which sets the type of the last device. */
  lemma {:induction false} ParseSections(st: Scan, lines: seq<string>, rest: seq<string>)
    requires Sections(lines) && Bound(st)
    ensures Parse(st, lines + rest)
            == if !AnyDvb(lines) then Parse(st, rest)
               else if st.id.None? then Crashed
               else Parse(st.(tuners := SetLast(st.tuners, Entry(st.name.value, st.id, true))), rest)
    decreases |lines|
  {
    hide StripBytes, Starts, IsDvb, DvbHeader;
    if lines == [] {
      assert lines + rest == rest;
    } else {
      HeadersExactly(StripBytes(lines[0]));
      var all := lines + rest;
      assert all[0] == lines[0] && all[1..] == lines[1..] + rest;
      assert Section(lines[0]);
      AnyFirst(lines);
      assert Sections(lines[1..]);
      ParseSections(st, lines[1..], rest);
      if DvbLine(lines[0]) && st.id.Some? {
        var e := Entry(st.name.value, st.id, true);
        var st' := st.(tuners := SetLast(st.tuners, e));
        assert SetLast(st'.tuners, e) == st'.tuners;
        ParseSections(st', lines[1..], rest);
      }
    }
  }

  lemma AnyFirst(lines: seq<string>)
    requires lines != []
    ensures AnyDvb(lines) <==> DvbLine(lines[0]) || AnyDvb(lines[1..])
  {
    hide DvbLine;
    if AnyDvb(lines) {
      var i :| 0 <= i < |lines| && DvbLine(lines[i]);
      if i > 0 { assert lines[1..][i - 1] == lines[i]; }
    }
    if AnyDvb(lines[1..]) {
      var i :| 0 <= i < |lines[1..]| && DvbLine(lines[1..][i]);
      assert lines[i + 1] == lines[1..][i];
    }
  }

  lemma ParseHead(st: Scan, head: string, rest: seq<string>)
    requires IsDevice(head)
    ensures Parse(st, [head] + rest)
            == (var name := NameIn(StripBytes(head));
                Parse(Scan(st.tuners + [Entry(name, None, false)], Some(name), st.id), rest))
  {
    DvbIsNothingElse(StripBytes(head));
    hide StripBytes, Starts, IsDvb, NameIn;
    assert ([head] + rest)[1..] == rest;
  }

  lemma ParseSerial(st: Scan, serial: string, id: string, rest: seq<string>)
    requires IsSerial(serial) && Starts(StripBytes(id), "ID:") && Bound(st)
    ensures Parse(st, [serial, id] + rest)
            == Parse(Scan(SetLast(st.tuners, Entry(st.name.value, Some(IdIn(StripBytes(id))), false)), st.name,
                          Some(IdIn(StripBytes(id)))), rest)
  {
    DvbIsNothingElse(StripBytes(serial));
    DvbIsNothingElse(StripBytes(id));
    hide StripBytes, Starts, IsDvb, IdIn;
    assert ([serial, id] + rest)[2..] == rest;
  }

  lemma SetLastAppended(tuners: seq<Entry>, a: Entry, b: Entry)
    ensures SetLast(tuners + [a], b) == tuners + [b]
  {
  }

  /** One block adds one entry and leaves the earlier ones alone. */
  lemma ParseBlock(st: Scan, b: Block, rest: seq<string>)
    requires GoodBlock(b)
    ensures Parse(st, Lines(b) + rest)
            == match Reported(b, st.id)
               case None => Crashed
               case Some(e) => Parse(Scan(st.tuners + [e], Some(NameOf(b)), NextId(b, st.id)), rest)
  {
    var name, tail := NameOf(b), (match b.serial case Some((serial, id)) => [serial, id] case None => []) + b.late
        + rest;
    var a := Entry(name, None, false);
    var st1 := Scan(st.tuners + [a], Some(name), st.id);
    hide Parse, IsDevice, IsSerial, Sections, AnyDvb, StripBytes, Starts, NameIn, IdIn, SetLast;
    assert Lines(b) + rest == [b.head] + (b.early + tail);
    ParseHead(st, b.head, b.early + tail);
    ParseSections(st1, b.early, tail);
    var e2 := if AnyDvb(b.early) then Entry(name, st.id, true) else a;
    var st2 := Scan(st.tuners + [e2], Some(name), st.id);
    SetLastAppended(st.tuners, a, e2);
    if !(AnyDvb(b.early) && st.id.None?) {
      assert Parse(st, Lines(b) + rest) == Parse(st2, tail);
      match b.serial {
        case None =>
          assert tail == rest;
        case Some((serial, id)) =>
          assert tail == [serial, id] + (b.late + rest);
          ParseSerial(st2, serial, id, b.late + rest);
          var e3 := Entry(name, SerialOf(b), false);
          SetLastAppended(st.tuners, e2, e3);
          var st3 := Scan(st.tuners + [e3], Some(name), SerialOf(b));
          ParseSections(st3, b.late, rest);
          SetLastAppended(st.tuners, e3, Entry(name, SerialOf(b), true));
      }
    }
  }

  lemma ParseNothing(st: Scan)
    ensures Parse(st, []) == Found(st.tuners)
  {
  }

  /** The parser's answer for every report made of blocks. */
  lemma {:induction false} ParseReport(st: Scan, blocks: seq<Block>)
    requires GoodBlocks(blocks)
    ensures Parse(st, Report(blocks))
            == match AllReported(blocks, st.id)
               case Crashed => Crashed
               case Found(entries) => Found(st.tuners + entries)
    decreases |blocks|
  {
    hide GoodBlock, Lines, Reported, NextId, Parse, NameOf;
    if blocks == [] {
      ParseNothing(st);
      assert st.tuners + [] == st.tuners;
    } else {
      var b, more := blocks[0], blocks[1..];
      assert GoodBlock(b);
      ParseBlock(st, b, Report(more));
      var one := Reported(b, st.id);
      if one.Some? {
        var st' := Scan(st.tuners + [one.value], Some(NameOf(b)), NextId(b, st.id));
        ParseReport(st', more);
        var rest := AllReported(more, NextId(b, st.id));
        if rest.Found? {
          assert st.tuners + [one.value] + rest.tuners == st.tuners + ([one.value] + rest.tuners);
        }
      }
    }
  }

  /** No DVB section in front of the serial number, unless one follows it and an earlier device had a
      serial number; none at all without a serial number. */
  predicate InOrder(b: Block, id: Option<string>) {
    AnyDvb(b.early) ==> b.serial.Some? && AnyDvb(b.late) && id.Some?
  }

  predicate AllInOrder(blocks: seq<Block>, id: Option<string>) {
    blocks == [] || (InOrder(blocks[0], id) && AllInOrder(blocks[1..], NextId(blocks[0], id)))
  }

  lemma TruthExactly(b: Block, id: Option<string>)
    requires b.serial.None? ==> b.late == []
    ensures Reported(b, id) == Some(Truth(b)) <==> InOrder(b, id)
  {
  }

  lemma {:induction false} AllTruthExactly(blocks: seq<Block>, id: Option<string>)
    requires GoodBlocks(blocks)
    ensures AllReported(blocks, id) == Found(Truths(blocks)) <==> AllInOrder(blocks, id)
  {
    hide Reported, Truth, InOrder, NextId;
    if blocks != [] {
      assert GoodBlock(blocks[0]);
      TruthExactly(blocks[0], id);
      AllTruthExactly(blocks[1..], NextId(blocks[0], id));
      var a, b := AllReported(blocks, id), Truths(blocks);
      if a.Found? {
        assert b[1..] == Truths(blocks[1..]);
        assert a.tuners[1..] == AllReported(blocks[1..], NextId(blocks[0], id)).tuners;
      }
      assert b == [Truth(blocks[0])] + Truths(blocks[1..]);
    }
  }

  /** The parser inverts the report exactly when every block is in order. */
  lemma ReportInverted(blocks: seq<Block>)
    requires GoodBlocks(blocks)
    ensures Parse(START, Report(blocks)) == Found(Truths(blocks)) <==> AllInOrder(blocks, None)
  {
    ParseReport(START, blocks);
    AllTruthExactly(blocks, None);
    var a := AllReported(blocks, None);
    if a.Found? {
      assert [] + a.tuners == a.tuners;
    }
  }

  /** A report whose first device has a DVB section before its serial number cannot be parsed. */
  lemma EarlySectionFails(b: Block, more: seq<Block>)
    requires GoodBlocks([b] + more) && AnyDvb(b.early)
    ensures Parse(START, Report([b] + more)) == Crashed
  {
    hide GoodBlocks, Parse, AnyDvb;
    ParseReport(START, [b] + more);
    assert ([b] + more)[0] == b;
  }

  lemma StripNothing(t: string)
    requires Core(t)
    ensures StripBytes(t) == t
  {
    StripOf("", t, "");
    assert "" + t + "" == t;
  }

  /** The second device of this report has no serial number, and gets that of the first one. */
  lemma NumberOfAnother()
    ensures Parse(START, ["device 0: [A]", "[SERIAL]:", "ID: 7", "device 1: [B]", "[DVB-C]:"])
            == Found([Entry("A", Some("7"), false), Entry("B", Some("7"), true)])
  {
    hide *;
    var st1 := Scan([Entry("A", None, false)], Some("A"), None);
    var st2 := Scan([Entry("A", Some("7"), false)], Some("A"), Some("7"));
    var st3 := Scan([Entry("A", Some("7"), false), Entry("B", None, false)], Some("B"), Some("7"));
    var lines := ["device 0: [A]", "[SERIAL]:", "ID: 7", "device 1: [B]", "[DVB-C]:"];
    LinesSplit();
    FirstHead();
    ParseHead(START, "device 0: [A]", lines[1..]);
    SerialLines();
    StatesAre();
    ParseSerial(st1, "[SERIAL]:", "ID: 7", lines[3..]);
    SecondHead();
    ParseHead(st2, "device 1: [B]", lines[4..]);
    SectionLine();
    ParseSections(st3, ["[DVB-C]:"], []);
    ParseNothing(Scan([Entry("A", Some("7"), false), Entry("B", Some("7"), true)], Some("B"), Some("7")));
  }

  lemma LinesSplit()
    ensures var lines := ["device 0: [A]", "[SERIAL]:", "ID: 7", "device 1: [B]", "[DVB-C]:"];
            && lines == ["device 0: [A]"] + lines[1..] && lines[1..] == ["[SERIAL]:", "ID: 7"] + lines[3..]
            && lines[3..] == ["device 1: [B]"] + lines[4..] && lines[4..] == ["[DVB-C]:"] + []
  {
  }

  lemma StatesAre()
    ensures START == Scan([], None, None)
    ensures Bound(Scan([Entry("A", None, false)], Some("A"), None))
    ensures Bound(Scan([Entry("A", Some("7"), false), Entry("B", None, false)], Some("B"), Some("7")))
    ensures SetLast([Entry("A", None, false)], Entry("A", Some("7"), false)) == [Entry("A", Some("7"), false)]
    ensures SetLast([Entry("A", Some("7"), false), Entry("B", None, false)], Entry("B", Some("7"), true))
            == [Entry("A", Some("7"), false), Entry("B", Some("7"), true)]
    ensures [] + [Entry("A", None, false)] == [Entry("A", None, false)]
    ensures [Entry("A", Some("7"), false)] + [Entry("B", None, false)]
            == [Entry("A", Some("7"), false), Entry("B", None, false)]
  {
  }

  lemma HeadLine(line: string, start: string, name: string)
    requires line == start + "[" + name + "]" + "" && "device " <= start
    requires '[' !in start && ']' !in start && ']' !in name
    ensures IsDevice(line) && NameIn(StripBytes(line)) == name
  {
    hide StripBytes, NameIn;
    assert line[0] == 'd' && line[|line| - 1] == ']';
    StripNothing(line);
    BetweenBrackets(start, name, "");
    assert "device " <= line;
  }

  lemma FirstHead()
    ensures IsDevice("device 0: [A]") && NameIn(StripBytes("device 0: [A]")) == "A"
  {
    assert "device 0: [A]" == "device 0: " + "[" + "A" + "]" + "";
    hide IsDevice, NameIn, StripBytes;
    HeadLine("device 0: [A]", "device 0: ", "A");
  }

  lemma SecondHead()
    ensures IsDevice("device 1: [B]") && NameIn(StripBytes("device 1: [B]")) == "B"
  {
    assert "device 1: [B]" == "device 1: " + "[" + "B" + "]" + "";
    hide IsDevice, NameIn, StripBytes;
    HeadLine("device 1: [B]", "device 1: ", "B");
  }

  lemma SerialLines()
    ensures IsSerial("[SERIAL]:") && Starts(StripBytes("ID: 7"), "ID:") && IdIn(StripBytes("ID: 7")) == "7"
  {
    hide StripBytes, IdIn;
    StripNothing("[SERIAL]:");
    StripNothing("ID: 7");
    assert "ID: 7" == "ID:" + " " + "7";
    AfterColon(" ", "7");
  }

  lemma SectionLine()
    ensures Sections(["[DVB-C]:"]) && AnyDvb(["[DVB-C]:"])
  {
    hide StripBytes, DvbHeader;
    StripNothing("[DVB-C]:");
    HeadersExactly("[DVB-C]:");
    DvbIsNothingElse("[DVB-C]:");
    assert DvbLine(["[DVB-C]:"][0]);
  }

  // ----- printed reports -----

  /** The lines in front of the first device. */
  lemma {:induction false} ParseHeader(st: Scan, header: seq<string>, rest: seq<string>)
    requires Sections(header) && !AnyDvb(header)
    ensures Parse(st, header + rest) == Parse(st, rest)
    decreases |header|
  {
    hide StripBytes, Starts, IsDvb, DvbHeader;
    if header == [] {
      assert header + rest == rest;
    } else {
      HeadersExactly(StripBytes(header[0]));
      var all := header + rest;
      assert all[0] == header[0] && all[1..] == header[1..] + rest;
      assert Section(header[0]) && Sections(header[1..]);
      AnyFirst(header);
      ParseHeader(st, header[1..], rest);
    }
  }

  /** How a report prints a device; the device itself is not part of this. */
  datatype Layout = Layout(lead: string, number: string, kinds: string, tail: string, early: seq<string>,
                           serial: string, idLead: string, idGap: string, idTail: string, late: seq<string>)

  function DeviceLine(d: TunerTree.Device, t: Layout): string {
    t.lead + ("device " + t.number + "[" + d.name + "]" + t.kinds) + t.tail
  }

  function IdLine(d: TunerTree.Device, t: Layout): string {
    t.idLead + ("ID:" + t.idGap + d.serial) + t.idTail
  }

  function PrintedBlock(d: TunerTree.Device, t: Layout): Block {
    Block(DeviceLine(d, t), t.early, Some((t.serial, IdLine(d, t))), t.late)
  }

  /** The name ends at the first `]`, the number at the next colon; the device's type follows from the
      sections after its serial number, and none stands before it. */
  predicate PrintedWell(d: TunerTree.Device, t: Layout) {
    && AllSpace(t.lead) && AllSpace(t.tail) && AllSpace(t.idLead) && AllSpace(t.idGap) && AllSpace(t.idTail)
    && '[' !in t.number && ']' !in t.number && ']' !in d.name
    && (t.kinds != "" ==> !IsSpace(t.kinds[|t.kinds| - 1]))
    && Core(d.serial) && ':' !in d.serial
    && IsSerial(t.serial)
    && Sections(t.early) && !AnyDvb(t.early) && Sections(t.late)
    && (d.cable <==> AnyDvb(t.late))
  }

  lemma BetweenBrackets(a: string, name: string, rest: string)
    requires '[' !in a && ']' !in a && ']' !in name
    ensures NameIn(a + "[" + name + "]" + rest) == name
  {
    var s := a + "[" + name + "]" + rest;
    assert s[|a|] == '[' && s[|a| + 1 + |name|] == ']';
    assert forall i :: 0 <= i < |a| ==> s[i] == a[i];
    assert forall i :: |a| < i < |a| + 1 + |name| ==> s[i] == name[i - |a| - 1];
    FirstChar(s, '[', |a|);
    FirstChar(s, ']', |a| + 1 + |name|);
    assert s[|a| + 1..|a| + 1 + |name|] == name;
  }

  lemma FirstChar(s: string, c: char, k: nat)
    requires k < |s| && s[k] == c && forall i :: 0 <= i < k ==> s[i] != c
    ensures Find(s, [c]) == k
  {
    FindChar(s, c, k);
  }

  lemma DeviceLineName(d: TunerTree.Device, t: Layout)
    requires PrintedWell(d, t)
    ensures IsDevice(DeviceLine(d, t)) && NameIn(StripBytes(DeviceLine(d, t))) == d.name
  {
    hide StripBytes, NameIn, Sections, AnyDvb, IsSerial;
    var start := "device " + t.number;
    var core := start + "[" + d.name + "]" + t.kinds;
    assert core[0] == 'd';
    assert t.kinds == "" ==> core[|core| - 1] == ']';
    assert t.kinds != "" ==> core[|core| - 1] == t.kinds[|t.kinds| - 1];
    StripOf(t.lead, core, t.tail);
    assert core[..7] == "device ";
    assert '[' !in start && ']' !in start;
    BetweenBrackets(start, d.name, t.kinds);
  }

  lemma AfterColon(gap: string, serial: string)
    requires AllSpace(gap) && Core(serial) && ':' !in serial
    ensures IdIn("ID:" + gap + serial) == serial
  {
    hide StripBytes;
    var s, rest := "ID:" + gap + serial, gap + serial;
    FirstChar(s, ':', 2);
    assert s[3..|s|] == rest;
    assert forall i :: 0 <= i < |rest| ==> rest[i] == (if i < |gap| then gap[i] else serial[i - |gap|]);
    assert ':' !in rest;
    FindChar(rest, ':', -1);
    StripOf(gap, serial, "");
    assert gap + serial + "" == rest;
  }

  lemma UpToColon(before: string, rest: string)
    requires ':' !in before
    ensures Find(before + ":" + rest, ":") == |before|
    ensures (before + ":" + rest)[..|before|] == before && (before + ":" + rest)[|before| + 1..] == rest
  {
    var s := before + ":" + rest;
    assert forall i :: 0 <= i < |before| ==> s[i] == before[i];
    assert s[|before|] == ':';
    FirstChar(s, ':', |before|);
  }

  /** The number is what stands between the first two colons, without white space around it. */
  lemma SecondField(before: string, number: string, rest: string)
    requires ':' !in before && ':' !in number
    ensures IdIn(before + ":" + (number + ":" + rest)) == StripBytes(number)
  {
    hide StripBytes, Find;
    UpToColon(before, number + ":" + rest);
    UpToColon(number, rest);
    var s, more := before + ":" + (number + ":" + rest), number + ":" + rest;
    assert s[|before| + 1..|s|] == more;
    assert more[0..|number|] == more[..|number|];
  }

  /** Without brackets both searches give -1, and the name is the line without its last character. */
  lemma NameWithoutBrackets(str: string)
    requires '[' !in str && ']' !in str && str != ""
    ensures NameIn(str) == str[..|str| - 1]
  {
    FindChar(str, '[', -1);
    FindChar(str, ']', -1);
  }

  lemma IdLineSerial(d: TunerTree.Device, t: Layout)
    requires PrintedWell(d, t)
    ensures Starts(StripBytes(IdLine(d, t)), "ID:") && IdIn(StripBytes(IdLine(d, t))) == d.serial
  {
    hide StripBytes, IdIn, Sections, AnyDvb, IsSerial;
    var core := "ID:" + t.idGap + d.serial;
    assert core[0] == 'I' && core[|core| - 1] == d.serial[|d.serial| - 1];
    StripOf(t.idLead, core, t.idTail);
    assert core[..3] == "ID:";
    AfterColon(t.idGap, d.serial);
  }

  function PrintedBlocks(devices: seq<TunerTree.Device>, layouts: seq<Layout>): seq<Block>
    requires |layouts| == |devices|
  {
    if devices == [] then [] else [PrintedBlock(devices[0], layouts[0])] + PrintedBlocks(devices[1..], layouts[1..])
  }

  predicate AllPrintedWell(devices: seq<TunerTree.Device>, layouts: seq<Layout>) {
    |layouts| == |devices| && forall i :: 0 <= i < |devices| ==> PrintedWell(devices[i], layouts[i])
  }

  function Entries(devices: seq<TunerTree.Device>): seq<Entry> {
    if devices == [] then []
    else [Entry(devices[0].name, Some(devices[0].serial), devices[0].cable)] + Entries(devices[1..])
  }

  lemma BlockPrinted(d: TunerTree.Device, t: Layout, id: Option<string>)
    requires PrintedWell(d, t)
    ensures GoodBlock(PrintedBlock(d, t)) && InOrder(PrintedBlock(d, t), id)
    ensures Truth(PrintedBlock(d, t)) == Entry(d.name, Some(d.serial), d.cable)
  {
    DeviceLineName(d, t);
    IdLineSerial(d, t);
    hide StripBytes, NameIn, IdIn, Sections, AnyDvb, IsSerial, IsDevice, DeviceLine, IdLine, Starts, Core, AllSpace;
  }

  lemma {:induction false} BlocksPrinted(devices: seq<TunerTree.Device>, layouts: seq<Layout>, id: Option<string>)
    requires AllPrintedWell(devices, layouts)
    ensures GoodBlocks(PrintedBlocks(devices, layouts)) && AllInOrder(PrintedBlocks(devices, layouts), id)
    ensures Truths(PrintedBlocks(devices, layouts)) == Entries(devices)
    decreases |devices|
  {
    hide PrintedWell, PrintedBlock, GoodBlock, Truth, InOrder, NextId;
    if devices != [] {
      assert PrintedWell(devices[0], layouts[0]);
      var b := PrintedBlock(devices[0], layouts[0]);
      BlockPrinted(devices[0], layouts[0], id);
      assert forall i :: 0 <= i < |devices[1..]| ==>
             devices[1..][i] == devices[i + 1] && layouts[1..][i] == layouts[i + 1];
      BlocksPrinted(devices[1..], layouts[1..], NextId(b, id));
      var bs := PrintedBlocks(devices, layouts);
      assert bs[0] == b && bs[1..] == PrintedBlocks(devices[1..], layouts[1..]);
      assert forall i :: 0 < i < |bs| ==> bs[i] == bs[1..][i - 1];
    }
  }

  /** Parsing a printed report gives back the devices, in order, each with its own name, number and type. */
  lemma DevicesFound(header: seq<string>, devices: seq<TunerTree.Device>, layouts: seq<Layout>)
    requires Sections(header) && !AnyDvb(header) && AllPrintedWell(devices, layouts)
    ensures Parse(START, header + Report(PrintedBlocks(devices, layouts))) == Found(Entries(devices))
  {
    hide Sections, AnyDvb, PrintedWell, GoodBlocks, AllInOrder, Parse, Report, PrintedBlocks;
    ParseHeader(START, header, Report(PrintedBlocks(devices, layouts)));
    BlocksPrinted(devices, layouts, None);
    ReportInverted(PrintedBlocks(devices, layouts));
  }
}
