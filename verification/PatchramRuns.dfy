/** The order of `main`, and what holds of whole runs
    (packages/linux-firmware/brcm_patchram/sources/brcm_patchram_plus.c). */
module PatchramRuns {
  import opened Basics
  import opened Hci
  import opened Patchram

  /** The command line; `rate` is what `atoi` makes of `--baudrate`, `file` the contents of the HCD file. */
  datatype Options = Options(rate: Option<int>, highSpeed: bool, file: Option<seq<byte>>, no2bytes: bool,
                             bdAddr: Option<seq<byte>>, lowPower: bool, sco: Option<(seq<byte>, seq<byte>)>,
                             i2s: Option<seq<byte>>)

  predicate GoodOptions(o: Options) {
    && (o.file.Some? ==> WellFormed(o.file.value))
    && (o.bdAddr.Some? ==> |o.bdAddr.value| == 6)
    && (o.sco.Some? ==> |o.sco.value.0| == 5 && |o.sco.value.1| == 5)
    && (o.i2s.Some? ==> |o.i2s.value| == 4)
  }

  predicate RateSupported(o: Options) {
    o.rate.Some? ==> Supported(o.rate.value)
  }

  function BdAddr(addr: seq<byte>): seq<byte> {
    [0x01, 0x01, 0xfc, 0x06] + addr
  }

  function SleepMode(): seq<byte> {
    [0x01, 0x27, 0xfc, 0x0c, 0x01, 0x01, 0x01, 0x01, 0x01, 0x01, 0x01, 0x00, 0x00, 0x00, 0x00, 0x00]
  }

  function ScoPcm(p: seq<byte>): seq<byte> {
    [0x01, 0x1c, 0xfc, 0x05] + p
  }

  function PcmFormat(p: seq<byte>): seq<byte> {
    [0x01, 0x1e, 0xfc, 0x05] + p
  }

  function I2s(p: seq<byte>): seq<byte> {
    [0x01, 0x6d, 0xfc, 0x04] + p
  }

  /** The settings that are sent last. */
  function Settings(o: Options): seq<seq<byte>> {
    (if o.bdAddr.Some? then [BdAddr(o.bdAddr.value)] else [])
    + (if o.lowPower then [SleepMode()] else [])
    + (if o.sco.Some? then [ScoPcm(o.sco.value.0), PcmFormat(o.sco.value.1)] else [])
    + (if o.i2s.Some? then [I2s(o.i2s.value)] else [])
  }

  // ----- what `main` says, and at which speed -----

  /** Any supported rate is positive. */
  function Rate(o: Options): nat {
    if o.rate.Some? && o.rate.value > 0 then o.rate.value else DEFAULT_SPEED
  }

  function DownloadSpeed(o: Options): nat {
    if o.highSpeed then Rate(o) else DEFAULT_SPEED
  }

  function Early(o: Options): seq<Say> {
    if o.highSpeed && o.rate.Some? then Says(RateCommands(Rate(o)), DEFAULT_SPEED) else []
  }

  function Download(o: Options, losses: nat): seq<Say>
    requires GoodOptions(o)
  {
    if o.file.Some? then DownloadScript(o.file.value, DownloadSpeed(o), DEFAULT_SPEED, losses) else []
  }

  function Late(o: Options): seq<Say> {
    if o.rate.Some? then Says(RateCommands(Rate(o)), if o.file.Some? then DEFAULT_SPEED else DownloadSpeed(o)) else []
  }

  /** The run: the first reset, the speed for the download, the download, the speed, the settings. */
  function Script(o: Options, first: nat, second: nat): seq<Say>
    requires GoodOptions(o)
  {
    [Say(RESET, DEFAULT_SPEED, first)] + Early(o) + Download(o, second) + Late(o) + Says(Settings(o), Rate(o))
  }

  // ----- speeds -----

  lemma FixedSpeeds(speed: nat)
    ensures SpeedAfter(speed, RESET) == speed && SpeedAfter(speed, MINIDRIVER) == speed
            && SpeedAfter(speed, CLOCK_48_MHZ) == speed
  {
    assert RESET[1] == 0x03 && MINIDRIVER[1] == 0x2e && CLOCK_48_MHZ[1] == 0x45;
  }

  lemma UpdateSpeed(speed: nat, rate: nat)
    requires rate < 0x1_0000_0000
    ensures SpeedAfter(speed, UpdateRate(rate)) == rate
  {
    var cmd := UpdateRate(rate);
    assert cmd[0] == 0x01 && cmd[1] == 0x18 && cmd[2] == 0xfc && cmd[3] == 6;
    assert cmd[6..10] == LittleEndian(rate);
    RateRoundTrip(rate);
  }

  predicate KeepsSpeed(cmd: seq<byte>) {
    !IsUpdate(cmd) && !IsLaunch(cmd)
  }

  lemma SettingsKeepSpeed(o: Options)
    requires GoodOptions(o)
    ensures forall i :: 0 <= i < |Settings(o)| ==> KeepsSpeed(Settings(o)[i])
  {
    assert o.bdAddr.Some? ==> BdAddr(o.bdAddr.value)[1] == 0x01;
    assert SleepMode()[1] == 0x27;
    assert o.sco.Some? ==> ScoPcm(o.sco.value.0)[1] == 0x1c && PcmFormat(o.sco.value.1)[1] == 0x1e;
    assert o.i2s.Some? ==> I2s(o.i2s.value)[1] == 0x6d;
    hide BdAddr, SleepMode, ScoPcm, PcmFormat, I2s;
  }

  lemma {:induction false} KeepingAgrees(cmds: seq<seq<byte>>, speed: nat)
    requires forall i :: 0 <= i < |cmds| ==> KeepsSpeed(cmds[i])
    ensures Agree(Says(cmds, speed), speed) && ChipAfter(Says(cmds, speed), speed) == speed
    decreases |cmds|
  {
    if cmds != [] {
      assert KeepsSpeed(cmds[0]);
      assert Says(cmds, speed)[1..] == Says(cmds[1..], speed);
      KeepingAgrees(cmds[1..], speed);
    }
  }

  lemma OneAgrees(s: Say, chip: nat)
    ensures Agree([s], chip) <==> s.host == chip
    ensures ChipAfter([s], chip) == SpeedAfter(chip, s.cmd)
  {
    hide SpeedAfter;
    assert [s][1..] == [];
  }

  /** A change of speed: both agree while it lasts if they did before; afterwards the chip has the rate. */
  lemma RateAgrees(rate: nat, host: nat, chip: nat)
    requires rate < 0x1_0000_0000
    ensures Agree(Says(RateCommands(rate), host), chip) <==> host == chip
    ensures ChipAfter(Says(RateCommands(rate), host), chip) == rate
  {
    hide SpeedAfter, UpdateRate, Agree, ChipAfter;
    FixedSpeeds(chip);
    UpdateSpeed(chip, rate);
    SaysOne(UpdateRate(rate), host);
    OneAgrees(Say(UpdateRate(rate), host, 0), chip);
    if rate > 3000000 {
      SaysOne(CLOCK_48_MHZ, host);
      SaysAppend([CLOCK_48_MHZ], [UpdateRate(rate)], host);
      OneAgrees(Say(CLOCK_48_MHZ, host, 0), chip);
      AgreeAppend([Say(CLOCK_48_MHZ, host, 0)], [Say(UpdateRate(rate), host, 0)], chip);
      AfterAppend([Say(CLOCK_48_MHZ, host, 0)], [Say(UpdateRate(rate), host, 0)], chip);
    } else {
      assert RateCommands(rate) == [UpdateRate(rate)];
    }
  }

  lemma {:induction false} AfterAppend(s: seq<Say>, t: seq<Say>, chip: nat)
    ensures ChipAfter(s + t, chip) == ChipAfter(t, ChipAfter(s, chip))
    decreases |s|
  {
    hide SpeedAfter;
    if s == [] {
      assert s + t == t;
    } else {
      assert (s + t)[1..] == s[1..] + t;
      AfterAppend(s[1..], t, SpeedAfter(chip, s[0].cmd));
    }
  }

  /** No record but the last leaves the speed of the download, and the last one takes the chip back to the
      default speed (an empty file does if the download is at the default speed). */
  predicate Fits(records: seq<seq<byte>>, speed: nat) {
    && (forall i :: 0 <= i < |records| - 1 ==> SpeedAfter(speed, Carry(records[i])) == speed)
    && (if records == [] then speed == DEFAULT_SPEED
        else SpeedAfter(speed, Carry(records[|records| - 1])) == DEFAULT_SPEED)
  }

  /** The chip follows the records to the end at this speed, and is then at the default speed. */
  lemma {:induction false} RecordsAgree(records: seq<seq<byte>>, speed: nat)
    ensures Agree(Says(CarryAll(records), speed), speed)
            && ChipAfter(Says(CarryAll(records), speed), speed) == DEFAULT_SPEED
            <==> Fits(records, speed)
    decreases |records|
  {
    hide SpeedAfter, Carry;
    if records != [] {
      var cmds := CarryAll(records);
      var c := SpeedAfter(speed, cmds[0]);
      assert Says(cmds, speed)[1..] == Says(CarryAll(records[1..]), speed);
      assert Says(cmds, speed)[0].cmd == Carry(records[0]);
      if |records| == 1 {
        assert CarryAll(records[1..]) == [];
      } else {
        var next := Says(CarryAll(records[1..]), speed);
        assert next[0].host == speed;
        if c == speed { RecordsAgree(records[1..], speed); }
        FitsTail(records, speed);
      }
    }
  }

  lemma FitsTail(records: seq<seq<byte>>, speed: nat)
    requires |records| > 1
    ensures Fits(records, speed) <==> SpeedAfter(speed, Carry(records[0])) == speed && Fits(records[1..], speed)
  {
    hide SpeedAfter, Carry;
    var rest := records[1..];
    assert rest[|rest| - 1] == records[|records| - 1];
    if SpeedAfter(speed, Carry(records[0])) == speed && Fits(rest, speed) {
      forall i | 0 <= i < |records| - 1
        ensures SpeedAfter(speed, Carry(records[i])) == speed
      {
        if i > 0 { assert records[i] == rest[i - 1]; }
      }
    }
    if Fits(records, speed) {
      forall i | 0 <= i < |rest| - 1
        ensures SpeedAfter(speed, Carry(rest[i])) == speed
      {
        assert rest[i] == records[i + 1];
      }
    }
  }

  /** A download: both agree throughout, the last reset included, exactly when the file fits the speed. */
  lemma DownloadAgrees(file: seq<byte>, speed: nat, losses: nat)
    requires WellFormed(file)
    ensures Agree(DownloadScript(file, speed, DEFAULT_SPEED, losses), speed) <==> Fits(Records(file), speed)
    ensures Fits(Records(file), speed) ==>
            ChipAfter(DownloadScript(file, speed, DEFAULT_SPEED, losses), speed) == DEFAULT_SPEED
  {
    hide *;
    var cmds, last := CarryAll(Records(file)), Say(RESET, DEFAULT_SPEED, losses);
    var chip := ChipAfter(Says(cmds, speed), speed);
    DownloadIs(file, speed, DEFAULT_SPEED, losses);
    FixedSpeeds(speed);
    SaysOne(MINIDRIVER, speed);
    OneAgrees(Say(MINIDRIVER, speed, 0), speed);
    SaysAppend([MINIDRIVER], cmds, speed);
    AgreeAppend(Says([MINIDRIVER], speed), Says(cmds, speed), speed);
    AfterAppend(Says([MINIDRIVER], speed), Says(cmds, speed), speed);
    AgreeAppend(Says([MINIDRIVER] + cmds, speed), [last], speed);
    AfterAppend(Says([MINIDRIVER] + cmds, speed), [last], speed);
    OneAgrees(last, chip);
    FixedSpeeds(chip);
    RecordsAgree(Records(file), speed);
  }

  lemma RateBound(o: Options)
    requires RateSupported(o)
    ensures 115200 <= Rate(o) <= 4000000 && (o.rate.Some? ==> Rate(o) == o.rate.value) && DEFAULT_SPEED == 115200
  {
  }

  predicate FileFits(o: Options)
    requires GoodOptions(o)
  {
    o.file.Some? ==> Fits(Records(o.file.value), DownloadSpeed(o))
  }

  lemma EarlyAgrees(o: Options)
    requires RateSupported(o)
    ensures Agree(Early(o), DEFAULT_SPEED) && ChipAfter(Early(o), DEFAULT_SPEED) == DownloadSpeed(o)
  {
    RateBound(o);
    hide Says, RateCommands, Supported;
    if o.highSpeed && o.rate.Some? { RateAgrees(Rate(o), DEFAULT_SPEED, DEFAULT_SPEED); }
  }

  lemma DownloadPart(o: Options, losses: nat)
    requires GoodOptions(o)
    ensures Agree(Download(o, losses), DownloadSpeed(o)) <==> FileFits(o)
    ensures FileFits(o) ==>
              ChipAfter(Download(o, losses), DownloadSpeed(o))
              == if o.file.Some? then DEFAULT_SPEED else DownloadSpeed(o)
  {
    hide Fits, DownloadScript, Records, DownloadSpeed;
    if o.file.Some? { DownloadAgrees(o.file.value, DownloadSpeed(o), losses); }
  }

  lemma LatePart(o: Options, chip: nat)
    requires RateSupported(o)
    ensures chip == (if o.file.Some? then DEFAULT_SPEED else DownloadSpeed(o)) ==> Agree(Late(o), chip)
    ensures o.rate.Some? ==> ChipAfter(Late(o), chip) == Rate(o)
    ensures o.rate.None? ==> ChipAfter(Late(o), chip) == chip && Rate(o) == DEFAULT_SPEED == DownloadSpeed(o)
  {
    RateBound(o);
    hide Says, RateCommands, Supported;
    if o.rate.Some? {
      RateAgrees(Rate(o), if o.file.Some? then DEFAULT_SPEED else DownloadSpeed(o), chip);
    }
  }

  /** Host and chip are at the same speed at every command and every event of a run exactly when the file
      fits; the chip ends at the requested rate. */
  lemma SpeedsExactly(o: Options, first: nat, second: nat)
    requires GoodOptions(o) && RateSupported(o)
    ensures Agree(Script(o, first, second), DEFAULT_SPEED) <==> FileFits(o)
    ensures FileFits(o) || o.rate.Some? ==> ChipAfter(Script(o, first, second), DEFAULT_SPEED) == Rate(o)
  {
    hide *;
    var a, b, c, d, e := [Say(RESET, DEFAULT_SPEED, first)], Early(o), Download(o, second), Late(o),
        Says(Settings(o), Rate(o));
    ScriptIs(o, first, second);
    FixedSpeeds(DEFAULT_SPEED);
    OneAgrees(a[0], DEFAULT_SPEED);
    EarlyAgrees(o);
    DownloadPart(o, second);
    AgreeAppend(a, b, DEFAULT_SPEED);
    AfterAppend(a, b, DEFAULT_SPEED);
    AgreeAppend(a + b, c, DEFAULT_SPEED);
    AfterAppend(a + b, c, DEFAULT_SPEED);
    var chip := ChipAfter(a + b + c, DEFAULT_SPEED);
    LatePart(o, chip);
    AgreeAppend(a + b + c, d, DEFAULT_SPEED);
    AfterAppend(a + b + c, d, DEFAULT_SPEED);
    SettingsKeepSpeed(o);
    KeepingAgrees(Settings(o), Rate(o));
    AgreeAppend(a + b + c + d, e, DEFAULT_SPEED);
    AfterAppend(a + b + c + d, e, DEFAULT_SPEED);
  }

  lemma ScriptIs(o: Options, first: nat, second: nat)
    requires GoodOptions(o)
    ensures Script(o, first, second)
            == [Say(RESET, DEFAULT_SPEED, first)] + Early(o) + Download(o, second) + Late(o)
            + Says(Settings(o), Rate(o))
  {
  }

  /** Both bytes of the opcode count, and so does the length of a change of speed. */
  lemma OtherOpcodes()
    ensures KeepsSpeed([0x01, 0x4e, 0x0c, 0x00]) && KeepsSpeed([0x01, 0x18, 0x0c, 0x06, 0, 0, 0, 0, 0, 0])
    ensures KeepsSpeed([0x01, 0x18, 0xfc, 0x02, 0, 0]) && !KeepsSpeed([0x01, 0x4e, 0xfc, 0x00])
  {
  }

  /** An ordinary firmware file: one Launch_RAM at its end, and no other record that changes the speed. It
      fits every speed. */
  lemma OrdinaryFileFits(records: seq<seq<byte>>, speed: nat)
    requires records != [] && IsLaunch(Carry(records[|records| - 1])) && !IsUpdate(Carry(records[|records| - 1]))
    requires forall i :: 0 <= i < |records| - 1 ==> KeepsSpeed(Carry(records[i]))
    ensures Fits(records, speed)
  {
    hide Carry;
    forall i | 0 <= i < |records| - 1
      ensures SpeedAfter(speed, Carry(records[i])) == speed
    {
      assert KeepsSpeed(Carry(records[i]));
    }
  }

  /** Without a record that changes the speed, a download at another than the default speed fails. */
  lemma NoLaunchNoFit(records: seq<seq<byte>>, speed: nat)
    requires forall i :: 0 <= i < |records| ==> KeepsSpeed(Carry(records[i]))
    ensures Fits(records, speed) <==> speed == DEFAULT_SPEED
  {
    hide Carry;
    forall i | 0 <= i < |records|
      ensures SpeedAfter(speed, Carry(records[i])) == speed
    {
      assert KeepsSpeed(Carry(records[i]));
    }
  }

  /** What a download delivers, and what its receiver makes of the records. */
  lemma DownloadDelivers(file: seq<byte>, host: nat, last: nat, losses: nat)
    requires WellFormed(file)
    ensures Commands(DownloadScript(file, host, last, losses)) == [MINIDRIVER] + CarryAll(Records(file)) + [RESET]
    ensures Packets(Join(CarryAll(Records(file)))) == CarryAll(Records(file)) && AllCommands(CarryAll(Records(file)))
    ensures Bodies(CarryAll(Records(file))) == Records(file) && Join(Records(file)) == file
  {
    RecordsAreRecords(file);
    ReceivedRecords(Records(file));
    hide Records, CarryAll, Says, Packets, Bodies, Join, IsCommand;
    var cmds := [MINIDRIVER] + CarryAll(Records(file));
    var script := DownloadScript(file, host, last, losses);
    var a, b := Commands(script), cmds + [RESET];
    assert |a| == |b| && forall i :: 0 <= i < |a| ==> a[i] == b[i];
  }

  // ----- two runs, byte by byte -----

  /** The four bytes of a rate above 3000000, and of 3000000 itself. */
  lemma SampleRates()
    ensures RateCommands(3500000) == [[0x01, 0x45, 0xfc, 0x01, 0x01],
                                      [0x01, 0x18, 0xfc, 0x06, 0x00, 0x00, 0xe0, 0x67, 0x35, 0x00]]
    ensures RateCommands(3000000) == [[0x01, 0x18, 0xfc, 0x06, 0x00, 0x00, 0xc0, 0xc6, 0x2d, 0x00]]
  {
    assert LittleEndian(3500000) == [0xe0, 0x67, 0x35, 0x00];
    assert LittleEndian(3000000) == [0xc0, 0xc6, 0x2d, 0x00];
    assert UpdateRate(3500000) == [0x01, 0x18, 0xfc, 0x06, 0x00, 0x00, 0xe0, 0x67, 0x35, 0x00];
    assert UpdateRate(3000000) == [0x01, 0x18, 0xfc, 0x06, 0x00, 0x00, 0xc0, 0xc6, 0x2d, 0x00];
  }

  lemma SaysNone(host: nat)
    ensures Says([], host) == []
  {
  }

  lemma SaysTwo(a: seq<byte>, b: seq<byte>, host: nat)
    ensures Says([a, b], host) == [Say(a, host, 0), Say(b, host, 0)]
  {
  }

  /** `--baudrate 3000000` alone: the chip's clock is left alone. */
  lemma PlainRun(first: nat)
    ensures var o := Options(Some(3000000), false, None, false, None, false, None, None);
            && GoodOptions(o) && RateSupported(o)
            && Script(o, first, 0)
               == [Say([0x01, 0x03, 0x0c, 0x00], 115200, first),
                   Say([0x01, 0x18, 0xfc, 0x06, 0x00, 0x00, 0xc0, 0xc6, 0x2d, 0x00], 115200, 0)]
  {
    var o := Options(Some(3000000), false, None, false, None, false, None, None);
    assert Settings(o) == [];
    SampleRates();
    var update := RateCommands(3000000)[0];
    SaysNone(Rate(o));
    SaysOne(update, DEFAULT_SPEED);
    Parts(o, 0);
    ScriptIs(o, first, 0);
    assert Rate(o) == 3000000;
    hide Says, RateCommands, Settings, Script, Early, Late, Download;
    assert RateCommands(3000000) == [update];
    assert Script(o, first, 0) == [Say(RESET, 115200, first)] + [] + [] + [Say(update, 115200, 0)] + [];
  }

  /** A file of one record, which starts the downloaded code. */
  const LAUNCHER: seq<byte> := [0x4e, 0xfc, 0x04, 0xff, 0xff, 0xff, 0xff]

  function FullOptions(): Options {
    Options(Some(3500000), true, Some(LAUNCHER), false, Some([6, 5, 4, 3, 2, 1]), true,
            Some(([0, 1, 0, 1, 1], [0, 0, 3, 3, 0])), Some([1, 1, 0, 2]))
  }

  lemma FullSettings()
    ensures GoodOptions(FullOptions()) && Records(LAUNCHER) == [LAUNCHER]
    ensures Settings(FullOptions())
            == [[0x01, 0x01, 0xfc, 0x06, 6, 5, 4, 3, 2, 1],
                [0x01, 0x27, 0xfc, 0x0c, 1, 1, 1, 1, 1, 1, 1, 0, 0, 0, 0, 0],
                [0x01, 0x1c, 0xfc, 0x05, 0, 1, 0, 1, 1],
                [0x01, 0x1e, 0xfc, 0x05, 0, 0, 3, 3, 0],
                [0x01, 0x6d, 0xfc, 0x04, 1, 1, 0, 2]]
  {
    assert LAUNCHER[7..] == [] && LAUNCHER[..7] == LAUNCHER;
    assert BdAddr([6, 5, 4, 3, 2, 1]) == [0x01, 0x01, 0xfc, 0x06, 6, 5, 4, 3, 2, 1];
    assert ScoPcm([0, 1, 0, 1, 1]) == [0x01, 0x1c, 0xfc, 0x05, 0, 1, 0, 1, 1];
    assert PcmFormat([0, 0, 3, 3, 0]) == [0x01, 0x1e, 0xfc, 0x05, 0, 0, 3, 3, 0];
    assert I2s([1, 1, 0, 2]) == [0x01, 0x6d, 0xfc, 0x04, 1, 1, 0, 2];
  }

  lemma FullDownload(second: nat)
    ensures WellFormed(LAUNCHER)
    ensures DownloadScript(LAUNCHER, 3500000, 115200, second)
            == [Say([0x01, 0x2e, 0xfc, 0x00], 3500000, 0),
                Say([0x01, 0x4e, 0xfc, 0x04, 0xff, 0xff, 0xff, 0xff], 3500000, 0),
                Say([0x01, 0x03, 0x0c, 0x00], 115200, second)]
  {
    FullSettings();
    hide Records;
    assert Carry(LAUNCHER) == [0x01, 0x4e, 0xfc, 0x04, 0xff, 0xff, 0xff, 0xff];
    assert CarryAll([LAUNCHER]) == [[0x01, 0x4e, 0xfc, 0x04, 0xff, 0xff, 0xff, 0xff]];
    SaysTwo(MINIDRIVER, [0x01, 0x4e, 0xfc, 0x04, 0xff, 0xff, 0xff, 0xff], 3500000);
    hide Says, CarryAll;
  }

  /** A run with every option, each command with the speed of the host: the speed goes up for the download, falls
      back with the launch, and goes up again. */
  lemma FullRun(first: nat, second: nat)
    ensures GoodOptions(FullOptions()) && RateSupported(FullOptions())
    ensures Script(FullOptions(), first, second)
            == [Say([0x01, 0x03, 0x0c, 0x00], 115200, first),
                Say([0x01, 0x45, 0xfc, 0x01, 0x01], 115200, 0),
                Say([0x01, 0x18, 0xfc, 0x06, 0x00, 0x00, 0xe0, 0x67, 0x35, 0x00], 115200, 0)]
               + [Say([0x01, 0x2e, 0xfc, 0x00], 3500000, 0),
                  Say([0x01, 0x4e, 0xfc, 0x04, 0xff, 0xff, 0xff, 0xff], 3500000, 0),
                  Say([0x01, 0x03, 0x0c, 0x00], 115200, second)]
               + [Say([0x01, 0x45, 0xfc, 0x01, 0x01], 115200, 0),
                  Say([0x01, 0x18, 0xfc, 0x06, 0x00, 0x00, 0xe0, 0x67, 0x35, 0x00], 115200, 0)]
               + Says(Settings(FullOptions()), 3500000)
    ensures FileFits(FullOptions())
  {
    var o := FullOptions();
    FullSettings();
    FullDownload(second);
    SampleRates();
    var r := RateCommands(3500000);
    assert r == [r[0], r[1]];
    SaysTwo(r[0], r[1], 115200);
    LauncherFits(3500000);
    Parts(o, second);
    ScriptIs(o, first, second);
    assert Rate(o) == 3500000 && DownloadSpeed(o) == 3500000;
    hide Says, RateCommands, Settings, Records, DownloadScript, Fits, WellFormed, Script, Early, Late, Download;
    var speed := [Say(r[0], 115200, 0), Say(r[1], 115200, 0)];
    assert Early(o) == Late(o) == speed;
    assert [Say(RESET, 115200, first)] + speed == [Say(RESET, 115200, first), speed[0], speed[1]];
  }

  lemma LauncherFits(speed: nat)
    ensures Fits([LAUNCHER], speed)
  {
    var cmd := Carry(LAUNCHER);
    assert |LAUNCHER| == 7 && LAUNCHER[0] == 0x4e && LAUNCHER[1] == 0xfc && LAUNCHER[2] == 0x04;
    assert |cmd| == 8 && cmd[0] == 0x01 && cmd[1] == 0x4e && cmd[2] == 0xfc && cmd[3] == 0x04;
    OrdinaryFileFits([LAUNCHER], speed);
  }

  // ----- the program -----

  /** What a finished run looks like from outside. */
  predicate Finished(log: seq<Entry>, o: Options, first: nat, second: nat, host: nat, chip: nat)
    requires GoodOptions(o)
  {
    && Delivered(log) == Commands(Script(o, first, second))
    && AllCommands(Delivered(log)) && Packets(Join(Delivered(log))) == Delivered(log)
    && StopAndWait(log)
    && (Matched(log) <==> FileFits(o))
    && host == Rate(o)
    && (FileFits(o) || o.rate.Some? ==> chip == Rate(o))
  }

  lemma RunFinished(log: seq<Entry>, o: Options, first: nat, second: nat)
    requires GoodOptions(o) && RateSupported(o) && Follows(log, Script(o, first, second), DEFAULT_SPEED)
    ensures Finished(log, o, first, second, Rate(o), ChipAfter(Script(o, first, second), DEFAULT_SPEED))
  {
    hide Follows, Script, Delivered, StopAndWait, Matched, Fits, Agree, ChipAfter;
    LogOfScript(log, Script(o, first, second), DEFAULT_SPEED);
    FollowsInTurn(log, Script(o, first, second), DEFAULT_SPEED);
    SpeedsExactly(o, first, second);
    ScriptIsCommands(o, first, second);
    PacketsBack(Delivered(log));
    hide AllCommands, Packets, Join;
  }

  lemma SettingsAreCommands(o: Options)
    requires GoodOptions(o)
    ensures AllCommands(Settings(o))
  {
    assert o.bdAddr.Some? ==> IsCommand(BdAddr(o.bdAddr.value));
    assert IsCommand(SleepMode());
    assert o.sco.Some? ==> IsCommand(ScoPcm(o.sco.value.0)) && IsCommand(PcmFormat(o.sco.value.1));
    assert o.i2s.Some? ==> IsCommand(I2s(o.i2s.value));
    hide BdAddr, SleepMode, ScoPcm, PcmFormat, I2s, IsCommand;
  }

  lemma CommandsAppend(s: seq<Say>, t: seq<Say>)
    requires AllCommands(Commands(s)) && AllCommands(Commands(t))
    ensures AllCommands(Commands(s + t))
  {
    hide IsCommand;
    var a, b, c := Commands(s), Commands(t), Commands(s + t);
    hide Commands;
    forall i | 0 <= i < |c|
      ensures IsCommand(c[i])
    {
      assert c[i] == if i < |s| then a[i] else b[i - |s|];
    }
  }

  lemma SaysCommands(cmds: seq<seq<byte>>, host: nat)
    requires AllCommands(cmds)
    ensures AllCommands(Commands(Says(cmds, host)))
  {
    hide IsCommand;
  }

  lemma RateIsCommands(rate: nat, host: nat)
    ensures AllCommands(Commands(Says(RateCommands(rate), host)))
  {
    FixedCommands(rate);
    hide IsCommand, UpdateRate, Says, Commands;
    SaysCommands(RateCommands(rate), host);
  }

  lemma DownloadIsCommands(file: seq<byte>, host: nat, last: nat, losses: nat)
    requires WellFormed(file)
    ensures AllCommands(Commands(DownloadScript(file, host, last, losses)))
  {
    FixedCommands(0);
    RecordsAreRecords(file);
    CarriedAreCommands(Records(file));
    hide IsCommand, IsRecord, Says, Commands, Records, CarryAll, Join;
    var cmds := [MINIDRIVER] + CarryAll(Records(file));
    SaysCommands(cmds, host);
    OneCommand(Say(RESET, last, losses));
    CommandsAppend(Says(cmds, host), [Say(RESET, last, losses)]);
  }

  lemma OneCommand(s: Say)
    requires IsCommand(s.cmd)
    ensures AllCommands(Commands([s]))
  {
    hide IsCommand;
  }

  lemma NoCommands()
    ensures AllCommands(Commands([]))
  {
  }

  /** Whatever the options: everything that is said is a command packet. */
  lemma ScriptIsCommands(o: Options, first: nat, second: nat)
    requires GoodOptions(o)
    ensures AllCommands(Commands(Script(o, first, second)))
  {
    hide *;
    var a, b, c, d, e := [Say(RESET, DEFAULT_SPEED, first)], Early(o), Download(o, second), Late(o),
        Says(Settings(o), Rate(o));
    ScriptIs(o, first, second);
    Parts(o, second);
    NoCommands();
    FixedCommands(0);
    OneCommand(a[0]);
    RateIsCommands(Rate(o), DEFAULT_SPEED);
    RateIsCommands(Rate(o), if o.file.Some? then DEFAULT_SPEED else DownloadSpeed(o));
    if o.file.Some? { DownloadIsCommands(o.file.value, DownloadSpeed(o), DEFAULT_SPEED, second); }
    SettingsAreCommands(o);
    SaysCommands(Settings(o), Rate(o));
    CommandsAppend(a, b);
    CommandsAppend(a + b, c);
    CommandsAppend(a + b + c, d);
    CommandsAppend(a + b + c + d, e);
  }

  lemma LogGrown(log: seq<Entry>, script: seq<Say>, chip: nat)
    requires Grew([], log, script, chip)
    ensures Follows(log, script, chip)
  {
    assert log[0..] == log;
  }

  lemma NothingSaid(log: seq<Entry>, chip: nat)
    ensures Grew(log, log, [], chip) && ChipAfter([], chip) == chip
  {
    GrewNot(log, chip);
  }

  lemma Parts(o: Options, losses: nat)
    requires GoodOptions(o)
    ensures Early(o) == if o.highSpeed && o.rate.Some? then Says(RateCommands(Rate(o)), DEFAULT_SPEED) else []
    ensures Download(o, losses)
            == if o.file.Some? then DownloadScript(o.file.value, DownloadSpeed(o), DEFAULT_SPEED, losses) else []
    ensures var speed := if o.file.Some? then DEFAULT_SPEED else DownloadSpeed(o);
            Late(o) == if o.rate.Some? then Says(RateCommands(Rate(o)), speed) else []
    ensures DownloadSpeed(o) == (if o.highSpeed then Rate(o) else DEFAULT_SPEED)
            && (o.rate.None? ==> Rate(o) == DEFAULT_SPEED)
    ensures o.file.Some? ==> WellFormed(o.file.value)
  {
  }

  lemma NoMinidriverSetting(o: Options)
    requires GoodOptions(o)
    ensures forall i :: 0 <= i < |Settings(o)| ==> Settings(o)[i] != MINIDRIVER
  {
    assert o.bdAddr.Some? ==> BdAddr(o.bdAddr.value)[1] == 0x01;
    assert SleepMode()[1] == 0x27;
    assert o.sco.Some? ==> ScoPcm(o.sco.value.0)[1] == 0x1c && PcmFormat(o.sco.value.1)[1] == 0x1e;
    assert o.i2s.Some? ==> I2s(o.i2s.value)[1] == 0x6d;
    assert MINIDRIVER[1] == 0x2e;
    hide BdAddr, SleepMode, ScoPcm, PcmFormat, I2s;
  }

  /** The one-shot procedures, from `proc_bdaddr` on: each sends its commands and reads an event for each. */
  method SendSettings(line: Line, buffer: array<byte>, cmds: seq<seq<byte>>)
    requires line.rx == [] && buffer.Length == BUFFER_SIZE && forall i :: 0 <= i < |cmds| ==> cmds[i] != MINIDRIVER
    modifies line`rx, line`entered, line`chipSpeed, line`wire, line`log, buffer
    ensures line.rx == []
    ensures Grew(old(line.log), line.log, Says(cmds, line.hostSpeed), old(line.chipSpeed))
    ensures line.chipSpeed == ChipAfter(Says(cmds, line.hostSpeed), old(line.chipSpeed))
  {
    hide *;
    ghost var before, chip := line.log, line.chipSpeed;
    NothingSent(before, chip, line.hostSpeed);
    assert cmds[..0] == [];
    var k := 0;
    while k < |cmds|
      invariant 0 <= k <= |cmds| && line.rx == []
      invariant Grew(before, line.log, Says(cmds[..k], line.hostSpeed), chip)
      invariant line.chipSpeed == ChipAfter(Says(cmds[..k], line.hostSpeed), chip)
    {
      ghost var log := line.log;
      SendAndRead(line, buffer, cmds[k]);
      SaysMore(before, log, line.log, cmds[..k], cmds[k], line.hostSpeed, chip);
      assert cmds[..k + 1] == cmds[..k] + [cmds[k]];
      k := k + 1;
    }
    assert cmds[..k] == cmds;
  }

  /** `main`: with a rate that is not supported nothing is sent. The chip starts at the default speed, and
      `no2bytes` has to fit the chip. */
  method RunTool(line: Line, buffer: array<byte>, update: array<byte>, o: Options, first: nat, second: nat)
    returns (status: int)
    requires line.rx == [] && line.log == [] && !line.entered && line.chipSpeed == DEFAULT_SPEED
             && line.extra == !o.no2bytes
    requires buffer.Length == BUFFER_SIZE && update.Length == 10 && update != buffer
             && update[..6] == UpdateRate(0)[..6]
    requires GoodOptions(o)
    modifies line, buffer, update
    ensures status == if RateSupported(o) then 0 else 1
    ensures !RateSupported(o) ==> line.log == []
    ensures RateSupported(o) ==> Finished(line.log, o, first, second, line.hostSpeed, line.chipSpeed)
  {
    hide *;
    var rate, termios := 0, 0;
    SupportIs(o);
    if o.rate.Some? {
      var ok;
      ok, termios := ParseBaudrate(o.rate.value, update);
      if !ok {
        return 1;
      }
      rate := o.rate.value;
    }
    RateBound(o);
    Parts(o, second);
    ghost var c0 := line.chipSpeed;
    line.hostSpeed := DEFAULT_SPEED;
    ProcReset(line, buffer, first);
    ghost var a, log1 := [Say(RESET, DEFAULT_SPEED, first)], line.log;
    NothingSaid(log1, line.chipSpeed);
    if o.highSpeed {
      if termios != 0 {
        ProcBaudrate(line, buffer, update, rate, termios);
      }
    }
    ghost var log2 := line.log;
    assert line.hostSpeed == DownloadSpeed(o);
    GrewMore([], log1, log2, a, Early(o), c0);
    NothingSaid(log2, line.chipSpeed);
    if o.file.Some? {
      var hcd := new HcdFile(o.file.value);
      ProcPatchram(line, buffer, hcd, o.no2bytes, o.highSpeed, second);
    }
    ghost var log3 := line.log;
    GrewMore([], log2, log3, a + Early(o), Download(o, second), c0);
    NothingSaid(log3, line.chipSpeed);
    if termios != 0 {
      ProcBaudrate(line, buffer, update, rate, termios);
    }
    ghost var log4 := line.log;
    GrewMore([], log3, log4, a + Early(o) + Download(o, second), Late(o), c0);
    NoMinidriverSetting(o);
    SendSettings(line, buffer, Settings(o));
    GrewMore([], log4, line.log, a + Early(o) + Download(o, second) + Late(o), Says(Settings(o), Rate(o)), c0);
    ScriptIs(o, first, second);
    LogGrown(line.log, Script(o, first, second), DEFAULT_SPEED);
    RunFinished(line.log, o, first, second);
    status := 0;
  }

  lemma SupportIs(o: Options)
    ensures RateSupported(o) <==> (o.rate.Some? ==> Supported(o.rate.value))
  {
  }
}
