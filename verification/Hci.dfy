/** Commands, events and the chip of the Broadcom download protocol
    (packages/linux-firmware/brcm_patchram/sources/brcm_patchram_plus.c). Packets have the UART (H4)
    framing of the Bluetooth Core Specification v5.2, Vol 4, Part A section 2, around commands and events
    of Vol 4, Part E sections 5.4.1 and 5.4.4. */
module Hci {
  type byte = x: int | 0 <= x < 256

  const DEFAULT_SPEED: nat := 115200

  const RESET: seq<byte> := [0x01, 0x03, 0x0c, 0x00]
  const MINIDRIVER: seq<byte> := [0x01, 0x2e, 0xfc, 0x00]
  const CLOCK_48_MHZ: seq<byte> := [0x01, 0x45, 0xfc, 0x01, 0x01]

  // ----- baud rates -----

  /** A 32-bit rate, low byte first. */
  function LittleEndian(rate: nat): (r: seq<byte>)
    ensures |r| == 4
  {
    [rate % 256, (rate / 256) % 256, (rate / 65536) % 256, (rate / 16777216) % 256]
  }

  function FromLittleEndian(b: seq<byte>): nat
    requires |b| == 4
  {
    b[0] as int + 256 * b[1] as int + 65536 * b[2] as int + 16777216 * b[3] as int
  }

  /** The chip reads the rate that was encoded, for every 32-bit rate. */
  lemma RateRoundTrip(rate: nat)
    requires rate < 0x1_0000_0000
    ensures FromLittleEndian(LittleEndian(rate)) == rate
  {
    var a := rate / 256;
    var b := a / 256;
    assert rate == 256 * a + rate % 256;
    assert a == 256 * b + a % 256;
    assert b == 256 * (b / 256) + b % 256;
    assert rate / 65536 == b && rate / 16777216 == b / 256;
  }

  lemma BytesRoundTrip(b: seq<byte>)
    requires |b| == 4
    ensures FromLittleEndian(b) < 0x1_0000_0000 && LittleEndian(FromLittleEndian(b)) == b
  {
    var c := b[1] as int + 256 * (b[2] as int + 256 * b[3] as int);
    var d := b[2] as int + 256 * b[3] as int;
    var r := FromLittleEndian(b);
    assert r == b[0] as int + 256 * c;
    assert r / 256 == c && r % 256 == b[0];
    assert c / 256 == d && c % 256 == b[1];
    assert d / 256 == b[3] && d % 256 == b[2];
    assert r / 65536 == d && r / 16777216 == b[3];
  }

  function UpdateRate(rate: nat): seq<byte> {
    [0x01, 0x18, 0xfc, 0x06, 0x00, 0x00] + LittleEndian(rate)
  }

  // ----- the chip -----

  /** A command packet: indicator, opcode (low byte first), number of parameters, parameters. */
  predicate IsCommand(p: seq<byte>) {
    |p| >= 4 && p[0] == 0x01 && |p| == 4 + p[3] as int
  }

  lemma FixedCommands(rate: nat)
    ensures IsCommand(RESET) && IsCommand(MINIDRIVER) && IsCommand(CLOCK_48_MHZ) && IsCommand(UpdateRate(rate))
  {
  }

  predicate IsUpdate(cmd: seq<byte>) {
    IsCommand(cmd) && cmd[1] == 0x18 && cmd[2] == 0xfc && cmd[3] == 6
  }

  /** Launch_RAM: the chip starts the downloaded code, at the default speed. */
  predicate IsLaunch(cmd: seq<byte>) {
    IsCommand(cmd) && cmd[1] == 0x4e && cmd[2] == 0xfc
  }

  /** The chip's speed once it has answered a command. */
  function SpeedAfter(speed: nat, cmd: seq<byte>): nat {
    if IsUpdate(cmd) then FromLittleEndian(cmd[6..10])
    else if IsLaunch(cmd) then DEFAULT_SPEED
    else speed
  }

  /** An event packet: indicator, event code, number of parameters, parameters. */
  predicate IsEvent(p: seq<byte>) {
    |p| >= 3 && p[0] == 0x04 && |p| == 3 + p[2] as int
  }

  /** The answer to a reset is an event, and an event may have no parameters. */
  lemma EventExamples()
    ensures IsEvent([0x04, 0x0e, 0x04, 0x01, 0x03, 0x0c, 0x00]) && IsEvent([0x04, 0x01, 0x00])
    ensures !IsEvent([0x04, 0x0e, 0x04, 0x01, 0x03, 0x0c]) && !IsEvent(RESET)
  {
  }

  /** The stream starts with a whole event. */
  predicate EventReady(rx: seq<byte>) {
    |rx| >= 3 && |rx| >= 3 + rx[2] as int
  }

  function EventLen(rx: seq<byte>): nat
    requires EventReady(rx)
  {
    3 + rx[2] as int
  }

  function Join(packets: seq<seq<byte>>): seq<byte> {
    if packets == [] then [] else packets[0] + Join(packets[1..])
  }

  /** What is left of a stream after `k` reads of an event. */
  function AfterEvents(rx: seq<byte>, k: nat): (rest: seq<byte>)
  {
    if k == 0 || !EventReady(rx) then rx else AfterEvents(rx[EventLen(rx)..], k - 1)
  }

  /** The events of a stream are told apart: after `k` reads it is aligned with packet `k`, and the next
      read gives exactly that packet. */
  lemma {:induction false} Aligned(packets: seq<seq<byte>>, rest: seq<byte>, k: nat)
    requires forall i :: 0 <= i < |packets| ==> IsEvent(packets[i])
    requires k < |packets|
    ensures var rx := AfterEvents(Join(packets) + rest, k);
            EventReady(rx) && rx[..EventLen(rx)] == packets[k] && rx == Join(packets[k..]) + rest
  {
    var all := Join(packets) + rest;
    assert IsEvent(packets[0]);
    assert all == packets[0] + (Join(packets[1..]) + rest);
    assert all[..|packets[0]|] == packets[0] && all[|packets[0]|..] == Join(packets[1..]) + rest;
    assert all[2] == packets[0][2];
    if k > 0 {
      assert packets[1..][k - 1..] == packets[k..];
      Aligned(packets[1..], rest, k - 1);
    }
  }

  lemma {:induction false} OneEventMore(rx: seq<byte>, k: nat)
    requires EventReady(AfterEvents(rx, k))
    ensures AfterEvents(rx, k + 1) == AfterEvents(rx, k)[EventLen(AfterEvents(rx, k))..]
  {
    if k > 0 && EventReady(rx) { OneEventMore(rx[EventLen(rx)..], k - 1); }
  }

  /** What is left after packet `k`. */
  lemma AlignedAfter(packets: seq<seq<byte>>, rest: seq<byte>, k: nat)
    requires forall i :: 0 <= i < |packets| ==> IsEvent(packets[i])
    requires k < |packets|
    ensures AfterEvents(Join(packets) + rest, k + 1) == Join(packets[k + 1..]) + rest
  {
    hide AfterEvents, IsEvent, EventReady;
    var rx := AfterEvents(Join(packets) + rest, k);
    Aligned(packets, rest, k);
    OneEventMore(Join(packets) + rest, k);
    var p, more := packets[k], packets[k..];
    assert more[1..] == packets[k + 1..];
    assert rx == p + (Join(packets[k + 1..]) + rest);
    assert |p| == EventLen(rx);
  }

  // ----- HCD files -----

  /** A file is a list of records: opcode, length, payload. */
  predicate WellFormed(file: seq<byte>)
    decreases |file|
  {
    file == [] || (|file| >= 3 && |file| >= 3 + file[2] as int && WellFormed(file[3 + file[2] as int..]))
  }

  function Records(file: seq<byte>): (r: seq<seq<byte>>)
    requires WellFormed(file)
    decreases |file|
  {
    if file == [] then [] else [file[..3 + file[2] as int]] + Records(file[3 + file[2] as int..])
  }

  predicate IsRecord(r: seq<byte>) {
    |r| >= 3 && |r| == 3 + r[2] as int
  }

  lemma {:induction false} RecordsAreRecords(file: seq<byte>)
    requires WellFormed(file)
    ensures forall i :: 0 <= i < |Records(file)| ==> IsRecord(Records(file)[i])
    ensures Join(Records(file)) == file
    decreases |file|
  {
    if file != [] {
      var rest := Records(file[3 + file[2] as int..]);
      RecordsAreRecords(file[3 + file[2] as int..]);
      assert Records(file)[1..] == rest;
      forall i | 0 <= i < |Records(file)|
        ensures IsRecord(Records(file)[i])
      {
        if i > 0 { assert Records(file)[i] == rest[i - 1]; }
      }
    }
  }

  lemma {:induction false} RecordsBack(records: seq<seq<byte>>)
    requires forall i :: 0 <= i < |records| ==> IsRecord(records[i])
    ensures WellFormed(Join(records)) && Records(Join(records)) == records
  {
    if records != [] {
      var r, rest := records[0], Join(records[1..]);
      assert IsRecord(r);
      RecordsBack(records[1..]);
      var file := Join(records);
      assert file == r + rest && file[2] == r[2] && file[..|r|] == r && file[|r|..] == rest;
      assert records == [r] + records[1..];
    }
  }

  /** The files that can be read are the lists of records, each in exactly one way. */
  lemma WellFormedExactly(file: seq<byte>)
    ensures WellFormed(file) <==> exists rs :: (forall i :: 0 <= i < |rs| ==> IsRecord(rs[i])) && Join(rs) == file
  {
    if WellFormed(file) { RecordsAreRecords(file); }
    if rs :| (forall i :: 0 <= i < |rs| ==> IsRecord(rs[i])) && Join(rs) == file { RecordsBack(rs); }
  }

  /** The command that carries a record. */
  function Carry(record: seq<byte>): seq<byte> {
    [0x01] + record
  }

  function CarryAll(records: seq<seq<byte>>): (r: seq<seq<byte>>)
    ensures |r| == |records| && forall i :: 0 <= i < |records| ==> r[i] == Carry(records[i])
  {
    if records == [] then [] else [Carry(records[0])] + CarryAll(records[1..])
  }

  /** How a receiver cuts a stream into command packets, up to the first byte that starts none. */
  function Packets(stream: seq<byte>): seq<seq<byte>>
    decreases |stream|
  {
    if |stream| < 4 || stream[0] != 0x01 || |stream| < 4 + stream[3] as int then []
    else [stream[..4 + stream[3] as int]] + Packets(stream[4 + stream[3] as int..])
  }

  predicate AllCommands(cmds: seq<seq<byte>>) {
    forall i :: 0 <= i < |cmds| ==> IsCommand(cmds[i])
  }

  /** Command packets are told apart, whatever follows one after the other. */
  lemma {:induction false} PacketsBack(cmds: seq<seq<byte>>)
    requires AllCommands(cmds)
    ensures Packets(Join(cmds)) == cmds
  {
    if cmds != [] {
      var c, rest := cmds[0], Join(cmds[1..]);
      assert IsCommand(c);
      assert AllCommands(cmds[1..]);
      PacketsBack(cmds[1..]);
      var stream := Join(cmds);
      assert stream == c + rest && stream[3] == c[3];
      assert stream[..|c|] == c && stream[|c|..] == rest;
      assert cmds == [c] + cmds[1..];
    }
  }

  /** What the packets carry behind the indicator. */
  function Bodies(packets: seq<seq<byte>>): (r: seq<seq<byte>>)
    requires AllCommands(packets)
    ensures |r| == |packets| && forall i :: 0 <= i < |r| ==> r[i] == packets[i][1..]
  {
    if packets == [] then [] else
      assert IsCommand(packets[0]);
      [packets[0][1..]] + Bodies(packets[1..])
  }

  lemma CarriedIsCommand(record: seq<byte>)
    requires IsRecord(record)
    ensures IsCommand(Carry(record))
  {
    assert Carry(record)[3] == record[2];
  }

  lemma CarriedAreCommands(records: seq<seq<byte>>)
    requires forall i :: 0 <= i < |records| ==> IsRecord(records[i])
    ensures AllCommands(CarryAll(records))
  {
    hide IsRecord, IsCommand, Carry;
    forall i | 0 <= i < |records|
      ensures IsCommand(CarryAll(records)[i])
    {
      CarriedIsCommand(records[i]);
    }
  }

  /** The receiver of the commands gets the records of the file. */
  lemma ReceivedRecords(records: seq<seq<byte>>)
    requires forall i :: 0 <= i < |records| ==> IsRecord(records[i])
    ensures Packets(Join(CarryAll(records))) == CarryAll(records) && AllCommands(CarryAll(records))
    ensures Bodies(CarryAll(records)) == records
  {
    CarriedAreCommands(records);
    PacketsBack(CarryAll(records));
    hide IsRecord, IsCommand;
    forall i | 0 <= i < |records|
      ensures Bodies(CarryAll(records))[i] == records[i]
    {
      assert Carry(records[i])[1..] == records[i];
    }
  }

  // ----- what crosses the line -----

  /** `waiting` is the number of bytes on the way to the host when a command was sent; `wire` is the
      speed at which an event was sent. */
  datatype Entry =
    | Sent(cmd: seq<byte>, host: nat, chip: nat, waiting: nat)
    | Lost(cmd: seq<byte>, host: nat)
    | Got(event: seq<byte>, host: nat, wire: nat)

  /** A command of the host, at its speed, after so many losses of the same command. */
  datatype Say = Say(cmd: seq<byte>, host: nat, losses: nat)

  function Losses(cmd: seq<byte>, host: nat, n: nat): (r: seq<Entry>)
    ensures |r| == n && forall i :: 0 <= i < n ==> r[i] == Lost(cmd, host)
  {
    if n == 0 then [] else [Lost(cmd, host)] + Losses(cmd, host, n - 1)
  }

  /** One command and its event, at the chip's speed `chip`; nothing was waiting. */
  predicate Exchange(log: seq<Entry>, s: Say, chip: nat) {
    && |log| == s.losses + 2
    && log[..s.losses] == Losses(s.cmd, s.host, s.losses)
    && log[s.losses] == Sent(s.cmd, s.host, chip, 0)
    && log[s.losses + 1].Got? && IsEvent(log[s.losses + 1].event)
    && log[s.losses + 1].host == s.host && log[s.losses + 1].wire == chip
  }

  /** The log is the script, carried out one command at a time. */
  predicate Follows(log: seq<Entry>, script: seq<Say>, chip: nat)
    decreases |script|
  {
    if script == [] then log == []
    else
      && |log| >= script[0].losses + 2
      && Exchange(log[..script[0].losses + 2], script[0], chip)
      && Follows(log[script[0].losses + 2..], script[1..], SpeedAfter(chip, script[0].cmd))
  }

  /** The chip's speed after a script. */
  function ChipAfter(script: seq<Say>, chip: nat): nat
    decreases |script|
  {
    if script == [] then chip else ChipAfter(script[1..], SpeedAfter(chip, script[0].cmd))
  }

  lemma FollowsFirst(log: seq<Entry>, script: seq<Say>, chip: nat)
    requires script != []
    ensures var n := script[0].losses + 2;
            Follows(log, script, chip) <==>
            |log| >= n && Exchange(log[..n], script[0], chip)
            && Follows(log[n..], script[1..], SpeedAfter(chip, script[0].cmd))
    ensures ChipAfter(script, chip) == ChipAfter(script[1..], SpeedAfter(chip, script[0].cmd))
  {
    hide Exchange, SpeedAfter;
  }

  lemma FollowsNothing(log: seq<Entry>, chip: nat)
    ensures Follows(log, [], chip) <==> log == []
    ensures ChipAfter([], chip) == chip
  {
  }

  lemma {:induction false} FollowsAppend(a: seq<Entry>, s: seq<Say>, b: seq<Entry>, t: seq<Say>, chip: nat)
    requires Follows(a, s, chip) && Follows(b, t, ChipAfter(s, chip))
    ensures Follows(a + b, s + t, chip) && ChipAfter(s + t, chip) == ChipAfter(t, ChipAfter(s, chip))
    decreases |s|
  {
    hide *;
    if s == [] {
      FollowsNothing(a, chip);
      assert a + b == b && s + t == t;
    } else {
      var n := s[0].losses + 2;
      FollowsFirst(a, s, chip);
      FollowsFirst(a + b, s + t, chip);
      assert (s + t)[1..] == s[1..] + t;
      assert (a + b)[..n] == a[..n] && (a + b)[n..] == a[n..] + b;
      FollowsAppend(a[n..], s[1..], b, t, SpeedAfter(chip, s[0].cmd));
    }
  }

  lemma FollowsOne(log: seq<Entry>, s: Say, chip: nat)
    requires Exchange(log, s, chip)
    ensures Follows(log, [s], chip) && ChipAfter([s], chip) == SpeedAfter(chip, s.cmd)
  {
    hide SpeedAfter;
    assert log[..s.losses + 2] == log && log[s.losses + 2..] == [];
    assert [s][1..] == [];
  }

  // ----- what a log shows -----

  /** Host and chip at the same speed, at every command and at every event. */
  predicate Matched(log: seq<Entry>) {
    forall i :: 0 <= i < |log| ==> MatchedAt(log[i])
  }

  predicate MatchedAt(e: Entry) {
    (e.Sent? ==> e.host == e.chip) && (e.Got? ==> e.host == e.wire)
  }

  function Delivered(log: seq<Entry>): seq<seq<byte>> {
    if log == [] then []
    else (if log[0].Sent? then [log[0].cmd] else []) + Delivered(log[1..])
  }

  function Commands(script: seq<Say>): (r: seq<seq<byte>>)
    ensures |r| == |script| && forall i :: 0 <= i < |script| ==> r[i] == script[i].cmd
  {
    if script == [] then [] else [script[0].cmd] + Commands(script[1..])
  }

  lemma {:induction false} DeliveredAppend(a: seq<Entry>, b: seq<Entry>)
    ensures Delivered(a + b) == Delivered(a) + Delivered(b)
  {
    if a == [] {
      assert a + b == b;
    } else {
      assert (a + b)[1..] == a[1..] + b;
      DeliveredAppend(a[1..], b);
    }
  }

  lemma {:induction false} NothingDelivered(cmd: seq<byte>, host: nat, n: nat)
    ensures Delivered(Losses(cmd, host, n)) == []
  {
    if n > 0 { NothingDelivered(cmd, host, n - 1); }
  }

  lemma OneDelivered(log: seq<Entry>, s: Say, chip: nat)
    requires Exchange(log, s, chip)
    ensures Delivered(log) == [s.cmd]
    ensures Matched(log) <==> s.host == chip
  {
    var a, b := log[..s.losses], log[s.losses..];
    assert log == a + b;
    NothingDelivered(s.cmd, s.host, s.losses);
    DeliveredAppend(a, b);
    assert b[0] == Sent(s.cmd, s.host, chip, 0) && b[1].Got? && b[2..] == [] && b[1..] == [b[1]];
    assert Delivered(b[1..]) == [];
    assert MatchedAt(log[s.losses]) <==> s.host == chip;
    assert forall i :: 0 <= i < s.losses ==> log[i] == a[i];
  }

  /** Host and chip agree throughout a script. */
  predicate Agree(script: seq<Say>, chip: nat)
    decreases |script|
  {
    script == [] || (script[0].host == chip && Agree(script[1..], SpeedAfter(chip, script[0].cmd)))
  }

  lemma {:induction false} AgreeAppend(s: seq<Say>, t: seq<Say>, chip: nat)
    ensures Agree(s + t, chip) <==> Agree(s, chip) && Agree(t, ChipAfter(s, chip))
    decreases |s|
  {
    hide SpeedAfter;
    if s == [] {
      assert s + t == t;
    } else {
      assert (s + t)[1..] == s[1..] + t;
      AgreeAppend(s[1..], t, SpeedAfter(chip, s[0].cmd));
    }
  }

  /** Exactly the commands of the script arrive, in order, and the speeds in the log are those of the script. */
  lemma {:induction false} LogOfScript(log: seq<Entry>, script: seq<Say>, chip: nat)
    requires Follows(log, script, chip)
    ensures Delivered(log) == Commands(script)
    ensures Matched(log) <==> Agree(script, chip)
    decreases |script|
  {
    hide Exchange, SpeedAfter, MatchedAt;
    if script != [] {
      var n := script[0].losses + 2;
      var a, b := log[..n], log[n..];
      assert log == a + b;
      OneDelivered(a, script[0], chip);
      DeliveredAppend(a, b);
      LogOfScript(b, script[1..], SpeedAfter(chip, script[0].cmd));
      assert forall i :: 0 <= i < |a| ==> log[i] == a[i];
      assert forall i :: 0 <= i < |b| ==> log[n + i] == b[i];
    }
  }

  /** One command at a time: whenever a command goes out, the event of the one before has been read, and
      no byte is waiting. */
  predicate StopAndWait(log: seq<Entry>) {
    forall i :: 0 <= i < |log| ==> InTurn(log, i)
  }

  predicate InTurn(log: seq<Entry>, i: nat)
    requires i < |log|
  {
    && (log[i].Sent? ==> log[i].waiting == 0 && (i == 0 || !log[i - 1].Sent?) && i + 1 < |log| && log[i + 1].Got?)
    && (log[i].Got? ==> i > 0 && log[i - 1].Sent?)
    && (log[i].Lost? ==> (i == 0 || !log[i - 1].Sent?) && i + 1 < |log| && !log[i + 1].Got?)
  }

  predicate Ended(log: seq<Entry>) {
    log == [] || log[|log| - 1].Got?
  }

  lemma {:induction false} TurnsAppend(a: seq<Entry>, b: seq<Entry>)
    requires StopAndWait(a) && StopAndWait(b) && Ended(a)
    ensures StopAndWait(a + b) && (Ended(b) ==> Ended(a + b))
  {
    var log := a + b;
    forall i | 0 <= i < |log|
      ensures InTurn(log, i)
    {
      if i < |a| { assert InTurn(a, i); } else { assert InTurn(b, i - |a|); }
    }
  }

  lemma ExchangeInTurn(log: seq<Entry>, s: Say, chip: nat)
    requires Exchange(log, s, chip)
    ensures StopAndWait(log) && Ended(log)
  {
    hide IsEvent;
    assert forall i :: 0 <= i < s.losses ==> log[i] == log[..s.losses][i] == Lost(s.cmd, s.host);
  }

  lemma {:induction false} FollowsInTurn(log: seq<Entry>, script: seq<Say>, chip: nat)
    requires Follows(log, script, chip)
    ensures StopAndWait(log) && Ended(log)
    decreases |script|
  {
    hide SpeedAfter, Exchange;
    if script != [] {
      var n := script[0].losses + 2;
      var a, b := log[..n], log[n..];
      assert log == a + b;
      ExchangeInTurn(a, script[0], chip);
      FollowsInTurn(b, script[1..], SpeedAfter(chip, script[0].cmd));
      hide StopAndWait;
      TurnsAppend(a, b);
    }
  }
}
