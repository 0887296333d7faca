/** The downloader: reading events, resetting, downloading a firmware file, changing the speed
    (packages/linux-firmware/brcm_patchram/sources/brcm_patchram_plus.c). The line delivers bytes in
    pieces of any size; the chip answers every command it gets with some event. */
module Patchram {
  import opened Hci

  const BUFFER_SIZE := 1024

  /** The log grew by the script. */
  predicate Grew(before: seq<Entry>, after: seq<Entry>, script: seq<Say>, chip: nat) {
    |before| <= |after| && after[..|before|] == before && Follows(after[|before|..], script, chip)
  }

  lemma GrewNot(log: seq<Entry>, chip: nat)
    ensures Grew(log, log, [], chip) && ChipAfter([], chip) == chip
  {
  }

  lemma GrewMore(a: seq<Entry>, b: seq<Entry>, c: seq<Entry>, s: seq<Say>, t: seq<Say>, chip: nat)
    requires Grew(a, b, s, chip) && Grew(b, c, t, ChipAfter(s, chip))
    ensures Grew(a, c, s + t, chip) && ChipAfter(s + t, chip) == ChipAfter(t, ChipAfter(s, chip))
  {
    hide Follows;
    assert c[|a|..] == b[|a|..] + c[|b|..] by {
      assert c[..|b|] == b;
    }
    assert c[..|a|] == a by {
      assert c[..|b|][..|a|] == c[..|a|];
    }
    FollowsAppend(b[|a|..], s, c[|b|..], t, chip);
  }

  /** One command more, after its losses. */
  lemma GrewOne(before: seq<Entry>, after: seq<Entry>, s: Say, chip: nat)
    requires |after| >= |before| && after[..|before|] == before && Exchange(after[|before|..], s, chip)
    ensures Grew(before, after, [s], chip) && ChipAfter([s], chip) == SpeedAfter(chip, s.cmd)
  {
    hide Exchange;
    FollowsOne(after[|before|..], s, chip);
  }

  lemma {:induction false} LossesSnoc(cmd: seq<byte>, host: nat, n: nat)
    ensures Losses(cmd, host, n + 1) == Losses(cmd, host, n) + [Lost(cmd, host)]
  {
    if n > 0 { LossesSnoc(cmd, host, n - 1); }
  }

  /** `was` with a piece written over it from `i` on. */
  function Splice(was: seq<byte>, i: nat, piece: seq<byte>): (r: seq<byte>)
    requires i + |piece| <= |was|
    ensures |r| == |was|
  {
    was[..i] + piece + was[i + |piece|..]
  }

  lemma SpliceOne(was: seq<byte>, i: nat, piece: seq<byte>, k: nat)
    requires i + |piece| <= |was| && k < |piece|
    ensures Splice(was, i, piece[..k])[i + k := piece[k]] == Splice(was, i, piece[..k + 1])
  {
  }

  lemma SpliceEnds(was: seq<byte>, i: nat, piece: seq<byte>)
    requires i + |piece| <= |was|
    ensures Splice(was, i, piece[..0]) == was && piece[..|piece|] == piece
  {
  }

  /** What `read` does to its buffer. */
  method CopyInto(buffer: array<byte>, i: nat, piece: seq<byte>)
    requires i + |piece| <= buffer.Length
    modifies buffer
    ensures buffer[..] == Splice(old(buffer[..]), i, piece)
  {
    hide Splice;
    ghost var was := buffer[..];
    SpliceEnds(was, i, piece);
    var k := 0;
    while k < |piece|
      invariant 0 <= k <= |piece|
      invariant buffer[..] == Splice(was, i, piece[..k])
    {
      SpliceOne(was, i, piece, k);
      buffer[i + k] := piece[k];
      k := k + 1;
    }
  }

  /** The serial line. `rx` holds the bytes on their way to the host; `extra` says whether the chip, when it is
      first told to download, sends two bytes after its answer. The speeds that nobody can see are ghost. */
  class Line {
    var rx: seq<byte>
    var hostSpeed: nat
    const extra: bool
    var entered: bool
    ghost var chipSpeed: nat
    ghost var wire: nat
    ghost var log: seq<Entry>

    constructor (extra: bool)
      ensures rx == [] && log == [] && hostSpeed == chipSpeed == DEFAULT_SPEED && this.extra == extra && !entered
    {
      this.extra, entered := extra, false;
      rx, hostSpeed, chipSpeed, wire, log := [], DEFAULT_SPEED, DEFAULT_SPEED, DEFAULT_SPEED, [];
    }

    /** `hci_send_cmd`, and the chip's answer: any event, then its change of speed. */
    method Send(cmd: seq<byte>)
      modifies this`rx, this`entered, this`chipSpeed, this`wire, this`log
      ensures entered == (old(entered) || cmd == MINIDRIVER)
      ensures log == old(log) + [Sent(cmd, hostSpeed, old(chipSpeed), |old(rx)|)]
      ensures wire == old(chipSpeed) && chipSpeed == SpeedAfter(old(chipSpeed), cmd)
      ensures exists event, two :: IsEvent(event) && rx == old(rx) + event + two
                                   && |two| == if cmd == MINIDRIVER && extra && !old(entered) then 2 else 0
    {
      var event: seq<byte>, a: byte, b: byte := *, *, *;
      if !IsEvent(event) {
        event := [0x04, 0x0e, 0x00];
      }
      var two := if cmd == MINIDRIVER && extra && !entered then [a, b] else [];
      entered := entered || cmd == MINIDRIVER;
      log := log + [Sent(cmd, hostSpeed, chipSpeed, |rx|)];
      wire := chipSpeed;
      chipSpeed := SpeedAfter(chipSpeed, cmd);
      rx := rx + event + two;
    }

    /** A command that does not arrive. */
    method Lose(cmd: seq<byte>)
      modifies this`log
      ensures log == old(log) + [Lost(cmd, hostSpeed)]
    {
      log := log + [Lost(cmd, hostSpeed)];
    }

    /** `read`: as many bytes as happen to be there, at least one of those asked for. */
    method Read(buffer: array<byte>, i: nat, len: nat) returns (count: nat)
      requires i + len <= buffer.Length && (len > 0 ==> rx != [])
      modifies this`rx, buffer
      ensures count <= len && (len > 0 ==> count > 0) && count <= |old(rx)|
      ensures rx == old(rx)[count..]
      ensures buffer[..] == Splice(old(buffer[..]), i, old(rx)[..count])
    {
      var most := if len < |rx| then len else |rx|;
      var some: int := *;
      count := if 0 < some < most then some else most;
      CopyInto(buffer, i, rx[..count]);
      rx := rx[count..];
    }
  }

  /** The firmware file: reads are full until the end. */
  class HcdFile {
    var left: seq<byte>

    constructor (contents: seq<byte>)
      ensures left == contents
    {
      left := contents;
    }

    method Read(buffer: array<byte>, i: nat, len: nat) returns (count: nat)
      requires i + len <= buffer.Length
      modifies this, buffer
      ensures count == (if len < |old(left)| then len else |old(left)|)
      ensures left == old(left)[count..]
      ensures buffer[..] == Splice(old(buffer[..]), i, old(left)[..count])
    {
      count := if len < |left| then len else |left|;
      CopyInto(buffer, i, left[..count]);
      left := left[count..];
    }
  }

  /** A piece that continues another. */
  lemma SpliceMore(was: seq<byte>, stream: seq<byte>, i: nat, a: nat, b: nat)
    requires i + a + b <= |was| && a + b <= |stream|
    ensures Splice(Splice(was, i, stream[..a]), i + a, stream[a..][..b]) == Splice(was, i, stream[..a + b])
  {
    var one := Splice(was, i, stream[..a]);
    assert one[..i + a] == was[..i] + stream[..a];
    assert one[i + a + b..] == was[i + a + b..];
    assert stream[..a] + stream[a..][..b] == stream[..a + b];
  }

  /** The loop that `read_event` goes through twice: reading until all bytes asked for are there. */
  method ReadAll(line: Line, buffer: array<byte>, at: nat, n: nat)
    requires at + n <= buffer.Length && n <= |line.rx|
    modifies line`rx, buffer
    ensures line.rx == old(line.rx)[n..]
    ensures buffer[..] == Splice(old(buffer[..]), at, old(line.rx)[..n])
  {
    hide Splice;
    ghost var stream, was := line.rx, buffer[..];
    var i, len := at, n;
    var count := line.Read(buffer, i, len);
    while count < len
      invariant at <= i && i + len == at + n && count <= len && (len > 0 ==> 0 < count)
      invariant line.rx == stream[i - at + count..]
      invariant buffer[..] == Splice(was, at, stream[..i - at + count])
      decreases len - count
    {
      i := i + count;
      len := len - count;
      count := line.Read(buffer, i, len);
      SpliceMore(was, stream, at, i - at, count);
    }
  }

  lemma ThirdByte(was: seq<byte>, stream: seq<byte>, now: seq<byte>)
    requires 3 <= |was| && 3 <= |stream| && now == Splice(was, 0, stream[..3])
    ensures now[2] == stream[2]
  {
  }

  lemma SpliceFront(was: seq<byte>, stream: seq<byte>, n: nat)
    requires n <= |was| && n <= |stream|
    ensures Splice(was, 0, stream[..n]) == stream[..n] + was[n..]
  {
  }

  /** `read_event`: however the bytes arrive, it takes exactly one event off the line. */
  method ReadEvent(line: Line, buffer: array<byte>)
    requires EventReady(line.rx) && buffer.Length == BUFFER_SIZE
    modifies line`rx, line`log, buffer
    ensures var n := EventLen(old(line.rx));
            && line.rx == old(line.rx)[n..]
            && buffer[..n] == old(line.rx)[..n]
            && buffer[n..] == old(buffer[n..])
            && line.log == old(line.log) + [Got(old(line.rx)[..n], line.hostSpeed, line.wire)]
  {
    hide Splice;
    ghost var stream, was := line.rx, buffer[..];
    ReadAll(line, buffer, 0, 3);
    ThirdByte(was, stream, buffer[..]);
    var len := buffer[2];
    ghost var n := 3 + len as int;
    ReadAll(line, buffer, 3, len);
    SpliceMore(was, stream, 0, 3, len);
    SpliceFront(was, stream, n);
    assert buffer[..] == stream[..n] + was[n..];
    assert buffer[..n] == buffer[..][..n] && buffer[n..] == buffer[..][n..];
    line.log := line.log + [Got(stream[..n], line.hostSpeed, line.wire)];
  }

  /** `read_event`, `k` times in turn: on a stream of events it takes the first `k` of them, each as a whole. */
  method ReadEvents(line: Line, buffer: array<byte>, k: nat, ghost packets: seq<seq<byte>>, ghost rest: seq<byte>)
    returns (got: seq<seq<byte>>)
    requires k <= |packets| && (forall i :: 0 <= i < |packets| ==> IsEvent(packets[i]))
    requires line.rx == Join(packets) + rest && buffer.Length == BUFFER_SIZE
    modifies line`rx, line`log, buffer
    ensures got == packets[..k] && line.rx == Join(packets[k..]) + rest
  {
    hide IsEvent, Join;
    got := [];
    assert packets[0..] == packets;
    for i := 0 to k
      invariant got == packets[..i] && line.rx == Join(packets[i..]) + rest
      invariant line.rx == AfterEvents(Join(packets) + rest, i)
    {
      Aligned(packets, rest, i);
      AlignedAfter(packets, rest, i);
      OneEventMore(Join(packets) + rest, i);
      ReadEvent(line, buffer);
      got := got + [buffer[..3 + buffer[2] as int]];
    }
  }

  // ----- commands -----

  lemma EventFirst(rx: seq<byte>, event: seq<byte>, rest: seq<byte>)
    requires IsEvent(event) && rx == [] + event + rest
    ensures EventReady(rx) && EventLen(rx) == |event| && rx[..EventLen(rx)] == event && rx[EventLen(rx)..] == rest
  {
  }

  lemma ExchangeIs(before: seq<Entry>, s: Say, chip: nat, event: seq<byte>)
    requires IsEvent(event)
    ensures s.losses == 0 ==> Losses(s.cmd, s.host, s.losses) == []
    ensures var after := before + (Losses(s.cmd, s.host, s.losses)
                                   + [Sent(s.cmd, s.host, chip, 0), Got(event, s.host, chip)]);
            Grew(before, after, [s], chip) && ChipAfter([s], chip) == SpeedAfter(chip, s.cmd)
  {
    hide Grew, Follows, SpeedAfter, ChipAfter, IsEvent;
    var added := Losses(s.cmd, s.host, s.losses) + [Sent(s.cmd, s.host, chip, 0), Got(event, s.host, chip)];
    assert (before + added)[|before|..] == added;
    GrewOne(before, before + added, s, chip);
  }

  /** The pair that every procedure is made of: `hci_send_cmd`, then `read_event`. */
  method SendAndRead(line: Line, buffer: array<byte>, cmd: seq<byte>)
    requires line.rx == [] && buffer.Length == BUFFER_SIZE
    modifies line`rx, line`entered, line`chipSpeed, line`wire, line`log, buffer
    ensures |line.rx| == if cmd == MINIDRIVER && line.extra && !old(line.entered) then 2 else 0
    ensures line.entered == (old(line.entered) || cmd == MINIDRIVER)
    ensures Grew(old(line.log), line.log, [Say(cmd, line.hostSpeed, 0)], old(line.chipSpeed))
    ensures line.chipSpeed == ChipAfter([Say(cmd, line.hostSpeed, 0)], old(line.chipSpeed))
  {
    hide *;
    ghost var before, chip := line.log, line.chipSpeed;
    line.Send(cmd);
    ghost var event, two :| IsEvent(event) && line.rx == [] + event + two
                            && |two| == if cmd == MINIDRIVER && line.extra && !old(line.entered) then 2 else 0;
    EventFirst(line.rx, event, two);
    ReadEvent(line, buffer);
    ghost var s := Say(cmd, line.hostSpeed, 0);
    assert before + [Sent(cmd, line.hostSpeed, chip, 0)] + [Got(event, line.hostSpeed, chip)]
        == before + ([] + [Sent(cmd, line.hostSpeed, chip, 0), Got(event, line.hostSpeed, chip)]);
    ExchangeIs(before, s, chip, event);
  }

  lemma NoLosses(before: seq<Entry>, host: nat)
    ensures before == before + Losses(RESET, host, 0)
  {
  }

  lemma NotTheMinidriver()
    ensures RESET != MINIDRIVER
  {
    assert RESET[1] != MINIDRIVER[1];
  }

  lemma BufferSize()
    ensures BUFFER_SIZE == 1024
  {
  }

  /** `proc_reset` with its alarm: `expired` sends the reset again, after each of so many losses. */
  method ProcReset(line: Line, buffer: array<byte>, losses: nat)
    requires line.rx == [] && buffer.Length == BUFFER_SIZE
    modifies line`rx, line`entered, line`chipSpeed, line`wire, line`log, buffer
    ensures line.rx == [] && line.entered == old(line.entered)
    ensures Grew(old(line.log), line.log, [Say(RESET, line.hostSpeed, losses)], old(line.chipSpeed))
    ensures line.chipSpeed == ChipAfter([Say(RESET, line.hostSpeed, losses)], old(line.chipSpeed))
  {
    hide *;
    ghost var before, chip := line.log, line.chipSpeed;
    NoLosses(before, line.hostSpeed);
    var n := 0;
    while n < losses
      invariant 0 <= n <= losses && line.rx == [] && line.chipSpeed == chip && line.entered == old(line.entered)
      invariant line.log == before + Losses(RESET, line.hostSpeed, n)
    {
      line.Lose(RESET);
      LossesSnoc(RESET, line.hostSpeed, n);
      n := n + 1;
    }
    NotTheMinidriver();
    line.Send(RESET);
    ghost var event, two :| IsEvent(event) && line.rx == [] + event + two && |two| == 0;
    EventFirst(line.rx, event, two);
    ReadEvent(line, buffer);
    ghost var s, lost := Say(RESET, line.hostSpeed, losses), Losses(RESET, line.hostSpeed, losses);
    assert before + lost + [Sent(RESET, line.hostSpeed, chip, 0)] + [Got(event, line.hostSpeed, chip)]
        == before + (lost + [Sent(RESET, line.hostSpeed, chip, 0), Got(event, line.hostSpeed, chip)]);
    ExchangeIs(before, s, chip, event);
  }

  // ----- the scripts -----

  function Says(cmds: seq<seq<byte>>, host: nat): (r: seq<Say>)
    ensures |r| == |cmds| && forall i :: 0 <= i < |cmds| ==> r[i] == Say(cmds[i], host, 0)
  {
    if cmds == [] then [] else [Say(cmds[0], host, 0)] + Says(cmds[1..], host)
  }

  /** What a change of speed sends. */
  function RateCommands(rate: nat): seq<seq<byte>> {
    (if rate > 3000000 then [CLOCK_48_MHZ] else []) + [UpdateRate(rate)]
  }

  /** What a download sends: the minidriver, every record in order, a reset at the speed `last`. */
  function DownloadScript(file: seq<byte>, host: nat, last: nat, losses: nat): seq<Say>
    requires WellFormed(file)
  {
    Says([MINIDRIVER] + CarryAll(Records(file)), host) + [Say(RESET, last, losses)]
  }

  lemma {:induction false} SaysAppend(a: seq<seq<byte>>, b: seq<seq<byte>>, host: nat)
    ensures Says(a + b, host) == Says(a, host) + Says(b, host)
  {
    if a == [] {
      assert a + b == b;
    } else {
      assert (a + b)[1..] == a[1..] + b;
      SaysAppend(a[1..], b, host);
    }
  }

  lemma SaysOne(cmd: seq<byte>, host: nat)
    ensures Says([cmd], host) == [Say(cmd, host, 0)]
  {
    assert [cmd][1..] == [];
  }

  /** One more command at the same speed. */
  lemma SaysMore(a: seq<Entry>, b: seq<Entry>, c: seq<Entry>, cmds: seq<seq<byte>>, cmd: seq<byte>, host: nat,
                 chip: nat)
    requires Grew(a, b, Says(cmds, host), chip)
    requires Grew(b, c, [Say(cmd, host, 0)], ChipAfter(Says(cmds, host), chip))
    ensures Grew(a, c, Says(cmds + [cmd], host), chip)
    ensures ChipAfter(Says(cmds + [cmd], host), chip)
            == ChipAfter([Say(cmd, host, 0)], ChipAfter(Says(cmds, host), chip))
  {
    hide Grew, ChipAfter;
    GrewMore(a, b, c, Says(cmds, host), [Say(cmd, host, 0)], chip);
    SaysAppend(cmds, [cmd], host);
    SaysOne(cmd, host);
  }

  // ----- the download -----

  lemma CarryAppend(a: seq<seq<byte>>, r: seq<byte>)
    ensures CarryAll(a + [r]) == CarryAll(a) + [Carry(r)]
  {
    hide Carry;
    var x, y := CarryAll(a + [r]), CarryAll(a) + [Carry(r)];
    assert |x| == |y| && forall i :: 0 <= i < |x| ==> x[i] == y[i];
  }

  /** The first three bytes of a record lie in the buffer. */
  predicate HeaderRead(buffer: seq<byte>, left: seq<byte>, rest: seq<byte>) {
    if rest == [] then left == []
    else |rest| >= 3 && |buffer| == BUFFER_SIZE && buffer[1..4] == rest[..3] && left == rest[3..]
  }

  lemma HeaderNow(was: seq<byte>, buffer: seq<byte>, rest: seq<byte>, left: seq<byte>, count: nat)
    requires |was| == BUFFER_SIZE && WellFormed(rest) && count == (if 3 < |rest| then 3 else |rest|)
    requires buffer == Splice(was, 1, rest[..count]) && left == rest[count..]
    ensures HeaderRead(buffer, left, rest) && (count == 0 <==> rest == []) && |buffer| == BUFFER_SIZE
  {
    if rest != [] { assert buffer[1..4] == rest[..3]; }
  }

  lemma RecordNow(was: seq<byte>, buffer: seq<byte>, rest: seq<byte>, left: seq<byte>, len: nat)
    requires HeaderRead(was, left, rest) && rest != [] && WellFormed(rest) && len == rest[2]
    requires buffer == Splice(was[0 := 0x01], 4, left[..len])
    ensures buffer[..len + 4] == Carry(rest[..3 + len]) && left[len..] == rest[3 + len..]
  {
    var w := was[0 := 0x01];
    assert w[..4] == [0x01] + rest[..3] by {
      assert w[..4] == [w[0]] + was[1..4];
    }
    assert buffer[..len + 4] == w[..4] + left[..len];
    assert rest[..3 + len] == rest[..3] + left[..len];
  }

  lemma RecordsFirst(rest: seq<byte>)
    requires WellFormed(rest) && rest != []
    ensures |rest| >= 3 && |rest| >= 3 + rest[2] as int
    ensures Records(rest) == [rest[..3 + rest[2] as int]] + Records(rest[3 + rest[2] as int..])
    ensures WellFormed(rest[3 + rest[2] as int..])
  {
  }

  /** The body of the loop over the file: the rest of a record is read behind its header, and sent. */
  method SendRecord(line: Line, buffer: array<byte>, hcd: HcdFile, ghost rest: seq<byte>)
    requires line.rx == [] && line.entered && buffer.Length == BUFFER_SIZE
    requires WellFormed(rest) && rest != [] && HeaderRead(buffer[..], hcd.left, rest) && |rest| >= 3 + rest[2] as int
    modifies line`rx, line`entered, line`chipSpeed, line`wire, line`log, buffer, hcd
    ensures line.rx == [] && line.entered && hcd.left == rest[3 + rest[2] as int..]
    ensures var s := Say(Carry(rest[..3 + rest[2] as int]), line.hostSpeed, 0);
            Grew(old(line.log), line.log, [s], old(line.chipSpeed))
                && line.chipSpeed == ChipAfter([s], old(line.chipSpeed))
  {
    hide *;
    BufferSize();
    ghost var was, left := buffer[..], hcd.left;
    HeaderBytes(was, left, rest);
    buffer[0] := 0x01;
    var len := buffer[3];
    assert buffer[..] == was[0 := 0x01];
    var more := hcd.Read(buffer, 4, len);
    RecordNow(was, buffer[..], rest, left, len);
    assert buffer[..][..len as int + 4] == buffer[..len as int + 4];
    SendAndRead(line, buffer, buffer[..len as int + 4]);
  }

  /** The loop over the file. Commands and events share the buffer, and still every command is a record. */
  method SendRecords(line: Line, buffer: array<byte>, hcd: HcdFile)
    requires line.rx == [] && line.entered && buffer.Length == BUFFER_SIZE && WellFormed(hcd.left)
    modifies line`rx, line`entered, line`chipSpeed, line`wire, line`log, buffer, hcd
    ensures line.rx == [] && line.entered && hcd.left == []
    ensures Grew(old(line.log), line.log, Says(CarryAll(Records(old(hcd.left))), line.hostSpeed), old(line.chipSpeed))
    ensures line.chipSpeed == ChipAfter(Says(CarryAll(Records(old(hcd.left))), line.hostSpeed), old(line.chipSpeed))
  {
    hide *;
    ghost var file, before, chip, was := hcd.left, line.log, line.chipSpeed, buffer[..];
    ghost var rest: seq<byte>, done: seq<seq<byte>> := file, [];
    BufferSize();
    NothingSent(before, chip, line.hostSpeed);
    var count := hcd.Read(buffer, 1, 3);
    HeaderNow(was, buffer[..], rest, hcd.left, count);
    assert done + Records(rest) == Records(file);
    while count != 0
      invariant line.rx == [] && line.entered && WellFormed(rest) && HeaderRead(buffer[..], hcd.left, rest)
                && (count == 0 <==> rest == [])
      invariant done + Records(rest) == Records(file)
      invariant Grew(before, line.log, Says(CarryAll(done), line.hostSpeed), chip)
      invariant line.chipSpeed == ChipAfter(Says(CarryAll(done), line.hostSpeed), chip)
      decreases |rest|
    {
      RecordsFirst(rest);
      ghost var len: nat := rest[2];
      ghost var r, log := rest[..3 + len], line.log;
      SendRecord(line, buffer, hcd, rest);
      SaysMore(before, log, line.log, CarryAll(done), Carry(r), line.hostSpeed, chip);
      CarryAppend(done, r);
      assert done + [r] + Records(rest[3 + len..]) == done + Records(rest);
      done, rest := done + [r], rest[3 + len..];
      was := buffer[..];
      count := hcd.Read(buffer, 1, 3);
      HeaderNow(was, buffer[..], rest, hcd.left, count);
    }
    NothingToRead(buffer[..], hcd.left, rest);
    assert done + [] == done;
  }

  lemma NothingSent(log: seq<Entry>, chip: nat, host: nat)
    ensures Grew(log, log, Says(CarryAll([]), host), chip) && ChipAfter(Says(CarryAll([]), host), chip) == chip
    ensures Grew(log, log, Says([], host), chip) && ChipAfter(Says([], host), chip) == chip
  {
    GrewNot(log, chip);
  }

  lemma HeaderBytes(buffer: seq<byte>, left: seq<byte>, rest: seq<byte>)
    requires HeaderRead(buffer, left, rest) && rest != [] && WellFormed(rest)
    ensures |buffer| == BUFFER_SIZE && |rest| >= 3 && buffer[3] == rest[2] && |left| >= rest[2] && left == rest[3..]
    ensures |rest| >= 3 + rest[2] as int
  {
    assert buffer[1..4][2] == rest[..3][2];
  }

  lemma NothingToRead(buffer: seq<byte>, left: seq<byte>, rest: seq<byte>)
    requires HeaderRead(buffer, left, rest) && rest == []
    ensures left == [] && WellFormed(rest) && Records(rest) == []
  {
  }

  // ----- procedures -----

  /** `proc_patchram`. The two bytes that some chips send are read in one piece. */
  method ProcPatchram(line: Line, buffer: array<byte>, hcd: HcdFile, no2bytes: bool, highSpeed: bool, losses: nat)
    requires line.rx == [] && !line.entered && line.extra == !no2bytes
    requires buffer.Length == BUFFER_SIZE && WellFormed(hcd.left)
    modifies line, buffer, hcd
    ensures line.rx == [] && line.hostSpeed == if highSpeed then DEFAULT_SPEED else old(line.hostSpeed)
    ensures Grew(old(line.log), line.log, DownloadScript(old(hcd.left), old(line.hostSpeed), line.hostSpeed, losses),
                 old(line.chipSpeed))
    ensures line.chipSpeed == ChipAfter(DownloadScript(old(hcd.left), old(line.hostSpeed), line.hostSpeed, losses),
                                        old(line.chipSpeed))
  {
    hide *;
    BufferSize();
    ghost var log0, chip0, host, file := line.log, line.chipSpeed, line.hostSpeed, hcd.left;
    SendAndRead(line, buffer, MINIDRIVER);
    ghost var log1, chip1 := line.log, line.chipSpeed;
    if !no2bytes {
      ReadAll(line, buffer, 0, 2);
    }
    SendRecords(line, buffer, hcd);
    ghost var log2 := line.log;
    GrewMore(log0, log1, log2, [Say(MINIDRIVER, host, 0)], Says(CarryAll(Records(file)), host), chip0);
    if highSpeed {
      line.hostSpeed := DEFAULT_SPEED;
    }
    ProcReset(line, buffer, losses);
    SaysOne(MINIDRIVER, host);
    SaysAppend([MINIDRIVER], CarryAll(Records(file)), host);
    GrewMore(log0, log2, line.log, Says([MINIDRIVER] + CarryAll(Records(file)), host),
             [Say(RESET, line.hostSpeed, losses)], chip0);
    DownloadIs(file, host, line.hostSpeed, losses);
  }

  lemma DownloadIs(file: seq<byte>, host: nat, last: nat, losses: nat)
    requires WellFormed(file)
    ensures DownloadScript(file, host, last, losses)
            == Says([MINIDRIVER] + CarryAll(Records(file)), host) + [Say(RESET, last, losses)]
  {
  }

  /** `proc_baudrate`. The host changes its speed when the chip has answered at the old one. */
  method ProcBaudrate(line: Line, buffer: array<byte>, update: array<byte>, baudrate: nat, termios: nat)
    requires line.rx == [] && buffer.Length == BUFFER_SIZE && update[..] == UpdateRate(baudrate) && update != buffer
    modifies line, buffer
    ensures line.rx == [] && line.entered == old(line.entered) && line.hostSpeed == termios
    ensures Grew(old(line.log), line.log, Says(RateCommands(baudrate), old(line.hostSpeed)), old(line.chipSpeed))
    ensures line.chipSpeed == ChipAfter(Says(RateCommands(baudrate), old(line.hostSpeed)), old(line.chipSpeed))
  {
    hide *;
    ghost var log0, chip0, host := line.log, line.chipSpeed, line.hostSpeed;
    NothingSent(log0, chip0, host);
    RateCommandsAre(baudrate);
    ghost var sent: seq<seq<byte>> := [];
    if baudrate > 3000000 {
      SendAndRead(line, buffer, CLOCK_48_MHZ);
      SaysOne(CLOCK_48_MHZ, host);
      sent := [CLOCK_48_MHZ];
    }
    ghost var log1 := line.log;
    SendAndRead(line, buffer, update[..]);
    SaysMore(log0, log1, line.log, sent, UpdateRate(baudrate), host, chip0);
    line.hostSpeed := termios;
  }

  lemma RateCommandsAre(rate: nat)
    ensures RateCommands(rate) == (if rate > 3000000 then [CLOCK_48_MHZ] else []) + [UpdateRate(rate)]
    ensures CLOCK_48_MHZ != MINIDRIVER && UpdateRate(rate) != MINIDRIVER
  {
    assert CLOCK_48_MHZ[1] != MINIDRIVER[1];
    assert UpdateRate(rate)[1] != MINIDRIVER[1];
  }

  // ----- rates -----

  /** `baud_rates`: the rates the program supports, with the line speed each termios constant stands for. */
  const BAUD_RATES: seq<(nat, nat)> :=
    [(115200, 115200), (230400, 230400), (460800, 460800), (500000, 500000), (576000, 576000), (921600, 921600),
     (1000000, 1000000), (1152000, 1152000), (1500000, 1500000), (2000000, 2000000), (2500000, 2500000),
     (3000000, 3000000), (3500000, 3500000), (4000000, 4000000)]

  /** The rates that Linux has a termios constant for, from 115200 bit/s on. */
  predicate Supported(rate: int) {
    rate in {115200, 230400, 460800, 500000, 576000, 921600, 1000000, 1152000, 1500000, 2000000, 2500000, 3000000,
             3500000, 4000000}
  }

  /** The table has exactly these rates, and each with its own constant. */
  lemma TableIsRates(rate: int)
    ensures Supported(rate) <==> exists i :: 0 <= i < |BAUD_RATES| && BAUD_RATES[i].0 == rate
    ensures forall i :: 0 <= i < |BAUD_RATES| ==> BAUD_RATES[i].1 == BAUD_RATES[i].0
  {
    var t := BAUD_RATES;
    assert t[0].0 == 115200 && t[1].0 == 230400 && t[2].0 == 460800 && t[3].0 == 500000 && t[4].0 == 576000;
    assert t[5].0 == 921600 && t[6].0 == 1000000 && t[7].0 == 1152000 && t[8].0 == 1500000 && t[9].0 == 2000000;
    assert t[10].0 == 2500000 && t[11].0 == 3000000 && t[12].0 == 3500000 && t[13].0 == 4000000;
  }

  /** `validate_baudrate`: it finds exactly the supported rates. */
  method ValidateBaudrate(baudRate: int) returns (ok: bool, value: nat)
    ensures ok <==> Supported(baudRate)
    ensures ok ==> value == baudRate
  {
    TableIsRates(baudRate);
    hide Supported;
    value := 0;
    var i := 0;
    while i < |BAUD_RATES|
      invariant 0 <= i <= |BAUD_RATES|
      invariant forall j :: 0 <= j < i ==> BAUD_RATES[j].0 != baudRate
    {
      if BAUD_RATES[i].0 == baudRate {
        value := BAUD_RATES[i].1;
        return true, value;
      }
      i := i + 1;
    }
    ok := false;
  }

  /** `BRCM_encode_baud_rate`, into the command from byte 6 on. */
  method EncodeBaudRate(baudRate: nat, cmd: array<byte>)
    requires baudRate < 0x1_0000_0000 && cmd.Length == 10
    modifies cmd
    ensures cmd[..] == if baudRate == 0 then old(cmd[..]) else old(cmd[..6]) + LittleEndian(baudRate)
  {
    if baudRate == 0 {
      return;
    }
    cmd[9] := (baudRate / 16777216) % 256;
    cmd[8] := (baudRate / 65536) % 256;
    cmd[7] := (baudRate / 256) % 256;
    cmd[6] := baudRate % 256;
  }

  /** `parse_baudrate`, after `atoi`. */
  method ParseBaudrate(baudRate: int, cmd: array<byte>) returns (ok: bool, termios: nat)
    requires cmd.Length == 10 && cmd[..6] == UpdateRate(0)[..6]
    modifies cmd
    ensures ok <==> Supported(baudRate)
    ensures ok ==> baudRate > 0 && termios == baudRate && cmd[..] == UpdateRate(baudRate)
    ensures !ok ==> cmd[..] == old(cmd[..])
  {
    hide LittleEndian;
    ok, termios := ValidateBaudrate(baudRate);
    if ok {
      EncodeBaudRate(baudRate, cmd);
    }
  }
}
