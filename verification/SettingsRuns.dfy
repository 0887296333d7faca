/** What holds of the settings file and its backup over any sequence of refreshes, with failures anywhere. */
module SettingsRuns {
  import opened Basics
  import opened Text
  import opened XmlMarkup
  import opened LinePrinter
  import opened PrettyPrinter
  import opened XmlTree
  import opened TunerTree
  import opened TunerTokens
  import opened TunerPieces
  import opened Settling
  import opened SavedFile
  import opened RefreshLaws
  import opened Refreshes
  import opened SettingsFile
  import opened Encoding

  function Run(s: Files, events: seq<Event>): Files
    decreases |events|
  {
    if events == [] then s else Run(Step(s, events[0]), events[1..])
  }

  // ----- the backup -----

  lemma BackupNeverChanges(s: Files, e: Event)
    requires s.backup.Some?
    ensures Step(s, e).backup == s.backup
  {
  }

  lemma {:induction false} BackupStays(s: Files, events: seq<Event>)
    requires s.backup.Some?
    ensures Run(s, events).backup == s.backup
    decreases |events|
  {
    hide Step;
    if events != [] {
      BackupNeverChanges(s, events[0]);
      BackupStays(Step(s, events[0]), events[1..]);
    }
  }

  /** The first attempt that gets as far as opening the backup copies everything. */
  predicate FirstCopyWhole(first: string, events: seq<Event>) {
    && events != []
    && match events[0].backup
       case Unopened => FirstCopyWhole(first, events[1..])
       case Copies => true
       case Cut(n) => n >= |first|
  }

  /** The backup holds the contents from before the first refresh exactly when the first attempt to write
      it was not cut short; nothing that happens later matters. */
  lemma {:induction false} BackupIsOriginal(first: string, events: seq<Event>)
    ensures Run(Files.Files(Some(first), None), events).backup == Some(first) <==> FirstCopyWhole(first, events)
  {
    if events != [] {
      var s, e := Files.Files(Some(first), None), events[0];
      FirstBackup(first, e);
      hide Step, Copied;
      match e.backup {
        case Unopened => BackupIsOriginal(first, events[1..]);
        case _ => BackupStays(Step(s, e), events[1..]);
      }
    }
  }

  lemma FirstBackup(first: string, e: Event)
    ensures e.backup.Unopened? ==> Step(Files.Files(Some(first), None), e) == Files.Files(Some(first), None)
    ensures !e.backup.Unopened? ==> Step(Files.Files(Some(first), None), e).backup.Some?
    ensures e.backup.Copies? ==> Step(Files.Files(Some(first), None), e).backup == Some(first)
    ensures e.backup.Cut? ==> (Step(Files.Files(Some(first), None), e).backup == Some(first) <==> e.backup.n >= |first|)
  {
    hide Saved, Refresh, Generated;
  }

  // ----- one save -----

  /** The characters `piece` are what `file` has at the offset. */
  predicate Agrees(file: string, at: nat, piece: string) {
    piece == "" || (at + |piece| <= |file| && file[at..at + |piece|] == piece)
  }

  lemma {:induction false} PaddedIs(file: string, at: nat)
    ensures |Padded(file, at)| == if |file| >= at then |file| else at
    decreases at - |file|
  {
    if |file| < at { PaddedIs(file + ['\0'], at); }
  }

  /** Writing a piece over a file gives this result exactly if the result has the piece where it was written, and
      in front of it and behind it what the file, filled up, had there. */
  lemma OverlaidExactly(file: string, at: nat, piece: string, result: string)
    requires piece != ""
    ensures var base := Padded(file, at);
            Overlaid(file, at, piece) == result <==>
              && Agrees(result, at, piece) && result[..at] == base[..at]
              && result[at + |piece|..] == (if |base| > at + |piece| then base[at + |piece|..] else "")
  {
    var base := Padded(file, at);
    var rest := if |base| > at + |piece| then base[at + |piece|..] else "";
    var o := base[..at] + piece + rest;
    assert o[..at] == base[..at] && o[at..at + |piece|] == piece && o[at + |piece|..] == rest;
    if Agrees(result, at, piece) && result[..at] == base[..at] && result[at + |piece|..] == rest {
      assert result == result[..at] + result[at..at + |piece|] + result[at + |piece|..];
    }
  }

  /** A file is not changed exactly by what it has there already. */
  lemma OverlaidSame(file: string, at: nat, piece: string)
    ensures Overlaid(file, at, piece) == file <==> Agrees(file, at, piece)
  {
    if piece != "" {
      OverlaidExactly(file, at, piece, file);
      PaddedIs(file, at);
      if |file| >= at + |piece| {
        assert Padded(file, at) == file;
        if |file| == at + |piece| { assert file[at + |piece|..] == ""; }
      }
    }
  }

  /** What a failed save has written by the end, if nothing is restored. */
  function LeftBehind(s: Files, text: string, fault: SaveFault): Option<string>
    requires fault.NotOpened? || (fault.Breaks? && fault.n <= Reach(text))
  {
    if fault.Breaks? then Some(text[..fault.n] + Pending(text, fault)) else s.settings
  }

  /** The offset at which the buffer is written. */
  function Offset(fault: SaveFault): nat {
    if fault.Breaks? then fault.n else 0
  }

  /** The pending characters make up for the end that a cut restore did not copy. */
  predicate MakesUp(file: string, copied: nat, at: nat, piece: string)
    requires copied < |file|
  {
    && piece != "" && at + |piece| == |file| && file[at..] == piece
    && Padded(file[..copied], at)[..at] == file[..at]
  }

  /** After an `IOError` the settings file is the backup exactly if the restore copied all of it and what was still
      in the buffer agrees with it; or the restore was cut and the buffer makes up for what is missing; or the
      restore opened nothing and what was written is the backup. */
  lemma RestoredExactly(s: Files, text: string, fault: SaveFault, stop: nat)
    requires s.backup.Some? && (fault.NotOpened? || (fault.Breaks? && fault.n <= Reach(text)))
    ensures var file, at, pending := s.backup.value, Offset(fault), Pending(text, fault);
            SaveStep(s, text, fault, stop).settings == s.backup <==>
              match fault.restore
              case Copies => Agrees(file, at, pending)
              case Cut(n) => if n >= |file| then Agrees(file, at, pending) else MakesUp(file, n, at, pending)
              case Unopened => LeftBehind(s, text, fault) == s.backup
  {
    hide Reach, Ascii, Overlaid, Padded;
    var file, at, pending := s.backup.value, Offset(fault), Pending(text, fault);
    OverlaidSame(file, at, pending);
    match fault.restore {
      case Copies => NothingLaid(file, at);
      case Cut(n) =>
        NothingLaid(Take(file, n), at);
        if n < |file| {
          if pending != "" { CutMakesUp(file, n, at, pending); }
          assert |file[..n]| != |file|;
        }
      case Unopened =>
        if fault.Breaks? {
          LaidAtEnd(text[..fault.n], pending);
          assert Take(text, fault.n) == text[..fault.n];
        }
    }
  }

  lemma NothingLaid(file: string, at: nat)
    ensures Overlaid(file, at, "") == file
  {
  }

  lemma LaidAtEnd(file: string, piece: string)
    ensures Overlaid(file, |file|, piece) == file + piece
  {
    PaddedIs(file, |file|);
    assert file + "" == file && file[..|file|] == file;
    assert file + piece + "" == file + piece;
  }

  lemma CutMakesUp(file: string, n: nat, at: nat, piece: string)
    requires n < |file| && piece != ""
    ensures Overlaid(file[..n], at, piece) == file <==> MakesUp(file, n, at, piece)
  {
    OverlaidExactly(file[..n], at, piece, file);
    PaddedIs(file[..n], at);
    var end := at + |piece|;
    if end == |file| {
      assert file[end..] == "" && file[at..end] == file[at..];
    } else if end < |file| {
      assert |file[end..]| == |file| - end;
    }
  }

  /** One character that is flushed late, where the backup has another one, is enough to spoil a restore that
      went well. */
  lemma LateFlush(s: Files, text: string, n: nat, stop: nat)
    requires s.backup.Some? && n < |s.backup.value| && n < Reach(text) && s.backup.value[n] != text[n]
    ensures SaveStep(s, text, Breaks(n, Copies, 1), stop).settings == Some(s.backup.value[n := text[n]]) != s.backup
  {
    var file, fault := s.backup.value, Breaks(n, Copies, 1);
    assert Pending(text, fault) == [text[n]];
    PaddedIs(file, n);
    assert Overlaid(file, n, [text[n]]) == file[..n] + [text[n]] + file[n + 1..] by {
      if |file| == n + 1 { assert file[n + 1..] == ""; }
    }
    assert file[n := text[n]] == file[..n] + [text[n]] + file[n + 1..];
    assert file[n := text[n]][n] == text[n];
  }

  predicate Restores(fault: SaveFault) {
    fault.Saves? || fault.restore.Copies?
  }

  /** Nothing is in the buffer when the restore runs, or nothing but what the backup has in that place. */
  predicate Harmless(backup: string, text: string, fault: SaveFault) {
    Agrees(backup, Offset(fault), Pending(text, fault))
  }

  /** The settings file is what it was, or completely printed, or the backup. */
  predicate Whole(s': Files, s: Files, text: string) {
    s'.settings == s.settings || s'.settings == Some(text) || s'.settings == s.backup
  }

  ghost predicate SafeToSave(s: Files, text: string)
    requires s.backup.Some?
  {
    forall fault, stop :: Restores(fault) && Harmless(s.backup.value, text, fault) ==>
      Whole(SaveStep(s, text, fault, stop), s, text)
  }

  /** With a restore that works and a buffer that does no harm, no failure leaves a partial file, exactly when the
      text is ASCII: the error for other texts is not an `IOError`, so nothing is restored. */
  lemma SafeExactlyForAscii(s: Files, text: string)
    requires s.backup.Some? && 2 <= Reach(text)
    ensures SafeToSave(s, text) <==> Ascii(text)
  {
    if !Ascii(text) {
      var k := Unlike(s, text);
      PartialFile(s, text, k);
      assert Harmless(s.backup.value, text, Saves);
      assert !Whole(SaveStep(s, text, Saves, k), s, text);
    } else {
      forall fault, stop | Restores(fault) && Harmless(s.backup.value, text, fault)
        ensures Whole(SaveStep(s, text, fault, stop), s, text)
      {
        WholeForAscii(s, text, fault, stop);
      }
    }
  }

  lemma WholeForAscii(s: Files, text: string, fault: SaveFault, stop: nat)
    requires s.backup.Some? && Ascii(text) && Restores(fault) && Harmless(s.backup.value, text, fault)
    ensures Whole(SaveStep(s, text, fault, stop), s, text)
  {
    if fault.NotOpened? || (fault.Breaks? && fault.n <= Reach(text)) {
      RestoredExactly(s, text, fault, stop);
    }
  }

  lemma PartialFile(s: Files, text: string, k: nat)
    requires !Ascii(text) && k <= Reach(text)
    ensures SaveStep(s, text, Saves, k).settings == Some(text[..k])
  {
    assert text[..Reach(text)][..k] == text[..k];
  }

  /** One of three short prefixes is neither the old file nor the backup. */
  lemma Unlike(s: Files, text: string) returns (k: nat)
    requires !Ascii(text) && 2 <= Reach(text)
    ensures k <= 2 && Some(text[..k]) != s.settings && Some(text[..k]) != s.backup && text[..k] != text
  {
    AsciiReach(text);
    assert |text[..0]| == 0 && |text[..1]| == 1 && |text[..2]| == 2;
    k := if Some(text[..0]) != s.settings && Some(text[..0]) != s.backup then 0
         else if Some(text[..1]) != s.settings && Some(text[..1]) != s.backup then 1
         else 2;
  }

  /** Every saved document begins with the declaration. */
  lemma SavedStarts(ts: seq<Tree>)
    ensures 2 <= Reach(Saved(ts))
  {
    DeclarationFirst(ts);
    hide Saved, Reach;
    ReachTwo(Saved(ts));
  }

  lemma ReachTwo(s: string)
    requires |s| > 2 && s[0] == '<' && s[1] == '?'
    ensures 2 <= Reach(s)
  {
    assert s[1..][0] == '?';
  }

  lemma DeclarationFirst(ts: seq<Tree>)
    ensures |Saved(ts)| > 2 && Saved(ts)[0] == '<' && Saved(ts)[1] == '?'
  {
    hide WrittenAll, Pieces, Tokens, RenderOne, Show;
    assert DocOf(ts)[0] == Segment("", DECLARATION);
    PlainLine(DECLARATION);
    DeclarationBegins();
  }

  lemma PlainLine(m: Markup)
    requires !m.Tag?
    ensures RenderOne(Segment("", m), 0, 2, 80) == Show(m) + "\n"
  {
    hide Show, Strip;
    StripTwice("");
    BlankNothing();
    assert Spaces(0) + Show(m) == Show(m);
  }

  lemma BlankNothing()
    ensures Strip("") == ""
  {
  }

  lemma DeclarationBegins()
    ensures |Show(DECLARATION)| > 2 && Show(DECLARATION)[0] == '<' && Show(DECLARATION)[1] == '?'
  {
    ShowInstruction(DECLARATION.body);
  }

  lemma ShowInstruction(body: string)
    ensures |Show(Instruction(body))| > 2 && Show(Instruction(body))[0] == '<' && Show(Instruction(body))[1] == '?'
  {
  }

  /** So a refresh is safe exactly when the document without its tuner settings is ASCII and, if some category
      takes new settings, so are the names and serial numbers of the tuners. */
  lemma SafeRefresh(s: Files, ts: seq<Tree>, tuners: Tuners)
    requires s.backup.Some? && Writable(ts)
    ensures SafeToSave(s, Target(ts, tuners)) <==> AsciiRefresh(ts, tuners)
  {
    SavedStarts(Refresh(ts, Generated(tuners)));
    hide Saved, SafeToSave, Ascii, Reach, Refresh, Generated, AsciiRefresh, Writable;
    SafeExactlyForAscii(s, Target(ts, tuners));
    RefreshPrintsAscii(ts, tuners);
  }

  /** The refreshed original, for these tuners. */
  function Target(ts: seq<Tree>, tuners: Tuners): string {
    Saved(Refresh(ts, Generated(tuners)))
  }

  // ----- runs -----

  /** Failures that the code is meant to survive: parsing fails, or an `IOError` at any point of a save. */
  predicate Survivable(e: Event) {
    e.backup.Copies? && Restores(e.save)
  }

  /** When the file is the original, the parser gives `ts`; later files are the printer's. */
  ghost predicate ParsedRun(first: string, ts: seq<Tree>, s: Files, events: seq<Event>)
    decreases |events|
  {
    events != [] ==>
      && (events[0].parsed.Some? ==>
            && s.settings.Some?
            && (if s.settings.value == first then events[0].parsed.value == ts
                else Parsed(s.settings.value, events[0].parsed.value)))
      && ParsedRun(first, ts, Step(s, events[0]), events[1..])
  }

  predicate Fine(first: string, ts: seq<Tree>, seen: set<Tuners>, s: Files) {
    && (s.backup.None? || s.backup == Some(first))
    && (s.settings == Some(first) || exists t :: t in seen && s.settings == Some(Target(ts, t)))
  }

  ghost predicate SafeRun(first: string, ts: seq<Tree>, events: seq<Event>) {
    && Original(ts)
    && forall i {:trigger events[i]} :: 0 <= i < |events| ==>
         && Survivable(events[i]) && AsciiRefresh(ts, events[i].tuners)
         && Harmless(first, Target(ts, events[i].tuners), events[i].save)
  }

  function Seen(events: seq<Event>): set<Tuners> {
    set i | 0 <= i < |events| :: events[i].tuners
  }

  /** What a refresh prints is the refreshed original, however often the file was refreshed before. */
  lemma PrintsTarget(first: string, ts: seq<Tree>, seen: set<Tuners>, s: Files, e: Event)
    requires Original(ts) && Fine(first, ts, seen, s)
    requires e.parsed.Some? && s.settings.Some?
    requires if s.settings.value == first then e.parsed.value == ts else Parsed(s.settings.value, e.parsed.value)
    ensures Printed(e) == Target(ts, e.tuners)
  {
    hide Saved, Refresh, Generated, Parsed, NoTopText, Writable, SteadyDocument, Fresh;
    if s.settings.value != first {
      var t :| t in seen && s.settings == Some(Target(ts, t));
      GeneratedWritable(t);
      GeneratedWritable(e.tuners);
      SameFileAgain(ts, Generated(t), e.parsed.value, Generated(e.tuners));
    }
  }

  lemma SurvivedStep(first: string, text: string, s: Files, e: Event)
    requires Survivable(e) && Ascii(text) && Harmless(first, text, e.save) && s.settings.Some?
    requires s.backup == Some(first) || (s.backup.None? && s.settings == Some(first))
    requires e.parsed.Some? ==> Printed(e) == text
    ensures Step(s, e).backup == Some(first)
    ensures Step(s, e).settings == s.settings || Step(s, e).settings == Some(first)
            || (e.parsed.Some? && Step(s, e).settings == Some(text))
    ensures e.parsed.Some? && e.save.Saves? ==> Step(s, e).settings == Some(text)
  {
    hide Printed, Reach, Ascii, Harmless, Flushed, Pending;
    if e.parsed.Some? { WholeForAscii(BackupStep(s, e), text, e.save, e.stop); }
  }

  /** The state a run starts in and keeps: no backup only as long as the file is the original. */
  predicate Kept(first: string, ts: seq<Tree>, seen: set<Tuners>, s: Files) {
    Fine(first, ts, seen, s) && (s.backup.None? ==> s.settings == Some(first))
  }

  lemma TargetIs(ts: seq<Tree>, tuners: Tuners)
    ensures Target(ts, tuners) == Saved(Refresh(ts, Generated(tuners)))
  {
  }

  lemma KeptStep(first: string, ts: seq<Tree>, seen: set<Tuners>, s: Files, e: Event)
    requires Original(ts) && Kept(first, ts, seen, s)
    requires Survivable(e) && AsciiRefresh(ts, e.tuners) && Harmless(first, Target(ts, e.tuners), e.save)
    requires e.parsed.Some? ==>
               && s.settings.Some?
               && if s.settings.value == first then e.parsed.value == ts else Parsed(s.settings.value, e.parsed.value)
    ensures Kept(first, ts, seen + {e.tuners}, Step(s, e)) && Step(s, e).backup == Some(first)
    ensures e.parsed.Some? && e.save.Saves? ==> Step(s, e).settings == Some(Target(ts, e.tuners))
  {
    TargetIs(ts, e.tuners);
    hide Target, Printed, Step, Parsed, NoTopText, Writable, SteadyDocument, Ascii, AsciiRefresh;
    RefreshPrintsAscii(ts, e.tuners);
    if e.parsed.Some? { PrintsTarget(first, ts, seen, s, e); }
    SurvivedStep(first, Target(ts, e.tuners), s, e);
    var s' := Step(s, e);
    if s'.settings == s.settings && s.settings != Some(first) {
      var t :| t in seen && s.settings == Some(Target(ts, t));
      assert t in seen + {e.tuners};
    }
  }

  lemma {:induction false} KeptRun(first: string, ts: seq<Tree>, seen: set<Tuners>, s: Files, events: seq<Event>)
    requires SafeRun(first, ts, events) && ParsedRun(first, ts, s, events) && Kept(first, ts, seen, s)
    ensures Kept(first, ts, seen + Seen(events), Run(s, events))
    ensures events != [] ==> Run(s, events).backup == Some(first)
    decreases |events|
  {
    hide Survivable, Target, Kept, Step, Parsed, Original, AsciiRefresh;
    if events == [] {
      assert seen + Seen(events) == seen;
    } else {
      var e, more := events[0], events[1..];
      KeptStep(first, ts, seen, s, e);
      assert forall i :: 0 <= i < |more| ==> more[i] == events[i + 1];
      KeptRun(first, ts, seen + {e.tuners}, Step(s, e), more);
      SeenFirst(events);
      assert seen + {e.tuners} + Seen(more) == seen + Seen(events);
      BackupStaysOnce(Step(s, e), more);
    }
  }

  lemma BackupStaysOnce(s: Files, events: seq<Event>)
    ensures s.backup.Some? ==> Run(s, events).backup == s.backup
  {
    if s.backup.Some? { BackupStays(s, events); }
  }

  lemma SeenFirst(events: seq<Event>)
    requires events != []
    ensures Seen(events) == {events[0].tuners} + Seen(events[1..])
  {
    forall t
      ensures t in Seen(events) <==> t in {events[0].tuners} + Seen(events[1..])
    {
      if t in Seen(events) {
        var i :| 0 <= i < |events| && events[i].tuners == t;
        if i > 0 { assert events[1..][i - 1].tuners == t; }
      }
      if t in Seen(events[1..]) {
        var i :| 0 <= i < |events[1..]| && events[1..][i].tuners == t;
        assert events[i + 1].tuners == t;
      }
    }
  }

  /** Backup safety over whole runs: with any sequence of parse failures and `IOError`s during saves, the
      backup is the file from before the first refresh, and the settings file is that file or the complete
      print of the original document refreshed with one of the tuner lists so far. */
  lemma NeverPartial(first: string, ts: seq<Tree>, events: seq<Event>)
    requires SafeRun(first, ts, events) && ParsedRun(first, ts, Files.Files(Some(first), None), events) && events != []
    ensures var s := Run(Files.Files(Some(first), None), events);
            && s.backup == Some(first)
            && (|| s.settings == Some(first)
                || exists i :: 0 <= i < |events| && s.settings == Some(Target(ts, events[i].tuners)))
  {
    hide SafeRun, ParsedRun, Target, Run;
    var s0 := Files.Files(Some(first), None);
    KeptRun(first, ts, {}, s0, events);
    var s := Run(s0, events);
    if s.settings != Some(first) {
      var t :| t in {} + Seen(events) && s.settings == Some(Target(ts, t));
      var i :| 0 <= i < |events| && events[i].tuners == t;
    }
  }

  lemma {:induction false} RunSnoc(s: Files, events: seq<Event>, e: Event)
    ensures Run(s, events + [e]) == Step(Run(s, events), e)
    decreases |events|
  {
    hide Step;
    if events == [] {
      assert [] + [e] == [e];
      assert [e][1..] == [];
    } else {
      assert (events + [e])[1..] == events[1..] + [e];
      RunSnoc(Step(s, events[0]), events[1..], e);
    }
  }

  lemma {:induction false} ParsedSnoc(first: string, ts: seq<Tree>, s: Files, events: seq<Event>, e: Event)
    requires ParsedRun(first, ts, s, events + [e])
    ensures ParsedRun(first, ts, s, events) && ParsedRun(first, ts, Run(s, events), [e])
    decreases |events|
  {
    hide Step, Parsed;
    if events == [] {
      assert [] + [e] == [e];
    } else {
      assert (events + [e])[1..] == events[1..] + [e];
      ParsedSnoc(first, ts, Step(s, events[0]), events[1..], e);
    }
  }

  /** After a refresh that met no failure the file depends only on the original and the tuners found last,
      whatever happened before. */
  lemma LastRefreshCounts(first: string, ts: seq<Tree>, events: seq<Event>, e: Event)
    requires SafeRun(first, ts, events + [e]) && ParsedRun(first, ts, Files.Files(Some(first), None), events + [e])
    requires e.parsed.Some? && e.save.Saves?
    ensures Run(Files.Files(Some(first), None), events + [e]).settings == Some(Target(ts, e.tuners))
  {
    hide Survivable, Target, Kept, Step, Parsed, Original, AsciiRefresh, Run, Fine;
    var s0 := Files.Files(Some(first), None);
    ParsedSnoc(first, ts, s0, events, e);
    RunSnoc(s0, events, e);
    assert forall i :: 0 <= i < |events| ==> events[i] == (events + [e])[i];
    assert (events + [e])[|events|] == e;
    StartKept(first, ts);
    KeptRun(first, ts, {}, s0, events);
    KeptStep(first, ts, {} + Seen(events), Run(s0, events), e);
  }

  lemma StartKept(first: string, ts: seq<Tree>)
    ensures Kept(first, ts, {}, Files.Files(Some(first), None))
  {
  }

  // ----- examples -----

  const ACCENT := ['\U{e9}']

  lemma AccentIsNot()
    ensures !Ascii(ACCENT)
  {
    assert ACCENT[0] == '\U{e9}';
  }

  function AccentedLabel(): seq<Tree> {
    [Element("settings", map["label" := ACCENT], [])]
  }

  lemma AccentedLabelWritable()
    ensures Writable(AccentedLabel())
  {
    var attrs := map["label" := ACCENT];
    AttributeNames(attrs);
    assert forall i :: 0 <= i < |"settings"| ==> IsWord("settings"[i]);
    hide *;
    GoodSetting("settings", attrs);
    WritableElement("settings", attrs, []);
    LabelIs();
  }

  lemma LabelIs()
    ensures AccentedLabel() == [Element("settings", map["label" := ACCENT], [])]
  {
  }

  lemma AccentedLabelIsNot()
    ensures !AsciiDocument(RemoveOld(AccentedLabel(), false))
  {
    AccentIsNot();
    var ts := AccentedLabel();
    var attrs := map["label" := ACCENT];
    assert ts[1..] == [];
    assert RemoveOld(ts, false) == ts;
    TokensOne("settings", attrs, []);
    RefreshLaws.OneMark(Empty("settings", attrs), "");
    assert "label" in attrs && attrs["label"] == ACCENT;
    hide Ascii;
    assert !AsciiNode(Empty("settings", attrs));
    assert Pieces(Tokens(ts), "")[0].node == Empty("settings", attrs);
  }

  /** A document with an accent in a label: some refresh leaves a file that is neither the old one nor the new
      one nor the backup, whatever the tuners. */
  lemma AccentedLabelIsUnsafe(s: Files, tuners: Tuners)
    requires s.backup.Some?
    ensures !SafeToSave(s, Target(AccentedLabel(), tuners))
  {
    hide *;
    AccentedLabelWritable();
    AccentedLabelIsNot();
    SafeRefresh(s, AccentedLabel(), tuners);
    NotAsciiRefresh(AccentedLabel(), tuners);
  }

  lemma NotAsciiRefresh(ts: seq<Tree>, tuners: Tuners)
    requires !AsciiDocument(RemoveOld(ts, false))
             || (MarkedCategories(RemoveOld(ts, false)) > 0 && !AsciiTuners(tuners))
    ensures !AsciiRefresh(ts, tuners)
  {
  }

  function MarkedDocument(): seq<Tree> {
    [Element("category", map[], [Setting(map["label" := MARKER_LABEL])])]
  }

  lemma MarkedDocumentWritable()
    ensures Writable(MarkedDocument())
  {
    var attrs := map["label" := MARKER_LABEL];
    AttributeNames(attrs);
    AttributeNames(map[]);
    assert forall i :: 0 <= i < |"category"| ==> IsWord("category"[i]);
    hide *;
    SettingWritable(attrs);
    GoodSetting("category", map[]);
    StartOrEmpty("category", map[]);
    GoodEnd("category");
    WritableElement("category", map[], [Setting(attrs)]);
    MarkedDocumentIs();
  }

  lemma MarkedDocumentIs()
    ensures MarkedDocument() == [Element("category", map[], [Setting(map["label" := MARKER_LABEL])])]
  {
  }

  lemma MarkedDocumentIsMarked()
    ensures MarkedCategories(RemoveOld(MarkedDocument(), false)) > 0
  {
    var attrs := map["label" := MARKER_LABEL];
    var kids := [Setting(attrs)];
    var ts := MarkedDocument();
    assert At(MARKER_LABEL, MARKER_LABEL, 0);
    FindFirst(MARKER_LABEL, MARKER_LABEL, 0);
    assert IsMarker("setting", attrs);
    assert ts[1..] == [] && kids[1..] == [];
    assert "id" !in attrs;
    assert RemoveOld(kids, true) == [Element("setting", attrs, [])];
    assert HasMarker(RemoveOld(kids, true));
    MarkedExactly(RemoveOld(kids, true));
  }

  /** The same for a tuner with an accent in its name, where there is a place to put its settings. */
  lemma AccentedTunerIsUnsafe(s: Files)
    requires s.backup.Some?
    ensures !SafeToSave(s, Target(MarkedDocument(), HdhomerunTuners([ACCENT])))
  {
    hide *;
    AccentIsNot();
    MarkedDocumentWritable();
    MarkedDocumentIsMarked();
    AccentedTuners();
    NotAsciiRefresh(MarkedDocument(), HdhomerunTuners([ACCENT]));
    SafeRefresh(s, MarkedDocument(), HdhomerunTuners([ACCENT]));
  }

  lemma AccentedTuners()
    ensures !AsciiTuners(HdhomerunTuners([ACCENT]))
  {
    AccentIsNot();
    hide Ascii;
    assert [ACCENT][0] == ACCENT;
  }
}
