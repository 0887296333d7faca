# Four small programs of OpenELEC, proved

Most of OpenELEC is build scripts and data. Four of its programs hold algorithms, and this project models
them in Dafny and proves what they are for:

1. **The XML pretty printer** (`xmlpp.py`): a scanner that tells tags apart by where their slashes, quotes and
   brackets are, a loop that keeps an indentation level, and greedy wrapping of attribute lists.
2. **The refresh of the tuner settings** (`functions.py` of the hdhomerun and sundtek add-ons): it parses device
   reports, deletes and regenerates settings in the document tree in place, and saves through the printer with a
   backup.
3. **The Broadcom downloader** (`brcm_patchram_plus.c`): a stop-and-wait protocol over a serial line with
   fragmented reads, one shared buffer, and changes of speed on both sides. Packets follow the Bluetooth Core
   Specification v5.2, Vol 4, Part A section 2 and Part E sections 5.4.1 and 5.4.4.
4. **The udev rule generator** (`make_nvidia_udev.py`): from a list of device ids to rules with forward jumps.

## How the project is laid out

| files | contents |
|---|---|
| `Basics`, `Text`, `XmlMarkup`, `Unambiguous` | shared types; Python's string operations; XML as written, independent of the printer, and that it can be read in one way only |
| `Scanner`, `LinePrinter`, `TagLines`, `PrettyPrinter` | the printer, with its loops, against `Render` |
| `Survival`, `Instructions`, `PrintLaws`, `Nesting` | which tags and instructions survive; canonical form, idempotence, meaning, indentation, termination |
| `XmlTree`, `TunerTree`, `TunerChoices`, `Sorting` | the settings as a tree, the refresh as a function on trees, and what the generated settings offer |
| `Shapes`, `Dom`, `TunerDom`, `TunerAdditions` | the document as mutable nodes, and the refresh as the nested loops that change them |
| `TunerTokens`, `TunerPieces`, `Settling`, `SavedFile`, `StillWritable`, `RefreshLaws`, `Refreshes`, `SettingsText` | the refresh of a file: parse, edit, write, print; what parsing changes; a file character by character |
| `SettingsFile`, `Encoding`, `SettingsRuns` | backup, restore and save with failures anywhere; what is ASCII; whole runs |
| `SundtekReport`, `SundtekRefresh` | the report parser; a refresh from a report to the files |
| `Hci`, `Patchram`, `PatchramRuns` | the chip and the line, the procedures, whole runs |
| `UdevRules`, `NvidiaRules`, `RulesFile` | what rules mean; the generator; the text of its file |

Code that changes things step by step is modelled that way: `Output`, `Node`, `Document`, `SettingsXml`, `Line` and
`HcdFile` are classes, buffers are arrays, loops are loops. Each method is tied to a specification function or
predicate, and the laws are lemmas about these.

## What does not hold

Some promises hold only under a condition. For each of the following the exact condition is proved, and where a
concrete input says more, a lemma has one.

- A comment whose text begins with `>` or `->`, or has `<![CDATA[` before its first `>`, is cut at the wrong place;
  so is an instruction with `<!` before its first `>` (`Scanner.ScanExtent`; `Nesting.CommentCutShort`,
  `Nesting.CommentWithCData`, `Nesting.InstructionWithComment`).
- A tag name that begins like `prefix:name` but goes on with `-` or `.` loses the rest, and a prefixed tag with a line
  break in a value loses that attribute (`Survival.SurvivesExactly`; `Survival.CutNameExample`,
  `Survival.LineBreakExample`).
- An instruction with `<?prefix:name` or `<prefix:name` and more goes through the branch for tags: what is not an
  attribute is lost, and attributes are laid out, so that some width changes it (`Instructions.InstructionsExactly`, and
  `Instructions.UnchangedExactly` for one width; `Instructions.TextLostExample`, `Instructions.TargetLostExample`,
  `Instructions.WidthExample`).
- Text behind the last markup is lost (`Nesting.PrintingKeepsMeaning`).
- The loop never ends on data such as `<abc`, though it does on `ab<cde` (`Nesting.EndsExactly`;
  `Nesting.LoopExamples`).
- A value with a tab or a line break, or a text with a carriage return, which only a character reference can put
  there, is written as it is and read as something else, so the second refresh changes it
  (`RefreshLaws.SameFileAgain`; `Refreshes.TabIsLost`).
- A refresh that prints something other than ASCII may leave a part of it, and nothing restores the file
  (`SettingsRuns.SafeRefresh`; `SettingsRuns.AccentedLabelIsUnsafe`, `SettingsRuns.AccentedTunerIsUnsafe`).
- When a save breaks off, the output file is closed only after the restore: what is still in its buffer is written over
  the restored file (`SettingsRuns.RestoredExactly`; `SettingsRuns.LateFlush`).
- A backup that was cut short is kept for ever (`SettingsRuns.BackupIsOriginal`).
- A sundtek device whose DVB section comes before its own serial number loses its type, and one with such a section but
  without a serial number gets the number of an earlier device; where no earlier device has a number, the parser fails,
  and a device that ends up without one makes the refresh fail, with the settings file as it was
  (`SundtekReport.ReportInverted`, `SundtekRefresh.FailedReport`; `SundtekReport.EarlySectionFails`,
  `SundtekReport.NumberOfAnother`).
- A firmware file whose last record does not leave the chip at 115200, where Launch_RAM takes it, or in which an
  earlier record changes the speed of the download, leaves host and chip at different speeds
  (`PatchramRuns.SpeedsExactly`; `PatchramRuns.NoLaunchNoFit`).
- A card behind a bridge with a listed number is taken for a listed card (`NvidiaRules.CardDecidesExactly`;
  `NvidiaRules.BridgeDecides`).

## Model

| member | source | states |
|---|---|---|
| `Scanner.SlashHeuristic` | packages/addons/official/driver/hdhomerun/source/resources/lib/xmlpp.py:86-90 | for every legal tag, with any double-quoted values, the last slash is taken as a stop exactly if the tag is not an opening one, and as single exactly if it is self-closing |
| `Scanner.ScanTag` | packages/addons/official/driver/hdhomerun/source/resources/lib/xmlpp.py:82-121 | wherever a tag stands behind text, its start, its end and its kind are found |
| `Scanner.ScanExtent` | packages/addons/official/driver/hdhomerun/source/resources/lib/xmlpp.py:82-121 | the extent of a piece of markup is found exactly if it is `Scannable`: no comment beginning with `>` or `->`, no CDATA opener in a comment and no `<!` in an instruction before their first `>` |
| `Scanner.ScanComment` | packages/addons/official/driver/hdhomerun/source/resources/lib/xmlpp.py:92-108 | start, end and flags of comments, with the exact condition for the end |
| `Scanner.ScanCData` | packages/addons/official/driver/hdhomerun/source/resources/lib/xmlpp.py:95-102 | CDATA always ends at its own terminator |
| `Scanner.ScanInstruction` | packages/addons/official/driver/hdhomerun/source/resources/lib/xmlpp.py:110-111 | start, end and flags of instructions, with the exact condition for the end |
| `Scanner.ScanNesting` | packages/addons/official/driver/hdhomerun/source/resources/lib/xmlpp.py:82-121 | the flags make the level rise exactly after opening tags and fall exactly before closing tags |
| `LinePrinter.PprintElemContent` | packages/addons/official/driver/hdhomerun/source/resources/lib/xmlpp.py:76-80 | the method appends exactly one indented line for a non-blank text, else nothing |
| `LinePrinter.PprintLine` | packages/addons/official/driver/hdhomerun/source/resources/lib/xmlpp.py:40-73 | the method, with its running `number_chars`, writes the line that `LineText` describes |
| `LinePrinter.WordExactly` | packages/addons/official/driver/hdhomerun/source/resources/lib/xmlpp.py:49 | the characters of `\w`: 52 letters, ten digits and the underscore |
| `TagLines.CountIsColumn` | packages/addons/official/driver/hdhomerun/source/resources/lib/xmlpp.py:54-67 | `number_chars` is the true column of the output, up to the length reserved for the closer |
| `TagLines.GreedyWrapping` | packages/addons/official/driver/hdhomerun/source/resources/lib/xmlpp.py:55-67 | an attribute written after a space keeps its line within the width, closer included; a line is broken only if the attribute would not have fitted |
| `TagLines.TagWrapping` | packages/addons/official/driver/hdhomerun/source/resources/lib/xmlpp.py:40-68 | the same for every prefixed tag with distinct attribute names, of which it is shown that its attributes look different |
| `TagLines.ElemStartOfTag` | packages/addons/official/driver/hdhomerun/source/resources/lib/xmlpp.py:49 | the first expression finds, on a tag, the longest `prefix:name` its name begins with |
| `TagLines.ElemFinishedOfTag` | packages/addons/official/driver/hdhomerun/source/resources/lib/xmlpp.py:50 | the second expression finds the closer of a tag whose whole name is `prefix:name` |
| `TagLines.AttrsOfTag` | packages/addons/official/driver/hdhomerun/source/resources/lib/xmlpp.py:52 | the third expression finds all attributes of a tag in order, whatever their values, as long as none has a line break |
| `TagLines.LineOfTag` | packages/addons/official/driver/hdhomerun/source/resources/lib/xmlpp.py:40-73 | the line written for a tag is the tag itself, relaid: only white space between attributes and before the closer differs |
| `TagLines.LineOfMark` | packages/addons/official/driver/hdhomerun/source/resources/lib/xmlpp.py:40-73 | the same for every printable piece of markup: all but prefixed tags are written unchanged, instructions too if they are unchanged at every width |
| `TagLines.RelaidAgain` | packages/addons/official/driver/hdhomerun/source/resources/lib/xmlpp.py:53-68 | relaying a relaid tag at the same level changes nothing |
| `Survival.SurvivesExactly` | packages/addons/official/driver/hdhomerun/source/resources/lib/xmlpp.py:49-71 | a legal tag comes out of the line printer with its name, attributes and closer, at any level and width, exactly if it is `Printable`: its name is unprefixed, or `prefix:name` in word characters with no line break in a value, or what follows the match is swallowed as closer |
| `Survival.FullNameExactly` | packages/addons/official/driver/hdhomerun/source/resources/lib/xmlpp.py:49 | the first expression takes a whole name exactly if it is two words with a colon between them, up to one other character in front |
| `Survival.UnderscoreExample` | packages/addons/official/driver/hdhomerun/source/resources/lib/xmlpp.py:49 | `<a:b_c x="1"/>` can be printed |
| `Survival.BrokenIsLost` | packages/addons/official/driver/hdhomerun/source/resources/lib/xmlpp.py:52-53 | a prefixed tag with a line break in a value never survives: quotes are lost |
| `Survival.CutNameExample` | packages/addons/official/driver/hdhomerun/source/resources/lib/xmlpp.py:49-71 | `<a:b-c/>` is written as `<a:b/>` |
| `Survival.LineBreakExample` | packages/addons/official/driver/hdhomerun/source/resources/lib/xmlpp.py:49-71 | a prefixed tag with a line break in its one value does not survive |
| `Instructions.InstructionsExactly` | packages/addons/official/driver/hdhomerun/source/resources/lib/xmlpp.py:40-73 | a legal instruction is written unchanged at every level and width exactly if the first expression finds nothing in it, or it is `prefix:name` behind the bracket and nothing more |
| `Instructions.UnchangedExactly` | packages/addons/official/driver/hdhomerun/source/resources/lib/xmlpp.py:40-73 | at one level and one width it is unchanged exactly if the first expression finds nothing in it, or it is laid out already as wrapping would lay it out there |
| `Instructions.AttributesInPlace` | packages/addons/official/driver/hdhomerun/source/resources/lib/xmlpp.py:49-68 | `prefix:name` with attributes is unchanged at one level and width exactly if every attribute stands where greedy wrapping puts it |
| `Instructions.WidthExample` | packages/addons/official/driver/hdhomerun/source/resources/lib/xmlpp.py:49-68 | `<?a:b c="d"?>` is unchanged at width 80 and broken at width 12 |
| `Instructions.TextLost` | packages/addons/official/driver/hdhomerun/source/resources/lib/xmlpp.py:49-71 | the text behind a target like `prefix:name` is lost |
| `Instructions.TargetLost` | packages/addons/official/driver/hdhomerun/source/resources/lib/xmlpp.py:49-71 | the target in front of a `<prefix:name` is lost |
| `Instructions.TextLostExample` | packages/addons/official/driver/hdhomerun/source/resources/lib/xmlpp.py:49-71 | `<?a:b text?>` is written as `<?a:b?>` |
| `Instructions.TargetLostExample` | packages/addons/official/driver/hdhomerun/source/resources/lib/xmlpp.py:49-71 | `<?t <a:b?>`, which is not printable, is written as `<a:b?>` |
| `Unambiguous.DocUnambiguous` | packages/addons/official/driver/hdhomerun/source/resources/lib/xmlpp.py:82-121 | a text is at most one document: markup, texts and trailer can be read off in one way only |
| `PrettyPrinter.Pprint` | packages/addons/official/driver/hdhomerun/source/resources/lib/xmlpp.py:138-163 | the loop ends on every document, writes its `Render`, and leaves nothing but the text behind the last markup unprinted |
| `PrettyPrinter.PprintNext` | packages/addons/official/driver/hdhomerun/source/resources/lib/xmlpp.py:146-158 | one turn of the loop consumes one text and one piece of markup and writes their lines |
| `PrettyPrinter.Shorter` | packages/addons/official/driver/hdhomerun/source/resources/lib/xmlpp.py:144-163 | every turn strictly shortens `data` |
| `PrintLaws.OutputIsDocument` | packages/addons/official/driver/hdhomerun/source/resources/lib/xmlpp.py:138-163 | what is printed is again a document the printer is meant for |
| `PrintLaws.PrintTwice` | packages/addons/official/driver/hdhomerun/source/resources/lib/xmlpp.py:138-163 | printing the printed document gives the same text, for every indent and width, prefixed tags included |
| `PrintLaws.SamePrintIffSameCanon` | packages/addons/official/driver/hdhomerun/source/resources/lib/xmlpp.py:138-163 | two documents print to the same text exactly if they differ only in white space around texts and inside prefixed tags |
| `Nesting.PrintingKeepsMeaning` | packages/addons/official/driver/hdhomerun/source/resources/lib/xmlpp.py:138-163 | reading the output back gives the same tags, attribute lists, comments, CDATA and trimmed texts in the same order, exactly if only white space followed the last markup |
| `Nesting.IndentIsDepth` | packages/addons/official/driver/hdhomerun/source/resources/lib/xmlpp.py:142-158 | on balanced documents the running level does what a stack of open elements does: every line at its depth, closing tags at the column of their opening tags |
| `Nesting.LevelEndsAtZero` | packages/addons/official/driver/hdhomerun/source/resources/lib/xmlpp.py:142-158 | the level of a balanced document ends at zero |
| `Nesting.StallsExactly` | packages/addons/official/driver/hdhomerun/source/resources/lib/xmlpp.py:144-163 | a turn on data beginning with `<` gets on exactly if the data has a `>`; otherwise the loop repeats itself for ever |
| `Nesting.EndsExactly` | packages/addons/official/driver/hdhomerun/source/resources/lib/xmlpp.py:142-163 | on a document followed by data without `>` the loop ends exactly if that data has no `<`, or has more characters behind its first `<` than the (at least one) in front of it and that many of its last characters are such data again: a slice with a negative bound |
| `Nesting.LoopExamples` | packages/addons/official/driver/hdhomerun/source/resources/lib/xmlpp.py:142-163 | `<abc` is never done with, `ab<cde` is |
| `Nesting.CommentCutShort` | packages/addons/official/driver/hdhomerun/source/resources/lib/xmlpp.py:95-108 | a legal comment beginning with `>`, whose extent is not found |
| `Nesting.CommentWithCData` | packages/addons/official/driver/hdhomerun/source/resources/lib/xmlpp.py:95-108 | a legal comment that names the opening of CDATA, whose extent is not found |
| `Nesting.InstructionWithComment` | packages/addons/official/driver/hdhomerun/source/resources/lib/xmlpp.py:92-111 | a legal instruction with `<!` in its data, whose extent is not found |
| `XmlTree.UnescapeEscape` | packages/addons/official/driver/hdhomerun/source/resources/lib/functions.py:135-139 | reading a written text or value gives it back, whatever characters it has |
| `XmlTree.ToXmlIsTokens` | packages/addons/official/driver/hdhomerun/source/resources/lib/functions.py:255 | what `toxml` writes node by node is the document's tokens in reading order |
| `XmlTree.ShowPieces` | packages/addons/official/driver/hdhomerun/source/resources/lib/functions.py:255 | the same text, with adjacent texts joined |
| `TunerTree.RemoveNothing` | packages/addons/official/driver/hdhomerun/source/resources/lib/functions.py:146-152 | removal leaves a document alone exactly if below no category there is a setting whose id starts with `ATTACHED_TUNER_` |
| `TunerTree.RemoveUndoesAdd` | packages/addons/official/driver/hdhomerun/source/resources/lib/functions.py:146-152 | removing after adding restores the document from before the addition |
| `TunerTree.RefreshFrame` | packages/addons/official/driver/hdhomerun/source/resources/lib/functions.py:268-271 | apart from tuner settings below categories a refresh changes nothing |
| `TunerTree.RefreshTwice` | packages/addons/official/driver/hdhomerun/source/resources/lib/functions.py:268-271 | of two refreshes only the second counts |
| `TunerTree.CategoryContents` | packages/addons/official/driver/hdhomerun/source/resources/lib/functions.py:236-247 | the categories stay the same in the same order; each with a marker has the new settings at its end, in order |
| `TunerTree.ExactlyTheNewOnes` | packages/addons/official/driver/hdhomerun/source/resources/lib/functions.py:236-247 | the tuner settings below categories are afterwards the new ones, once for every category with a marker, and no others |
| `TunerTree.ExactEdit` | packages/addons/official/driver/hdhomerun/source/resources/lib/functions.py:263-272 | one refresh of any document, clean or not: with tuner settings aside nothing changes; every category is the cleaned one, with the new settings at its end exactly if some setting left below it has `9010` in its label; and the settings below categories whose id starts with `ATTACHED_TUNER_` are the new ones, once for every such category |
| `TunerTree.OldExactly` | packages/addons/official/driver/hdhomerun/source/resources/lib/functions.py:151 | the test of `remove_old_tuners` takes exactly the settings with an id that starts with `ATTACHED_TUNER_` |
| `TunerTree.MarkedExactly` | packages/addons/official/driver/hdhomerun/source/resources/lib/functions.py:239-241 | a category is taken for the new settings exactly if one of the settings below it, at any depth, has a label that contains `9010` |
| `TunerTree.HdhomerunFresh` | packages/addons/official/driver/hdhomerun/source/resources/lib/functions.py:156-190 | four settings a tuner, all without children and with an id that starts with `ATTACHED_TUNER_` |
| `TunerTree.SundtekFresh` | packages/addons/official/driver/sundtek-mediatv/source/resources/lib/functions.py:181-215 | three settings a device, with the same property |
| `TunerTree.HdhomerunIdsDistinct` | packages/addons/official/driver/hdhomerun/source/resources/lib/functions.py:156-190 | ids generated for distinct tuners are pairwise distinct, across all four suffixes |
| `TunerTree.SundtekIdsDistinct` | packages/addons/official/driver/sundtek-mediatv/source/resources/lib/functions.py:181-215 | the same for distinct serial numbers and the three sundtek suffixes |
| `TunerChoices.DeviceOffers` | packages/addons/official/driver/sundtek-mediatv/source/resources/lib/functions.py:191-197 | DVB-C and DVB-T are offered exactly to devices of type `c`, DVB-S exactly to all others, and the preset mode is offered |
| `TunerChoices.ProtocolOffers` | packages/addons/official/driver/sundtek-mediatv/source/resources/lib/functions.py:201-215 | the four infrared protocols are offered, and the preset one is among them |
| `TunerChoices.TunerOffers` | packages/addons/official/driver/hdhomerun/source/resources/lib/functions.py:160-190 | a hdhomerun tuner is offered four modes and the numbers 1 to 8, and what is preset is offered |
| `TunerChoices.DefaultsOffered` | packages/addons/official/driver/hdhomerun/source/resources/lib/functions.py:156-230 | whatever the tuners of either add-on: every generated list is preset to one of its own choices |
| `SettingsText.HdhomerunText` | packages/addons/official/driver/hdhomerun/source/resources/lib/functions.py:156-190 | the four tags of a tuner as they are written, attributes in order, whatever the tuner is called |
| `SettingsText.SundtekText` | packages/addons/official/driver/sundtek-mediatv/source/resources/lib/functions.py:181-215 | the three tags of a device as they are written |
| `Dom.Document.RemoveFromParent` | packages/addons/official/driver/hdhomerun/source/resources/lib/functions.py:152 | `removeChild` in place: the node is cut off its parent, every other list of children stays |
| `Dom.Document.AppendChild` | packages/addons/official/driver/hdhomerun/source/resources/lib/functions.py:168 | `appendChild` in place: the node is the last child, every other list of children stays |
| `Dom.Document.GetElementsByTagName` | packages/addons/official/driver/hdhomerun/source/resources/lib/functions.py:147-149 | every descendant with the tag, once |
| `TunerDom.RemoveOldTuners` | packages/addons/official/driver/hdhomerun/source/resources/lib/functions.py:146-152 | the nested loops over the nodes leave the document that reads as `RemoveOld` of the old one |
| `Shapes.PruneIsRemove` | packages/addons/official/driver/hdhomerun/source/resources/lib/functions.py:146-152 | cutting off, at any depth and in any order, exactly the tuner settings below categories is `RemoveOld` on the tree |
| `TunerAdditions.AddHdhomerun` | packages/addons/official/driver/hdhomerun/source/resources/lib/functions.py:156-190 | the loop over the tuners appends their settings to the category, in order, and changes nothing else |
| `TunerAdditions.AddSundtek` | packages/addons/official/driver/hdhomerun/source/resources/lib/functions.py:196-230 | the same for sundtek devices |
| `TunerAdditions.AddToCategory` | packages/addons/official/driver/hdhomerun/source/resources/lib/functions.py:238-247 | settings are appended exactly if the category has a marker below it, once however many there are |
| `TunerAdditions.AddNewTuners` | packages/addons/official/driver/hdhomerun/source/resources/lib/functions.py:236-247 | the nested loops over the nodes leave the document that reads as `AddNew` of the old one |
| `Shapes.GrownIsAdd` | packages/addons/official/driver/hdhomerun/source/resources/lib/functions.py:236-247 | appending new settings to exactly the categories with a marker is `AddNew` on the tree |
| `Shapes.GrownMarked` | packages/addons/official/driver/hdhomerun/source/resources/lib/functions.py:238-247 | settings added so far never turn another category into one with a marker |
| `Shapes.MarkedIsHasMarker` | packages/addons/official/driver/hdhomerun/source/resources/lib/functions.py:239-241 | the search over nodes finds a marker exactly if the tree has one |
| `TunerAdditions.RefreshTuners` | packages/addons/official/driver/hdhomerun/source/resources/lib/functions.py:270-271 | removal and addition on the nodes are `Refresh` on the tree |
| `TunerTokens.RemoveInOrder` | packages/addons/official/driver/hdhomerun/source/resources/lib/functions.py:146-152 | removal, as an edit of the token stream, from left to right |
| `TunerTokens.AddInOrder` | packages/addons/official/driver/hdhomerun/source/resources/lib/functions.py:236-247 | addition, as an edit of the token stream |
| `Settling.SteadyExactly` | packages/addons/official/driver/hdhomerun/source/resources/lib/functions.py:135-139 | what is written is read back as it was exactly if no text and no other markup has a carriage return and no value a tab or line break |
| `Settling.ReadingOrder` | packages/addons/official/driver/hdhomerun/source/resources/lib/functions.py:135-139 | in what `toxml` writes it makes no difference whether line breaks or entities are read first |
| `Settling.PairIsOne` | packages/addons/official/driver/hdhomerun/source/resources/lib/functions.py:135-139 | carriage return and line feed are one break, in a text and in a value |
| `Settling.WhiteAlone` | packages/addons/official/driver/hdhomerun/source/resources/lib/functions.py:135-139 | what becomes of any other break, and of a tab |
| `Settling.SameDecisions` | packages/addons/official/driver/hdhomerun/source/resources/lib/functions.py:143-152 | no decision of a refresh depends on what a parser changes in values |
| `Settling.CleanAgain` | packages/addons/official/driver/hdhomerun/source/resources/lib/functions.py:263-272 | removal after writing and reading leaves what removal from the original leaves, read back, whatever white space deletions left behind |
| `Settling.SecondRefresh` | packages/addons/official/driver/hdhomerun/source/resources/lib/functions.py:263-272 | a refreshed document that was written and read looks, after another refresh, as if only that one had been done, exactly if the original without its tuner settings is steady |
| `SettingsFile.ToXmlText` | packages/addons/official/driver/hdhomerun/source/resources/lib/functions.py:255 | the recursive walk over the nodes writes the text of the document's tree |
| `SavedFile.DocumentXmlIsDoc` | packages/addons/official/driver/hdhomerun/source/resources/lib/functions.py:255 | what `toxml` writes is a document as the printer reads it |
| `SavedFile.DocGood` | packages/addons/official/driver/hdhomerun/source/resources/lib/functions.py:255 | it is one the printer is meant for if its nodes are |
| `SettingsText.ShortFile` | packages/addons/official/driver/hdhomerun/source/resources/lib/functions.py:252-272 | a whole file, line by line, for every tuner: settings with a list of tuners and a setting left over, after a refresh |
| `SettingsText.WidthIsEighty` | packages/addons/official/driver/hdhomerun/source/resources/lib/functions.py:255 | the file is printed for 80 columns: the attribute of a prefixed element goes on a line of its own exactly if the line would be longer |
| `RefreshLaws.ParsedLooksSaved` | packages/addons/official/driver/hdhomerun/source/resources/lib/functions.py:135-139 | what the parser makes of a saved file looks like what was saved, settled; so it looks the same exactly if what was saved is steady |
| `RefreshLaws.SavedCanBeParsed` | packages/addons/official/driver/hdhomerun/source/resources/lib/functions.py:135-139 | every saved file can be parsed |
| `RefreshLaws.SameFileSameView` | packages/addons/official/driver/hdhomerun/source/resources/lib/functions.py:252-256 | two documents that can be printed are saved as the same file only if they look the same |
| `StillWritable.ReadWritable` | packages/addons/official/driver/hdhomerun/source/resources/lib/functions.py:135-139 | reading a document back leaves one that can be printed, if no instruction of it has a carriage return |
| `RefreshLaws.SameFileAgain` | packages/addons/official/driver/hdhomerun/source/resources/lib/functions.py:263-272 | refreshing the saved file gives, character by character, the file that refreshing the original would have given (with the same tuners, the same file) exactly if the original without its tuner settings is steady; what is parsed can be printed unless an instruction has a carriage return |
| `Refreshes.TabIsLost` | packages/addons/official/driver/hdhomerun/source/resources/lib/functions.py:252-272 | a tab in a value: whatever the tuners, the file of the second refresh is not the one that refreshing the original would have given |
| `Refreshes.GeneratedWritable` | packages/addons/official/driver/hdhomerun/source/resources/lib/functions.py:156-190 | generated settings can be written and printed whatever the tuners are called |
| `Refreshes.LaterFiles` | packages/addons/official/driver/hdhomerun/source/resources/lib/functions.py:263-272 | after any number of refreshes of a steady document the file is the original refreshed with the last tuners |
| `Refreshes.HistoryForgotten` | packages/addons/official/driver/hdhomerun/source/resources/lib/functions.py:263-272 | two refreshes of a run with the same tuners leave the same file |
| `SettingsFile.SettingsXml.SaveSettings` | packages/addons/official/driver/hdhomerun/source/resources/lib/functions.py:252-259 | for every point of failure, the file that is left: complete, restored, with the rest of the buffer written over what was restored, or cut where the restore fails or the text cannot be encoded |
| `SettingsFile.SettingsXml.RefreshSettings` | packages/addons/official/driver/hdhomerun/source/resources/lib/functions.py:263-272 | a whole refresh, from the parsed document to the files on disk |
| `SettingsRuns.BackupIsOriginal` | packages/addons/official/driver/hdhomerun/source/resources/lib/functions.py:31-35 | over any run, the backup is the file from before the first refresh exactly if the first copy that opened it was not cut short |
| `SettingsRuns.RestoredExactly` | packages/addons/official/driver/hdhomerun/source/resources/lib/functions.py:252-259 | after an `IOError` the settings file is the backup exactly if the restore copied all of it and what was still in the buffer, which is written only when the file object goes, agrees with it in that place; with the conditions for a restore that was cut or opened nothing |
| `SettingsRuns.OverlaidExactly` | packages/addons/official/driver/hdhomerun/source/resources/lib/functions.py:252-259 | when writing a piece at an offset over a file gives a certain result |
| `SettingsRuns.LateFlush` | packages/addons/official/driver/hdhomerun/source/resources/lib/functions.py:252-259 | one character flushed after a complete restore, where the backup has another one, spoils the file |
| `Encoding.SavedAscii` | packages/addons/official/driver/hdhomerun/source/resources/lib/functions.py:252-256 | a document is saved as ASCII exactly if its names, values, other markup and trimmed texts are ASCII |
| `Encoding.RefreshPrintsAscii` | packages/addons/official/driver/hdhomerun/source/resources/lib/functions.py:252-272 | a refresh prints ASCII exactly if the document without its tuner settings is ASCII and, if some category has a marker, the names and serial numbers of the tuners are |
| `SettingsRuns.SafeExactlyForAscii` | packages/addons/official/driver/hdhomerun/source/resources/lib/functions.py:252-259 | no failure of a save leaves a partial file, provided restores work and the buffer holds nothing that differs from the backup, exactly if the text is ASCII: `UnicodeEncodeError` is not caught |
| `SettingsRuns.SafeRefresh` | packages/addons/official/driver/hdhomerun/source/resources/lib/functions.py:252-259 | the same in terms of the document and the tuners: no failure leaves a partial file exactly if the document without its tuner settings is ASCII and, where they are needed, the tuners are |
| `SettingsRuns.AccentedLabelIsUnsafe` | packages/addons/official/driver/hdhomerun/source/resources/lib/functions.py:252-259 | a label with an accent: some save leaves a partial file |
| `SettingsRuns.AccentedTunerIsUnsafe` | packages/addons/official/driver/hdhomerun/source/resources/lib/functions.py:252-259 | a tuner with an accent in its name: the same |
| `SettingsRuns.NeverPartial` | packages/addons/official/driver/hdhomerun/source/resources/lib/functions.py:252-272 | over any run on a steady document and with ASCII tuners, with parse failures and `IOError`s in saves that leave nothing harmful in the buffer, the backup is the original and the settings file is the original or the complete print of the original refreshed with some tuners seen |
| `SettingsRuns.LastRefreshCounts` | packages/addons/official/driver/hdhomerun/source/resources/lib/functions.py:252-272 | after a refresh without a failure the file depends on the original and the last tuners only, whatever failed before |
| `SundtekReport.GetDevicesSundtek` | packages/addons/official/driver/sundtek-mediatv/source/resources/lib/functions.py:68-98 | the loop with its carried `name` and `id`, and the nested `readline`, computes `Parse` |
| `SundtekReport.ParseBlock` | packages/addons/official/driver/sundtek-mediatv/source/resources/lib/functions.py:77-95 | a block adds one entry and leaves earlier ones alone; a DVB section before the serial number needs an older number, and is forgotten when the own number comes |
| `SundtekReport.ReportInverted` | packages/addons/official/driver/sundtek-mediatv/source/resources/lib/functions.py:68-98 | the parser returns for every block its own name, serial number and type exactly if the blocks are in order: a DVB section before a serial number needs one after it and an older number, and there is none in a block without |
| `SundtekReport.EarlySectionFails` | packages/addons/official/driver/sundtek-mediatv/source/resources/lib/functions.py:77-95 | a DVB section before the first serial number makes the parser fail |
| `SundtekReport.NumberOfAnother` | packages/addons/official/driver/sundtek-mediatv/source/resources/lib/functions.py:77-95 | a report in which a device without a serial number gets that of the one before it |
| `SundtekReport.HeadersExactly` | packages/addons/official/driver/sundtek-mediatv/source/resources/lib/functions.py:90-95 | a section sets the type exactly if its line starts with `[DVB-C]:`, `[DVB-T]:` or `[DVB-T2]:` |
| `SundtekReport.SecondField` | packages/addons/official/driver/sundtek-mediatv/source/resources/lib/functions.py:86-87 | the serial number is what stands between the first two colons, trimmed |
| `SundtekReport.NameWithoutBrackets` | packages/addons/official/driver/sundtek-mediatv/source/resources/lib/functions.py:79 | a device line without brackets gives, as name, the line without its last character |
| `SundtekReport.DevicesFound` | packages/addons/official/driver/sundtek-mediatv/source/resources/lib/functions.py:68-98 | parsing a printed report gives the devices back, in order, whatever other lines it has; of type `c` are exactly those with one of the three headers behind their serial number |
| `SundtekRefresh.AnyMarkedCategory` | packages/addons/official/driver/sundtek-mediatv/source/resources/lib/functions.py:221-226 | the search over the nodes finds a marked category exactly if the tree has one |
| `SundtekRefresh.AddEntries` | packages/addons/official/driver/sundtek-mediatv/source/resources/lib/functions.py:181-231 | with the entries of the parser: a device without a serial number fails exactly if its settings are to be put somewhere; otherwise the document reads as `AddNew` |
| `SundtekRefresh.RefreshSundtekTuners` | packages/addons/official/driver/sundtek-mediatv/source/resources/lib/functions.py:261-270 | the whole refresh, from the report to the files: what is saved, and every error that is not caught |
| `SundtekRefresh.PrintedReport` | packages/addons/official/driver/sundtek-mediatv/source/resources/lib/functions.py:68-98 | a printed report makes the refresh the one with exactly the printed devices |
| `SundtekRefresh.OfferedAsPrinted` | packages/addons/official/driver/sundtek-mediatv/source/resources/lib/functions.py:68-197 | from a printed report to the generated settings: a device is offered DVB-C exactly if one of the three headers is printed behind its serial number, DVB-S exactly if none is |
| `SundtekRefresh.PrintedReportSaved` | packages/addons/official/driver/sundtek-mediatv/source/resources/lib/functions.py:261-270 | without a failure the settings file is then the print of the document refreshed with the printed devices |
| `SundtekRefresh.FailedReport` | packages/addons/official/driver/sundtek-mediatv/source/resources/lib/functions.py:261-270 | where the report makes the refresh fail, the settings file stays what it was and the backup is what `settings_backup` made it |
| `Hci.RateRoundTrip` | packages/linux-firmware/brcm_patchram/sources/brcm_patchram_plus.c:222-234 | the chip decodes the encoded rate, for every 32-bit rate |
| `Hci.BytesRoundTrip` | packages/linux-firmware/brcm_patchram/sources/brcm_patchram_plus.c:222-234 | and every four bytes are the encoding of one rate |
| `Hci.Aligned` | packages/linux-firmware/brcm_patchram/sources/brcm_patchram_plus.c:572-590 | after k reads the stream is aligned with packet k, and the next read takes exactly that packet |
| `Hci.RecordsAreRecords` | packages/linux-firmware/brcm_patchram/sources/brcm_patchram_plus.c:650-655 | the records of a file, joined, are the file |
| `Hci.WellFormedExactly` | packages/linux-firmware/brcm_patchram/sources/brcm_patchram_plus.c:650-655 | the files that can be read to the end are exactly the joined records |
| `Hci.ReceivedRecords` | packages/linux-firmware/brcm_patchram/sources/brcm_patchram_plus.c:650-657 | a receiver that cuts the stream of commands into packets gets the records of the file back |
| `Hci.PacketsBack` | packages/linux-firmware/brcm_patchram/sources/brcm_patchram_plus.c:600-609 | any command packets that are sent one after the other are told apart again |
| `Hci.LogOfScript` | packages/linux-firmware/brcm_patchram/sources/brcm_patchram_plus.c:600-609 | a line that follows a script has delivered exactly its commands, and host and chip matched exactly if the script agrees with the chip |
| `Hci.FollowsInTurn` | packages/linux-firmware/brcm_patchram/sources/brcm_patchram_plus.c:600-609 | and each command went out only after the event before it had been read, with no byte waiting |
| `Patchram.ReadAll` | packages/linux-firmware/brcm_patchram/sources/brcm_patchram_plus.c:579-590 | whatever sizes `read` returns, the bytes asked for are taken off the line and lie in the buffer in order |
| `Patchram.ReadEvent` | packages/linux-firmware/brcm_patchram/sources/brcm_patchram_plus.c:572-590 | exactly one event is consumed and lies in the buffer, the rest of the buffer is untouched, and every index is below 1024 |
| `Patchram.ReadEvents` | packages/linux-firmware/brcm_patchram/sources/brcm_patchram_plus.c:572-590 | read k times in turn, a stream of events gives its first k events, each as a whole |
| `Patchram.ProcReset` | packages/linux-firmware/brcm_patchram/sources/brcm_patchram_plus.c:611-631 | with any number of lost resets, one reset is delivered and one event is read |
| `Patchram.SendRecords` | packages/linux-firmware/brcm_patchram/sources/brcm_patchram_plus.c:650-660 | although events overwrite the same buffer, the commands are the records of the file, in order, each with its event; the loop ends with the file |
| `Patchram.ProcPatchram` | packages/linux-firmware/brcm_patchram/sources/brcm_patchram_plus.c:633-668 | minidriver, records, reset: the commands, their speeds and the chip's speed at the end |
| `Patchram.ProcBaudrate` | packages/linux-firmware/brcm_patchram/sources/brcm_patchram_plus.c:670-692 | the host leaves the old speed only when the chip has answered, at it, to a command packet with the new one |
| `Patchram.ValidateBaudrate` | packages/linux-firmware/brcm_patchram/sources/brcm_patchram_plus.c:260-273 | the search finds exactly the fourteen rates that Linux has a constant for from 115200 on, each with its own constant |
| `Patchram.EncodeBaudRate` | packages/linux-firmware/brcm_patchram/sources/brcm_patchram_plus.c:221-234 | the bytes in the command, and nothing for rate zero |
| `Patchram.ParseBaudrate` | packages/linux-firmware/brcm_patchram/sources/brcm_patchram_plus.c:275-287 | the update command carries a rate exactly if it is supported, otherwise it stays as it was |
| `PatchramRuns.SpeedsExactly` | packages/linux-firmware/brcm_patchram/sources/brcm_patchram_plus.c:811-843 | for all options and supported rates, host and chip agree at every command and event exactly if the file fits the download speed; the chip ends at the requested rate |
| `PatchramRuns.DownloadAgrees` | packages/linux-firmware/brcm_patchram/sources/brcm_patchram_plus.c:633-668 | a download, its last reset included, exactly if no record but the last leaves the speed and the last takes the chip to 115200 |
| `PatchramRuns.OrdinaryFileFits` | packages/linux-firmware/brcm_patchram/sources/brcm_patchram_plus.c:650-666 | a file with one Launch_RAM, at its end, fits every speed |
| `PatchramRuns.NoLaunchNoFit` | packages/linux-firmware/brcm_patchram/sources/brcm_patchram_plus.c:662-667 | a file without one fits 115200 only: the reset after the download would be at the wrong speed |
| `PatchramRuns.DownloadDelivers` | packages/linux-firmware/brcm_patchram/sources/brcm_patchram_plus.c:633-668 | a download delivers the minidriver, `0x01` and each record in file order, and the reset; the receiver's records make up the file |
| `PatchramRuns.ScriptIsCommands` | packages/linux-firmware/brcm_patchram/sources/brcm_patchram_plus.c:796-854 | whatever the options, everything that is said is a command packet whose length byte is right |
| `PatchramRuns.PlainRun` | packages/linux-firmware/brcm_patchram/sources/brcm_patchram_plus.c:811-843 | with `--baudrate 3000000` alone: two commands, byte by byte |
| `PatchramRuns.FullRun` | packages/linux-firmware/brcm_patchram/sources/brcm_patchram_plus.c:796-854 | with every option: all commands, byte by byte, each with the speed of the host |
| `PatchramRuns.RunTool` | packages/linux-firmware/brcm_patchram/sources/brcm_patchram_plus.c:796-854 | the whole program: the delivered commands, which are packets that their receiver can tell apart, stop-and-wait, matching speeds exactly if the file fits, both ends at the requested rate; nothing is sent for a rate that is not supported |
| `Sorting.Sorted` | packages/x11/driver/xf86-video-nvidia/scripts/make_nvidia_udev.py:55 | strictly increasing, with exactly the members of the set |
| `Sorting.IncreasingUnique` | packages/x11/driver/xf86-video-nvidia/scripts/make_nvidia_udev.py:55 | there is only one such list |
| `Sorting.BelowExactly` | packages/x11/driver/xf86-video-nvidia/scripts/make_nvidia_udev.py:55 | the order is that of the first place where two strings differ, the smaller character first, and a prefix comes before what it is a prefix of |
| `UdevRules.RuleBack` | packages/x11/driver/xf86-video-nvidia/scripts/make_nvidia_udev.py:58-72 | reading a written rule gives it back |
| `NvidiaRules.FirstWordOf` | packages/x11/driver/xf86-video-nvidia/scripts/make_nvidia_udev.py:52 | the first of several ids is taken, whatever white space surrounds it |
| `NvidiaRules.LowerExactly` | packages/x11/driver/xf86-video-nvidia/scripts/make_nvidia_udev.py:52 | no capital letter is left; each one becomes the character 32 places on, and nothing else changes |
| `NvidiaRules.MakeRules` | packages/x11/driver/xf86-video-nvidia/scripts/make_nvidia_udev.py:50-72 | the file for the sorted ids without duplicates; no file exactly if some id has no words |
| `NvidiaRules.WriteRules` | packages/x11/driver/xf86-video-nvidia/scripts/make_nvidia_udev.py:58-72 | the writing loop produces the file line by line |
| `RulesFile.FileIs` | packages/x11/driver/xf86-video-nvidia/scripts/make_nvidia_udev.py:58-72 | the file is, line by line, the text that the script writes, with one line for every id |
| `NvidiaRules.FileIsProgram` | packages/x11/driver/xf86-video-nvidia/scripts/make_nvidia_udev.py:58-72 | the file, read back, is the program of forward jumps |
| `NvidiaRules.RulesChoose` | packages/x11/driver/xf86-video-nvidia/scripts/make_nvidia_udev.py:58-72 | for every event the program ends; it selects `xorg-configure@nvidia.service`, `xorg-configure@nvidia-legacy.service` or nothing according to action, class, vendor and membership of the id |
| `NvidiaRules.OnlyMembersCount` | packages/x11/driver/xf86-video-nvidia/scripts/make_nvidia_udev.py:50-55 | membership in the lower-cased first words of the list decides, not order or repetition |
| `NvidiaRules.IdsDecide` | packages/x11/driver/xf86-video-nvidia/scripts/make_nvidia_udev.py:50-72 | from the list of ids to the service: the file written for it can be read, and on any event it selects the `nvidia` service exactly for the lower-cased first words of the list |
| `NvidiaRules.CardDecidesExactly` | packages/x11/driver/xf86-video-nvidia/scripts/make_nvidia_udev.py:60-64 | the card's own numbers decide exactly if no parent has the vendor's number, or a listed one, in its place: `ATTRS` looks at parents too |
| `NvidiaRules.BridgeDecides` | packages/x11/driver/xf86-video-nvidia/scripts/make_nvidia_udev.py:60-64 | a card that is not listed, behind a bridge with a listed number, gets the service of listed cards |

## Left out

- Parsed: the parser of minidom is taken as the inverse of `toxml`, up to layout inside tags, entities, text outside the root element, and the white space that a parser does not keep (sections 2.11 and 3.3.3 of XML 1.0); document types, entity declarations, single-quoted values and white space around `=` do not occur in what `toxml` writes, and the space that minidom writes between the target and the data of an instruction is part of its body.
- LineOfMark: `Printable`, and with it the documents the printer is meant for, does not depend on the width, so it leaves out instructions that are unchanged at width 80 only; their exact condition is `Instructions.UnchangedExactly`.
- PrintingKeepsMeaning: documents with such instructions, or with the markup of the first two items of "What does not hold", are not documents the printer is meant for.
- SameFileAgain: of an original with a carriage return in an instruction, it says that the second file differs only if what was parsed can be printed at all.
- GetElementsByTagName: minidom's live attribute maps and its caches are not modelled; nothing relies on the order of the list.
- Pprint: the regular expressions are modelled as the scanners they denote, with `\w` and `\s` without the UNICODE flag; documents are those `minidom.toxml` writes, so text and values have no raw brackets and values are double-quoted.
- SaveSettings: the late write of the buffer does not fail half-way through a character, and a failure to read the backup that makes it look absent is not modelled.
- RefreshSettings: the parsed document has only markup that the printer gets right (the first three items of "What does not hold" are excluded) and no text outside its root element; what the parser makes of a file that neither the printer wrote nor was there at the start is an input.
- AddNewTuners: an add-on name other than the two is not modelled.
- AddEntries: what a failing addition leaves of the document, which nobody uses any more, is not modelled.
- GetDevicesSundtek: a failing `os.popen` is not modelled; a serial header without its `ID:` line is part of `Parse` but not of the reports made of blocks.
- Send: the chip answers every command that arrives with one event, even at a wrong speed; the log shows the speeds, and what a real chip does with garbage is not modelled. A reset does not change the chip's speed.
- Read: a read of the line that asks for bytes returns at least one, and does not fail.
- ProcReset: the alarm goes off only if the reset was lost; how often it is lost is an input.
- ProcPatchram: the two extra bytes come in one piece, and `no2bytes` is given exactly for chips that do not send them; reads of the file are full and the file is a whole number of records; the optional sleep is not modelled.
- RunTool: option parsing by `getopt` and `sscanf`, terminal flags, debug output, the line discipline and the endless sleep after it, and the Android property code are not modelled; the one-shot settings are a list of commands.
- MakeRules: the download, the XPath queries and the reading of the package version are not modelled; their result is the list of ids. `lower` is modelled for ASCII letters.
- RulesChoose: ids have no quotes, bars or line breaks, and the characters `*`, `?` and `[` have no special meaning; of udev only the keys and operators that occur are modelled.
- `get_devices_hdhomerun` of both add-ons, which is one regular expression or one split per line.
- The copy of `xmlpp.py` in the sundtek add-on, and the removal, addition and saving there, which are the same code, except that its own `add_hdhomerun` writes `_` for `-` in ids and adds three settings a tuner.
- The command line of `xmlpp.py`, `get_pprint`, `default.py`, `actions.py` and all messages.

Nothing was executed.
