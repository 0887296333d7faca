/** Indentation is nesting depth, meaning is kept, and where the printer goes wrong
    (packages/addons/official/driver/hdhomerun/source/resources/lib/xmlpp.py). */
module Nesting {
  import opened Text
  import opened XmlMarkup
  import opened Scanner
  import opened LinePrinter
  import opened TagLines
  import opened Unambiguous
  import opened PrettyPrinter
  import opened PrintLaws

  // ----- meaning -----

  /** What a reader gets out of a document: trimmed texts, and markups without their layout. */
  datatype Content =
    | Words(text: string)
    | Tagged(kind: Kind, name: string, attrs: seq<(string, string)>)
    | Opaque(mark: Markup)

  function Pairs(attrs: seq<Attr>): (r: seq<(string, string)>)
    ensures |r| == |attrs| && forall i :: 0 <= i < |attrs| ==> r[i] == (attrs[i].name, attrs[i].value)
  {
    if attrs == [] then [] else [(attrs[0].name, attrs[0].value)] + Pairs(attrs[1..])
  }

  function WordsOf(text: string): seq<Content> {
    if Strip(text) == "" then [] else [Words(Strip(text))]
  }

  function ContentOf(m: Markup): Content {
    if m.Tag? then Tagged(m.kind, m.name, Pairs(m.attrs)) else Opaque(m)
  }

  function Meaning(doc: seq<Segment>, trailer: string): seq<Content> {
    if doc == [] then WordsOf(trailer)
    else WordsOf(doc[0].text) + [ContentOf(doc[0].mark)] + Meaning(doc[1..], trailer)
  }

  lemma ContentByCanon(m: Markup)
    ensures ContentOf(CanonMark(m)) == ContentOf(m)
  {
    if Prefixed(m) {
      assert forall i :: 0 <= i < |m.attrs| ==> Pairs(CanonAttrs(m.attrs))[i] == Pairs(m.attrs)[i];
      assert Pairs(CanonAttrs(m.attrs)) == Pairs(m.attrs);
    }
  }

  lemma {:induction false} MeaningByCanon(a: seq<Segment>, s: string, b: seq<Segment>, t: string)
    requires Canon(a) == Canon(b) && WordsOf(s) == WordsOf(t)
    ensures Meaning(a, s) == Meaning(b, t)
  {
    assert |a| == |Canon(a)| == |Canon(b)| == |b|;
    if a != [] {
      assert CanonOne(a[0]) == Canon(a)[0] == Canon(b)[0] == CanonOne(b[0]);
      ContentByCanon(a[0].mark);
      ContentByCanon(b[0].mark);
      assert Canon(a[1..]) == Canon(a)[1..] == Canon(b)[1..] == Canon(b[1..]);
      MeaningByCanon(a[1..], s, b[1..], t);
    }
  }

  lemma {:induction false} MeaningLength(doc: seq<Segment>, s: string, t: string)
    ensures |Meaning(doc, s)| - |WordsOf(s)| == |Meaning(doc, t)| - |WordsOf(t)|
  {
    if doc != [] { MeaningLength(doc[1..], s, t); }
  }

  /** However the printed text is read, it means what the document meant, provided that only white space
      followed the last markup; a text in that place is lost. */
  lemma PrintingKeepsMeaning(doc: seq<Segment>, trailer: string, indent: int, width: int,
                             doc': seq<Segment>, trailer': string)
    requires Good(doc) && Document(Render(doc, 0, indent, width), doc', trailer')
    ensures Meaning(doc', trailer') == Meaning(doc, trailer) <==> AllBlank(trailer)
  {
    ReadBack(doc, indent, width, doc', trailer');
    CanonPretty(doc, "", 0, indent, width);
    MeaningByCanon(doc', trailer', doc, trailer');
    MeaningOfTrailer(doc, trailer, trailer');
  }

  lemma MeaningOfTrailer(doc: seq<Segment>, s: string, blank: string)
    requires AllBlank(blank)
    ensures Meaning(doc, blank) == Meaning(doc, s) <==> AllBlank(s)
  {
    NoWords(s);
    NoWords(blank);
    MeaningLength(doc, s, blank);
    if AllBlank(s) {
      MeaningByCanon(doc, blank, doc, s);
    }
  }

  lemma NoWords(s: string)
    ensures WordsOf(s) == [] <==> AllBlank(s)
  {
    StripBlank(s);
  }

  /** There is only one way to read the output back. */
  lemma ReadBack(doc: seq<Segment>, indent: int, width: int, doc': seq<Segment>, trailer': string)
    requires Good(doc) && Document(Render(doc, 0, indent, width), doc', trailer')
    ensures doc' == Pretty(doc, "", 0, indent, width) && AllBlank(trailer')
  {
    OutputIsDocument(doc, indent, width);
    OneReading(Render(doc, 0, indent, width), doc', trailer');
  }

  // ----- nesting -----

  /** An open element: its name, and the column its opening tag was printed at. */
  datatype Frame = Frame(name: string, column: int)

  /** Every closing tag closes the innermost open element, and all elements get closed. */
  predicate Balanced(doc: seq<Segment>, open: seq<string>) {
    if doc == [] then open == []
    else
      var m := doc[0].mark;
      if m.Tag? && m.kind == Opening then Balanced(doc[1..], open + [m.name])
      else if m.Tag? && m.kind == Closing then
        open != [] && open[|open| - 1] == m.name && Balanced(doc[1..], open[..|open| - 1])
      else Balanced(doc[1..], open)
  }

  function Names(open: seq<Frame>): (r: seq<string>)
    ensures |r| == |open| && forall i :: 0 <= i < |open| ==> r[i] == open[i].name
  {
    if open == [] then [] else [open[0].name] + Names(open[1..])
  }

  lemma NamesPush(open: seq<Frame>, f: Frame)
    ensures Names(open + [f]) == Names(open) + [f.name]
  {
  }

  lemma NamesPop(open: seq<Frame>)
    requires open != []
    ensures Names(open[..|open| - 1]) == Names(open)[..|open| - 1]
  {
  }

  /** `indent` taken `n` times. */
  function Deep(indent: int, n: nat): (d: int)
    ensures indent >= 0 ==> d >= 0
  {
    if n == 0 then 0 else Deep(indent, n - 1) + indent
  }

  /** The stack of open elements after a markup. */
  function Stack(open: seq<Frame>, m: Markup, indent: int): seq<Frame> {
    if m.Tag? && m.kind == Opening then open + [Frame(m.name, Deep(indent, |open|))]
    else if m.Tag? && m.kind == Closing && open != [] then open[..|open| - 1]
    else open
  }

  /** A closing tag goes to the column of its own opening tag, all else to the depth of the stack. */
  function ColumnOf(open: seq<Frame>, m: Markup, indent: int): int {
    if m.Tag? && m.kind == Closing && open != [] then open[|open| - 1].column else Deep(indent, |open|)
  }

  lemma StackBalanced(doc: seq<Segment>, open: seq<Frame>, indent: int)
    requires doc != [] && Balanced(doc, Names(open))
    ensures Balanced(doc[1..], Names(Stack(open, doc[0].mark, indent)))
    ensures doc[0].mark.Tag? && doc[0].mark.kind == Closing ==> open != []
  {
    var m := doc[0].mark;
    if m.Tag? && m.kind == Opening {
      NamesPush(open, Frame(m.name, Deep(indent, |open|)));
    } else if m.Tag? && m.kind == Closing {
      NamesPop(open);
    }
  }

  /** A printer that keeps the stack of open elements. */
  function RenderNested(doc: seq<Segment>, open: seq<Frame>, indent: int, width: int): string
    requires Balanced(doc, Names(open))
  {
    if doc == [] then ""
    else
      StackBalanced(doc, open, indent);
      var m, column := doc[0].mark, ColumnOf(open, doc[0].mark, indent);
      (ContentText(Deep(indent, |open|), Strip(doc[0].text))
       + (Spaces(column) + Show(Relaid(m, column, width)) + "\n"))
      + RenderNested(doc[1..], Stack(open, m, indent), indent, width)
  }

  /** The column of a frame is the depth it was pushed at. */
  predicate Plumb(open: seq<Frame>, indent: int) {
    forall i :: 0 <= i < |open| ==> open[i].column == Deep(indent, i)
  }

  lemma LevelIsColumn(open: seq<Frame>, m: Markup, indent: int)
    requires Plumb(open, indent) && (m.Tag? && m.kind == Closing ==> open != [])
    ensures LevelAt(m, Deep(indent, |open|), indent) == ColumnOf(open, m, indent)
    ensures LevelAfter(m, Deep(indent, |open|), indent) == Deep(indent, |Stack(open, m, indent)|)
    ensures Plumb(Stack(open, m, indent), indent)
  {
  }

  /** On a balanced document the running level does what the stack does: every line is indented by its
      nesting depth, and a closing tag exactly like its own opening tag. */
  lemma {:induction false} IndentIsDepth(doc: seq<Segment>, open: seq<Frame>, indent: int, width: int)
    requires Balanced(doc, Names(open)) && Plumb(open, indent)
    ensures Render(doc, Deep(indent, |open|), indent, width) == RenderNested(doc, open, indent, width)
  {
    if doc != [] {
      hide Plumb, Deep, Stack, ColumnOf, LevelAt, LevelAfter;
      StackBalanced(doc, open, indent);
      LevelIsColumn(open, doc[0].mark, indent);
      IndentIsDepth(doc[1..], Stack(open, doc[0].mark, indent), indent, width);
    }
  }

  function LevelAtEnd(doc: seq<Segment>, level: int, indent: int): int {
    if doc == [] then level else LevelAtEnd(doc[1..], LevelAfter(doc[0].mark, level, indent), indent)
  }

  /** The level comes back to where it started. */
  lemma {:induction false} LevelEndsAtZero(doc: seq<Segment>, open: seq<string>, indent: int)
    requires Balanced(doc, open)
    ensures LevelAtEnd(doc, Deep(indent, |open|), indent) == 0
  {
    if doc != [] {
      var m := doc[0].mark;
      if m.Tag? && m.kind == Opening {
        LevelEndsAtZero(doc[1..], open + [m.name], indent);
      } else if m.Tag? && m.kind == Closing {
        LevelEndsAtZero(doc[1..], open[..|open| - 1], indent);
      } else {
        LevelEndsAtZero(doc[1..], open, indent);
      }
    }
  }

  // ----- data that is no document -----

  /** The data the next iteration of the loop works on. */
  function Advance(data: string): string {
    var e := NextElem(data);
    var cut := Slice(data, e.startPos, |data|);
    Slice(cut, e.endPos - e.startPos, |cut|)
  }

  /** From a `<` on, an iteration that is entered gets closer to the end exactly when there is a `>`;
      without one the loop repeats itself for ever. */
  lemma StallsExactly(data: string)
    requires data != "" && data[0] == '<' && NextElem(data).endPos > -1
    ensures |Advance(data)| < |data| <==> '>' in data
    ensures '>' !in data ==> Advance(data) == data
  {
    FindChar(data, '<', 0);
    BeforeFirst(data, '>');
    var k := Find(data, ">");
    if k >= 0 {
      AtChar(data, ">", k, 0);
    } else {
      assert Slice(data, 0, 0) == "";
    }
  }

  /** The loop is entered on what the scanner reports. */
  predicate Entered(e: Elem) {
    e.startPos > -1 && e.endPos > -1
  }

  /** The loop of `pprint` ends after at most so many turns. */
  ghost predicate Stops(data: string, turns: nat)
    decreases turns
  {
    !Entered(NextElem(data)) || (turns > 0 && (Advance(data) == "" || Stops(Advance(data), turns - 1)))
  }

  ghost predicate Ends(data: string) {
    exists turns: nat :: Stops(data, turns)
  }

  lemma EndsByTurn(data: string)
    requires Entered(NextElem(data))
    ensures Ends(data) <==> Advance(data) == "" || Ends(Advance(data))
  {
    hide NextElem, Entered, Advance;
    if Ends(data) {
      var turns: nat :| Stops(data, turns);
      if Advance(data) != "" { assert Stops(Advance(data), turns - 1); }
    }
    if Advance(data) == "" {
      assert Stops(data, 1);
    } else if Ends(Advance(data)) {
      var turns: nat :| Stops(Advance(data), turns);
      assert Stops(data, turns + 1);
    }
  }

  lemma EndsAtOnce(data: string)
    requires !Entered(NextElem(data))
    ensures Ends(data)
  {
    assert Stops(data, 0);
  }

  lemma {:induction false} NeverStops(data: string, turns: nat)
    requires Entered(NextElem(data)) && Advance(data) == data != ""
    ensures !Stops(data, turns)
    decreases turns
  {
    if turns > 0 { NeverStops(data, turns - 1); }
  }

  /** One turn on data without `>`: the end of what was searched is 0, so a slice with a negative bound keeps as
      many characters from the end as stand in front of the `<`. */
  lemma TurnWithoutEnd(rest: string)
    requires '>' !in rest && Find(rest, "<") >= 0
    ensures Entered(NextElem(rest))
    ensures var s := Find(rest, "<");
            0 <= s < |rest| && rest[s] == '<'
            && Advance(rest) == if s == 0 || 2 * s >= |rest| then rest[s..] else rest[|rest| - s..]
  {
    var s := Find(rest, "<");
    AtChar(rest, "<", s, 0);
    FindChar(rest, '>', -1);
    assert Slice(rest, s, 0) == "";
    NothingInNothing();
    assert NextElem(rest).startPos == s && NextElem(rest).endPos == 0;
    var cut := rest[s..];
    assert Slice(rest, s, |rest|) == cut;
    if s > 0 && 2 * s < |rest| { assert cut[|cut| - s..] == rest[|rest| - s..]; }
  }

  lemma NothingInNothing()
    ensures Find("", "<!") == -1 && Find("", "<?") == -1
  {
  }

  /** Data without `>`: it has no `<`, or more characters stand behind its first `<` than in front of it, and as
      many of its last characters as stand in front are data of this kind again. */
  predicate RestEnds(rest: string)
    decreases |rest|
  {
    var s := Find(rest, "<");
    s == -1 || (0 < s && 2 * s < |rest| && RestEnds(rest[|rest| - s..]))
  }

  lemma {:induction false} RestExactly(rest: string)
    requires '>' !in rest
    ensures Ends(rest) <==> RestEnds(rest)
    decreases |rest|
  {
    hide NextElem, Entered, Advance, Ends;
    var s := Find(rest, "<");
    if s == -1 {
      NotEntered(rest);
      EndsAtOnce(rest);
    } else {
      TurnWithoutEnd(rest);
      EndsByTurn(rest);
      if 0 < s && 2 * s < |rest| {
        RestExactly(rest[|rest| - s..]);
      } else {
        LoopsFrom(rest[s..]);
      }
    }
  }

  lemma NotEntered(rest: string)
    requires Find(rest, "<") == -1
    ensures !Entered(NextElem(rest))
  {
  }

  lemma LoopsFrom(data: string)
    requires data != "" && data[0] == '<' && '>' !in data
    ensures !Ends(data)
  {
    hide NextElem, Entered, Advance, Stops;
    FindChar(data, '<', 0);
    TurnWithoutEnd(data);
    assert data[0..] == data;
    forall turns: nat
      ensures !Stops(data, turns)
    {
      NeverStops(data, turns);
    }
  }

  /** Behind a document and in front of data without `>` the loop ends exactly when that data lets it. */
  lemma {:induction false} EndsExactly(doc: seq<Segment>, rest: string)
    requires Readable(doc) && '>' !in rest
    ensures Ends(ShowAll(doc) + rest) <==> RestEnds(rest)
  {
    hide NextElem, Entered, Advance, Ends, RestEnds;
    if doc == [] {
      assert ShowAll(doc) + rest == rest;
      RestExactly(rest);
    } else {
      TurnOnDocument(doc, rest);
      EndsByTurn(ShowAll(doc) + rest);
      EndsExactly(doc[1..], rest);
      if ShowAll(doc[1..]) + rest == "" { NothingEnds(); }
    }
  }

  lemma NothingEnds()
    ensures Ends("")
  {
    EndsAtOnce("");
  }

  lemma TurnOnDocument(doc: seq<Segment>, rest: string)
    requires Readable(doc) && doc != []
    ensures Entered(NextElem(ShowAll(doc) + rest)) && Readable(doc[1..])
    ensures Advance(ShowAll(doc) + rest) == ShowAll(doc[1..]) + rest
  {
    hide NextElem, Show, Legal, Scannable;
    var s, more := doc[0], ShowAll(doc[1..]) + rest;
    ShowFirst(doc, rest);
    ScanExtent(s.text, s.mark, more);
    Assoc(s.text, Show(s.mark), more);
    Halves(s.text, Show(s.mark) + more);
    Halves(Show(s.mark), more);
  }

  /** `<abc` is printed for ever; `ab<cde` is not: one turn leaves `de`. */
  lemma LoopExamples()
    ensures !Ends("<abc") && Ends("ab<cde")
  {
    LoopsFrom("<abc");
    FindChar("ab<cde", '<', 2);
    FindChar("de", '<', -1);
    assert "ab<cde"[4..] == "de";
    hide Ends, Find;
    RestExactly("ab<cde");
  }

  // ----- markup that is cut at the wrong place -----

  lemma WrongExtent(text: string, m: Markup, rest: string)
    requires NoAngles(text) && Legal(m) && !Scannable(m)
    ensures NextElem(text + Show(m) + rest).endPos != |text| + |Show(m)|
  {
    ScanExtent(text, m, rest);
  }

  /** `<!-->-->`: an XML comment whose body begins with `>` is cut in two. */
  lemma CommentCutShort(text: string, rest: string)
    requires NoAngles(text)
    ensures Legal(Comment(">"))
    ensures NextElem(text + Show(Comment(">")) + rest).endPos != |text| + |Show(Comment(">"))|
  {
    ScanExtent(text, Comment(">"), rest);
  }

  lemma GlimpseIsAll(body: string)
    requires '>' !in body
    ensures Glimpse(body) == body
  {
    FindChar(body, '>', -1);
  }

  lemma FoundInside(a: string, pat: string, b: string)
    ensures Find(a + pat + b, pat) >= 0
  {
    assert (a + pat + b)[|a|..|a| + |pat|] == pat;
    FindFirst(a + pat + b, pat, |a|);
  }

  /** `<!--<![CDATA[-->`: an XML comment that names the opening of CDATA does not end with its own end. */
  lemma CommentWithCData(text: string, rest: string)
    requires NoAngles(text)
    ensures Legal(Comment("<![CDATA["))
    ensures NextElem(text + Show(Comment("<![CDATA[")) + rest).endPos != |text| + |Show(Comment("<![CDATA["))|
  {
    var body := "<![CDATA[";
    FindChar(body, '-', -1);
    if Find(body, "--") >= 0 { AtChar(body, "--", Find(body, "--"), 0); }
    GlimpseIsAll(body);
    hide Find, Glimpse, NextElem, Show;
    FoundInside("", body, "");
    assert "" + body + "" == body;
    WrongExtent(text, Comment(body), rest);
  }

  /** `<?a <!b?>`: an instruction with `<!` in its data is taken for a comment. */
  lemma InstructionWithComment(text: string, rest: string)
    requires NoAngles(text)
    ensures Legal(Instruction("a <!b"))
    ensures NextElem(text + Show(Instruction("a <!b")) + rest).endPos != |text| + |Show(Instruction("a <!b"))|
  {
    var body := "a <!b";
    FindChar(body, '?', -1);
    if Find(body, "?>") >= 0 { AtChar(body, "?>", Find(body, "?>"), 0); }
    GlimpseIsAll(body);
    hide Find, Glimpse, NextElem, Show;
    FoundInside("a ", "<!", "b");
    assert "a " + "<!" + "b" == body;
    WrongExtent(text, Instruction(body), rest);
  }
}
