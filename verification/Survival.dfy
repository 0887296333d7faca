/** Which tags come out of the line printer as what they were
    (packages/addons/official/driver/hdhomerun/source/resources/lib/xmlpp.py). */
module Survival {
  import opened Basics
  import opened Text
  import opened XmlMarkup
  import opened LinePrinter
  import opened TagLines

  // ----- names that are cut -----

  predicate SameTag(r: Markup, m: Markup) {
    && r.Tag? && m.Tag? && r.kind == m.kind && r.name == m.name && |r.attrs| == |m.attrs|
    && forall i :: 0 <= i < |m.attrs| ==> r.attrs[i].name == m.attrs[i].name && r.attrs[i].value == m.attrs[i].value
  }

  /** The printed line still holds the tag, up to white space inside it. */
  ghost predicate Survives(m: Markup, level: int, width: int)
    requires m.Tag?
  {
    exists r :: Legal(r) && SameTag(r, m) && LineText(level, Show(m), width, false) == Spaces(level) + Show(r) + "\n"
  }

  lemma CancelLine(a: string, x: string, y: string, b: string)
    requires a + x + b == a + y + b || (b == "" && a + x == a + y)
    ensures x == y
  {
    assert b == "" ==> a + x + b == a + x && a + y + b == a + y;
    assert |x| == |y|;
    assert forall i :: 0 <= i < |x| ==> x[i] == (a + x + b)[|a| + i] == (a + y + b)[|a| + i] == y[i];
  }

  lemma LegalTailIsBlank(tail: string)
    requires XmlSpace(tail)
    ensures forall i :: 0 <= i < |tail| ==> IsBlank(tail[i]) && !CloserChar(tail[i]) && tail[i] != '>'
  {
    assert forall i :: 0 <= i < |tail| ==> IsXmlSpace(tail[i]);
  }

  lemma FirstOf(a: string, b: string)
    ensures a != "" ==> (a + b)[0] == a[0]
  {
  }

  /** The first character after a cut name is part of a name, so no white space can stand for it. */
  lemma NothingWoven(m: Markup, n: nat, woven: string, closer: string, rest: string)
    requires Legal(m) && m.Tag? && n < |Head(m)|
    requires woven + closer == Head(m)[n..] + rest
    requires woven != "" ==> IsBlank(woven[0])
    ensures woven == "" && closer == Head(m)[n..] + rest
  {
    HeadShape(m);
    FirstOf(Head(m)[n..], rest);
    FirstOf(woven, closer);
    assert "" + closer == closer;
  }

  /** The rest of a cut name can only hide in the closer. */
  lemma CutNameInCloser(h: string, m: Markup, closer: string)
    requires Legal(m) && m.Tag? && closer == h + Rest(m)
    requires forall i :: 0 <= i < |closer| - 1 ==> CloserChar(closer[i])
    ensures m.attrs == [] && m.tail == "" && forall i :: 0 <= i < |h| ==> CloserChar(h[i])
  {
    RestStart(m);
    if m.attrs != [] || m.tail != "" { SpacedRest(m); }
    assert forall i :: 0 <= i < |h| ==> closer[i] == h[i];
    assert closer[|h|] == Rest(m)[0];
  }

  lemma SpacedRest(m: Markup)
    requires Legal(m) && m.Tag? && (m.attrs != [] || m.tail != "")
    ensures |Rest(m)| > 1 && IsBlank(Rest(m)[0]) && !CloserChar(Rest(m)[0])
  {
    if m.attrs != [] {
      RestStart(m);
    } else {
      LegalTailIsBlank(m.tail);
      assert Rest(m) == m.tail + Closer(m.kind);
      assert Rest(m)[0] == m.tail[0];
    }
  }

  lemma NoTailBeforeLongCloser(m: Markup, closer: string)
    requires Legal(m) && m.Tag? && m.attrs == [] && m.tail != ""
    requires ElemFinished(Show(m)) == Some(closer)
    ensures |closer| <= |Closer(m.kind)|
  {
    var c := CloserOfTag(m);
    LegalTailIsBlank(m.tail);
    LastOf(Head(m), m.tail);
    ShowBareTail(m);
    ShortCloser(Head(m) + m.tail, Closer(m.kind), closer);
  }

  lemma ShortCloser(before: string, end: string, closer: string)
    requires before != "" && end != "" && !CloserChar(before[|before| - 1])
    requires var t := before + end;
             forall i :: 0 <= i < |t| && !CloserChar(t[i]) && i < |t| - 1 ==> i < |t| - |closer|
    ensures |closer| <= |end|
  {
    assert (before + end)[|before| - 1] == before[|before| - 1];
  }

  /** A tag whose name is cut off survives only if its closer swallowed the rest of the name. */
  lemma CutNameIsLost(m: Markup, r: Markup, n: nat, woven: string, closer: string)
    requires Legal(m) && Legal(r) && SameTag(r, m) && n < |Head(m)|
    requires ElemFinished(Show(m)) == Some(closer)
    requires woven + closer == Head(m)[n..] + Rest(r)
    requires woven != "" ==> IsBlank(woven[0])
    ensures m.attrs == [] && m.tail == "" && forall i :: n <= i < |Head(m)| ==> CloserChar(Head(m)[i])
  {
    hide Show, Legal, Head, ElemFinished;
    var c := CloserOfTag(m);
    NothingWoven(m, n, woven, closer, Rest(r));
    var h := Head(m)[n..];
    CutNameInCloser(h, r, closer);
    assert forall i :: n <= i < |Head(m)| ==> Head(m)[i] == h[i - n];
    if m.tail != "" { NoTailBeforeLongCloser(m, closer); }
  }

  lemma OnlyKeptSurvives(m: Markup, r: Markup, start: string, woven: string, closer: string)
    requires Legal(m) && Prefixed(m) && !FullName(m) && Legal(r) && SameTag(r, m)
    requires ElemFinished(Show(m)) == Some(closer) && (woven != "" ==> IsBlank(woven[0]))
    requires start + (Head(m)[..ElemStartLen(Head(m))] + (woven + closer)) + "\n" == start + Show(r) + "\n"
    ensures NameKept(m)
  {
    hide Show, Legal, Rest, ElemFinished, ElemStartLen;
    var n := ElemStartLen(Head(m));
    var a, b := Head(m)[..n], Head(m)[n..];
    CancelLine(start, a + (woven + closer), Show(r), "\n");
    HeadRest(r);
    assert Head(m) == a + b;
    Assoc(a, b, Rest(r));
    CancelLine(a, woven + closer, b + Rest(r), "");
    CutNameIsLost(m, r, n, woven, closer);
  }

  // ----- line breaks in values -----

  function Quotes(s: string): nat {
    if s == "" then 0 else (if s[0] == '"' then 1 else 0) + Quotes(s[1..])
  }

  function AllQuotes(found: seq<string>): nat {
    if found == [] then 0 else Quotes(found[0]) + AllQuotes(found[1..])
  }

  lemma {:induction false} QuotesConcat(a: string, b: string)
    ensures Quotes(a + b) == Quotes(a) + Quotes(b)
  {
    if a == "" {
      assert a + b == b;
    } else {
      assert (a + b)[1..] == a[1..] + b;
      QuotesConcat(a[1..], b);
    }
  }

  lemma {:induction false} NoQuotes(s: string)
    requires '"' !in s
    ensures Quotes(s) == 0
  {
    if s != "" { NoQuotes(s[1..]); }
  }

  /** What is found lies side by side in the line. */
  lemma {:induction false} QuotesFound(s: string)
    ensures AllQuotes(Attrs(s)) <= Quotes(s)
    decreases |s|
  {
    hide AttrLen;
    if s != "" {
      if AttrLen(s) > 0 {
        var n := AttrLen(s);
        QuotesFound(s[n..]);
        assert s == s[..n] + s[n..];
        QuotesConcat(s[..n], s[n..]);
      } else {
        QuotesFound(s[1..]);
      }
    }
  }

  lemma QuotesOfAttr(a: Attr)
    requires GoodAttr(a)
    ensures Quotes(ShowAttr(a)) == 2 && Quotes(a.lead) == 0
  {
    assert forall i :: 0 <= i < |a.name| ==> NameChar(a.name[i]);
    assert forall i :: 0 <= i < |a.lead| ==> IsXmlSpace(a.lead[i]);
    NoQuotes(a.lead);
    NoQuotes(a.name);
    NoQuotes(a.value);
    hide *;
    ShowAttrIs(a);
    OneQuote();
    QuotesConcat(a.name + "=\"" + a.value, "\"");
    QuotesConcat(a.name + "=\"", a.value);
    QuotesConcat(a.name, "=\"");
  }

  lemma ShowAttrIs(a: Attr)
    ensures ShowAttr(a) == a.name + "=\"" + a.value + "\""
  {
  }

  lemma OneQuote()
    ensures Quotes("\"") == 1 && Quotes("=\"") == 1
  {
    assert "=\""[1..] == "\"" && "\""[1..] == "";
  }

  lemma {:induction false} QuotesOfAttrs(attrs: seq<Attr>)
    requires GoodAttrs(attrs)
    ensures Quotes(ShowAttrs(attrs)) == 2 * |attrs|
  {
    hide GoodAttr, ShowAttr;
    if attrs != [] {
      var a := attrs[0];
      QuotesOfAttr(a);
      QuotesOfAttrs(attrs[1..]);
      QuotesConcat(a.lead + ShowAttr(a), ShowAttrs(attrs[1..]));
      QuotesConcat(a.lead, ShowAttr(a));
    }
  }

  /** Woven attributes have the quotes of what was found. */
  lemma {:induction false} QuotesWoven(leads: seq<string>, found: seq<string>)
    requires |leads| == |found| && forall i :: 0 <= i < |leads| ==> XmlSpace(leads[i])
    ensures Quotes(Weave(leads, found)) == AllQuotes(found)
  {
    hide XmlSpace;
    if leads != [] {
      SpaceHasNoQuotes(leads[0]);
      QuotesWoven(leads[1..], found[1..]);
      QuotesConcat(leads[0] + found[0], Weave(leads[1..], found[1..]));
      QuotesConcat(leads[0], found[0]);
    }
  }

  lemma SpaceHasNoQuotes(s: string)
    requires XmlSpace(s)
    ensures Quotes(s) == 0
  {
    assert forall i :: 0 <= i < |s| ==> IsXmlSpace(s[i]);
    NoQuotes(s);
  }

  lemma {:induction false} NoQuoteOnLine(v: string, rest: string)
    requires '"' !in v && '\n' !in v
    ensures QuoteLen(v + "\n" + rest) == -1
  {
    var s := v + "\n" + rest;
    if v != "" {
      assert s[1..] == v[1..] + "\n" + rest;
      NoQuoteOnLine(v[1..], rest);
    }
  }

  /** Nothing is found in a stretch without quotes in front of a line break. */
  lemma {:induction false} NothingOnLine(v: string, rest: string)
    requires '"' !in v
    ensures AttrLen(v + "\n" + rest) == -1
  {
    var s := v + "\n" + rest;
    if v != "" {
      assert s[1..] == v[1..] + "\n" + rest;
      NothingOnLine(v[1..], rest);
    }
  }

  lemma {:induction false} BrokenLen(n: string, v: string, rest: string)
    requires AttrNameChars(n) && '"' !in v && '\n' !in v
    ensures AttrLen(n + ("=\"" + (v + "\n" + rest))) == -1
  {
    var s := n + ("=\"" + (v + "\n" + rest));
    if n == "" {
      assert s[2..] == v + "\n" + rest && s[1..] == "\"" + (v + "\n" + rest);
      assert s[1..][1..] == v + "\n" + rest;
      NoQuoteOnLine(v, rest);
      NothingOnLine(v, rest);
    } else {
      assert s[1..] == n[1..] + ("=\"" + (v + "\n" + rest));
      BrokenLen(n[1..], v, rest);
    }
  }

  lemma {:induction false} SkipLine(v: string, rest: string)
    requires '"' !in v
    ensures Attrs(v + "\n" + rest) == Attrs(rest)
  {
    hide AttrLen;
    var s := v + "\n" + rest;
    NothingOnLine(v, rest);
    if v == "" {
      assert s[1..] == rest;
    } else {
      assert s[1..] == v[1..] + "\n" + rest;
      SkipLine(v[1..], rest);
    }
  }

  /** An attribute with a line break in its value is passed over, up to the line break. */
  lemma {:induction false} SkipBroken(n: string, v: string, rest: string)
    requires AttrNameChars(n) && '"' !in v && '\n' !in v
    ensures Attrs(n + ("=\"" + (v + "\n" + rest))) == Attrs(rest)
  {
    hide AttrLen;
    var s := n + ("=\"" + (v + "\n" + rest));
    BrokenLen(n, v, rest);
    if n == "" {
      var t := "\"" + (v + "\n" + rest);
      assert s[1..] == t && t[1..] == v + "\n" + rest;
      QuoteNext(v, rest);
      SkipLine(v, rest);
    } else {
      assert s[1..] == n[1..] + ("=\"" + (v + "\n" + rest));
      SkipBroken(n[1..], v, rest);
    }
  }

  lemma QuoteNext(v: string, rest: string)
    requires '"' !in v
    ensures AttrLen("\"" + (v + "\n" + rest)) == -1
  {
    var t := "\"" + (v + "\n" + rest);
    assert t[1..] == v + "\n" + rest;
    NothingOnLine(v, rest);
  }

  /** With a line break in a value not all quotes are found again. */
  lemma {:induction false} FoundFewer(attrs: seq<Attr>, end: string)
    requires GoodAttrs(attrs) && '=' !in end && '"' !in end
    requires exists i :: 0 <= i < |attrs| && '\n' in attrs[i].value
    ensures AllQuotes(Attrs(ShowAttrs(attrs) + end)) < 2 * |attrs|
  {
    hide AttrLen, ShowAttr, Attrs, Quotes, GoodAttr;
    var a, more := attrs[0], attrs[1..];
    var rest := ShowAttrs(more) + end;
    assert GoodAttr(a);
    assert ShowAttrs(attrs) + end == a.lead + ShowAttr(a) + rest;
    if '\n' !in a.value {
      AttrsOne(a, rest);
      QuotesOfAttr(a);
      var i :| 0 <= i < |attrs| && '\n' in attrs[i].value;
      assert more[i - 1] == attrs[i];
      FoundFewer(more, end);
      assert ([ShowAttr(a)] + Attrs(rest))[1..] == Attrs(rest);
    } else {
      var w := BrokenAttr(a, rest);
      QuotesFound(w);
      QuotesOfAttrs(more);
      NoQuotes(end);
      QuotesConcat(ShowAttrs(more), end);
    }
  }

  lemma BrokenAttr(a: Attr, rest: string) returns (w: string)
    requires GoodAttr(a) && '\n' in a.value
    ensures Attrs(a.lead + ShowAttr(a) + rest) == Attrs(w) && Quotes(w) == 1 + Quotes(rest)
  {
    hide *;
    GoodAttrChars(a);
    GoodValue(a);
    var v, v' := SplitLine(a.value);
    w := v' + "\"" + rest;
    var all := a.name + ("=\"" + (v + "\n" + w));
    ShowAttrParts(a, rest);
    assert "=\"" + a.value + "\"" + rest == "=\"" + (v + "\n" + w);
    Assoc(a.lead, ShowAttr(a), rest);
    AttrsLead(a.lead, all);
    SkipBroken(a.name, v, w);
    NoQuotes(v');
    OneQuote();
    QuotesConcat(v' + "\"", rest);
    QuotesConcat(v', "\"");
  }

  lemma {:induction false} SplitLine(s: string) returns (v: string, v': string)
    requires '\n' in s && '"' !in s
    ensures s == v + "\n" + v' && '\n' !in v && '"' !in v && '"' !in v'
  {
    if s[0] == '\n' {
      v, v' := "", s[1..];
      assert s == "\n" + s[1..];
    } else {
      assert s == [s[0]] + s[1..];
      var u, u' := SplitLine(s[1..]);
      v, v' := [s[0]] + u, u';
    }
  }

  /** A prefixed tag with a line break in a value loses quotes, so it does not survive. */
  lemma BrokenIsLost(m: Markup, r: Markup, level: int, width: int)
    requires Legal(m) && FullName(m) && !OneLine(m) && Legal(r) && SameTag(r, m)
    ensures LineText(level, Show(m), width, false) != Spaces(level) + Show(r) + "\n"
  {
    hide Show, Legal, Attrs, ElemFinished, ElemStart, Spaces, LineText, Quotes, Leads, Weave, Rest;
    if LineText(level, Show(m), width, false) == Spaces(level) + Show(r) + "\n" {
      var found := Attrs(Show(m));
      var leads := FullLine(m, level, width);
      var woven := Weave(leads, found);
      HeadRest(r);
      SameHead(r, m);
      Assoc(Head(m), woven, Closer(m.kind));
      CancelLine(Spaces(level), Head(m) + woven + Closer(m.kind), Show(r), "\n");
      CancelLine(Head(m), woven + Closer(m.kind), Rest(r), "");
      RestQuotes(r);
      QuotesWoven(leads, found);
      QuotesConcat(woven, Closer(m.kind));
      NoQuotes(Closer(m.kind));
      FoundInTag(m);
    }
  }

  lemma SameHead(r: Markup, m: Markup)
    requires SameTag(r, m)
    ensures Head(r) == Head(m)
  {
  }

  lemma RestQuotes(r: Markup)
    requires Legal(r) && r.Tag?
    ensures Quotes(Rest(r)) == 2 * |r.attrs|
  {
    hide Quotes, ShowAttrs;
    QuotesOfAttrs(r.attrs);
    SpaceHasNoQuotes(r.tail);
    NoQuotes(Closer(r.kind));
    QuotesConcat(ShowAttrs(r.attrs) + r.tail, Closer(r.kind));
    QuotesConcat(ShowAttrs(r.attrs), r.tail);
  }

  lemma FoundInTag(m: Markup)
    requires Legal(m) && m.Tag? && !OneLine(m)
    ensures AllQuotes(Attrs(Show(m))) < 2 * |m.attrs|
  {
    hide Attrs, ShowAttrs, GoodAttrs, AllQuotes;
    var end := m.tail + Closer(m.kind);
    HeadShape(m);
    HeadRest(m);
    RestStart(m);
    EndHasNoEquals(m.tail, m.kind);
    LegalTailHasNoQuote(m.tail, m.kind);
    HeadChars(m);
    AttrsSkip(Head(m), Rest(m));
    assert Rest(m) == ShowAttrs(m.attrs) + end;
    FoundFewer(m.attrs, end);
  }

  lemma HeadChars(m: Markup)
    requires Legal(m) && m.Tag?
    ensures AttrNameChars(Head(m))
  {
    HeadShape(m);
  }

  lemma LegalTailHasNoQuote(tail: string, kind: Kind)
    requires XmlSpace(tail)
    ensures '"' !in tail + Closer(kind)
  {
    assert forall i :: 0 <= i < |tail| ==> IsXmlSpace(tail[i]);
  }

  /** The line of a tag whose whole name is found. */
  lemma FullLine(m: Markup, level: int, width: int) returns (leads: seq<string>)
    requires Legal(m) && FullName(m)
    ensures |leads| == |Attrs(Show(m))| && forall i :: 0 <= i < |leads| ==> XmlSpace(leads[i])
    ensures LineText(level, Show(m), width, false)
            == Spaces(level) + (Head(m) + Weave(leads, Attrs(Show(m))) + Closer(m.kind)) + "\n"
  {
    hide Strip, Legal, Show, Spaces, ElemStart, ElemFinished, Attrs, Leads, Weave, XmlSpace;
    NotBlankLine(m);
    ElemStartOfTag(m);
    HeadShape(m);
    ElemFinishedOfTag(m);
    assert Head(m)[..|Head(m)|] == Head(m);
    var head, found := Spaces(level) + Head(m), Attrs(Show(m));
    leads := Leads(found, 0, |head|, |head|, Closer(m.kind), width);
    LeadsAreBlank(found, 0, |head|, |head|, Closer(m.kind), width);
    Assoc(Spaces(level), Head(m), Weave(leads, found));
    Assoc(Spaces(level), Head(m) + Weave(leads, found), Closer(m.kind));
  }

  // ----- the exact condition -----

  lemma RelaidIsSame(m: Markup, level: int, width: int)
    requires m.Tag?
    ensures SameTag(Relaid(m, level, width), m)
  {
  }

  /** A tag survives the line printer, at any level and width, exactly when its name is kept and, where its
      attributes are laid out, no value has a line break. */
  lemma SurvivesExactly(m: Markup, level: int, width: int)
    requires Legal(m) && m.Tag?
    ensures Survives(m, level, width) <==> Printable(m)
  {
    hide Show, Legal, Spaces, LineText, ElemStartLen, ElemFinished;
    if Printable(m) {
      LineOfTag(m, level, width);
      RelaidAgain(m, level, width);
      RelaidIsSame(m, level, width);
    } else if Survives(m, level, width) {
      var r :| Legal(r) && SameTag(r, m)
               && LineText(level, Show(m), width, false) == Spaces(level) + Show(r) + "\n";
      if FullName(m) {
        BrokenIsLost(m, r, level, width);
      } else {
        var woven, closer := CutLine(m, level, width);
        OnlyKeptSurvives(m, r, Spaces(level), woven, closer);
      }
    }
  }

  // ----- examples -----

  /** A tag without attributes: what the first expression leaves of the name, and the closer, are written. */
  lemma CutShort(m: Markup, cut: string, lost: string, level: int, width: int)
    requires Legal(m) && m.Tag? && m.attrs == [] && m.tail == "" && Head(m) == cut + lost
    requires cut != "" && ElemStartLen(Head(m)) == |cut| && lost != "" && !CloserChar(lost[|lost| - 1])
    ensures LineText(level, Show(m), width, false) == Spaces(level) + (cut + Closer(m.kind)) + "\n"
    ensures !Survives(m, level, width)
  {
    hide Strip, Show, Legal, Spaces, LineText, ElemFinished, Attrs, ElemStartLen, CloserChar;
    var woven, closer := CutLine(m, level, width);
    AttrsOfTag(m);
    NoCloseInHead(m);
    ShowBareTail(m);
    assert Head(m) + "" == Head(m);
    CloserIsCloser(m.kind);
    ElemFinishedIs(Head(m), Closer(m.kind));
    assert Head(m)[..|cut|] == cut;
    assert "" + closer == closer;
    assert Head(m)[|Head(m)| - 1] == lost[|lost| - 1];
    SurvivesExactly(m, level, width);
  }

  lemma CloserIsCloser(kind: Kind)
    ensures var c := Closer(kind); c != "" && c[|c| - 1] == '>' && forall i :: 0 <= i < |c| - 1 ==> CloserChar(c[i])
  {
  }

  lemma CutTag(cut: string, lost: string, level: int, width: int)
    requires GoodName(cut + lost) && lost != "" && !CloserChar(lost[|lost| - 1])
    requires ElemStartLen("<" + (cut + lost)) == 1 + |cut|
    ensures var m := Tag(SelfClosing, cut + lost, [], "");
            && Legal(m) && !Survives(m, level, width)
            && LineText(level, Show(m), width, false) == Spaces(level) + ("<" + cut + "/>") + "\n"
  {
    hide GoodName, CloserChar, ElemStartLen, LineText, Survives, Show, Spaces;
    var m := Tag(SelfClosing, cut + lost, [], "");
    assert Head(m) == "<" + "" + (cut + lost) == "<" + (cut + lost) == "<" + cut + lost;
    CutShort(m, "<" + cut, lost, level, width);
  }

  lemma CutNameParts()
    ensures "a:b" + "-c" == "a:b-c" && "<" + "a:b-c" == "<a:b-c" && "<" + "a:b" + "/>" == "<a:b/>"
    ensures GoodName("a:b-c") && !CloserChar('c')
  {
  }

  // ----- which names are meant -----

  predicate AllWord(s: string) {
    s != "" && forall i :: 0 <= i < |s| ==> WordCharacter(s[i])
  }

  /** Two words with a colon between them. */
  predicate TwoWords(s: string) {
    exists i :: 0 < i < |s| - 1 && Colon(s, i)
  }

  predicate Colon(s: string, i: int)
    requires 0 <= i < |s|
  {
    s[i] == ':' && AllWord(s[..i]) && AllWord(s[i + 1..])
  }

  /** The name, without a first character that the expression takes for part of the bracket. */
  function NameCore(m: Markup): string
    requires m.Tag? && m.name != ""
  {
    if m.kind != Closing && !WordCharacter(m.name[0]) then m.name[1..] else m.name
  }

  lemma AllWordExactly(s: string)
    ensures AllWord(s) <==> s != "" && WordLen(s) == |s|
  {
    hide IsWord, WordCharacter, WordLen;
    forall i | 0 <= i < |s|
      ensures IsWord(s[i]) <==> WordCharacter(s[i])
    {
      WordExactly(s[i]);
    }
    assert WordLen(s) < |s| ==> !IsWord(s[WordLen(s)]);
  }

  lemma PrefixedExactly(s: string)
    ensures s != "" && PrefixedLen(s) == |s| <==> TwoWords(s)
  {
    hide IsWord, WordCharacter, AllWord, WordLen;
    var k := WordLen(s);
    if s != "" && PrefixedLen(s) == |s| {
      AllWordExactly(s[..k]);
      AllWordExactly(s[k + 1..]);
      assert WordLen(s[..k]) == k by { WordRun(s[..k], k); }
      assert Colon(s, k);
    }
    if i :| 0 < i < |s| - 1 && Colon(s, i) {
      AllWordExactly(s[..i]);
      AllWordExactly(s[i + 1..]);
      assert forall j :: 0 <= j < i ==> s[j] == s[..i][j];
      WordExactly(s[i]);
      ColonIsNone();
      WordRun(s, i);
    }
  }

  lemma ColonIsNone()
    ensures !IsWord(':')
  {
  }

  lemma WordRun(s: string, k: nat)
    requires k <= |s| && (forall i :: 0 <= i < k ==> IsWord(s[i])) && (k == |s| || !IsWord(s[k]))
    ensures WordLen(s) == k
  {
    hide IsWord, WordLen;
    var n := WordLen(s);
    assert n < |s| ==> !IsWord(s[n]);
  }

  /** A name is kept whole by the first expression exactly if it is two words with a colon between them. */
  lemma FullNameExactly(m: Markup)
    requires Legal(m) && m.Tag?
    ensures m.name != "" && (FullName(m) <==> TwoWords(NameCore(m)))
  {
    hide IsWord, WordCharacter, PrefixedLen, TwoWords;
    SlashHasNoAngles(m);
    WordExactly(m.name[0]);
    SlashIsNone();
    PrefixedExactly(NameCore(m));
    var h := Head(m);
    assert h[1] == if m.kind == Closing then '/' else m.name[0];
    var skip := if !IsWord(h[1]) then 2 else 1;
    assert h[skip..] == NameCore(m);
  }

  lemma SlashIsNone()
    ensures !IsWord('/')
  {
  }

  /** An underscore is part of a word: `<a:b_c x="1"/>` can be printed. */
  lemma UnderscoreExample()
    ensures var m := Tag(SelfClosing, "a:b_c", [Attr(" ", "x", "1")], "");
            Legal(m) && FullName(m) && Printable(m)
  {
    var m := Tag(SelfClosing, "a:b_c", [Attr(" ", "x", "1")], "");
    UnderscoreLegal();
    UnderscoreWords();
    hide Legal, TwoWords, FullName, WordCharacter;
    FullNameExactly(m);
    FullNameKept(m);
  }

  lemma UnderscoreLegal()
    ensures Legal(Tag(SelfClosing, "a:b_c", [Attr(" ", "x", "1")], ""))
    ensures OneLine(Tag(SelfClosing, "a:b_c", [Attr(" ", "x", "1")], ""))
  {
  }

  lemma UnderscoreWords()
    ensures NameCore(Tag(SelfClosing, "a:b_c", [Attr(" ", "x", "1")], "")) == "a:b_c" && TwoWords("a:b_c")
  {
    var s := "a:b_c";
    assert s[..1] == "a" && s[2..] == "b_c";
    WordCharacters();
    hide WordCharacter;
    assert AllWord("a") && AllWord("b_c");
    assert Colon(s, 1);
  }

  lemma WordCharacters()
    ensures WordCharacter('a') && WordCharacter('b') && WordCharacter('c') && WordCharacter('_')
  {
  }

  lemma FullNameKept(m: Markup)
    requires m.Tag? && FullName(m) && OneLine(m)
    ensures Printable(m)
  {
  }

  /** `<a:b-c/>` is written as `<a:b/>`. */
  lemma CutNameExample(level: int, width: int)
    ensures var m := Tag(SelfClosing, "a:b-c", [], "");
            && Legal(m) && !Survives(m, level, width)
            && LineText(level, Show(m), width, false) == Spaces(level) + "<a:b/>" + "\n"
  {
    hide *;
    CutMatch();
    CutNameParts();
    CutTag("a:b", "-c", level, width);
  }

  lemma CutMatch()
    ensures ElemStartLen("<a:b-c") == 4
  {
    var p := "a:b-c";
    assert "<a:b-c"[1..] == p;
    assert p[1..] == ":b-c" && p[2..] == "b-c" && "b-c"[1..] == "-c";
    assert WordLen(":b-c") == 0 && WordLen("-c") == 0;
    assert WordLen(p) == 1 && WordLen("b-c") == 1;
  }

  lemma BrokenTag(name: string, a: Attr, level: int, width: int)
    requires GoodName(name) && GoodAttr(a) && '\n' in a.value && ElemStartLen("<" + name) == 1 + |name|
    ensures var m := Tag(SelfClosing, name, [a], ""); Legal(m) && !Survives(m, level, width)
  {
    hide GoodName, GoodAttr, ElemStartLen, Survives, Show;
    var m := Tag(SelfClosing, name, [a], "");
    assert Head(m) == "<" + "" + name == "<" + name;
    assert m.attrs[0] == a;
    SurvivesExactly(m, level, width);
  }

  lemma BrokenParts()
    ensures GoodName("a:b") && GoodAttr(Attr(" ", "c", "1\n2")) && "1\n2"[1] == '\n' && "<" + "a:b" == "<a:b"
  {
  }

  lemma BrokenValue()
    ensures '\n' in "1\n2"
  {
    assert "1\n2"[1] == '\n';
  }

  /** `<a:b c="1...` with a line break in the value does not survive. */
  lemma LineBreakExample(level: int, width: int)
    ensures var m := Tag(SelfClosing, "a:b", [Attr(" ", "c", "1\n2")], ""); Legal(m) && !Survives(m, level, width)
  {
    hide *;
    FullMatch();
    BrokenParts();
    BrokenValue();
    BrokenTag("a:b", Attr(" ", "c", "1\n2"), level, width);
  }

  lemma FullMatch()
    ensures ElemStartLen("<a:b") == 4
  {
    var p := "a:b";
    assert "<a:b"[1..] == p;
    assert p[1..] == ":b" && p[2..] == "b" && "b"[1..] == "";
    assert WordLen(":b") == 0;
    assert WordLen(p) == 1 && WordLen("b") == 1;
  }
}
