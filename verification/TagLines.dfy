/** What `_pprint_line` does to a tag: the regular expressions take a prefixed tag apart into its name,
    its attributes and its closer, and the wrapping only changes the white space between them
    (packages/addons/official/driver/hdhomerun/source/resources/lib/xmlpp.py). */
module TagLines {
  import opened Basics
  import opened Text
  import opened XmlMarkup
  import opened LinePrinter

  // ----- the greedy wrapping bound -----

  /** Characters written since the last line break. */
  function Column(s: string): nat {
    if s == "" || s[|s| - 1] == '\n' then 0 else 1 + Column(s[..|s| - 1])
  }

  lemma {:induction false} ColumnAppend(a: string, b: string)
    requires '\n' !in b
    ensures Column(a + b) == Column(a) + |b|
  {
    if b == "" {
      assert a + b == a;
    } else {
      assert (a + b)[..|a + b| - 1] == a + b[..|b| - 1];
      assert (a + b)[|a + b| - 1] == b[|b| - 1];
      ColumnAppend(a, b[..|b| - 1]);
    }
  }

  lemma ColumnBreak(a: string, b: string)
    requires '\n' !in b
    ensures Column(a + "\n" + b) == |b|
  {
    ColumnAppend(a + "\n", b);
  }

  /** The running count `number_chars` when attribute `i` is about to be considered. */
  function Tracked(attrs: seq<string>, i: nat, base: nat, closer: string, width: int): int
    requires i <= |attrs|
  {
    if i == 0 then base
    else
      var c := Reserved(attrs, i - 1, Tracked(attrs, i - 1, base, closer, width), closer);
      if c + |attrs[i - 1]| + 1 > width then base + 1 + |attrs[i - 1]| else c + 1 + |attrs[i - 1]|
  }

  lemma {:induction false} LeadsFrom(attrs: seq<string>, i: nat, base: nat, closer: string, width: int)
    requires i <= |attrs|
    ensures Leads(attrs, 0, base, base, closer, width)[i..]
            == Leads(attrs, i, Tracked(attrs, i, base, closer, width), base, closer, width)
  {
    hide Leads, IndexOf;
    if i > 0 {
      LeadsFrom(attrs, i - 1, base, closer, width);
      LeadsStep(attrs, i - 1, Tracked(attrs, i - 1, base, closer, width), base, closer, width);
      var all := Leads(attrs, 0, base, base, closer, width);
      assert all[i..] == all[i - 1..][1..];
    }
  }

  /** What is written in front of attribute `i` depends only on the count at that point. */
  lemma LeadAt(attrs: seq<string>, i: nat, base: nat, closer: string, width: int)
    requires i < |attrs|
    ensures Leads(attrs, 0, base, base, closer, width)[i]
            == if Reserved(attrs, i, Tracked(attrs, i, base, closer, width), closer) + |attrs[i]| + 1 > width
               then "\n" + Spaces(base + 1) else " "
  {
    LeadsFrom(attrs, i, base, closer, width);
    LeadsStep(attrs, i, Tracked(attrs, i, base, closer, width), base, closer, width);
    var all := Leads(attrs, 0, base, base, closer, width);
    assert all[i] == all[i..][0];
  }

  /** The output line of a wrapped tag up to attribute `i`. */
  function Before(head: string, attrs: seq<string>, i: nat, closer: string, width: int): string
    requires i <= |attrs|
  {
    head + Weave(Leads(attrs, 0, |head|, |head|, closer, width)[..i], attrs[..i])
  }

  lemma BeforeStep(head: string, attrs: seq<string>, i: nat, closer: string, width: int)
    requires i < |attrs|
    ensures Before(head, attrs, i + 1, closer, width)
            == Before(head, attrs, i, closer, width)
               + Leads(attrs, 0, |head|, |head|, closer, width)[i] + attrs[i]
  {
    WeaveStep(head, Leads(attrs, 0, |head|, |head|, closer, width), attrs, i);
  }

  predicate LineFree(attrs: seq<string>) {
    forall i :: 0 <= i < |attrs| ==> '\n' !in attrs[i]
  }

  lemma IndexOfDistinct(attrs: seq<string>, i: nat)
    requires Distinct(attrs) && i < |attrs|
    ensures IndexOf(attrs, attrs[i]) == i
  {
  }

  /** The column after a break or a space and one more attribute. */
  lemma AfterOne(line: string, indent: nat, attr: string)
    requires '\n' !in attr
    ensures Column(line + " " + attr) == Column(line) + 1 + |attr|
    ensures Column(line + ("\n" + Spaces(indent)) + attr) == indent + |attr|
  {
    ColumnAppend(line, " ");
    ColumnAppend(line + " ", attr);
    Assoc(line, "\n", Spaces(indent));
    ColumnBreak(line, Spaces(indent));
    ColumnAppend(line + ("\n" + Spaces(indent)), attr);
  }

  lemma BeforeAny(head: string, attrs: seq<string>, closer: string, width: int)
    requires '\n' !in head
    ensures Before(head, attrs, 0, closer, width) == head && Tracked(attrs, 0, |head|, closer, width) == Column(head)
  {
    assert Before(head, attrs, 0, closer, width) == "" + head == head;
    ColumnAppend("", head);
  }

  lemma OnLine(attrs: seq<string>, i: nat)
    requires LineFree(attrs) && i < |attrs|
    ensures '\n' !in attrs[i]
  {
  }

  /** Only the last attribute reserves room for the closer. */
  lemma TrackedStep(attrs: seq<string>, k: nat, base: nat, closer: string, width: int)
    requires k + 1 < |attrs| && IndexOf(attrs, attrs[k]) == k
    ensures Reserved(attrs, k, Tracked(attrs, k, base, closer, width), closer) == Tracked(attrs, k, base, closer, width)
    ensures Tracked(attrs, k + 1, base, closer, width)
            == if Tracked(attrs, k, base, closer, width) + |attrs[k]| + 1 > width then base + 1 + |attrs[k]|
               else Tracked(attrs, k, base, closer, width) + 1 + |attrs[k]|
  {
  }

  /** `number_chars` is the true column of the output whenever an attribute is considered. */
  lemma {:induction false} CountIsColumn(head: string, attrs: seq<string>, i: nat, closer: string, width: int)
    requires i < |attrs| && Distinct(attrs) && LineFree(attrs) && '\n' !in head
    ensures Tracked(attrs, i, |head|, closer, width) == Column(Before(head, attrs, i, closer, width))
  {
    hide *;
    if i == 0 {
      BeforeAny(head, attrs, closer, width);
    } else {
      var k := i - 1;
      CountIsColumn(head, attrs, k, closer, width);
      IndexOfDistinct(attrs, k);
      LeadAt(attrs, k, |head|, closer, width);
      BeforeStep(head, attrs, k, closer, width);
      OnLine(attrs, k);
      AfterOne(Before(head, attrs, k, closer, width), |head| + 1, attrs[k]);
      TrackedStep(attrs, k, |head|, closer, width);
    }
  }

  /** What follows attribute `i` on its line for sure. */
  function Tail(attrs: seq<string>, i: nat, closer: string): string {
    if i + 1 == |attrs| then closer else ""
  }

  /** Greedy wrapping: an attribute put on the current line keeps that line, closer included, within the
      width; a line is broken only where the attribute would not have fitted. */
  lemma GreedyWrapping(head: string, attrs: seq<string>, i: nat, closer: string, width: int)
    requires i < |attrs| && Distinct(attrs) && LineFree(attrs) && '\n' !in head && '\n' !in closer
    ensures var line := Before(head, attrs, i, closer, width);
            var lead := Leads(attrs, 0, |head|, |head|, closer, width)[i];
            && (lead == " " || lead == "\n" + Spaces(|head| + 1))
            && (lead == " " ==> Column(line + lead + attrs[i] + Tail(attrs, i, closer)) <= width)
            && (lead != " " ==> Column(line + " " + attrs[i] + Tail(attrs, i, closer)) > width)
  {
    var line := Before(head, attrs, i, closer, width);
    CountIsColumn(head, attrs, i, closer, width);
    IndexOfDistinct(attrs, i);
    LeadAt(attrs, i, |head|, closer, width);
    AfterOne(line, |head| + 1, attrs[i]);
    ColumnAppend(line + " " + attrs[i], Tail(attrs, i, closer));
  }

  // ----- the regular expressions on a tag -----

  /** A tag up to the end of its name. */
  function Head(m: Markup): string
    requires m.Tag?
  {
    "<" + Slash(m.kind) + m.name
  }

  /** Everything after the name. */
  function Rest(m: Markup): string
    requires m.Tag?
  {
    ShowAttrs(m.attrs) + m.tail + Closer(m.kind)
  }

  /** The name sends the tag to the wrapping branch: it begins like `prefix:name`. */
  predicate Prefixed(m: Markup) {
    m.Tag? && ElemStartLen(Head(m)) > 0
  }

  /** The name is `prefix:name` in word characters and nothing else. */
  predicate FullName(m: Markup) {
    m.Tag? && ElemStartLen(Head(m)) == |Head(m)|
  }

  predicate OneLine(m: Markup) {
    m.Tag? && forall i :: 0 <= i < |m.attrs| ==> '\n' !in m.attrs[i].value
  }

  /** The name does not look like `prefix:name`, or it is that and nothing more, or what is left of it is
      taken for a part of the closer, with nothing in between. */
  predicate NameKept(m: Markup)
    requires m.Tag?
  {
    || !Prefixed(m)
    || FullName(m)
    || (m.attrs == [] && m.tail == "" &&
        forall i :: ElemStartLen(Head(m)) <= i < |Head(m)| ==> CloserChar(Head(m)[i]))
  }

  /** Markups the line printer is meant for. */
  predicate Printable(m: Markup) {
    match m
    case Tag(_, _, _, _) => NameKept(m) && (Prefixed(m) ==> OneLine(m))
    case Comment(_) => true
    case CData(_) => true
    case Instruction(_) => ElemStart(Show(m)).None? || Bare(Show(m))
  }

  /** A line that is `prefix:name` behind a bracket, and a closer: nothing is there to be lost or laid out. */
  predicate Bare(line: string) {
    var n := ElemStartLen(line);
    0 < n < |line| && line[|line| - 1] == '>' && forall i :: n <= i < |line| - 1 ==> CloserChar(line[i])
  }

  lemma HeadRest(m: Markup)
    requires m.Tag?
    ensures Show(m) == Head(m) + Rest(m)
  {
  }

  lemma {:induction false} WordAll(s: string)
    requires forall i :: 0 <= i < |s| ==> IsWord(s[i])
    ensures WordLen(s) == |s|
  {
    if s != "" { WordAll(s[1..]); }
  }

  lemma {:induction false} WordLenFrame(a: string, b: string)
    requires b == "" || !IsWord(b[0])
    ensures WordLen(a + b) == WordLen(a)
  {
    if a == "" {
      assert a + b == b;
    } else {
      assert (a + b)[1..] == a[1..] + b;
      WordLenFrame(a[1..], b);
    }
  }

  lemma PrefixedLenFrame(a: string, b: string)
    requires b == "" || (!IsWord(b[0]) && b[0] != ':')
    ensures PrefixedLen(a + b) == PrefixedLen(a)
  {
    WordLenFrame(a, b);
    var k := WordLen(a);
    if k < |a| {
      assert (a + b)[k + 1..] == a[k + 1..] + b;
      WordLenFrame(a[k + 1..], b);
    }
  }

  lemma ElemStartLenFrame(a: string, b: string)
    requires |a| > 1 && (b == "" || (!IsWord(b[0]) && b[0] != ':'))
    ensures ElemStartLen(a + b) == ElemStartLen(a)
  {
    var skip := if !IsWord(a[1]) then 2 else 1;
    assert (a + b)[skip..] == a[skip..] + b;
    PrefixedLenFrame(a[skip..], b);
  }

  lemma NoBracketNoStart(s: string)
    requires '<' !in s
    ensures ElemStart(s) == None
  {
  }

  /** A name ends where white space, a slash or a bracket begins. */
  lemma RestStart(m: Markup)
    requires Legal(m) && m.Tag?
    ensures Rest(m) != "" && !IsWord(Rest(m)[0]) && Rest(m)[0] != ':'
    ensures m.attrs != [] ==> IsSpace(Rest(m)[0])
  {
    if m.attrs != [] {
      assert GoodAttr(m.attrs[0]);
      assert Rest(m)[0] == m.attrs[0].lead[0];
    } else {
      assert Rest(m) == m.tail + Closer(m.kind);
      assert m.tail != "" ==> Rest(m)[0] == m.tail[0];
    }
  }

  /** No character of a name is blank or one that means something in a tag. */
  lemma NameIsPlain(name: string, i: nat)
    requires GoodName(name) && i < |name|
    ensures !IsBlank(name[i]) && name[i] != '<' && name[i] != '>' && name[i] != '=' && name[i] != '"'
  {
    hide IsBlank;
    assert NameChar(name[i]);
  }

  lemma HeadShape(m: Markup)
    requires Legal(m) && m.Tag?
    ensures |Head(m)| > 1 && Head(m)[0] == '<' && NoAngles(Head(m)[1..]) && '=' !in Head(m) && '"' !in Head(m)
    ensures forall i :: 0 <= i < |Head(m)| ==> !IsBlank(Head(m)[i])
  {
    hide GoodAttrs, XmlSpace, GoodName;
    assert m.name != "" by { SlashHasNoAngles(m); }
    var h, k := Head(m), |"<" + Slash(m.kind)|;
    forall i | 0 <= i < |h|
      ensures !IsBlank(h[i]) && (i > 0 ==> h[i] != '<') && h[i] != '>' && h[i] != '=' && h[i] != '"'
    {
      if i >= k { NameIsPlain(m.name, i - k); }
    }
  }

  /** The first expression finds the tag's name, or as much of it as is `prefix:name`. */
  lemma ElemStartOfTag(m: Markup)
    requires Legal(m) && m.Tag?
    ensures ElemStart(Show(m)) == if Prefixed(m) then Some(Head(m)[..ElemStartLen(Head(m))]) else None
  {
    hide ElemStartLen, Head, Rest, Show, Legal;
    HeadRest(m);
    HeadShape(m);
    RestStart(m);
    ElemStartLenFrame(Head(m), Rest(m));
    var t := Show(m);
    if !Prefixed(m) {
      var inner := ShowTagShape(m);
      assert t[1..] == inner + ">";
      NoBracketNoStart(inner + ">");
    } else {
      assert t[..ElemStartLen(t)] == Head(m)[..ElemStartLen(t)];
    }
  }

  lemma RunStartIs(s: string, n: nat, k: nat)
    requires k <= n <= |s|
    requires forall i :: k <= i < n ==> CloserChar(s[i])
    requires k > 0 ==> !CloserChar(s[k - 1])
    ensures RunStart(s, n) == k
  {
  }

  lemma ElemFinishedIs(before: string, closer: string)
    requires closer != "" && closer[|closer| - 1] == '>' && '>' !in before
    requires forall i :: 0 <= i < |closer| - 1 ==> CloserChar(closer[i])
    requires before != "" && !CloserChar(before[|before| - 1])
    ensures ElemFinished(before + closer) == Some(closer)
  {
    var t := before + closer;
    FindChar(t, '>', |t| - 1);
    RunStartIs(t, |t| - 1, |before|);
    assert t[|before|..|t|] == closer;
  }

  lemma PrefixedEndsInWord(p: string)
    requires PrefixedLen(p) > 0
    ensures PrefixedLen(p) > 2 && IsWord(p[PrefixedLen(p) - 1])
  {
    hide IsWord, WordLen;
    var k := WordLen(p);
    var rest := p[k + 1..];
    var w := WordLen(rest);
    assert IsWord(rest[w - 1]) && rest[w - 1] == p[k + w];
  }

  /** A match of the name expression ends in a word character. */
  lemma MatchEndsInWord(s: string)
    requires ElemStartLen(s) > 0
    ensures ElemStartLen(s) > 3 && IsWord(s[ElemStartLen(s) - 1])
  {
    hide IsWord, PrefixedLen;
    var skip := if !IsWord(s[1]) then 2 else 1;
    var p := s[skip..];
    PrefixedEndsInWord(p);
    assert p[PrefixedLen(p) - 1] == s[ElemStartLen(s) - 1];
  }

  lemma WordIsPlain(c: char)
    requires IsWord(c)
    ensures !CloserChar(c) && !IsBlank(c)
  {
  }

  /** The second expression finds the closer. */
  lemma ElemFinishedOfTag(m: Markup)
    requires Legal(m) && FullName(m)
    ensures ElemFinished(Show(m)) == Some(Closer(m.kind))
  {
    HeadShape(m);
    BeforeCloser(m);
    ElemFinishedIs(Head(m) + ShowAttrs(m.attrs) + m.tail, Closer(m.kind));
    assert Show(m) == Head(m) + ShowAttrs(m.attrs) + m.tail + Closer(m.kind);
  }

  /** In front of the closer stands no bracket and no closer character. */
  lemma BeforeCloser(m: Markup)
    requires Legal(m) && FullName(m)
    ensures var before := Head(m) + ShowAttrs(m.attrs) + m.tail;
            '>' !in before && before != "" && !CloserChar(before[|before| - 1])
  {
    hide ElemStartLen, GoodAttrs, GoodName, XmlSpace, IsWord, CloserChar, Head, NoAngles;
    HeadShape(m);
    ShowAttrsShape(m.attrs);
    MatchEndsInWord(Head(m));
    WordIsPlain(Head(m)[|Head(m)| - 1]);
    NoCloseInHead(m);
    TailPlain(m.tail);
    QuotePlain(ShowAttrs(m.attrs));
    LastOf(Head(m), ShowAttrs(m.attrs));
    LastOf(Head(m) + ShowAttrs(m.attrs), m.tail);
  }

  lemma TailPlain(tail: string)
    requires XmlSpace(tail)
    ensures '>' !in tail && (tail != "" ==> !CloserChar(tail[|tail| - 1]))
  {
    assert forall i :: 0 <= i < |tail| ==> IsXmlSpace(tail[i]);
  }

  lemma QuotePlain(s: string)
    requires NoAngles(s)
    ensures '>' !in s && !CloserChar('"')
  {
  }

  lemma LastOf(a: string, b: string)
    ensures a + b != "" ==> (a + b)[|a + b| - 1] == if b != "" then b[|b| - 1] else a[|a| - 1]
  {
  }

  lemma NoCloseInHead(m: Markup)
    requires Legal(m) && m.Tag?
    ensures '>' !in Head(m)
  {
    HeadShape(m);
    assert Head(m) == "<" + Head(m)[1..];
  }

  // ----- the attribute expression -----

  function Shown(attrs: seq<Attr>): (shown: seq<string>)
    ensures |shown| == |attrs|
    ensures forall i :: 0 <= i < |attrs| ==> shown[i] == ShowAttr(attrs[i])
  {
    if attrs == [] then [] else [ShowAttr(attrs[0])] + Shown(attrs[1..])
  }

  lemma {:induction false} QuoteLenIs(v: string, rest: string)
    requires '"' !in v && '\n' !in v
    ensures QuoteLen(v + "\"" + rest) == |v| + 1
  {
    var s := v + "\"" + rest;
    if v != "" {
      assert s[1..] == v[1..] + "\"" + rest;
      QuoteLenIs(v[1..], rest);
    }
  }

  predicate AttrNameChars(n: string) {
    forall i :: 0 <= i < |n| ==> !IsSpace(n[i]) && n[i] != '='
  }

  lemma {:induction false} AttrLenIs(n: string, v: string, rest: string)
    requires AttrNameChars(n) && '"' !in v && '\n' !in v
    ensures AttrLen(n + ("=\"" + v + "\"" + rest)) == |n| + |v| + 3
  {
    var s := n + ("=\"" + v + "\"" + rest);
    if n == "" {
      assert s[2..] == v + "\"" + rest;
      QuoteLenIs(v, rest);
    } else {
      assert s[1..] == n[1..] + ("=\"" + v + "\"" + rest);
      AttrLenIs(n[1..], v, rest);
    }
  }

  lemma {:induction false} AttrLenNone(n: string, rest: string)
    requires AttrNameChars(n) && rest != "" && IsSpace(rest[0])
    ensures AttrLen(n + rest) == -1
  {
    if n == "" {
      assert n + rest == rest;
    } else {
      assert (n + rest)[1..] == n[1..] + rest;
      AttrLenNone(n[1..], rest);
    }
  }

  /** No attribute starts in a stretch without `=` that is followed by white space. */
  lemma {:induction false} AttrsSkip(n: string, rest: string)
    requires AttrNameChars(n) && rest != "" && IsSpace(rest[0])
    ensures Attrs(n + rest) == Attrs(rest)
  {
    if n == "" {
      assert n + rest == rest;
    } else {
      AttrLenNone(n, rest);
      assert (n + rest)[1..] == n[1..] + rest;
      AttrsSkip(n[1..], rest);
    }
  }

  lemma {:induction false} AttrsLead(lead: string, rest: string)
    requires forall i :: 0 <= i < |lead| ==> IsSpace(lead[i])
    ensures Attrs(lead + rest) == Attrs(rest)
  {
    if lead == "" {
      assert lead + rest == rest;
    } else {
      assert (lead + rest)[1..] == lead[1..] + rest;
      AttrsLead(lead[1..], rest);
    }
  }

  lemma {:induction false} NoEquals(s: string)
    requires '=' !in s
    ensures AttrLen(s) == -1 && Attrs(s) == []
  {
    if s != "" { NoEquals(s[1..]); }
  }

  lemma GoodAttrChars(a: Attr)
    requires GoodAttr(a)
    ensures AttrNameChars(a.name) && forall i :: 0 <= i < |a.lead| ==> IsSpace(a.lead[i])
  {
    forall i | 0 <= i < |a.name|
      ensures !IsSpace(a.name[i]) && a.name[i] != '='
    {
      assert NameChar(a.name[i]);
    }
    assert forall i :: 0 <= i < |a.lead| ==> IsXmlSpace(a.lead[i]);
  }

  lemma AttrsOne(a: Attr, rest: string)
    requires GoodAttr(a) && '\n' !in a.value
    ensures Attrs(a.lead + ShowAttr(a) + rest) == [ShowAttr(a)] + Attrs(rest)
  {
    hide *;
    GoodAttrChars(a);
    GoodValue(a);
    ShowAttrParts(a, rest);
    Assoc(a.lead, ShowAttr(a), rest);
    AttrsLead(a.lead, ShowAttr(a) + rest);
    AttrLenIs(a.name, a.value, rest);
    AttrsStep(ShowAttr(a), rest);
  }

  lemma GoodValue(a: Attr)
    requires GoodAttr(a)
    ensures '"' !in a.value && a.name != ""
  {
  }

  lemma ShowAttrParts(a: Attr, rest: string)
    ensures ShowAttr(a) + rest == a.name + ("=\"" + a.value + "\"" + rest) && |ShowAttr(a)| == |a.name| + |a.value| + 3
  {
  }

  lemma AttrsStep(first: string, rest: string)
    requires first != "" && AttrLen(first + rest) == |first|
    ensures Attrs(first + rest) == [first] + Attrs(rest)
  {
    assert (first + rest)[..|first|] == first && (first + rest)[|first|..] == rest;
  }

  lemma {:induction false} AttrsOfList(attrs: seq<Attr>, end: string)
    requires GoodAttrs(attrs) && '=' !in end
    requires forall i :: 0 <= i < |attrs| ==> '\n' !in attrs[i].value
    ensures Attrs(ShowAttrs(attrs) + end) == Shown(attrs)
  {
    if attrs == [] {
      assert ShowAttrs(attrs) + end == end;
      NoEquals(end);
    } else {
      var a := attrs[0];
      var rest := ShowAttrs(attrs[1..]) + end;
      assert GoodAttr(a);
      assert ShowAttrs(attrs) + end == a.lead + ShowAttr(a) + rest;
      AttrsOne(a, rest);
      AttrsOfList(attrs[1..], end);
    }
  }

  lemma EndHasNoEquals(tail: string, kind: Kind)
    requires XmlSpace(tail)
    ensures '=' !in tail + Closer(kind)
  {
    assert forall i :: 0 <= i < |tail| ==> IsXmlSpace(tail[i]);
  }

  /** The third expression finds exactly the attributes, in order. */
  lemma AttrsOfTag(m: Markup)
    requires Legal(m) && m.Tag? && OneLine(m)
    ensures Attrs(Show(m)) == Shown(m.attrs)
  {
    HeadShape(m);
    RestStart(m);
    EndHasNoEquals(m.tail, m.kind);
    assert AttrNameChars(Head(m));
    hide Show, Head, Rest, Attrs, Shown, NoAngles, IsBlank;
    HeadRest(m);
    RestIs(m);
    var end := m.tail + Closer(m.kind);
    if m.attrs == [] {
      assert "" + end == end;
      NoEquals(Head(m) + end);
      NoneShown();
    } else {
      AttrsSkip(Head(m), Rest(m));
      AttrsOfList(m.attrs, end);
    }
  }

  lemma RestIs(m: Markup)
    requires m.Tag?
    ensures Rest(m) == ShowAttrs(m.attrs) + (m.tail + Closer(m.kind))
  {
  }

  lemma NoneShown()
    ensures Shown([]) == [] && ShowAttrs([]) == ""
  {
  }

  // ----- the printed tag -----

  function WithLeads(attrs: seq<Attr>, leads: seq<string>): (r: seq<Attr>)
    requires |attrs| == |leads|
    ensures |r| == |attrs|
    ensures forall i :: 0 <= i < |attrs| ==> r[i] == attrs[i].(lead := leads[i])
  {
    if attrs == [] then [] else [attrs[0].(lead := leads[0])] + WithLeads(attrs[1..], leads[1..])
  }

  lemma {:induction false} WeaveShow(attrs: seq<Attr>, leads: seq<string>)
    requires |attrs| == |leads|
    ensures Weave(leads, Shown(attrs)) == ShowAttrs(WithLeads(attrs, leads))
  {
    if attrs != [] {
      WeaveShow(attrs[1..], leads[1..]);
    }
  }

  /** A markup as it stands in the output: a prefixed tag gets new white space between its attributes
      and none before its closer; everything else stays as it is. */
  function Relaid(m: Markup, level: int, width: int): Markup {
    if Prefixed(m) then
      var base := |Spaces(level) + Head(m)|;
      m.(attrs := WithLeads(m.attrs, Leads(Shown(m.attrs), 0, base, base, Closer(m.kind), width)), tail := "")
    else m
  }

  lemma NotBlankLine(m: Markup)
    ensures Strip(Show(m)) != ""
  {
    StripBlank(Show(m));
    assert Show(m)[0] == '<';
  }

  lemma WrappedTag(m: Markup, level: int, width: int)
    requires Prefixed(m)
    ensures Wrapped(Spaces(level) + Head(m), Shown(m.attrs), Closer(m.kind), width)
            == Spaces(level) + Show(Relaid(m, level, width))
  {
    hide Leads, Weave, WithLeads, ShowAttrs, Spaces, ElemStartLen, Shown;
    var head := Spaces(level) + Head(m);
    var leads := Leads(Shown(m.attrs), 0, |head|, |head|, Closer(m.kind), width);
    WeaveShow(m.attrs, leads);
    var a := ShowAttrs(WithLeads(m.attrs, leads));
    assert Show(Relaid(m, level, width)) == Head(m) + a + "" + Closer(m.kind);
    assert head + a + Closer(m.kind) == Spaces(level) + (Head(m) + a + "" + Closer(m.kind));
  }

  /** XML allows an attribute name once in a tag. */
  predicate DistinctNames(attrs: seq<Attr>) {
    forall i, j :: 0 <= i < j < |attrs| ==> attrs[i].name != attrs[j].name
  }

  /** A name ends at its `=`, so attributes with different names look different. */
  lemma DifferentNames(a: Attr, b: Attr)
    requires GoodName(a.name) && GoodName(b.name) && ShowAttr(a) == ShowAttr(b)
    ensures a.name == b.name
  {
    var s, t := ShowAttr(a), ShowAttr(b);
    assert s[|a.name|] == '=' && t[|b.name|] == '=';
    assert forall i :: 0 <= i < |a.name| ==> s[i] == a.name[i];
    assert forall i :: 0 <= i < |b.name| ==> t[i] == b.name[i];
    assert |a.name| == |b.name|;
    assert a.name == s[..|a.name|] == b.name;
  }

  lemma ShownDistinct(attrs: seq<Attr>)
    requires GoodAttrs(attrs) && DistinctNames(attrs)
    ensures Distinct(Shown(attrs))
  {
    hide GoodName, ShowAttr;
    forall i, j | 0 <= i < j < |attrs|
      ensures Shown(attrs)[i] != Shown(attrs)[j]
    {
      assert GoodAttr(attrs[i]) && GoodAttr(attrs[j]);
      if ShowAttr(attrs[i]) == ShowAttr(attrs[j]) { DifferentNames(attrs[i], attrs[j]); }
    }
  }

  lemma NameOnLine(name: string)
    requires GoodName(name)
    ensures '\n' !in name
  {
    assert forall i :: 0 <= i < |name| ==> NameChar(name[i]);
  }

  lemma ShownLineFree(m: Markup)
    requires m.Tag? && GoodAttrs(m.attrs) && OneLine(m)
    ensures LineFree(Shown(m.attrs))
  {
    hide GoodName;
    forall i | 0 <= i < |m.attrs|
      ensures '\n' !in ShowAttr(m.attrs[i])
    {
      assert GoodAttr(m.attrs[i]);
      NameOnLine(m.attrs[i].name);
    }
  }

  /** The wrapping of a prefixed tag, attribute by attribute: what stands on the current line with the
      attribute fits the width, closer included, and a line is broken only where it would not have fitted. */
  lemma TagWrapping(m: Markup, level: int, i: nat, width: int)
    requires Legal(m) && m.Tag? && Prefixed(m) && OneLine(m) && DistinctNames(m.attrs) && i < |m.attrs|
    ensures var attrs, head, closer := Shown(m.attrs), Spaces(level) + Head(m), Closer(m.kind);
            var line := Before(head, attrs, i, closer, width);
            var lead := Leads(attrs, 0, |head|, |head|, closer, width)[i];
            && Relaid(m, level, width).attrs[i].lead == lead
            && Tracked(attrs, i, |head|, closer, width) == Column(line)
            && (lead == " " || lead == "\n" + Spaces(|head| + 1))
            && (lead == " " ==> Column(line + lead + attrs[i] + Tail(attrs, i, closer)) <= width)
            && (lead != " " ==> Column(line + " " + attrs[i] + Tail(attrs, i, closer)) > width)
  {
    hide Leads, Before, Tail, Shown, Column, Tracked, Spaces, GoodAttrs, Distinct, LineFree, ElemStartLen, OneLine;
    ShownDistinct(m.attrs);
    ShownLineFree(m);
    NameOnLine(m.name);
    HeadOnLine(m, level);
    GreedyWrapping(Spaces(level) + Head(m), Shown(m.attrs), i, Closer(m.kind), width);
    CountIsColumn(Spaces(level) + Head(m), Shown(m.attrs), i, Closer(m.kind), width);
  }

  lemma HeadOnLine(m: Markup, level: int)
    requires m.Tag? && '\n' !in m.name
    ensures '\n' !in Spaces(level) + Head(m) && '\n' !in Closer(m.kind)
  {
  }

  /** The closer found on a tag is its last `>` with closer characters in front, and reaches back no
      further than the last character that is none. */
  lemma CloserOfTag(m: Markup) returns (closer: string)
    requires Legal(m) && m.Tag?
    ensures ElemFinished(Show(m)) == Some(closer) && closer != ""
    ensures forall i :: 0 <= i < |closer| - 1 ==> CloserChar(closer[i])
    ensures closer[|closer| - 1] == '>'
    ensures |closer| <= |Show(m)| && Show(m)[|Show(m)| - |closer|..] == closer
    ensures forall i :: 0 <= i < |Show(m)| && !CloserChar(Show(m)[i]) && i < |Show(m)| - 1 ==> i < |Show(m)| - |closer|
    ensures |closer| < |Show(m)| ==> !CloserChar(Show(m)[|Show(m)| - |closer| - 1])
  {
    hide Show, Legal, Find, RunStart;
    var t := Show(m);
    var inner := ShowTagShape(m);
    FindChar(t, '>', |t| - 1);
    closer := t[RunStart(t, |t| - 1)..];
    assert t[RunStart(t, |t| - 1)..|t|] == closer;
  }

  lemma WovenStart(leads: seq<string>, attrs: seq<string>)
    requires |leads| == |attrs| && forall i :: 0 <= i < |leads| ==> leads[i] != "" && XmlSpace(leads[i])
    ensures Weave(leads, attrs) != "" ==> IsBlank(Weave(leads, attrs)[0])
  {
    if leads != [] {
      assert IsXmlSpace(leads[0][0]);
      assert Weave(leads, attrs)[0] == leads[0][0];
    }
  }

  /** The line of a tag whose name the first expression cuts at `n`. */
  lemma CutLine(m: Markup, level: int, width: int) returns (woven: string, closer: string)
    requires Legal(m) && Prefixed(m)
    ensures ElemFinished(Show(m)) == Some(closer) && (woven != "" ==> IsBlank(woven[0]))
    ensures LineText(level, Show(m), width, false)
            == Spaces(level) + (Head(m)[..ElemStartLen(Head(m))] + (woven + closer)) + "\n"
    ensures Attrs(Show(m)) == [] ==> woven == ""
  {
    NotBlankLine(m);
    ElemStartOfTag(m);
    closer := CloserOfTag(m);
    var start := Head(m)[..ElemStartLen(Head(m))];
    var base := |Spaces(level) + start|;
    var leads := Leads(Attrs(Show(m)), 0, base, base, closer, width);
    LeadsAreBlank(Attrs(Show(m)), 0, base, base, closer, width);
    WovenStart(leads, Attrs(Show(m)));
    woven := Weave(leads, Attrs(Show(m)));
    Assoc(Spaces(level), start, woven);
    Assoc(Spaces(level), start + woven, closer);
    Assoc(start, woven, closer);
  }

  lemma ShowBareTail(m: Markup)
    requires m.Tag? && m.attrs == []
    ensures Show(m) == Head(m) + m.tail + Closer(m.kind)
  {
    assert ShowAttrs(m.attrs) == "";
    assert Head(m) + "" == Head(m);
  }

  lemma NoCloseIn(a: string, b: string)
    requires '>' !in a + b
    ensures '>' !in a
  {
    assert forall i :: 0 <= i < |a| ==> a[i] == (a + b)[i];
  }

  lemma AllCloser(b: string, kind: Kind)
    requires forall i :: 0 <= i < |b| ==> CloserChar(b[i])
    ensures var c := b + Closer(kind);
            c != "" && c[|c| - 1] == '>' && forall i :: 0 <= i < |c| - 1 ==> CloserChar(c[i])
  {
  }

  /** The rest of a name made of closer characters is found as part of the closer. */
  lemma SwallowedName(m: Markup, a: string, b: string)
    requires Legal(m) && m.Tag? && m.attrs == [] && m.tail == ""
    requires Head(m) == a + b && a != "" && !CloserChar(a[|a| - 1])
    requires forall i :: 0 <= i < |b| ==> CloserChar(b[i])
    ensures Show(m) == a + (b + Closer(m.kind)) && ElemFinished(Show(m)) == Some(b + Closer(m.kind))
  {
    NoCloseInHead(m);
    ShowBareTail(m);
    assert Head(m) + "" == Head(m);
    Assoc(a, b, Closer(m.kind));
    AllCloser(b, m.kind);
    NoCloseIn(a, b);
    ElemFinishedIs(a, b + Closer(m.kind));
  }

  lemma KeptByCloser(m: Markup, woven: string, closer: string)
    requires Legal(m) && Prefixed(m) && m.attrs == [] && m.tail == ""
    requires forall i :: ElemStartLen(Head(m)) <= i < |Head(m)| ==> CloserChar(Head(m)[i])
    requires ElemFinished(Show(m)) == Some(closer) && (Attrs(Show(m)) == [] ==> woven == "")
    ensures Head(m)[..ElemStartLen(Head(m))] + (woven + closer) == Show(m)
  {
    hide Show, Legal, Head, ElemFinished, Attrs, CloserChar, IsWord;
    AttrsOfTag(m);
    assert woven == "";
    var n := ElemStartLen(Head(m));
    MatchEndsInWord(Head(m));
    WordIsPlain(Head(m)[n - 1]);
    SwallowedName(m, Head(m)[..n], Head(m)[n..]);
    assert "" + closer == closer;
  }

  lemma LineOfTag(m: Markup, level: int, width: int)
    requires Legal(m) && m.Tag? && Printable(m)
    ensures LineText(level, Show(m), width, false) == Spaces(level) + Show(Relaid(m, level, width)) + "\n"
  {
    hide Strip, Legal, Show, Spaces, Wrapped, ElemStart, ElemFinished, Attrs;
    NotBlankLine(m);
    ElemStartOfTag(m);
    if FullName(m) {
      ElemFinishedOfTag(m);
      AttrsOfTag(m);
      assert Head(m)[..|Head(m)|] == Head(m);
      WrappedTag(m, level, width);
    } else if Prefixed(m) {
      var woven, closer := CutLine(m, level, width);
      KeptByCloser(m, woven, closer);
      hide LineText;
      NothingToRelay(m, level, width);
    }
  }

  lemma NothingToRelay(m: Markup, level: int, width: int)
    requires m.Tag? && m.attrs == [] && m.tail == ""
    ensures Relaid(m, level, width) == m
  {
  }

  /** Every printable markup comes out on its indentation as itself, up to white space inside the tag. */
  lemma LineOfMark(m: Markup, level: int, width: int)
    requires Legal(m) && Printable(m)
    ensures LineText(level, Show(m), width, m.Comment? || m.CData?)
            == Spaces(level) + Show(Relaid(m, level, width)) + "\n"
  {
    NotBlankLine(m);
    if m.Tag? {
      LineOfTag(m, level, width);
    } else if m.Instruction? && ElemStart(Show(m)).Some? {
      BareLine(Show(m), level, width);
    }
  }

  /** A match holds a bracket, at most one odd character, word characters and a colon. */
  lemma MatchChars(s: string)
    requires ElemStartLen(s) > 0
    ensures forall i :: 2 <= i < ElemStartLen(s) ==> IsWord(s[i]) || s[i] == ':'
    ensures s[0] == '<' && |s| > 1
  {
    var skip := if !IsWord(s[1]) then 2 else 1;
    var p := s[skip..];
    var k := WordLen(p);
    forall i | 2 <= i < ElemStartLen(s)
      ensures IsWord(s[i]) || s[i] == ':'
    {
      assert s[i] == p[i - skip];
      if i - skip > k { assert p[i - skip] == p[k + 1..][i - skip - k - 1]; }
    }
  }

  /** A bare line is written unchanged. */
  lemma BareLine(line: string, level: int, width: int)
    requires Bare(line) && Strip(line) != "" && line[1] != '>' && line[1] != '='
    ensures LineText(level, line, width, false) == Spaces(level) + line + "\n"
  {
    hide *;
    var n := ElemStartLen(line);
    var a, b := line[..n], line[n..];
    BareParts(line);
    assert line == a + b;
    ElemFinishedIs(a, b);
    NoEquals(line);
    BareText(line, a, b, level, width);
  }

  lemma BareParts(line: string)
    requires Bare(line) && line[1] != '>' && line[1] != '='
    ensures var n := ElemStartLen(line);
            && 0 < n < |line| && '=' !in line && '>' !in line[..n] && !CloserChar(line[..n][n - 1])
            && line[n..][|line| - n - 1] == '>' && forall i :: 0 <= i < |line| - n - 1 ==> CloserChar(line[n..][i])
  {
    hide ElemStartLen;
    MatchChars(line);
    MatchEndsInWord(line);
    WordIsPlain(line[ElemStartLen(line) - 1]);
  }

  lemma BareText(line: string, a: string, b: string, level: int, width: int)
    requires Strip(line) != "" && line == a + b && a != "" && |a| == ElemStartLen(line)
    requires ElemFinished(line) == Some(b) && Attrs(line) == []
    ensures LineText(level, line, width, false) == Spaces(level) + line + "\n"
  {
    hide Strip, Spaces, ElemStartLen, Attrs, ElemFinished, Leads;
    assert line[..|a|] == a;
    assert Wrapped(Spaces(level) + a, [], b, width) == Spaces(level) + a + "" + b;
    assert Spaces(level) + a + "" + b == Spaces(level) + line;
  }

  lemma LeadsAreBlank(attrs: seq<string>, i: nat, column: int, base: nat, closer: string, width: int)
    requires i <= |attrs|
    ensures forall k :: 0 <= k < |attrs| - i ==>
              var lead := Leads(attrs, i, column, base, closer, width)[k]; lead != "" && XmlSpace(lead)
    decreases |attrs| - i
  {
  }

  /** The printed markup is as well-formed, as scannable and as printable as the original, and printing it
      again gives the same. */
  lemma RelaidAgain(m: Markup, level: int, width: int)
    requires Legal(m) && Printable(m)
    ensures var r := Relaid(m, level, width);
            && Legal(r) && Printable(r) && (r.Tag? || r == m)
            && Relaid(r, level, width) == r
  {
    if Prefixed(m) {
      var base := |Spaces(level) + Head(m)|;
      var leads := Leads(Shown(m.attrs), 0, base, base, Closer(m.kind), width);
      LeadsAreBlank(Shown(m.attrs), 0, base, base, Closer(m.kind), width);
      var r := Relaid(m, level, width);
      forall i | 0 <= i < |r.attrs|
        ensures GoodAttr(r.attrs[i]) && '\n' !in r.attrs[i].value
      {
        assert GoodAttr(m.attrs[i]) && r.attrs[i] == m.attrs[i].(lead := leads[i]);
      }
      assert Head(r) == Head(m);
      assert Shown(r.attrs) == Shown(m.attrs);
      assert WithLeads(r.attrs, leads) == r.attrs;
    }
  }
}
