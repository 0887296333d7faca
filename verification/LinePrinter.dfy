/** `_pprint_line` and `_pprint_elem_content`: writing one piece of markup or text, and breaking the
    attribute list of a prefixed tag at the width
    (packages/addons/official/driver/hdhomerun/source/resources/lib/xmlpp.py). */
module LinePrinter {
  import opened Basics
  import opened Text

  /** The output stream: `write` appends. */
  class Output {
    var text: string

    constructor ()
      ensures text == ""
    {
      text := "";
    }

    method Write(s: string)
      modifies this
      ensures text == old(text) + s
    {
      text := text + s;
    }
  }

  // ----- the three regular expressions, as the scanners they denote -----

  predicate IsWord(c: char) {
    'a' <= c <= 'z' || 'A' <= c <= 'Z' || '0' <= c <= '9' || c == '_'
  }

  const SMALL_LETTERS := "abcdefghijklmnopqrstuvwxyz"
  const CAPITAL_LETTERS := "ABCDEFGHIJKLMNOPQRSTUVWXYZ"
  const DIGITS := "0123456789"

  /** `\w` without the UNICODE flag, character by character. */
  predicate WordCharacter(c: char) {
    c in SMALL_LETTERS || c in CAPITAL_LETTERS || c in DIGITS || c == '_'
  }

  lemma SmallExactly(c: char)
    ensures c in SMALL_LETTERS <==> 'a' <= c <= 'z'
  {
  }

  lemma CapitalExactly(c: char)
    ensures c in CAPITAL_LETTERS <==> 'A' <= c <= 'Z'
  {
  }

  lemma DigitExactly(c: char)
    ensures c in DIGITS <==> '0' <= c <= '9'
  {
  }

  lemma WordExactly(c: char)
    ensures IsWord(c) <==> WordCharacter(c)
  {
    SmallExactly(c);
    CapitalExactly(c);
    DigitExactly(c);
    hide SMALL_LETTERS, CAPITAL_LETTERS, DIGITS;
  }

  function WordLen(s: string): (n: nat)
    ensures n <= |s|
    ensures forall i :: 0 <= i < n ==> IsWord(s[i])
    ensures n < |s| ==> !IsWord(s[n])
  {
    if s != "" && IsWord(s[0]) then 1 + WordLen(s[1..]) else 0
  }

  /** Length of a match of `\w+:\w+` at the start of `s`, or 0. */
  function PrefixedLen(s: string): (n: nat)
    ensures n <= |s|
  {
    var k := WordLen(s);
    if 0 < k < |s| && s[k] == ':' && WordLen(s[k + 1..]) > 0 then k + 1 + WordLen(s[k + 1..]) else 0
  }

  /** Length of a match of `<\W{0,1}\w+:\w+` at the start of `s`, or 0. */
  function ElemStartLen(s: string): (n: nat)
    ensures n <= |s|
  {
    if s == "" || s[0] != '<' then 0
    else
      var skip := if |s| > 1 && !IsWord(s[1]) then 2 else 1;
      var n := PrefixedLen(s[skip..]);
      if n > 0 then skip + n else 0
  }

  /** The first match of `<\W{0,1}\w+:\w+` anywhere in the line. */
  function ElemStart(s: string): Option<string> {
    if s == "" then None
    else if ElemStartLen(s) > 0 then Some(s[..ElemStartLen(s)])
    else ElemStart(s[1..])
  }

  predicate CloserChar(c: char) {
    c == '?' || c == '|' || c == ']' || c == '/' || c == '-'
  }

  lemma CloserExactly(c: char)
    ensures CloserChar(c) <==> c in "?|]/-"
  {
  }

  /** Start of the run of closer characters that ends just before position `n`. */
  function RunStart(s: string, n: nat): (k: nat)
    requires n <= |s|
    ensures k <= n
    ensures forall i :: k <= i < n ==> CloserChar(s[i])
    ensures k > 0 ==> !CloserChar(s[k - 1])
  {
    if n > 0 && CloserChar(s[n - 1]) then RunStart(s, n - 1) else n
  }

  /** The first match of `[?|\]/-]*>`: the first `>` with the closer characters in front of it. */
  function ElemFinished(s: string): Option<string> {
    var k := Find(s, ">");
    if k == -1 then None else Some(s[RunStart(s, k)..k + 1])
  }

  /** Length up to and including the first `"`, with no newline before it; -1 if there is none. */
  function QuoteLen(s: string): (n: int)
    ensures n == -1 || 0 < n <= |s|
    ensures 0 < n ==> '\n' !in s[..n]
  {
    if s == "" || s[0] == '\n' then -1
    else if s[0] == '"' then 1
    else
      var n := QuoteLen(s[1..]);
      assert n > 0 ==> s[..n + 1] == [s[0]] + s[1..][..n];
      if n == -1 then -1 else n + 1
  }

  /** Length of a match of `\S*?=".*?"` at the start of `s`, or -1. */
  function AttrLen(s: string): (n: int)
    ensures n == -1 || 0 < n <= |s|
    ensures 0 < n ==> '\n' !in s[..n]
  {
    if |s| > 1 && s[0] == '=' && s[1] == '"' && QuoteLen(s[2..]) > 0 then
      assert s[..2 + QuoteLen(s[2..])] == "=\"" + s[2..][..QuoteLen(s[2..])];
      2 + QuoteLen(s[2..])
    else if s != "" && !IsSpace(s[0]) then
      var n := AttrLen(s[1..]);
      assert n > 0 ==> s[..n + 1] == [s[0]] + s[1..][..n];
      if n == -1 then -1 else n + 1
    else -1
  }

  /** All matches of `\S*?=".*?"` in the line, left to right. */
  function Attrs(s: string): (found: seq<string>)
    ensures forall i :: 0 <= i < |found| ==> '\n' !in found[i]
    decreases |s|
  {
    if s == "" then []
    else if AttrLen(s) > 0 then [s[..AttrLen(s)]] + Attrs(s[AttrLen(s)..])
    else Attrs(s[1..])
  }

  // ----- breaking the attribute list -----

  /** `attrs.index(attr)`: the first position that holds an equal string. */
  function IndexOf(attrs: seq<string>, a: string): (k: nat)
    requires a in attrs
    ensures k < |attrs| && attrs[k] == a && forall j :: 0 <= j < k ==> attrs[j] != a
  {
    if attrs[0] == a then 0 else 1 + IndexOf(attrs[1..], a)
  }

  /** What the column is taken to be when attribute `i` is considered: the closer is reserved at the last one. */
  function Reserved(attrs: seq<string>, i: nat, column: int, closer: string): int
    requires i < |attrs|
  {
    column + if IndexOf(attrs, attrs[i]) + 1 == |attrs| then |closer| else 0
  }

  /** What is written in front of attributes `i`, `i + 1`, ...: a space, or a line break and an indent. */
  function Leads(attrs: seq<string>, i: nat, column: int, base: nat, closer: string, width: int): (leads: seq<string>)
    requires i <= |attrs|
    ensures |leads| == |attrs| - i
    decreases |attrs| - i
  {
    if i == |attrs| then []
    else if Reserved(attrs, i, column, closer) + |attrs[i]| + 1 > width then
      ["\n" + Spaces(base + 1)] + Leads(attrs, i + 1, base + 1 + |attrs[i]|, base, closer, width)
    else
      [" "] + Leads(attrs, i + 1, Reserved(attrs, i, column, closer) + 1 + |attrs[i]|, base, closer, width)
  }

  function Weave(leads: seq<string>, attrs: seq<string>): string
    requires |leads| == |attrs|
  {
    if leads == [] then "" else leads[0] + attrs[0] + Weave(leads[1..], attrs[1..])
  }

  function Wrapped(head: string, attrs: seq<string>, closer: string, width: int): string {
    head + Weave(Leads(attrs, 0, |head|, |head|, closer, width), attrs) + closer
  }

  /** What `_pprint_line` writes. */
  function LineText(level: int, line: string, width: int, ignoreContents: bool): string {
    if Strip(line) == "" then ""
    else if !ignoreContents && ElemStart(line).Some? && ElemFinished(line).Some? then
      Wrapped(Spaces(level) + ElemStart(line).value, Attrs(line), ElemFinished(line).value, width) + "\n"
    else Spaces(level) + line + "\n"
  }

  /** What `_pprint_elem_content` writes. */
  function ContentText(level: int, text: string): string {
    if Strip(text) == "" then "" else Spaces(level) + text + "\n"
  }

  lemma SpacesSnoc(n: nat)
    ensures Spaces(n + 1) == Spaces(n) + " "
  {
  }

  lemma {:induction false} WeaveSnoc(leads: seq<string>, attrs: seq<string>, i: nat)
    requires |leads| == |attrs| && i < |leads|
    ensures Weave(leads[..i + 1], attrs[..i + 1]) == Weave(leads[..i], attrs[..i]) + leads[i] + attrs[i]
  {
    if i == 0 {
      assert leads[..1] == [leads[0]] && attrs[..1] == [attrs[0]];
      assert Weave(leads[..1][1..], attrs[..1][1..]) == "";
    } else {
      assert leads[..i + 1][1..] == leads[1..][..i] && attrs[..i + 1][1..] == attrs[1..][..i];
      assert leads[..i][1..] == leads[1..][..i - 1] && attrs[..i][1..] == attrs[1..][..i - 1];
      WeaveSnoc(leads[1..], attrs[1..], i - 1);
    }
  }

  lemma Assoc(a: string, b: string, c: string)
    ensures a + b + c == a + (b + c)
  {
  }

  /** The loops that write `n` spaces one at a time. */
  method WriteSpaces(n: int, output: Output)
    modifies output
    ensures output.text == old(output.text) + Spaces(n)
  {
    var l := 0;
    while l < n
      invariant 0 <= l && (l <= n || l == 0)
      invariant output.text == old(output.text) + Spaces(l)
    {
      output.Write(" ");
      SpacesSnoc(l);
      l := l + 1;
    }
    assert Spaces(l) == Spaces(n);
  }

  /** `_pprint_elem_content`. */
  method PprintElemContent(level: int, line: string, output: Output)
    modifies output
    ensures output.text == old(output.text) + ContentText(level, line)
  {
    if Strip(line) != "" {
      WriteSpaces(level, output);
      output.Write(line + "\n");
      Assoc(old(output.text), Spaces(level), line + "\n");
      Assoc(Spaces(level), line, "\n");
    }
  }

  /** `_pprint_line`. The three matches come before the first write, so a failing one (`IndexError`)
      leaves the output untouched for the plain branch. */
  method PprintLine(level: int, line: string, width: int, output: Output, ignoreContents: bool)
    modifies output
    ensures output.text == old(output.text) + LineText(level, line, width, ignoreContents)
  {
    if Strip(line) != "" {
      var start := "";
      var numberChars := 0;
      while numberChars < level
        invariant 0 <= numberChars && (numberChars <= level || numberChars == 0)
        invariant start == Spaces(numberChars)
        invariant output.text == old(output.text)
      {
        SpacesSnoc(numberChars);
        start := start + " ";
        numberChars := numberChars + 1;
      }
      assert start == Spaces(level);
      if !ignoreContents && ElemStart(line).Some? && ElemFinished(line).Some? {
        PprintAttrs(start + ElemStart(line).value, Attrs(line), ElemFinished(line).value, width, output);
      } else {
        output.Write(start + line + "\n");
      }
    }
  }

  /** The attribute loop of `_pprint_line`, with its running column count. */
  method PprintAttrs(head: string, attrs: seq<string>, closer: string, width: int, output: Output)
    modifies output
    ensures output.text == old(output.text) + (Wrapped(head, attrs, closer, width) + "\n")
  {
    hide *;
    ghost var before := output.text;
    output.Write(head);
    var numberChars := |head|;
    var i := 0;
    ghost var written := head;
    ghost var leads := Leads(attrs, 0, |head|, |head|, closer, width);
    NothingWoven(head, leads, attrs);
    while i < |attrs|
      invariant 0 <= i <= |attrs|
      invariant leads[i..] == Leads(attrs, i, numberChars, |head|, closer, width)
      invariant written == head + Weave(leads[..i], attrs[..i])
      invariant output.text == before + written
    {
      var attr := attrs[i];
      LeadsStep(attrs, i, numberChars, |head|, closer, width);
      ReservedIs(attrs, i, numberChars, closer);
      assert leads[i] == leads[i..][0] && leads[i + 1..] == leads[i..][1..];
      if IndexOf(attrs, attr) + 1 == |attrs| {
        numberChars := numberChars + |closer|;
      }
      if numberChars + |attr| + 1 > width {
        output.Write("\n");
        WriteSpaces(|head| + 1, output);
        Assoc(before + written, "\n", Spaces(|head| + 1));
        numberChars := |head| + 1;
      } else {
        output.Write(" ");
        numberChars := numberChars + 1;
      }
      Assoc(before, written, leads[i]);
      output.Write(attr);
      numberChars := numberChars + |attr|;
      Assoc(before, written + leads[i], attr);
      WeaveSnoc(leads, attrs, i);
      WeaveStep(head, leads, attrs, i);
      written := written + leads[i] + attr;
      i := i + 1;
    }
    assert leads[..i] == leads && attrs[..i] == attrs;
    output.Write(closer + "\n");
    WrappedIs(head, attrs, closer, width);
    Assoc(before, written, closer + "\n");
    Assoc(written, closer, "\n");
  }

  lemma NothingWoven(head: string, leads: seq<string>, attrs: seq<string>)
    requires |leads| == |attrs|
    ensures head == head + Weave(leads[..0], attrs[..0]) && leads[0..] == leads
  {
    assert Weave(leads[..0], attrs[..0]) == "";
  }

  lemma ReservedIs(attrs: seq<string>, i: nat, column: int, closer: string)
    requires i < |attrs|
    ensures Reserved(attrs, i, column, closer)
            == column + if IndexOf(attrs, attrs[i]) + 1 == |attrs| then |closer| else 0
  {
  }

  lemma WrappedIs(head: string, attrs: seq<string>, closer: string, width: int)
    ensures Wrapped(head, attrs, closer, width)
            == head + Weave(Leads(attrs, 0, |head|, |head|, closer, width), attrs) + closer
  {
  }

  lemma WeaveStep(head: string, leads: seq<string>, attrs: seq<string>, i: nat)
    requires |leads| == |attrs| && i < |leads|
    ensures head + Weave(leads[..i + 1], attrs[..i + 1]) == head + Weave(leads[..i], attrs[..i]) + leads[i] + attrs[i]
  {
    WeaveSnoc(leads, attrs, i);
  }

  lemma LeadsStep(attrs: seq<string>, i: nat, column: int, base: nat, closer: string, width: int)
    requires i < |attrs|
    ensures var c := Reserved(attrs, i, column, closer);
            var leads := Leads(attrs, i, column, base, closer, width);
            && (c + |attrs[i]| + 1 > width ==>
                && leads[0] == "\n" + Spaces(base + 1)
                && leads[1..] == Leads(attrs, i + 1, base + 1 + |attrs[i]|, base, closer, width))
            && (c + |attrs[i]| + 1 <= width ==>
                && leads[0] == " "
                && leads[1..] == Leads(attrs, i + 1, c + 1 + |attrs[i]|, base, closer, width))
  {
  }
}
