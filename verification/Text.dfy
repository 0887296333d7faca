/** The Python string operations the programs rely on: `find`, `rfind`, slices with
    negative bounds, `strip`, and the two notions of white space involved. */
module Text {

  /** White space as `unicode.strip` sees it. */
  predicate IsBlank(c: char) {
    || '\U{09}' <= c <= '\U{0d}'
    || '\U{1c}' <= c <= ' '
    || c == '\U{85}' || c == '\U{a0}' || c == '\U{1680}' || c == '\U{180e}'
    || '\U{2000}' <= c <= '\U{200a}'
    || c == '\U{2028}' || c == '\U{2029}' || c == '\U{202f}' || c == '\U{205f}' || c == '\U{3000}'
  }

  /** White space as `\s` sees it in a regular expression without the UNICODE flag. */
  predicate IsSpace(c: char) {
    '\U{09}' <= c <= '\U{0d}' || c == ' '
  }

  /** The 30 characters that Python 2 counts as white space in a `unicode` string, and the six in a `str`. */
  const BLANKS :=
    "\t\n\U{b}\U{c}\r\U{1c}\U{1d}\U{1e}\U{1f} \U{85}\U{a0}\U{1680}\U{180e}"
    + "\U{2000}\U{2001}\U{2002}\U{2003}\U{2004}\U{2005}\U{2006}\U{2007}\U{2008}\U{2009}\U{200a}"
    + "\U{2028}\U{2029}\U{202f}\U{205f}\U{3000}"

  lemma BlankExactly(c: char)
    ensures |BLANKS| == 30 && (IsBlank(c) <==> c in BLANKS)
    ensures IsSpace(c) <==> c in "\t\n\U{b}\U{c}\r "
  {
  }

  predicate AllBlank(s: string) {
    forall i :: 0 <= i < |s| ==> IsBlank(s[i])
  }

  /** Characters that Python 2 writes to a byte file without an encoding. */
  predicate Ascii(s: string) {
    forall i :: 0 <= i < |s| ==> s[i] < '\U{80}'
  }

  lemma AsciiExactly(c: char)
    ensures Ascii([c]) <==> c as int <= 127
  {
    assert [c][0] == c;
  }

  function Spaces(n: int): (s: string)
    ensures |s| == if n <= 0 then 0 else n
    ensures forall i :: 0 <= i < |s| ==> s[i] == ' '
  {
    if n <= 0 then "" else " " + Spaces(n - 1)
  }

  // ----- find and rfind -----

  predicate At(s: string, pat: string, k: int) {
    0 <= k && k + |pat| <= |s| && s[k..k + |pat|] == pat
  }

  /** `pat in s`, as Python means it. */
  predicate Contains(s: string, pat: string) {
    exists k :: 0 <= k <= |s| && At(s, pat, k)
  }

  function FindFrom(s: string, pat: string, i: nat): (k: int)
    requires i <= |s|
    ensures k == -1 || (i <= k && At(s, pat, k))
    decreases |s| - i
  {
    if |s| < i + |pat| then -1
    else if s[i..i + |pat|] == pat then i
    else FindFrom(s, pat, i + 1)
  }

  /** `s.find(pat)`: the first occurrence, or -1. */
  function Find(s: string, pat: string): (k: int)
    ensures k == -1 || At(s, pat, k)
  {
    FindFrom(s, pat, 0)
  }

  lemma {:induction false} FindFromFirst(s: string, pat: string, i: nat, j: int)
    requires i <= |s| && i <= j && At(s, pat, j)
    ensures 0 <= FindFrom(s, pat, i) <= j
    decreases |s| - i
  {
    if s[i..i + |pat|] != pat { FindFromFirst(s, pat, i + 1, j); }
  }

  /** No occurrence comes before the one that is found. */
  lemma FindFirst(s: string, pat: string, j: int)
    requires At(s, pat, j)
    ensures 0 <= Find(s, pat) <= j
  {
    FindFromFirst(s, pat, 0, j);
  }

  /** `find` succeeds exactly if the string contains the pattern, and gives 0 exactly if it starts with it. */
  lemma FindExactly(s: string, pat: string)
    ensures Find(s, pat) >= 0 <==> Contains(s, pat)
    ensures Find(s, pat) == 0 <==> pat <= s
  {
    if Contains(s, pat) {
      var k :| 0 <= k <= |s| && At(s, pat, k);
      FindFirst(s, pat, k);
    }
    if pat <= s {
      assert s[0..|pat|] == pat;
      FindFirst(s, pat, 0);
    }
    if Find(s, pat) == 0 { assert s[0..|pat|] == s[..|pat|]; }
  }

  function RFindBefore(s: string, c: char, n: nat): (k: int)
    requires n <= |s|
    ensures -1 <= k < n
    ensures 0 <= k ==> s[k] == c
    ensures forall j :: 0 <= j && k < j < n ==> s[j] != c
  {
    if n == 0 then -1 else if s[n - 1] == c then n - 1 else RFindBefore(s, c, n - 1)
  }

  /** `s.rfind(c)` for a single character: the last occurrence, or -1. */
  function RFind(s: string, c: char): (k: int)
    ensures -1 <= k < |s|
    ensures 0 <= k ==> s[k] == c
    ensures forall j :: 0 <= j && k < j < |s| ==> s[j] != c
  {
    RFindBefore(s, c, |s|)
  }

  lemma AtChar(s: string, pat: string, k: int, m: nat)
    requires At(s, pat, k) && m < |pat|
    ensures s[k + m] == pat[m]
  {
    assert s[k..k + |pat|][m] == s[k + m];
  }

  lemma AtChars(s: string, pat: string, k: int)
    requires 0 <= k && k + |pat| <= |s| && forall m :: 0 <= m < |pat| ==> s[k + m] == pat[m]
    ensures At(s, pat, k)
  {
    assert s[k..k + |pat|] == pat;
  }

  /** Searching for a single character. */
  lemma FindChar(s: string, c: char, k: int)
    requires -1 <= k < |s|
    requires k == -1 ==> c !in s
    requires 0 <= k ==> s[k] == c && forall j :: 0 <= j < k ==> s[j] != c
    ensures Find(s, [c]) == k
  {
    var r := Find(s, [c]);
    if r >= 0 { AtChar(s, [c], r, 0); }
    if k >= 0 { FindFirst(s, [c], k); }
  }

  // ----- lines -----

  function Unlines(lines: seq<string>): string {
    if lines == [] then "" else lines[0] + "\n" + Unlines(lines[1..])
  }

  lemma UnlinesFirst(line: string, lines: seq<string>)
    ensures Unlines([line] + lines) == line + "\n" + Unlines(lines)
  {
    assert ([line] + lines)[1..] == lines;
  }

  // ----- alternatives -----

  /** A string cut at its bars. */
  function Alternatives(pattern: string): seq<string>
    decreases |pattern|
  {
    var k := Find(pattern, "|");
    if k < 0 then [pattern]
    else
      AtBar(pattern, k);
      [pattern[..k]] + Alternatives(pattern[k + 1..])
  }

  lemma AtBar(s: string, i: int)
    requires At(s, "|", i)
    ensures 0 <= i < |s|
  {
    AtChar(s, "|", i, 0);
  }

  lemma OneAlternative(p: string)
    requires '|' !in p
    ensures Alternatives(p) == [p]
  {
    FindChar(p, '|', -1);
  }

  lemma FirstAlternative(a: string, rest: string)
    requires '|' !in a
    ensures Alternatives(a + "|" + rest) == [a] + Alternatives(rest)
  {
    var p := a + "|" + rest;
    assert forall i :: 0 <= i < |a| ==> p[i] == a[i];
    assert p[|a|] == '|';
    FindChar(p, '|', |a|);
    assert p[..|a|] == a && p[|a| + 1..] == rest;
  }

  /** Python's `s[i:j]`, where a negative bound counts from the end. */
  function Bound(s: string, i: int): (k: nat)
    ensures k <= |s|
    ensures 0 <= i <= |s| ==> k == i
  {
    if i < 0 then (if |s| + i < 0 then 0 else |s| + i)
    else if i > |s| then |s| else i
  }

  function Slice(s: string, i: int, j: int): string {
    if Bound(s, i) <= Bound(s, j) then s[Bound(s, i)..Bound(s, j)] else ""
  }

  // ----- strip -----

  function LStrip(s: string): string {
    if s != "" && IsBlank(s[0]) then LStrip(s[1..]) else s
  }

  function RStrip(s: string): string {
    if s != "" && IsBlank(s[|s| - 1]) then RStrip(s[..|s| - 1]) else s
  }

  lemma {:induction false} LStripShape(s: string)
    ensures var t := LStrip(s);
            && |t| <= |s| && s[|s| - |t|..] == t && AllBlank(s[..|s| - |t|])
            && (t != "" ==> !IsBlank(t[0]))
  {
    if s != "" && IsBlank(s[0]) {
      LStripShape(s[1..]);
      var t := LStrip(s);
      assert s[..|s| - |t|] == [s[0]] + s[1..][..|s[1..]| - |t|];
    }
  }

  lemma {:induction false} RStripShape(s: string)
    ensures var t := RStrip(s);
            && |t| <= |s| && s[..|t|] == t && AllBlank(s[|t|..])
            && (t != "" ==> !IsBlank(t[|t| - 1]))
  {
    if s != "" && IsBlank(s[|s| - 1]) {
      RStripShape(s[..|s| - 1]);
      var t := RStrip(s);
      assert s[|t|..] == s[..|s| - 1][|t|..] + [s[|s| - 1]];
    }
  }

  /** `s.strip()`. */
  function Strip(s: string): string {
    RStrip(LStrip(s))
  }

  predicate Trimmed(t: string) {
    t == "" || (!IsBlank(t[0]) && !IsBlank(t[|t| - 1]))
  }

  lemma Parts(s: string, l: string, t: string) returns (a: string, b: string)
    requires |l| <= |s| && s[|s| - |l|..] == l && AllBlank(s[..|s| - |l|])
    requires |t| <= |l| && l[..|t|] == t && AllBlank(l[|t|..])
    ensures AllBlank(a) && AllBlank(b)
    ensures s == a + t + b
  {
    a, b := s[..|s| - |l|], l[|t|..];
    assert l == t + b;
    assert s == a + l;
    assert a + l == a + t + b;
  }

  /** A string is blanks, then its stripped form, then blanks. */
  lemma StripParts(s: string) returns (a: string, b: string)
    ensures AllBlank(a) && AllBlank(b) && Trimmed(Strip(s))
    ensures s == a + Strip(s) + b
  {
    LStripShape(s);
    RStripShape(LStrip(s));
    a, b := Parts(s, LStrip(s), Strip(s));
    if Strip(s) != "" {
      assert Strip(s)[0] == LStrip(s)[..|Strip(s)|][0] == LStrip(s)[0];
    }
  }

  lemma {:induction false} LStripBlank(a: string, t: string)
    requires AllBlank(a) && (t == "" || !IsBlank(t[0]))
    ensures LStrip(a + t) == t
  {
    if a == "" {
      assert a + t == t;
    } else {
      assert (a + t)[1..] == a[1..] + t;
      LStripBlank(a[1..], t);
    }
  }

  lemma {:induction false} RStripBlank(t: string, b: string)
    requires AllBlank(b) && (t == "" || !IsBlank(t[|t| - 1]))
    ensures RStrip(t + b) == t
  {
    if b == "" {
      assert t + b == t;
    } else {
      var s := t + b;
      assert s[..|s| - 1] == t + b[..|b| - 1];
      assert s[|s| - 1] == b[|b| - 1];
      RStripBlank(t, b[..|b| - 1]);
    }
  }

  /** The decomposition into blanks, core, blanks determines the core. */
  lemma StripUnique(a: string, t: string, b: string)
    requires AllBlank(a) && AllBlank(b) && Trimmed(t)
    ensures Strip(a + t + b) == t
  {
    if t == "" {
      assert a + t + b == (a + b) + "";
      LStripBlank(a + b, "");
    } else {
      assert a + t + b == a + (t + b);
      LStripBlank(a, t + b);
      RStripBlank(t, b);
    }
  }

  /** Surrounding blanks do not change the stripped form; stripping twice is stripping once. */
  lemma StripFrame(a: string, s: string, b: string)
    requires AllBlank(a) && AllBlank(b)
    ensures Strip(a + s + b) == Strip(s)
  {
    var x, y := StripParts(s);
    assert a + s + b == (a + x) + Strip(s) + (y + b);
    StripUnique(a + x, Strip(s), y + b);
  }

  lemma StripTwice(s: string)
    ensures Strip(Strip(s)) == Strip(s)
  {
    var _, _ := StripParts(s);
    StripUnique("", Strip(s), "");
    assert "" + Strip(s) + "" == Strip(s);
  }

  lemma StripBlank(s: string)
    ensures Strip(s) == "" <==> AllBlank(s)
  {
    var a, b := StripParts(s);
    if AllBlank(s) {
      StripUnique(s, "", "");
      assert s + "" + "" == s;
    }
    if Strip(s) == "" {
      assert s == a + b;
    }
  }

  /** Every character of the stripped form occurs in the string. */
  lemma StripSubset(s: string)
    ensures forall c :: c in Strip(s) ==> c in s
  {
    var a, b := StripParts(s);
  }
}
