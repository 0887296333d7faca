/** `_get_next_elem`: finding the next piece of markup by the positions of slashes, quotes and brackets
    (packages/addons/official/driver/hdhomerun/source/resources/lib/xmlpp.py). */
module Scanner {
  import opened Text
  import opened XmlMarkup

  /** What `_get_next_elem` returns. */
  datatype Elem = Elem(startPos: int, endPos: int, isStop: bool, noIndent: bool, ignoreContents: bool)

  function NextElem(data: string): Elem {
    var startPos := Find(data, "<");
    var endPos := Find(data, ">") + 1;
    var retval := Slice(data, startPos, endPos);
    var slash := RFind(retval, '/');
    var stopper := if slash < RFind(retval, '"') then -1 else slash;
    var single := stopper > -1 && Find(retval, ">") - stopper < stopper - Find(retval, "<");
    if Find(retval, "<!") > -1 then
      var terminator := if Find(retval, "<![CDATA[") > -1 then "]]>" else "-->";
      var found := Find(data, terminator);
      Elem(startPos, if found > -1 then found + 3 else found, found > -1 || stopper > -1, true, true)
    else if Find(retval, "<?") > -1 then
      Elem(startPos, Find(data, "?>") + 2, stopper > -1, true, false)
    else
      Elem(startPos, endPos, stopper > -1, single, false)
  }

  // ----- tags -----

  /** Where the opening part of a markup ends up: after text without brackets the first `<` is the
      markup's own, and the first `>` is the first one of the markup. */
  lemma FirstBrackets(text: string, head: string, rest: string)
    requires NoAngles(text) && NoAngles(head)
    ensures var data := text + ("<" + head + ">") + rest;
            && Find(data, "<") == |text|
            && Find(data, ">") == |text| + 1 + |head|
            && Slice(data, |text|, |text| + |head| + 2) == "<" + head + ">"
  {
    var data := text + ("<" + head + ">") + rest;
    FindChar(data, '<', |text|);
    FindChar(data, '>', |text| + 1 + |head|);
    assert data[|text|..|text| + |head| + 2] == "<" + head + ">";
  }

  /** No two-character opener other than at the start, because there is no second `<`. */
  lemma NoOpener(head: string, pat: string)
    requires NoAngles(head) && |pat| >= 2 && pat[0] == '<' && head != "" && head[0] != pat[1]
    ensures Find("<" + head + ">", pat) == -1
  {
    var t := "<" + head + ">";
    var k := Find(t, pat);
    assert forall i :: 1 <= i < |t| ==> t[i] == (head + ">")[i - 1];
    if k >= 0 { AtPair(t, pat, k); }
  }

  lemma AtPair(s: string, pat: string, k: int)
    requires At(s, pat, k) && |pat| >= 2
    ensures 0 <= k && k + 1 < |s| && s[k] == pat[0] && s[k + 1] == pat[1]
  {
    AtChar(s, pat, k, 0);
    AtChar(s, pat, k, 1);
  }

  lemma LastAt(before: string, c: char, after: string)
    requires c !in after
    ensures RFind(before + [c] + after, c) == |before|
  {
    var s := before + [c] + after;
    assert s[|before|] == c;
    assert forall j :: |before| < j < |s| ==> s[j] == after[j - |before| - 1];
  }

  lemma PlainNames(m: Markup)
    requires Legal(m) && m.Tag?
    ensures '/' !in m.name && '"' !in m.name && '/' !in m.tail && '"' !in m.tail
  {
    assert forall i :: 0 <= i < |m.name| ==> NameChar(m.name[i]);
  }

  /** The slash of a closing tag is its last one and is not closer to the end than to the start. */
  lemma SlashClosing(m: Markup)
    requires Legal(m) && m.Tag? && m.kind == Closing
    ensures RFind(Show(m), '/') == 1 && RFind(Show(m), '"') == -1 && |Show(m)| > 3
  {
    PlainNames(m);
    var after := m.name + m.tail + ">";
    assert Show(m) == "<" + ['/'] + after;
    LastAt("<", '/', after);
    assert '"' !in after;
  }

  lemma SlashSelfClosing(m: Markup)
    requires Legal(m) && m.Tag? && m.kind == SelfClosing
    ensures RFind(Show(m), '/') == |Show(m)| - 2 && RFind(Show(m), '"') < |Show(m)| - 2 && |Show(m)| > 3
  {
    var before := "<" + m.name + ShowAttrs(m.attrs) + m.tail;
    assert Show(m) == before + ['/'] + ">";
    LastAt(before, '/', ">");
  }

  /** Every slash of an opening tag is inside an attribute value, so a quote follows it. */
  lemma SlashOpening(m: Markup)
    requires Legal(m) && m.Tag? && m.kind == Opening
    ensures RFind(Show(m), '/') < RFind(Show(m), '"') || RFind(Show(m), '/') == -1
  {
    var a := ShowAttrs(m.attrs);
    PlainNames(m);
    ShowAttrsShape(m.attrs);
    hide Legal, ShowAttrs, NoAngles;
    var after := m.tail + ">";
    assert '/' !in after && '"' !in after;
    if m.attrs == [] {
      assert Show(m) == "<" + m.name + after;
      assert '/' !in Show(m);
    } else {
      var before := "<" + m.name + a[..|a| - 1];
      assert a == a[..|a| - 1] + ['"'];
      assert Show(m) == before + ['"'] + after;
      LastAt(before, '"', after);
      SlashBefore(before + ['"'], after);
    }
  }

  lemma SlashBefore(before: string, after: string)
    requires '/' !in after && before != "" && before[|before| - 1] != '/'
    ensures RFind(before + after, '/') < |before| - 1
  {
  }

  predicate SingleSlash(t: string, stopper: int) {
    stopper > -1 && Find(t, ">") - stopper < stopper - Find(t, "<")
  }

  /** The slash heuristic on a tag in isolation is XML's own classification. */
  lemma SlashHeuristic(m: Markup)
    requires Legal(m) && m.Tag?
    ensures var t := Show(m);
            var stopper := if RFind(t, '/') < RFind(t, '"') then -1 else RFind(t, '/');
            && (stopper > -1 <==> m.kind != Opening)
            && (SingleSlash(t, stopper) <==> m.kind == SelfClosing)
  {
    var inner := ShowTagShape(m);
    FirstBrackets("", inner, "");
    assert "" + Show(m) + "" == Show(m);
    match m.kind {
      case Closing => SlashClosing(m);
      case SelfClosing => SlashSelfClosing(m);
      case Opening => SlashOpening(m);
    }
  }

  /** For every tag, wherever it stands, the scanner finds its extent and its kind. */
  lemma ScanTag(text: string, m: Markup, rest: string)
    requires NoAngles(text) && Legal(m) && m.Tag?
    ensures NextElem(text + Show(m) + rest)
            == Elem(|text|, |text| + |Show(m)|, m.kind != Opening, m.kind == SelfClosing, false)
  {
    var inner := ShowTagShape(m);
    FirstBrackets(text, inner, rest);
    SlashHeuristic(m);
    assert NameChar(m.name[0]);
    NoOpener(inner, "<!");
    NoOpener(inner, "<?");
  }

  // ----- comments, CDATA sections and instructions -----

  /** The part of a body the first look (up to the first `>`) gets to see. */
  function Glimpse(body: string): string {
    var k := Find(body, ">");
    if k >= 0 then body[..k] else body
  }

  /** Exactly when the scanner, which decides on a glimpse and then searches for a terminator from the
      start of its data, gets the extent of a legal markup right. */
  predicate Scannable(m: Markup) {
    match m
    case Tag(_, _, _, _) => true
    case Comment(body) =>
      && Find(Glimpse(body), "<![CDATA[") == -1
      && !(body != "" && body[0] == '>')
      && !(|body| > 1 && body[0] == '-' && body[1] == '>')
    case CData(_) => true
    case Instruction(body) => Find(Glimpse(body), "<!") == -1
  }

  /** The first look at `open + body + term` sees `open`, the glimpse, and what closed it. */
  lemma FirstLook(text: string, open: string, body: string, term: string, rest: string) returns (tail: string)
    requires NoAngles(text) && open != "" && open[0] == '<' && NoAngles(open[1..])
    requires |term| > 1 && term[|term| - 1] == '>' && NoAngles(term[..|term| - 1])
    ensures var data := text + (open + body + term) + rest;
            && Find(data, "<") == |text|
            && Slice(data, |text|, Find(data, ">") + 1) == open + Glimpse(body) + tail
    ensures tail == ">" || tail == term
  {
    var data := text + (open + body + term) + rest;
    FindChar(data, '<', |text|);
    BeforeFirst(body, '>');
    var k := Find(body, ">");
    assert forall i :: 1 <= i < |open| ==> open[i] == open[1..][i - 1];
    if k >= 0 {
      AtChar(body, ">", k, 0);
      tail := ">";
      LookClosed(text, open, body, k, term + rest);
      assert data == text + (open + body) + (term + rest);
    } else {
      tail := term;
      LookThrough(text, open, body, term, rest);
    }
  }

  lemma LookClosed(text: string, open: string, body: string, k: nat, rest: string)
    requires NoAngles(text) && '>' !in open && k < |body| && body[k] == '>' && '>' !in body[..k]
    ensures var data := text + (open + body) + rest;
            Find(data, ">") == |text| + |open| + k && Slice(data, |text|, Find(data, ">") + 1) == open + body[..k] + ">"
  {
    var data := text + (open + body) + rest;
    assert forall i :: 0 <= i < k ==> body[i] == body[..k][i];
    FindChar(data, '>', |text| + |open| + k);
    assert data[|text|..|text| + |open| + k + 1] == open + body[..k] + ">";
  }

  lemma LookThrough(text: string, open: string, body: string, term: string, rest: string)
    requires NoAngles(text) && '>' !in open && '>' !in body
    requires |term| > 1 && term[|term| - 1] == '>' && '>' !in term[..|term| - 1]
    ensures var data := text + (open + body + term) + rest;
            Slice(data, |text|, Find(data, ">") + 1) == open + body + term
  {
    var data := text + (open + body + term) + rest;
    var e := |text| + |open| + |body| + |term| - 1;
    assert forall i :: 0 <= i < |term| - 1 ==> term[i] == term[..|term| - 1][i];
    FindChar(data, '>', e);
    assert data[|text|..e + 1] == open + body + term;
  }

  lemma BeforeFirst(s: string, c: char)
    ensures Find(s, [c]) == -1 ==> c !in s
    ensures Find(s, [c]) >= 0 ==> c !in s[..Find(s, [c])]
  {
    var k := Find(s, [c]);
    if i :| 0 <= i < |s| && s[i] == c && (k == -1 || i < k) {
      assert At(s, [c], i);
      FindFirst(s, [c], i);
    }
  }

  /** A pattern shows up around a glimpse only if it shows up in it. */
  lemma OnlyInGlimpse(open: string, glimpse: string, tail: string, pat: string, m: nat, k: int)
    requires |pat| > 1 && pat[0] == '<' && pat[|pat| - 1] !in tail && '<' !in tail
    requires open != "" && '<' !in open[1..] && m < |open| && m < |pat| && open[m] != pat[m]
    requires At(open + glimpse + tail, pat, k)
    ensures Find(glimpse, pat) > -1
  {
    var s := open + glimpse + tail;
    AtChar(s, pat, k, 0);
    AtChar(s, pat, k, |pat| - 1);
    forall i | 1 <= i < |open|
      ensures s[i] != '<'
    {
      assert s[i] == open[1..][i - 1];
    }
    forall i | |open| + |glimpse| <= i < |s|
      ensures s[i] in tail
    {
      assert s[i] == tail[i - |open| - |glimpse|];
    }
    if k == 0 { AtChar(s, pat, k, m); }
    assert s[k..k + |pat|] == glimpse[k - |open|..k - |open| + |pat|];
    assert At(glimpse, pat, k - |open|);
    FindFirst(glimpse, pat, k - |open|);
  }

  lemma InGlimpse(open: string, glimpse: string, tail: string, pat: string, m: nat)
    requires |pat| > 1 && pat[0] == '<' && pat[|pat| - 1] !in tail && '<' !in tail
    requires open != "" && '<' !in open[1..] && m < |open| && m < |pat| && open[m] != pat[m]
    ensures Find(open + glimpse + tail, pat) > -1 <==> Find(glimpse, pat) > -1
  {
    var s := open + glimpse + tail;
    var k, j := Find(s, pat), Find(glimpse, pat);
    if k >= 0 {
      OnlyInGlimpse(open, glimpse, tail, pat, m, k);
    }
    if j >= 0 {
      assert s[j + |open|..j + |open| + |pat|] == glimpse[j..j + |pat|];
      assert At(s, pat, j + |open|);
      FindFirst(s, pat, j + |open|);
    }
  }

  /** `data` holds `open + body + term` at position `p`, with no `>` before it. */
  predicate Holds(data: string, p: nat, open: string, body: string, term: string) {
    && p + |open| + |body| + |term| <= |data|
    && (forall i :: 0 <= i < p ==> data[i] != '>')
    && (forall i :: 0 <= i < |open| ==> data[p + i] == open[i])
    && (forall i :: 0 <= i < |body| ==> data[p + |open| + i] == body[i])
    && (forall i :: 0 <= i < |term| ==> data[p + |open| + |body| + i] == term[i])
  }

  lemma ItHolds(text: string, open: string, body: string, term: string, rest: string)
    requires NoAngles(text)
    ensures Holds(text + (open + body + term) + rest, |text|, open, body, term)
  {
  }

  lemma PrefixAt(open: string, rest: string, s: string, pat: string)
    requires s == open + rest && pat <= open
    ensures Find(s, pat) == 0
  {
    assert s[0..|pat|] == pat;
    FindFirst(s, pat, 0);
  }

  lemma ThreeAt(s: string, pat: string, k: nat)
    requires |pat| == 3 && k + 3 <= |s| && s[k] == pat[0] && s[k + 1] == pat[1] && s[k + 2] == pat[2]
    ensures At(s, pat, k)
  {
    assert s[k..k + 3] == [s[k], s[k + 1], s[k + 2]] == pat;
  }

  lemma Opener(data: string, p: nat, open: string, body: string, term: string, i: nat)
    requires Holds(data, p, open, body, term) && i < |open|
    ensures data[p + i] == open[i]
  {
  }

  lemma NoCloseBefore(data: string, p: nat, open: string, body: string, term: string)
    requires Holds(data, p, open, body, term) && '>' !in open
    ensures forall i :: 0 <= i < p + |open| ==> data[i] != '>'
  {
    forall i | p <= i < p + |open|
      ensures data[i] != '>'
    {
      assert data[p + (i - p)] == open[i - p];
    }
  }

  lemma Terminator(data: string, p: nat, open: string, body: string, term: string)
    requires Holds(data, p, open, body, term)
    ensures At(data, term, p + |open| + |body|)
    ensures forall i :: 0 <= i < |term| ==> data[p + |open| + |body| + i] == term[i]
  {
    AtChars(data, term, p + |open| + |body|);
  }

  /** An occurrence of a terminator that lies inside the body, carried over to the body. */
  lemma Inside(data: string, p: nat, open: string, body: string, term: string, pat: string, f: int)
    requires Holds(data, p, open, body, term)
    requires p + |open| <= f && f + |pat| <= p + |open| + |body|
    requires At(data, pat, f)
    ensures Find(body, pat) >= 0
  {
    forall m | 0 <= m < |pat|
      ensures body[f - p - |open| + m] == pat[m]
    {
      AtChar(data, pat, f, m);
      assert data[p + |open| + (f - p - |open| + m)] == body[f - p - |open| + m];
    }
    AtChars(body, pat, f - p - |open|);
    FindFirst(body, pat, f - p - |open|);
  }

  /** The first `-->` at or after the start of the data is the comment's own, unless the body begins so
      that the opener's dashes serve as the terminator's. */
  lemma CommentEnd(data: string, p: nat, body: string)
    requires Holds(data, p, "<!--", body, "-->") && Legal(Comment(body))
    ensures Find(data, "-->") >= 0
    ensures Find(data, "-->") == p + 4 + |body| <==>
            !(body != "" && body[0] == '>') && !(|body| > 1 && body[0] == '-' && body[1] == '>')
  {
    Terminator(data, p, "<!--", body, "-->");
    FindFirst(data, "-->", p + 4 + |body|);
    if body != "" && body[0] == '>' {
      CommentEndEarly(data, p, body, 2);
    } else if |body| > 1 && body[0] == '-' && body[1] == '>' {
      CommentEndEarly(data, p, body, 3);
    } else {
      CommentEndsLast(data, p, body);
    }
  }

  /** The opener's dashes and the body's first characters end the comment. */
  lemma CommentEndEarly(data: string, p: nat, body: string, i: nat)
    requires Holds(data, p, "<!--", body, "-->")
    requires (i == 2 && body != "" && body[0] == '>') || (i == 3 && |body| > 1 && body[0] == '-' && body[1] == '>')
    ensures 0 <= Find(data, "-->") < p + 4 + |body|
  {
    hide Find;
    Opener(data, p, "<!--", body, "-->", 2);
    Opener(data, p, "<!--", body, "-->", 3);
    BodyAt(data, p, "<!--", body, "-->", 0);
    if i == 3 { BodyAt(data, p, "<!--", body, "-->", 1); }
    hide Holds;
    ThreeAt(data, "-->", p + i);
    FindFirst(data, "-->", p + i);
  }

  lemma BodyAt(data: string, p: nat, open: string, body: string, term: string, i: nat)
    requires Holds(data, p, open, body, term) && i < |body|
    ensures p + |open| + i < |data| && data[p + |open| + i] == body[i]
  {
  }

  lemma NoDashAtEnd(data: string, p: nat, body: string)
    requires Holds(data, p, "<!--", body, "-->") && Legal(Comment(body)) && body != ""
    ensures data[p + 3 + |body|] != '-'
  {
    hide Find;
    BodyAt(data, p, "<!--", body, "-->", |body| - 1);
  }

  lemma CommentEndsLast(data: string, p: nat, body: string)
    requires Holds(data, p, "<!--", body, "-->") && Legal(Comment(body))
    requires !(body != "" && body[0] == '>') && !(|body| > 1 && body[0] == '-' && body[1] == '>')
    requires 0 <= Find(data, "-->") <= p + 4 + |body|
    ensures Find(data, "-->") == p + 4 + |body|
  {
    hide Find;
    var q, f := p + 4 + |body|, Find(data, "-->");
    AtChar(data, "-->", f, 0);
    AtChar(data, "-->", f, 1);
    AtChar(data, "-->", f, 2);
    if body != "" { NoDashAtEnd(data, p, body); }
    if p + 4 <= f < q - 1 {
      AtChars(data, "--", f);
      Inside(data, p, "<!--", body, "-->", "--", f);
    } else if f < p + 4 {
      CommentOpener(data, p, body, f);
    }
  }

  /** An end that begins in the opener uses the body's first characters. */
  lemma CommentOpener(data: string, p: nat, body: string, f: int)
    requires Holds(data, p, "<!--", body, "-->") && 0 <= f < p + 4 && f + 2 < |data|
    requires data[f] == '-' && data[f + 1] == '-' && data[f + 2] == '>'
    ensures (body != "" && body[0] == '>') || (|body| > 1 && body[0] == '-' && body[1] == '>')
  {
    NoCloseBefore(data, p, "<!--", body, "-->");
    Terminator(data, p, "<!--", body, "-->");
    if body != "" { BodyAt(data, p, "<!--", body, "-->", 0); }
    if |body| > 1 { BodyAt(data, p, "<!--", body, "-->", 1); }
    hide Holds;
    assert f + 2 >= p + 4;
    if f == p + 2 {
      CloseAfterOpener(body, data[p + 4]);
    } else {
      assert f == p + 3;
      DashAndClose(body, data[p + 4], data[p + 5]);
    }
  }

  lemma CloseAfterOpener(body: string, c: char)
    requires c == '>' && c == (body + "-->")[0]
    ensures body != "" && body[0] == '>'
  {
  }

  lemma DashAndClose(body: string, c: char, d: char)
    requires c == '-' && d == '>' && c == (body + "-->")[0] && d == (body + "-->")[1]
    ensures |body| > 1 && body[0] == '-' && body[1] == '>'
  {
  }

  lemma CDataEnd(data: string, p: nat, body: string)
    requires Holds(data, p, "<![CDATA[", body, "]]>") && Legal(CData(body))
    ensures Find(data, "]]>") == p + 9 + |body|
  {
    hide Find;
    Terminator(data, p, "<![CDATA[", body, "]]>");
    FindFirst(data, "]]>", p + 9 + |body|);
    var f := Find(data, "]]>");
    AtChar(data, "]]>", f, 0);
    AtChar(data, "]]>", f, 1);
    AtChar(data, "]]>", f, 2);
    CDataOpener(data, p, body);
    if p + 9 <= f < p + 9 + |body| - 2 {
      Inside(data, p, "<![CDATA[", body, "]]>", "]]>", f);
    }
  }

  /** What stands around the body of a CDATA section. */
  lemma CDataOpener(data: string, p: nat, body: string)
    requires Holds(data, p, "<![CDATA[", body, "]]>")
    ensures forall i :: 0 <= i < p + 9 ==> data[i] != '>'
    ensures data[p + 7] == 'A' && data[p + 8] == '['
    ensures data[p + 9 + |body|] == ']' && data[p + 10 + |body|] == ']'
  {
    Opener(data, p, "<![CDATA[", body, "]]>", 7);
    Opener(data, p, "<![CDATA[", body, "]]>", 8);
    NoCloseBefore(data, p, "<![CDATA[", body, "]]>");
    Terminator(data, p, "<![CDATA[", body, "]]>");
  }

  lemma InstructionEnd(data: string, p: nat, body: string)
    requires Holds(data, p, "<?", body, "?>") && Legal(Instruction(body))
    ensures Find(data, "?>") == p + 2 + |body|
  {
    hide Find;
    var q := p + 2 + |body|;
    Opener(data, p, "<?", body, "?>", 0);
    Opener(data, p, "<?", body, "?>", 1);
    Terminator(data, p, "<?", body, "?>");
    FindFirst(data, "?>", q);
    var f := Find(data, "?>");
    AtChar(data, "?>", f, 0);
    AtChar(data, "?>", f, 1);
    if body != "" { BodyAt(data, p, "<?", body, "?>", 0); }
    if p + 2 <= f < q - 1 {
      Inside(data, p, "<?", body, "?>", "?>", f);
    }
  }

  /** An extent found by way of another terminator is wrong. */
  lemma WrongTerminator(data: string, pat: string, e: nat)
    requires |pat| == 3 && 2 <= e <= |data| && data[e - 2] != pat[1]
    ensures Find(data, pat) + 3 != e || Find(data, pat) == -1
  {
    var f := Find(data, pat);
    if f >= 0 { AtChar(data, pat, f, 1); }
  }

  /** The branches of `NextElem`, for data whose first look is known. */
  lemma Branches(data: string, retval: string)
    requires Slice(data, Find(data, "<"), Find(data, ">") + 1) == retval
    ensures var e := NextElem(data);
            var c := Find(data, if Find(retval, "<![CDATA[") > -1 then "]]>" else "-->");
            && e.startPos == Find(data, "<")
            && (Find(retval, "<!") > -1 ==>
                e.endPos == (if c > -1 then c + 3 else c) && (c > -1 ==> e.isStop) && e.noIndent && e.ignoreContents)
            && (Find(retval, "<!") == -1 && Find(retval, "<?") > -1 ==>
                e.endPos == Find(data, "?>") + 2 && e.noIndent && !e.ignoreContents)
  {
  }

  lemma ScanComment(text: string, body: string, rest: string)
    requires NoAngles(text) && Legal(Comment(body))
    ensures var e := NextElem(text + Show(Comment(body)) + rest);
            && e.startPos == |text|
            && (e.endPos == |text| + |Show(Comment(body))| <==> Scannable(Comment(body)))
            && (Scannable(Comment(body)) ==> e.isStop && e.noIndent && e.ignoreContents)
  {
    var data := text + ("<!--" + body + "-->") + rest;
    ItHolds(text, "<!--", body, "-->", rest);
    var tail := FirstLook(text, "<!--", body, "-->", rest);
    var retval := "<!--" + Glimpse(body) + tail;
    Branches(data, retval);
    CommentLook(body, retval, tail);
    CommentEnd(data, |text|, body);
    CommentNotCData(data, |text|, body);
  }

  lemma CommentLook(body: string, retval: string, tail: string)
    requires retval == "<!--" + Glimpse(body) + tail && (tail == ">" || tail == "-->")
    ensures Find(retval, "<!") > -1
    ensures Find(retval, "<![CDATA[") > -1 <==> Find(Glimpse(body), "<![CDATA[") > -1
  {
    assert retval == "<!--" + (Glimpse(body) + tail);
    PrefixAt("<!--", Glimpse(body) + tail, retval, "<!");
    InGlimpse("<!--", Glimpse(body), tail, "<![CDATA[", 2);
  }

  lemma CommentNotCData(data: string, p: nat, body: string)
    requires Holds(data, p, "<!--", body, "-->")
    ensures Find(data, "]]>") + 3 != p + |body| + 7 || Find(data, "]]>") == -1
  {
    Terminator(data, p, "<!--", body, "-->");
    AtChar(data, "-->", p + 4 + |body|, 1);
    WrongTerminator(data, "]]>", p + |body| + 7);
  }

  lemma CDataLook(body: string, retval: string, tail: string)
    requires retval == "<![CDATA[" + Glimpse(body) + tail
    ensures Find(retval, "<!") == 0 && Find(retval, "<![CDATA[") == 0
  {
    assert retval == "<![CDATA[" + (Glimpse(body) + tail);
    PrefixAt("<![CDATA[", Glimpse(body) + tail, retval, "<!");
    PrefixAt("<![CDATA[", Glimpse(body) + tail, retval, "<![CDATA[");
  }

  lemma ScanCData(text: string, body: string, rest: string)
    requires NoAngles(text) && Legal(CData(body))
    ensures var e := NextElem(text + Show(CData(body)) + rest);
            && e.startPos == |text| && e.endPos == |text| + |Show(CData(body))|
            && e.isStop && e.noIndent && e.ignoreContents
  {
    var data := text + ("<![CDATA[" + body + "]]>") + rest;
    ItHolds(text, "<![CDATA[", body, "]]>", rest);
    var tail := FirstLook(text, "<![CDATA[", body, "]]>", rest);
    var retval := "<![CDATA[" + Glimpse(body) + tail;
    Branches(data, retval);
    CDataLook(body, retval, tail);
    CDataEnd(data, |text|, body);
  }

  lemma ScanInstruction(text: string, body: string, rest: string)
    requires NoAngles(text) && Legal(Instruction(body))
    ensures var e := NextElem(text + Show(Instruction(body)) + rest);
            && e.startPos == |text| && e.noIndent
            && (e.endPos == |text| + |Show(Instruction(body))| <==> Scannable(Instruction(body)))
            && (Scannable(Instruction(body)) ==> !e.ignoreContents)
  {
    var data := text + ("<?" + body + "?>") + rest;
    ItHolds(text, "<?", body, "?>", rest);
    var tail := FirstLook(text, "<?", body, "?>", rest);
    var retval := "<?" + Glimpse(body) + tail;
    Branches(data, retval);
    InstructionIn(data, |text|, body, retval, tail);
  }

  lemma InstructionIn(data: string, p: nat, body: string, retval: string, tail: string)
    requires Holds(data, p, "<?", body, "?>") && Legal(Instruction(body))
    requires retval == "<?" + Glimpse(body) + tail && (tail == ">" || tail == "?>")
    ensures Find(retval, "<!") > -1 <==> !Scannable(Instruction(body))
    ensures Find(retval, "<?") > -1
    ensures Find(data, "?>") + 2 == p + |body| + 4
    ensures Find(data, "]]>") + 3 != p + |body| + 4 || Find(data, "]]>") == -1
    ensures Find(data, "-->") + 3 != p + |body| + 4 || Find(data, "-->") == -1
  {
    hide Find, Glimpse, Legal, Holds;
    InstructionEnd(data, p, body);
    InstructionLook(body, retval, tail);
    NoOtherEnd(data, p, body);
  }

  lemma InstructionLook(body: string, retval: string, tail: string)
    requires retval == "<?" + Glimpse(body) + tail && (tail == ">" || tail == "?>")
    ensures Find(retval, "<!") > -1 <==> Find(Glimpse(body), "<!") > -1
    ensures Find(retval, "<?") > -1
  {
    hide Find, Glimpse;
    PrefixAt("<?", Glimpse(body) + tail, retval, "<?");
    InGlimpse("<?", Glimpse(body), tail, "<!", 1);
  }

  lemma NoOtherEnd(data: string, p: nat, body: string)
    requires Holds(data, p, "<?", body, "?>")
    ensures Find(data, "]]>") + 3 != p + |body| + 4 || Find(data, "]]>") == -1
    ensures Find(data, "-->") + 3 != p + |body| + 4 || Find(data, "-->") == -1
  {
    hide Find;
    Terminator(data, p, "<?", body, "?>");
    assert data[p + 2 + |body| + 0] == '?';
    hide Holds;
    WrongTerminator(data, "]]>", p + |body| + 4);
    WrongTerminator(data, "-->", p + |body| + 4);
  }

  /** The scanner finds the extent of a legal markup exactly when the markup is `Scannable`. */
  lemma ScanExtent(text: string, m: Markup, rest: string)
    requires NoAngles(text) && Legal(m)
    ensures NextElem(text + Show(m) + rest).startPos == |text|
    ensures NextElem(text + Show(m) + rest).endPos == |text| + |Show(m)| <==> Scannable(m)
  {
    match m {
      case Tag(_, _, _, _) => ScanTag(text, m, rest);
      case Comment(body) => ScanComment(text, body, rest);
      case CData(body) => ScanCData(text, body, rest);
      case Instruction(body) => ScanInstruction(text, body, rest);
    }
  }

  /** Indentation goes up after an opening tag, down before a closing tag, and stays put otherwise. */
  lemma ScanNesting(text: string, m: Markup, rest: string)
    requires NoAngles(text) && Legal(m) && Scannable(m)
    ensures var e := NextElem(text + Show(m) + rest);
            && (e.isStop && !e.noIndent <==> m.Tag? && m.kind == Closing)
            && (!e.isStop && !e.noIndent <==> m.Tag? && m.kind == Opening)
            && (e.ignoreContents <==> m.Comment? || m.CData?)
  {
    match m {
      case Tag(_, _, _, _) => ScanTag(text, m, rest);
      case Comment(body) => ScanComment(text, body, rest);
      case CData(body) => ScanCData(text, body, rest);
      case Instruction(body) => ScanInstruction(text, body, rest);
    }
  }
}
