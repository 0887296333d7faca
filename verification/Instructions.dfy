/** Instructions take the wrapping branch of `_pprint_line` too, which was written for tags
    (packages/addons/official/driver/hdhomerun/source/resources/lib/xmlpp.py). */
module Instructions {
  import opened Basics
  import opened Text
  import opened XmlMarkup
  import opened LinePrinter
  import opened TagLines
  import opened Survival
  import opened Unambiguous

  /** The instruction is written as it stands. */
  predicate Unchanged(m: Markup, level: int, width: int) {
    LineText(level, Show(m), width, false) == Spaces(level) + Show(m) + "\n"
  }

  ghost predicate AlwaysUnchanged(m: Markup) {
    forall level, width :: Unchanged(m, level, width)
  }

  lemma InstructionShape(body: string)
    ensures var t := Show(Instruction(body));
            |t| >= 4 && t[0] == '<' && t[1] == '?' && t[|t| - 1] == '>' && t[|t| - 2] == '?'
  {
  }

  lemma {:induction false} StartSomewhere(s: string) returns (k: nat)
    requires ElemStart(s).Some?
    ensures k < |s| && ElemStartLen(s[k..]) > 0 && ElemStart(s) == Some(s[k..][..ElemStartLen(s[k..])])
  {
    hide ElemStartLen;
    if ElemStartLen(s) > 0 {
      k := 0;
      assert s[0..] == s;
    } else {
      var j := StartSomewhere(s[1..]);
      k := j + 1;
      assert s[1..][j..] == s[k..];
    }
  }

  lemma {:induction false} WordPrefix(s: string, r: string)
    requires r == "" || !IsWord(r[0])
    ensures WordLen(s[..WordLen(s)] + r) == WordLen(s)
  {
    var n := WordLen(s);
    if n == 0 {
      assert s[..0] + r == r;
    } else {
      assert (s[..n] + r)[1..] == s[1..][..n - 1] + r;
      WordPrefix(s[1..], r);
    }
  }

  /** A match is found again when something else than a word follows it. */
  lemma MatchAgain(s: string, r: string)
    requires ElemStartLen(s) > 0 && (r == "" || !IsWord(r[0]))
    ensures ElemStartLen(s[..ElemStartLen(s)] + r) == ElemStartLen(s)
  {
    hide PrefixedLen;
    var n := ElemStartLen(s);
    MatchEndsInWord(s);
    var skip := if !IsWord(s[1]) then 2 else 1;
    var p, t := s[skip..], s[..n] + r;
    assert t[skip..] == p[..n - skip] + r;
    assert t[0] == s[0] && t[1] == s[1];
    hide IsWord;
    PrefixedAgain(p, r);
  }

  lemma PrefixedLenIs(t: string, k: nat, w: nat)
    requires WordLen(t) == k && 0 < k < |t| && t[k] == ':' && WordLen(t[k + 1..]) == w && w > 0
    ensures PrefixedLen(t) == k + 1 + w
  {
    hide WordLen;
  }

  lemma PrefixedParts(p: string)
    requires PrefixedLen(p) > 0
    ensures var k := WordLen(p);
            0 < k < |p| && p[k] == ':' && WordLen(p[k + 1..]) > 0 && PrefixedLen(p) == k + 1 + WordLen(p[k + 1..])
  {
    hide WordLen;
  }

  lemma PrefixedAgain(p: string, r: string)
    requires PrefixedLen(p) > 0 && (r == "" || !IsWord(r[0]))
    ensures PrefixedLen(p[..PrefixedLen(p)] + r) == PrefixedLen(p)
  {
    hide *;
    PrefixedParts(p);
    var k := WordLen(p);
    var q := p[k + 1..];
    var w := WordLen(q);
    var t, colon := p[..PrefixedLen(p)] + r, ":" + q[..w] + r;
    assert t == p[..k] + colon;
    NotWordColon(colon);
    WordPrefix(p, colon);
    WordPrefix(q, r);
    assert t[k + 1..] == q[..w] + r;
    PrefixedLenIs(t, k, w);
  }

  lemma NotWordColon(s: string)
    requires s != "" && s[0] == ':'
    ensures !IsWord(s[0])
  {
  }

  /** With an attribute among what is found, the width decides between a space and a line break. */
  lemma WidthMatters(head: string, attrs: seq<string>, closer: string)
    requires attrs != []
    ensures exists a, b :: Wrapped(head, attrs, closer, a) != Wrapped(head, attrs, closer, b)
  {
    hide Leads, Weave, Spaces;
    var wide := Reserved(attrs, 0, |head|, closer) + |attrs[0]| + 1;
    var narrow := wide - 1;
    LeadsStep(attrs, 0, |head|, |head|, closer, wide);
    LeadsStep(attrs, 0, |head|, |head|, closer, narrow);
    FirstWoven(head, Leads(attrs, 0, |head|, |head|, closer, wide), attrs, closer);
    FirstWoven(head, Leads(attrs, 0, |head|, |head|, closer, narrow), attrs, closer);
    assert Wrapped(head, attrs, closer, wide)[|head|] == ' ';
    assert Wrapped(head, attrs, closer, narrow)[|head|] == '\n';
  }

  lemma FirstWoven(head: string, leads: seq<string>, attrs: seq<string>, closer: string)
    requires |leads| == |attrs| > 0 && leads[0] != ""
    ensures var s := head + Weave(leads, attrs) + closer;
            |s| > |head| && s[|head|] == leads[0][0]
  {
  }

  lemma CloserFound(t: string)
    requires '>' in t
    ensures ElemFinished(t).Some? && ElemFinished(t).value != ""
    ensures var c := ElemFinished(t).value;
            c[|c| - 1] == '>' && forall i :: 0 <= i < |c| - 1 ==> CloserChar(c[i])
  {
    var i :| 0 <= i < |t| && t[i] == '>';
    assert t[i..i + 1] == ">";
    FindFirst(t, ">", i);
    AtChar(t, ">", Find(t, ">"), 0);
  }

  lemma NotWord(closer: string)
    requires closer != "" && closer[|closer| - 1] == '>' && forall i :: 0 <= i < |closer| - 1 ==> CloserChar(closer[i])
    ensures !IsWord(closer[0])
  {
  }

  /** An instruction that the first expression matches, unchanged at every level and width, is bare. */
  lemma UnchangedIsBare(m: Markup)
    requires m.Instruction? && ElemStart(Show(m)).Some? && AlwaysUnchanged(m)
    ensures Bare(Show(m))
  {
    hide *;
    var t := Show(m);
    InstructionShape(m.body);
    assert t[|t| - 1] in t;
    ItsBody(m);
    var k := StartSomewhere(t);
    CloserFound(t);
    NotBlankLine(m);
    var start, closer := ElemStart(t).value, ElemFinished(t).value;
    LineIs(m, start, closer, Attrs(t));
    NoAttributes(m, start, closer, Attrs(t));
    UnchangedHere(m);
    PlainWrapped(start, closer, t);
    BareFrom(t, k, start, closer);
  }

  lemma ItsBody(m: Markup)
    requires m.Instruction?
    ensures m == Instruction(m.body)
  {
  }

  lemma UnchangedHere(m: Markup)
    requires AlwaysUnchanged(m)
    ensures LineText(0, Show(m), 0, false) == Spaces(0) + Show(m) + "\n"
  {
    hide LineText, Show, Spaces;
    assert Unchanged(m, 0, 0);
  }

  /** An attribute would be moved at some width. */
  lemma NoAttributes(m: Markup, start: string, closer: string, attrs: seq<string>)
    requires AlwaysUnchanged(m)
    requires forall level, width ::
               LineText(level, Show(m), width, false) == Wrapped(Spaces(level) + start, attrs, closer, width) + "\n"
    ensures attrs == []
  {
    hide LineText, Show, Spaces, Wrapped;
    if attrs != [] {
      var head := Spaces(0) + start;
      WidthMatters(head, attrs, closer);
      var a, b :| Wrapped(head, attrs, closer, a) != Wrapped(head, attrs, closer, b);
      assert Unchanged(m, 0, a) && Unchanged(m, 0, b);
      SameLine(Wrapped(head, attrs, closer, a), Wrapped(head, attrs, closer, b));
    }
  }

  lemma SameLine(a: string, b: string)
    ensures a + "\n" == b + "\n" ==> a == b
  {
    if a + "\n" == b + "\n" {
      assert a == (a + "\n")[..|a + "\n"| - 1] && b == (b + "\n")[..|b + "\n"| - 1];
    }
  }

  lemma BareFrom(t: string, k: nat, start: string, closer: string)
    requires k < |t| && ElemStartLen(t[k..]) > 0 && start == t[k..][..ElemStartLen(t[k..])] && t == start + closer
    requires closer != "" && closer[|closer| - 1] == '>' && forall i :: 0 <= i < |closer| - 1 ==> CloserChar(closer[i])
    ensures Bare(t)
  {
    hide ElemStartLen, CloserChar;
    NotWord(closer);
    MatchAgain(t[k..], closer);
    assert forall i :: |start| <= i < |t| ==> t[i] == closer[i - |start|];
  }

  lemma LineIs(m: Markup, start: string, closer: string, attrs: seq<string>)
    requires Strip(Show(m)) != "" && ElemStart(Show(m)) == Some(start) && ElemFinished(Show(m)) == Some(closer)
    requires Attrs(Show(m)) == attrs
    ensures forall level, width ::
              LineText(level, Show(m), width, false) == Wrapped(Spaces(level) + start, attrs, closer, width) + "\n"
  {
  }

  lemma PlainWrapped(start: string, closer: string, t: string)
    requires Wrapped(Spaces(0) + start, [], closer, 0) + "\n" == Spaces(0) + t + "\n"
    ensures t == start + closer
  {
    hide Leads;
    assert Spaces(0) == "";
    assert "" + start == start && "" + t == t;
    assert Wrapped(start, [], closer, 0) == start + "" + closer == start + closer;
    CancelLine("", start + closer, t, "\n");
  }

  /** An instruction comes out unchanged at every level and width exactly when it is `Printable`. */
  lemma InstructionsExactly(m: Markup)
    requires m.Instruction? && Legal(m)
    ensures AlwaysUnchanged(m) <==> Printable(m)
  {
    if Printable(m) {
      hide LineText, Show;
      forall level, width
        ensures Unchanged(m, level, width)
      {
        LineOfMark(m, level, width);
      }
    } else if AlwaysUnchanged(m) {
      UnchangedIsBare(m);
    }
  }

  /** Text behind a target like `prefix:name` is lost, at every level and width. */
  lemma TextLost(name: string, text: string, level: int, width: int)
    requires name != "" && PrefixedLen(name) == |name|
    requires text != "" && NoAngles(text) && '=' !in text && !CloserChar(text[|text| - 1])
    ensures LineText(level, Show(Instruction(name + " " + text)), width, false)
            == Spaces(level) + "<?" + name + "?>" + "\n"
  {
    hide *;
    var m := Instruction(name + " " + text);
    NotBlankLine(m);
    LostMatch(name, text);
    LostCloser(name, text);
    LineIs(m, "<?" + name, "?>", []);
    JustTheName(Spaces(level), name, width);
  }

  lemma JustTheName(start: string, name: string, width: int)
    ensures Wrapped(start + ("<?" + name), [], "?>", width) == start + "<?" + name + "?>"
  {
    hide Leads;
    var head := start + ("<?" + name);
    assert Wrapped(head, [], "?>", width) == head + "" + "?>" == head + "?>";
  }

  lemma LostMatch(name: string, text: string)
    requires name != "" && PrefixedLen(name) == |name|
    ensures ElemStart(Show(Instruction(name + " " + text))) == Some("<?" + name)
  {
    hide PrefixedLen;
    var t := Show(Instruction(name + " " + text));
    assert t[2..] == name + (" " + text + "?>");
    NotWordSpace(" " + text + "?>");
    PrefixedLenFrame(name, " " + text + "?>");
    MatchAtStart(t, |name|);
    assert t[..2 + |name|] == "<?" + name;
  }

  lemma NotWordSpace(s: string)
    requires s != "" && s[0] == ' '
    ensures !IsWord(s[0])
  {
  }

  lemma MatchAtStart(t: string, n: nat)
    requires |t| > 1 && t[0] == '<' && t[1] == '?' && n > 0 && PrefixedLen(t[2..]) == n
    ensures ElemStart(t) == Some(t[..2 + n])
  {
    hide PrefixedLen;
    assert ElemStartLen(t) == 2 + n;
  }

  lemma {:induction false} PrefixedChars(p: string)
    requires PrefixedLen(p) == |p|
    ensures forall i :: 0 <= i < |p| ==> IsWord(p[i]) || p[i] == ':'
  {
    var k := WordLen(p);
    forall i | 0 <= i < |p|
      ensures IsWord(p[i]) || p[i] == ':'
    {
      if i > k { assert p[i] == p[k + 1..][i - k - 1]; }
    }
  }

  lemma LostCloser(name: string, text: string)
    requires name != "" && PrefixedLen(name) == |name|
    requires text != "" && NoAngles(text) && '=' !in text && !CloserChar(text[|text| - 1])
    ensures var t := Show(Instruction(name + " " + text)); ElemFinished(t) == Some("?>") && Attrs(t) == []
  {
    PrefixedChars(name);
    hide PrefixedLen, ElemFinished, Attrs, IsWord;
    var t, before := Show(Instruction(name + " " + text)), "<?" + name + " " + text;
    PlainName(name);
    assert t == before + "?>";
    assert before[|before| - 1] == text[|text| - 1];
    ElemFinishedIs(before, "?>");
    NoEquals(t);
  }

  lemma PlainName(name: string)
    requires forall i :: 0 <= i < |name| ==> IsWord(name[i]) || name[i] == ':'
    ensures '>' !in name && '=' !in name
  {
  }

  lemma ExampleName()
    ensures PrefixedLen("a:b") == 3
  {
    assert "a:b"[2..] == "b" && "a:b"[1..] == ":b" && "b"[1..] == "";
  }

  lemma TextIsLost(name: string, text: string)
    requires name != "" && PrefixedLen(name) == |name|
    requires text != "" && NoAngles(text) && '=' !in text && !CloserChar(text[|text| - 1])
    ensures !Printable(Instruction(name + " " + text))
  {
    var m := Instruction(name + " " + text);
    LostMatch(name, text);
    hide ElemStart, ElemStartLen, PrefixedLen, Attrs, ElemFinished;
    if Bare(Show(m)) {
      TextLost(name, text, 0, 0);
      NotBlankLine(m);
      hide Strip;
      BareLine(Show(m), 0, 0);
    }
  }

  /** `<?a:b text?>` is written as `<?a:b?>`. */
  lemma TextLostExample(level: int, width: int)
    ensures Legal(Instruction("a:b text")) && !Printable(Instruction("a:b text"))
    ensures LineText(level, Show(Instruction("a:b text")), width, false) == Spaces(level) + "<?" + "a:b" + "?>" + "\n"
  {
    hide *;
    ExampleName();
    ExampleIsLegal();
    ExampleParts();
    TextLost("a:b", "text", level, width);
    TextIsLost("a:b", "text");
  }

  lemma ExampleParts()
    ensures "a:b" + " " + "text" == "a:b text" && NoAngles("text") && '=' !in "text" && !CloserChar("text"[3])
  {
  }

  lemma ExampleIsLegal()
    ensures Legal(Instruction("a:b text"))
  {
    LegalWithoutMark("a:b text");
  }

  lemma {:induction false} SkipNoBracket(a: string, s: string)
    requires '<' !in a
    ensures ElemStart(a + s) == ElemStart(s)
  {
    hide PrefixedLen;
    if a == "" {
      assert a + s == s;
    } else {
      assert (a + s)[1..] == a[1..] + s;
      SkipNoBracket(a[1..], s);
    }
  }

  predicate Word(s: string) {
    s != "" && forall i :: 0 <= i < |s| ==> IsWord(s[i])
  }

  /** The target in front of a `<prefix:name` is lost, at every level and width. */
  lemma TargetLost(target: string, name: string, level: int, width: int)
    requires Word(target) && name != "" && PrefixedLen(name) == |name|
    ensures LineText(level, Show(Instruction(target + " <" + name)), width, false)
            == Spaces(level) + "<" + name + "?>" + "\n"
  {
    hide *;
    var m := Instruction(target + " <" + name);
    NotBlankLine(m);
    LateMatch(target, name);
    LateCloser(target, name);
    LineIs(m, "<" + name, "?>", []);
    OnlyTheName(Spaces(level), name, width);
  }

  lemma OnlyTheName(start: string, name: string, width: int)
    ensures Wrapped(start + ("<" + name), [], "?>", width) == start + "<" + name + "?>"
  {
    hide Leads;
    var head := start + ("<" + name);
    assert Wrapped(head, [], "?>", width) == head + "" + "?>" == head + "?>";
  }

  lemma LateMatch(target: string, name: string)
    requires Word(target) && name != "" && PrefixedLen(name) == |name|
    ensures ElemStart(Show(Instruction(target + " <" + name))) == Some("<" + name)
  {
    hide PrefixedLen, WordLen;
    var t := Show(Instruction(target + " <" + name));
    var found := "<" + name + "?>";
    WordInFront(target, " " + found);
    assert t[2..] == target + (" " + found);
    assert ElemStartLen(t) == 0;
    assert t[1..] == ("?" + target + " ") + found;
    WordHasNoBracket(target);
    SkipNoBracket("?" + target + " ", found);
    assert found[1..] == name + "?>";
    PrefixedLenFrame(name, "?>");
    PlainStart(name);
    assert ElemStartLen(found) == 1 + |name|;
    assert found[..1 + |name|] == "<" + name;
  }

  lemma PlainStart(name: string)
    requires name != "" && PrefixedLen(name) == |name|
    ensures IsWord(name[0]) && IsWord(name[|name| - 1])
  {
    var k := WordLen(name);
    assert name[k + 1..][|name| - k - 2] == name[|name| - 1];
  }

  lemma WordHasNoBracket(target: string)
    requires Word(target)
    ensures '<' !in "?" + target + " " && '>' !in target && '=' !in target
  {
  }

  lemma WordInFront(target: string, rest: string)
    requires Word(target) && rest != "" && rest[0] == ' '
    ensures PrefixedLen(target + rest) == 0
  {
    WordAll(target);
    WordLenFrame(target, rest);
  }

  lemma LateCloser(target: string, name: string)
    requires Word(target) && name != "" && PrefixedLen(name) == |name|
    ensures var t := Show(Instruction(target + " <" + name)); ElemFinished(t) == Some("?>") && Attrs(t) == []
  {
    PrefixedChars(name);
    PlainStart(name);
    WordIsPlain(name[|name| - 1]);
    WordHasNoBracket(target);
    PlainName(name);
    hide *;
    var before := "<?" + target + " <" + name;
    BeforeName(target, name);
    CloserEnds();
    ElemFinishedIs(before, "?>");
    NoEquals(before + "?>");
  }

  lemma CloserEnds()
    ensures "?>"[1] == '>' && CloserChar("?>"[0])
  {
  }

  lemma BeforeName(target: string, name: string)
    requires name != "" && '>' !in target && '=' !in target && '>' !in name && '=' !in name
    ensures var before := "<?" + target + " <" + name;
            && Show(Instruction(target + " <" + name)) == before + "?>"
            && '>' !in before && '=' !in before + "?>" && before[|before| - 1] == name[|name| - 1]
  {
    assert "<?" + (target + " <" + name) == "<?" + target + " <" + name;
  }

  lemma TargetIsLost(target: string, name: string)
    requires Word(target) && name != "" && PrefixedLen(name) == |name|
    ensures !Printable(Instruction(target + " <" + name))
  {
    var m := Instruction(target + " <" + name);
    hide ElemStart, ElemFinished, Attrs, PrefixedLen, WordLen;
    LateMatch(target, name);
    assert Show(m)[2..] == target + (" <" + name + "?>");
    WordInFront(target, " <" + name + "?>");
  }

  /** `<?t <a:b?>` is written as `<a:b?>`. */
  lemma TargetLostExample(level: int, width: int)
    ensures Legal(Instruction("t <a:b")) && !Printable(Instruction("t <a:b"))
    ensures LineText(level, Show(Instruction("t <a:b")), width, false) == Spaces(level) + "<" + "a:b" + "?>" + "\n"
  {
    hide *;
    ExampleName();
    TargetParts();
    LegalWithoutMark("t <a:b");
    TargetLost("t", "a:b", level, width);
    TargetIsLost("t", "a:b");
  }

  lemma TargetParts()
    ensures "t" + " <" + "a:b" == "t <a:b" && Word("t") && '?' !in "t <a:b" && "t <a:b"[0] == 't'
  {
  }

  lemma LegalWithoutMark(body: string)
    requires body != "" && body[0] != '>' && '?' !in body
    ensures Legal(Instruction(body))
  {
    FindChar(body, '?', -1);
    if Find(body, "?>") >= 0 { AtChar(body, "?>", Find(body, "?>"), 0); }
  }

  // ----- one level and one width -----

  /** What the branch for tags writes is the line: the match of the first expression, the attributes found, each
      after the white space that wrapping puts there, and the closer. */
  predicate Woven(line: string, level: int, width: int) {
    ElemStart(line).Some? && ElemFinished(line).Some? &&
    var start, found, closer := ElemStart(line).value, Attrs(line), ElemFinished(line).value;
    var base := |Spaces(level) + start|;
    line == start + Weave(Leads(found, 0, base, base, closer, width), found) + closer
  }

  /** At one level and one width, an instruction is unchanged exactly if the first expression finds nothing in it,
      or it is already laid out for that level and width. */
  lemma UnchangedExactly(m: Markup, level: int, width: int)
    requires m.Instruction?
    ensures Unchanged(m, level, width) <==> ElemStart(Show(m)).None? || Woven(Show(m), level, width)
  {
    hide ElemStart, ElemFinished, Attrs, Leads, Weave, Spaces, Strip, Show;
    var t := Show(m);
    NotBlankLine(m);
    if ElemStart(t).Some? {
      ClosesSomewhere(m);
      CloserFound(t);
      var start, found, closer := ElemStart(t).value, Attrs(t), ElemFinished(t).value;
      var head := Spaces(level) + start;
      var woven := Weave(Leads(found, 0, |head|, |head|, closer, width), found);
      assert head + woven + closer == Spaces(level) + (start + woven + closer);
      SameLine(head + woven + closer, Spaces(level) + t);
      if Spaces(level) + (start + woven + closer) == Spaces(level) + t {
        CancelLine(Spaces(level), start + woven + closer, t, "");
      }
    }
  }

  lemma ClosesSomewhere(m: Markup)
    requires m.Instruction?
    ensures '>' in Show(m)
  {
    InstructionShape(m.body);
    assert Show(m)[|Show(m)| - 1] == '>';
  }

  /** An instruction `prefix:name` with attributes is unchanged at a level and a width exactly if every attribute
      stands where greedy wrapping would put it. */
  lemma AttributesInPlace(name: string, attrs: seq<Attr>, level: int, width: int)
    requires name != "" && PrefixedLen(name) == |name| && GoodAttrs(attrs) && attrs != []
    requires forall i :: 0 <= i < |attrs| ==> '\n' !in attrs[i].value
    ensures var head := Spaces(level) + "<?" + name;
            Unchanged(Instruction(name + ShowAttrs(attrs)), level, width) <==>
            forall i :: 0 <= i < |attrs| ==>
              attrs[i].lead == Leads(Shown(attrs), 0, |head|, |head|, "?>", width)[i]
  {
    hide *;
    var m := Instruction(name + ShowAttrs(attrs));
    var t, start := Show(m), "<?" + name;
    UnchangedExactly(m, level, width);
    MatchOfName(name, attrs);
    FoundInName(name, attrs);
    var head := Spaces(level) + "<?" + name;
    assert head == Spaces(level) + start;
    var leads := Leads(Shown(attrs), 0, |head|, |head|, "?>", width);
    WovenIs(t, start, Shown(attrs), "?>", level, width);
    WeaveShow(attrs, leads);
    ShownInstruction(name, attrs);
    LeadsAreBlank(Shown(attrs), 0, |head|, |head|, "?>", width);
    GoodWithLeads(attrs, leads);
    if start + ShowAttrs(WithLeads(attrs, leads)) + "?>" == start + ShowAttrs(attrs) + "?>" {
      CancelLine(start, ShowAttrs(WithLeads(attrs, leads)), ShowAttrs(attrs), "?>");
      SameShown(WithLeads(attrs, leads), attrs);
    }
    SameLeadsSame(attrs, leads);
  }

  lemma SameShown(a: seq<Attr>, b: seq<Attr>)
    requires GoodAttrs(a) && GoodAttrs(b) && ShowAttrs(a) == ShowAttrs(b)
    ensures a == b
  {
    hide GoodAttrs;
    AttrsUnambiguous(a, "", b, "", Opening);
  }

  lemma WovenIs(line: string, start: string, found: seq<string>, closer: string, level: int, width: int)
    requires ElemStart(line) == Some(start) && ElemFinished(line) == Some(closer) && Attrs(line) == found
    ensures var base := |Spaces(level) + start|;
            var leads := Leads(found, 0, base, base, closer, width);
            Woven(line, level, width) <==> line == start + Weave(leads, found) + closer
  {
    hide ElemStart, ElemFinished, Attrs, Leads, Weave, Spaces;
  }

  lemma ShownInstruction(name: string, attrs: seq<Attr>)
    ensures Show(Instruction(name + ShowAttrs(attrs))) == "<?" + name + ShowAttrs(attrs) + "?>"
  {
    hide ShowAttrs;
    assert "<?" + (name + ShowAttrs(attrs)) == "<?" + name + ShowAttrs(attrs);
  }

  lemma MatchOfName(name: string, attrs: seq<Attr>)
    requires name != "" && PrefixedLen(name) == |name| && GoodAttrs(attrs) && attrs != []
    ensures ElemStart(Show(Instruction(name + ShowAttrs(attrs)))) == Some("<?" + name)
  {
    hide PrefixedLen, Show;
    ShownInstruction(name, attrs);
    var t, rest := Show(Instruction(name + ShowAttrs(attrs))), ShowAttrs(attrs) + "?>";
    assert t == "<?" + name + rest && t[2..] == name + rest;
    FirstLead(attrs);
    PrefixedLenFrame(name, rest);
    MatchAtStart(t, |name|);
    assert t[..2 + |name|] == "<?" + name;
  }

  lemma FirstLead(attrs: seq<Attr>)
    requires GoodAttrs(attrs) && attrs != []
    ensures ShowAttrs(attrs) != "" && IsSpace(ShowAttrs(attrs)[0])
    ensures var c := ShowAttrs(attrs)[0]; !IsWord(c) && c != ':'
  {
    assert GoodAttr(attrs[0]);
    assert IsXmlSpace(attrs[0].lead[0]);
    assert ShowAttrs(attrs)[0] == attrs[0].lead[0];
  }

  lemma FoundInName(name: string, attrs: seq<Attr>)
    requires name != "" && PrefixedLen(name) == |name| && GoodAttrs(attrs) && attrs != []
    requires forall i :: 0 <= i < |attrs| ==> '\n' !in attrs[i].value
    ensures var t := Show(Instruction(name + ShowAttrs(attrs)));
            ElemFinished(t) == Some("?>") && Attrs(t) == Shown(attrs)
  {
    PrefixedChars(name);
    FirstLead(attrs);
    ShowAttrsShape(attrs);
    hide *;
    var a := ShowAttrs(attrs);
    ShownInstruction(name, attrs);
    PlainName(name);
    PlainAttributes(name, a);
    CloserEnds();
    ElemFinishedIs("<?" + name + a, "?>");
    NameCharsOnly(name);
    Assoc("<?" + name, a, "?>");
    AttrsSkip("<?" + name, a + "?>");
    EndOfInstruction();
    AttrsOfList(attrs, "?>");
  }

  lemma EndOfInstruction()
    ensures '=' !in "?>"
  {
  }

  lemma NameCharsOnly(name: string)
    requires forall i :: 0 <= i < |name| ==> IsWord(name[i]) || name[i] == ':'
    ensures AttrNameChars("<?" + name)
  {
  }

  lemma PlainAttributes(name: string, a: string)
    requires '>' !in name && NoAngles(a) && a != "" && a[|a| - 1] == '"'
    ensures var before := "<?" + name + a; '>' !in before && before != "" && !CloserChar(before[|before| - 1])
  {
  }

  lemma GoodWithLeads(attrs: seq<Attr>, leads: seq<string>)
    requires GoodAttrs(attrs) && |leads| == |attrs|
    requires forall i :: 0 <= i < |leads| ==> leads[i] != "" && XmlSpace(leads[i])
    ensures GoodAttrs(WithLeads(attrs, leads))
  {
    hide GoodName, XmlSpace, NoAngles;
    forall i | 0 <= i < |attrs|
      ensures GoodAttr(WithLeads(attrs, leads)[i])
    {
      assert GoodAttr(attrs[i]);
    }
  }

  lemma SameLeadsSame(attrs: seq<Attr>, leads: seq<string>)
    requires |leads| == |attrs|
    ensures WithLeads(attrs, leads) == attrs <==> forall i :: 0 <= i < |attrs| ==> attrs[i].lead == leads[i]
  {
    if forall i :: 0 <= i < |attrs| ==> attrs[i].lead == leads[i] {
      assert forall i :: 0 <= i < |attrs| ==> WithLeads(attrs, leads)[i] == attrs[i];
    }
    if WithLeads(attrs, leads) == attrs {
      forall i | 0 <= i < |attrs|
        ensures attrs[i].lead == leads[i]
      {
        assert WithLeads(attrs, leads)[i].lead == leads[i];
      }
    }
  }

  lemma OneInPlace(name: string, a: Attr, width: int)
    requires name != "" && PrefixedLen(name) == |name| && GoodAttr(a) && '\n' !in a.value && a.lead == " "
    ensures Unchanged(Instruction(name + ShowAttrs([a])), 0, width) <==> |name| + |ShowAttr(a)| + 5 <= width
  {
    hide PrefixedLen, Unchanged, GoodAttr, ShowAttr;
    var attrs, head := [a], Spaces(0) + "<?" + name;
    AttributesInPlace(name, attrs, 0, width);
    assert |head| == 2 + |name|;
    assert Shown(attrs) == [ShowAttr(a)];
    LeadsStep(Shown(attrs), 0, |head|, |head|, "?>", width);
    assert IndexOf(Shown(attrs), ShowAttr(a)) == 0;
    assert ("\n" + Spaces(|head| + 1))[0] == '\n';
  }

  lemma WidthParts()
    ensures GoodAttr(Attr(" ", "c", "d")) && ShowAttr(Attr(" ", "c", "d")) == "c=\"d\""
    ensures "a:b" + ShowAttrs([Attr(" ", "c", "d")]) == "a:b c=\"d\""
  {
    assert ShowAttrs([]) == "";
    assert " " + "c=\"d\"" + "" == " c=\"d\"";
  }

  /** `<?a:b c="d"?>` is unchanged at width 80, and broken at width 12. */
  lemma WidthExample()
    ensures Unchanged(Instruction("a:b c=\"d\""), 0, 80) && !Unchanged(Instruction("a:b c=\"d\""), 0, 12)
  {
    hide *;
    ExampleName();
    WidthParts();
    NoBreakInD();
    OneInPlace("a:b", Attr(" ", "c", "d"), 80);
    OneInPlace("a:b", Attr(" ", "c", "d"), 12);
  }

  lemma NoBreakInD()
    ensures '\n' !in "d"
  {
  }
}
