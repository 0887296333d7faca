/** udev rules: clauses, their text, and what a rules file does to an event. Rules run from top to
    bottom; a GOTO skips ahead to its label. */
module UdevRules {
  import opened Basics
  import opened Text

  datatype Key = Action | Subsystem | Attr(name: string) | Attrs(name: string) | Env(name: string) | Tag | Goto | Label

  /** `==`, `!=`, `=` and `+=`. */
  datatype Op = Match | NoMatch | Assign | Append

  datatype Clause = Clause(key: Key, op: Op, value: string)

  type Rule = seq<Clause>

  // ----- text -----

  function InBraces(word: string, name: string): string {
    word + "{" + name + "}"
  }

  function ShowKey(k: Key): string {
    match k
    case Action => "ACTION"
    case Subsystem => "SUBSYSTEM"
    case Attr(name) => InBraces("ATTR", name)
    case Attrs(name) => InBraces("ATTRS", name)
    case Env(name) => InBraces("ENV", name)
    case Tag => "TAG"
    case Goto => "GOTO"
    case Label => "LABEL"
  }

  function ShowOp(op: Op): string {
    match op
    case Match => "=="
    case NoMatch => "!="
    case Assign => "="
    case Append => "+="
  }

  function ShowClause(c: Clause): string {
    ShowKey(c.key) + ShowOp(c.op) + "\"" + c.value + "\""
  }

  function ShowRule(r: Rule): string {
    if r == [] then "" else ShowClause(r[0]) + (if |r| == 1 then "" else ", " + ShowRule(r[1..]))
  }

  // ----- reading -----

  predicate OpChar(c: char) {
    c == '=' || c == '!' || c == '+'
  }

  function KeyLen(s: string): (k: nat)
    ensures k <= |s| && (k < |s| ==> OpChar(s[k])) && forall i :: 0 <= i < k ==> !OpChar(s[i])
  {
    if s == "" || OpChar(s[0]) then 0 else 1 + KeyLen(s[1..])
  }

  /** The name in braces after `word`. */
  function Braced(s: string, word: string): Option<string> {
    if |s| > |word| + 1 && s[..|word|] == word && s[|word|] == '{' && s[|s| - 1] == '}'
    then Some(s[|word| + 1..|s| - 1]) else None
  }

  function ReadWord(s: string): Option<Key> {
    if s == "ACTION" then Some(Action)
    else if s == "SUBSYSTEM" then Some(Subsystem)
    else if s == "TAG" then Some(Tag)
    else if s == "GOTO" then Some(Goto)
    else if s == "LABEL" then Some(Label)
    else None
  }

  function ReadNamed(s: string): Option<Key> {
    if Braced(s, "ATTR").Some? then Some(Attr(Braced(s, "ATTR").value))
    else if Braced(s, "ATTRS").Some? then Some(Attrs(Braced(s, "ATTRS").value))
    else if Braced(s, "ENV").Some? then Some(Env(Braced(s, "ENV").value))
    else None
  }

  function ReadKey(s: string): Option<Key> {
    if s != "" && s[|s| - 1] == '}' then ReadNamed(s) else ReadWord(s)
  }

  function ReadOp(s: string): Option<Op> {
    if s == "==" then Some(Match)
    else if s == "!=" then Some(NoMatch)
    else if s == "=" then Some(Assign)
    else if s == "+=" then Some(Append)
    else None
  }

  function ReadClause(head: string, value: string): Option<Clause> {
    var k := KeyLen(head);
    var key, op := ReadKey(head[..k]), ReadOp(head[k..]);
    if key.None? || op.None? then None else Some(Clause(key.value, op.value, value))
  }

  function Rest(rest: string): (r: string)
    ensures |r| <= |rest|
  {
    if |rest| >= 2 && rest[..2] == ", " then rest[2..] else rest
  }

  /** A line: clauses with quoted values, separated by a comma and a space. */
  function ReadRule(s: string): Option<Rule>
    decreases |s|
  {
    if s == "" then Some([])
    else
      var i := Find(s, "\"");
      if i < 0 then None
      else
        AtQuote(s, i);
        var more := s[i + 1..];
        var j := Find(more, "\"");
        if j < 0 then None
        else
          AtQuote(more, j);
          var rest := more[j + 1..];
          var c := ReadClause(s[..i], more[..j]);
          var cs := ReadRule(Rest(rest));
          if c.None? || cs.None? then None else Some([c.value] + cs.value)
  }

  lemma AtQuote(s: string, i: int)
    requires At(s, "\"", i)
    ensures 0 <= i < |s| && s[i] == '"'
  {
    AtChar(s, "\"", i, 0);
  }

  /** A file: one rule a line, blank lines ignored. */
  function ReadFile(s: string): Option<seq<Rule>>
    decreases |s|
  {
    if s == "" then Some([])
    else
      var i := Find(s, "\n");
      if i < 0 then None
      else
        AtNewline(s, i);
        var rest := ReadFile(s[i + 1..]);
        if i == 0 then rest
        else
          var r := ReadRule(s[..i]);
          if r.None? || rest.None? then None else Some([r.value] + rest.value)
  }

  lemma AtNewline(s: string, i: int)
    requires At(s, "\n", i)
    ensures 0 <= i < |s| && s[i] == '\n'
  {
    AtChar(s, "\n", i, 0);
  }

  predicate GoodValue(v: string) {
    '"' !in v && '\n' !in v
  }

  predicate Plain(s: string) {
    '=' !in s && '!' !in s && '+' !in s && '"' !in s && '\n' !in s
  }

  predicate GoodName(k: Key) {
    (k.Attr? || k.Attrs? || k.Env?) ==> Plain(k.name)
  }

  predicate GoodClause(c: Clause) {
    GoodValue(c.value) && GoodName(c.key)
  }

  predicate GoodRule(r: Rule) {
    forall i :: 0 <= i < |r| ==> GoodClause(r[i])
  }

  lemma BracedBack(word: string, name: string)
    ensures Braced(InBraces(word, name), word) == Some(name)
    ensures InBraces(word, name) != "" && InBraces(word, name)[|InBraces(word, name)| - 1] == '}'
  {
    var s := InBraces(word, name);
    assert s[..|word|] == word;
    assert s[|word| + 1..|s| - 1] == name;
  }

  lemma NotBraced(word: string, name: string, other: string)
    requires word != "" && '{' !in word && word != other
    requires |other| < |word| || (other != "" && word[0] != other[0])
    ensures Braced(InBraces(word, name), other).None?
  {
    var s := InBraces(word, name);
    assert forall i :: 0 <= i < |word| ==> s[i] == word[i];
    if |other| >= |word| && |s| > |other| { assert s[..|other|][0] == word[0]; }
  }

  predicate Bare(k: Key) {
    !k.Attr? && !k.Attrs? && !k.Env?
  }

  lemma BareBack(k: Key)
    requires Bare(k)
    ensures ReadWord(ShowKey(k)) == Some(k) && Plain(ShowKey(k)) && ShowKey(k) != ""
            && ShowKey(k)[|ShowKey(k)| - 1] != '}'
  {
  }

  lemma NamedBack(k: Key)
    requires !Bare(k)
    ensures ReadNamed(ShowKey(k)) == Some(k) && ShowKey(k) != "" && ShowKey(k)[|ShowKey(k)| - 1] == '}'
  {
    hide InBraces, Braced;
    match k {
      case Attr(name) =>
        BracedBack("ATTR", name);
      case Attrs(name) =>
        BracedBack("ATTRS", name);
        NotBraced("ATTRS", name, "ATTR");
      case Env(name) =>
        BracedBack("ENV", name);
        NotBraced("ENV", name, "ATTR");
        NotBraced("ENV", name, "ATTRS");
    }
  }

  lemma PlainSum(a: string, b: string)
    requires Plain(a) && Plain(b)
    ensures Plain(a + b)
  {
  }

  lemma NamedPlain(k: Key)
    requires !Bare(k) && GoodName(k)
    ensures Plain(ShowKey(k))
  {
    assert Plain("ATTR") && Plain("ATTRS") && Plain("ENV") && Plain(k.name);
    hide Plain, InBraces;
    match k {
      case Attr(name) => BracesPlain("ATTR", name);
      case Attrs(name) => BracesPlain("ATTRS", name);
      case Env(name) => BracesPlain("ENV", name);
    }
  }

  lemma BracesPlain(word: string, name: string)
    requires Plain(word) && Plain(name)
    ensures Plain(InBraces(word, name))
  {
    assert Plain("{") && Plain("}");
    hide Plain;
    PlainSum(word, "{");
    PlainSum(word + "{", name);
    PlainSum(word + "{" + name, "}");
  }

  lemma KeyBack(k: Key)
    requires GoodName(k)
    ensures ReadKey(ShowKey(k)) == Some(k) && Plain(ShowKey(k)) && ShowKey(k) != ""
  {
    hide ReadWord, ReadNamed, ShowKey, Plain, GoodName;
    if Bare(k) {
      BareBack(k);
    } else {
      NamedBack(k);
      NamedPlain(k);
    }
  }

  lemma OpBack(op: Op)
    ensures ReadOp(ShowOp(op)) == Some(op) && ShowOp(op) != "" && OpChar(ShowOp(op)[0]) && '"' !in ShowOp(op)
            && '\n' !in ShowOp(op)
  {
  }

  lemma {:induction false} KeyLenIs(k: string, op: string)
    requires Plain(k) && op != "" && OpChar(op[0])
    ensures KeyLen(k + op) == |k|
  {
    assert forall i :: 0 <= i < |k| ==> (k + op)[i] == k[i] && k[i] in k;
    assert (k + op)[|k|] == op[0];
  }

  lemma ClauseBack(c: Clause)
    requires GoodClause(c)
    ensures ReadClause(ShowKey(c.key) + ShowOp(c.op), c.value) == Some(c)
    ensures '"' !in ShowKey(c.key) + ShowOp(c.op) && '\n' !in ShowClause(c) && ShowClause(c) != ""
  {
    hide ReadKey, ReadOp, ShowKey, ShowOp;
    KeyBack(c.key);
    OpBack(c.op);
    var k, o := ShowKey(c.key), ShowOp(c.op);
    KeyLenIs(k, o);
    assert (k + o)[..|k|] == k && (k + o)[|k|..] == o;
  }

  lemma QuoteAt(a: string, rest: string)
    requires '"' !in a
    ensures Find(a + "\"" + rest, "\"") == |a|
  {
    var s := a + "\"" + rest;
    assert forall i :: 0 <= i < |a| ==> s[i] == a[i];
    assert s[|a|] == '"';
    FindChar(s, '"', |a|);
  }

  lemma Cut(a: string, q: string, b: string)
    requires |q| == 1
    ensures (a + q + b)[..|a|] == a && (a + q + b)[|a| + 1..] == b
  {
  }

  lemma ReadStep(a: string, v: string, rest: string)
    requires '"' !in a && '"' !in v
    ensures var c, more := ReadClause(a, v), ReadRule(Rest(rest));
            ReadRule(a + "\"" + (v + "\"" + rest))
            == if c.None? || more.None? then None else Some([c.value] + more.value)
  {
    hide ReadClause;
    QuoteAt(a, v + "\"" + rest);
    Cut(a, "\"", v + "\"" + rest);
    QuoteAt(v, rest);
    Cut(v, "\"", rest);
    assert a + "\"" + (v + "\"" + rest) != "";
  }

  /** Reading one clause off a line. */
  lemma ReadFirst(c: Clause, rest: string)
    requires GoodClause(c)
    ensures var more := ReadRule(Rest(rest));
            ReadRule(ShowClause(c) + rest) == if more.None? then None else Some([c] + more.value)
  {
    hide ReadClause, ShowKey, ShowOp, ReadRule, Rest;
    ClauseBack(c);
    var a := ShowKey(c.key) + ShowOp(c.op);
    assert ShowClause(c) + rest == a + "\"" + (c.value + "\"" + rest);
    ReadStep(a, c.value, rest);
  }

  lemma ShowRuleFirst(r: Rule)
    requires r != []
    ensures ShowRule(r) == ShowClause(r[0]) + if |r| == 1 then "" else ", " + ShowRule(r[1..])
  {
  }

  lemma GoodFirst(r: Rule)
    requires GoodRule(r) && r != []
    ensures GoodClause(r[0]) && GoodRule(r[1..]) && r == [r[0]] + r[1..]
  {
    hide GoodClause;
  }

  lemma AfterComma(s: string)
    ensures Rest(", " + s) == s && Rest("") == ""
  {
    assert (", " + s)[..2] == ", " && (", " + s)[2..] == s;
  }

  lemma OneLineSum(a: string, b: string)
    requires a != "" && '\n' !in a && '\n' !in b
    ensures '\n' !in a + b && '\n' !in ", " + b && a + b != ""
  {
  }

  /** Reading undoes showing. */
  lemma {:induction false} RuleBack(r: Rule)
    requires GoodRule(r)
    ensures ReadRule(ShowRule(r)) == Some(r) && '\n' !in ShowRule(r) && (r != [] ==> ShowRule(r) != "")
  {
    hide *;
    NothingRead();
    if r != [] {
      var first, more := r[0], r[1..];
      GoodFirst(r);
      ShowRuleFirst(r);
      ClauseBack(first);
      AfterComma(ShowRule(more));
      if |r| == 1 {
        assert more == [];
        ReadFirst(first, "");
        OneLineSum(ShowClause(first), "");
      } else {
        RuleBack(more);
        ReadFirst(first, ", " + ShowRule(more));
        OneLineSum(ShowClause(first), ShowRule(more));
        OneLineSum(ShowClause(first), ", " + ShowRule(more));
      }
    }
  }

  lemma NothingRead()
    ensures ReadRule("") == Some([]) && ShowRule([]) == ""
  {
  }

  /** One more line at the top of a file. */
  lemma ReadLine(line: string, rest: string)
    requires '\n' !in line
    ensures line != "" && ReadRule(line).Some? && ReadFile(rest).Some? ==>
              ReadFile(line + "\n" + rest) == Some([ReadRule(line).value] + ReadFile(rest).value)
    ensures line == "" ==> ReadFile(line + "\n" + rest) == ReadFile(rest)
  {
    hide ReadRule;
    var s := line + "\n" + rest;
    assert forall i :: 0 <= i < |line| ==> s[i] == line[i];
    assert s[|line|] == '\n';
    FindChar(s, '\n', |line|);
    assert s[..|line|] == line && s[|line| + 1..] == rest;
  }

  // ----- what a file does -----

  /** `own` is the device of the event, `parents` its parents from the nearest on. */
  datatype Device = Device(subsystem: string, attrs: map<string, string>)

  datatype Event = Event(action: string, own: Device, parents: seq<Device>)

  /** What the rules leave behind. */
  datatype State = State(env: map<string, string>, tags: set<string>)

  predicate Matches(op: Op, actual: string, pattern: string) {
    (op == Match ==> actual in Alternatives(pattern)) && (op == NoMatch ==> actual !in Alternatives(pattern))
  }

  predicate HasAttr(op: Op, d: Device, name: string, pattern: string) {
    name in d.attrs && Matches(op, d.attrs[name], pattern)
  }

  predicate Holds(c: Clause, e: Event) {
    match c.key
    case Action => Matches(c.op, e.action, c.value)
    case Subsystem => Matches(c.op, e.own.subsystem, c.value)
    case Attr(name) => HasAttr(c.op, e.own, name, c.value)
    case _ => true
  }

  function Chain(e: Event): seq<Device> {
    [e.own] + e.parents
  }

  predicate AllAttrs(r: Rule, d: Device) {
    forall i :: 0 <= i < |r| && r[i].key.Attrs? ==> HasAttr(r[i].op, d, r[i].key.name, r[i].value)
  }

  /** All ATTRS clauses of a rule have to hold of the same device, which may be any of the parents. */
  predicate Applies(r: Rule, e: Event) {
    && (forall i :: 0 <= i < |r| ==> Holds(r[i], e))
    && exists j :: 0 <= j < |Chain(e)| && AllAttrs(r, Chain(e)[j])
  }

  function Appended(old_: string, v: string): string {
    if old_ == "" then v else old_ + " " + v
  }

  /** A list of units: each one is separated from the ones before it by a single space. */
  lemma AppendedIs(u: string, v: string)
    ensures Appended("", v) == v
    ensures u != "" ==> |Appended(u, v)| == |u| + 1 + |v| && Appended(u, v)[|u|] == ' ' && u <= Appended(u, v)
                        && Appended(u, v)[|u| + 1..] == v
  {
  }

  function Effect(c: Clause, st: State): State {
    match c.key
    case Env(name) =>
      if c.op == Append then st.(env := st.env[name := Appended(if name in st.env then st.env[name] else "", c.value)])
      else if c.op == Assign then st.(env := st.env[name := c.value])
      else st
    case Tag => if c.op == Append then st.(tags := st.tags + {c.value}) else st
    case _ => st
  }

  function Effects(r: Rule, st: State): State {
    if r == [] then st else Effects(r[1..], Effect(r[0], st))
  }

  function Target(r: Rule): Option<string> {
    if r == [] then None
    else if r[0].key == Goto then Some(r[0].value)
    else Target(r[1..])
  }

  predicate Labelled(r: Rule, place: string) {
    exists i :: 0 <= i < |r| && r[i] == Clause(Label, Assign, place)
  }

  /** The first rule from `i` on with the place, or the end of the file. */
  function LabelFrom(rules: seq<Rule>, i: nat, place: string): (k: nat)
    requires i <= |rules|
    ensures i <= k <= |rules|
    ensures k < |rules| ==> Labelled(rules[k], place)
    ensures forall j :: i <= j < k ==> !Labelled(rules[j], place)
    decreases |rules| - i
  {
    if i == |rules| || Labelled(rules[i], place) then i else LabelFrom(rules, i + 1, place)
  }

  /** Every rule is looked at once at most, so every event is dealt with. */
  function Run(rules: seq<Rule>, i: nat, e: Event, st: State): State
    requires i <= |rules|
    decreases |rules| - i
  {
    if i == |rules| then st
    else if !Applies(rules[i], e) then Run(rules, i + 1, e, st)
    else
      var st' := Effects(rules[i], st);
      match Target(rules[i])
      case None => Run(rules, i + 1, e, st')
      case Some(place) => Run(rules, LabelFrom(rules, i + 1, place), e, st')
  }
}
