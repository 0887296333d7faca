/** Concrete XML syntax, independent of the printer: what a document looks like, character by character. */
module XmlMarkup {
  import opened Text

  /** An attribute with the white space in front of it; `value` is the text between the quotes. */
  datatype Attr = Attr(lead: string, name: string, value: string)

  datatype Kind = Opening | Closing | SelfClosing

  datatype Markup =
    | Tag(kind: Kind, name: string, attrs: seq<Attr>, tail: string)
    | Comment(body: string)
    | CData(body: string)
    | Instruction(body: string)

  /** A piece of markup with the (possibly empty) text in front of it. */
  datatype Segment = Segment(text: string, mark: Markup)

  function ShowAttr(a: Attr): string {
    a.name + "=\"" + a.value + "\""
  }

  function ShowAttrs(attrs: seq<Attr>): string {
    if attrs == [] then "" else attrs[0].lead + ShowAttr(attrs[0]) + ShowAttrs(attrs[1..])
  }

  function Slash(kind: Kind): string {
    if kind == Closing then "/" else ""
  }

  function Closer(kind: Kind): string {
    if kind == SelfClosing then "/>" else ">"
  }

  function Show(m: Markup): string {
    match m
    case Tag(kind, name, attrs, tail) => "<" + Slash(kind) + name + ShowAttrs(attrs) + tail + Closer(kind)
    case Comment(body) => "<!--" + body + "-->"
    case CData(body) => "<![CDATA[" + body + "]]>"
    case Instruction(body) => "<?" + body + "?>"
  }

  /** The document's text up to the end of its last markup. */
  function ShowAll(doc: seq<Segment>): string {
    if doc == [] then "" else doc[0].text + Show(doc[0].mark) + ShowAll(doc[1..])
  }

  // ----- well-formedness -----

  predicate NoAngles(s: string) {
    '<' !in s && '>' !in s
  }

  predicate IsXmlSpace(c: char) {
    c == ' ' || c == '\t' || c == '\r' || c == '\n'
  }

  lemma XmlSpaceExactly(c: char)
    ensures IsXmlSpace(c) <==> c in " \t\r\n"
  {
  }

  predicate XmlSpace(s: string) {
    forall i :: 0 <= i < |s| ==> IsXmlSpace(s[i])
  }

  /** A superset of the characters XML allows in names. */
  predicate NameChar(c: char) {
    !IsBlank(c) && c != '<' && c != '>' && c != '/' && c != '"' && c != '=' && c != '!' && c != '?'
  }

  predicate GoodName(s: string) {
    s != "" && forall i :: 0 <= i < |s| ==> NameChar(s[i])
  }

  predicate GoodAttr(a: Attr) {
    a.lead != "" && XmlSpace(a.lead) && GoodName(a.name) && NoAngles(a.value) && '"' !in a.value
  }

  predicate GoodAttrs(attrs: seq<Attr>) {
    forall i :: 0 <= i < |attrs| ==> GoodAttr(attrs[i])
  }

  /** A comment holds no `--` and does not end in `-`; CDATA holds no `]]>`; an instruction starts
      with its target and holds no `?>`. */
  predicate Legal(m: Markup) {
    match m
    case Tag(kind, name, attrs, tail) =>
      GoodName(name) && GoodAttrs(attrs) && XmlSpace(tail) && (kind == Closing ==> attrs == [])
    case Comment(body) => Find(body, "--") == -1 && (body != "" ==> body[|body| - 1] != '-')
    case CData(body) => Find(body, "]]>") == -1
    case Instruction(body) => body != "" && body[0] != '>' && Find(body, "?>") == -1
  }

  // ----- shape lemmas -----

  lemma {:induction false} ShowAttrsShape(attrs: seq<Attr>)
    requires GoodAttrs(attrs)
    ensures NoAngles(ShowAttrs(attrs))
    ensures attrs != [] ==> ShowAttrs(attrs) != "" && ShowAttrs(attrs)[|ShowAttrs(attrs)| - 1] == '"'
  {
    if attrs != [] {
      ShowAttrsShape(attrs[1..]);
      assert GoodAttr(attrs[0]);
    }
  }

  lemma NamesHaveNoAngles(name: string, tail: string)
    requires GoodName(name) && XmlSpace(tail)
    ensures NoAngles(name) && NoAngles(tail)
  {
    assert forall i :: 0 <= i < |name| ==> NameChar(name[i]);
    assert forall i :: 0 <= i < |tail| ==> IsXmlSpace(tail[i]);
  }

  lemma NoAnglesConcat(a: string, b: string)
    requires NoAngles(a) && NoAngles(b)
    ensures NoAngles(a + b)
  {
  }

  lemma SlashHasNoAngles(m: Markup)
    requires m.Tag? && Legal(m)
    ensures NoAngles(Slash(m.kind)) && NoAngles(if m.kind == SelfClosing then "/" else "") && m.name != ""
  {
  }

  /** Between its brackets a tag has no bracket. */
  lemma ShowTagShape(m: Markup) returns (inner: string)
    requires Legal(m) && m.Tag?
    ensures NoAngles(inner) && Show(m) == "<" + inner + ">" && |inner| >= |m.name|
    ensures |m.name| > 0 && inner[0] == (if m.kind == Closing then '/' else m.name[0])
  {
    hide ShowAttrs, GoodAttrs, GoodName, XmlSpace, NoAngles;
    ShowAttrsShape(m.attrs);
    NamesHaveNoAngles(m.name, m.tail);
    SlashHasNoAngles(m);
    var a := Slash(m.kind) + m.name;
    var b := m.tail + (if m.kind == SelfClosing then "/" else "");
    NoAnglesConcat(Slash(m.kind), m.name);
    NoAnglesConcat(m.tail, if m.kind == SelfClosing then "/" else "");
    NoAnglesConcat(a, ShowAttrs(m.attrs));
    NoAnglesConcat(a + ShowAttrs(m.attrs), b);
    inner := a + ShowAttrs(m.attrs) + b;
  }

  lemma {:induction false} ShowAllAppend(a: seq<Segment>, b: seq<Segment>)
    ensures ShowAll(a + b) == ShowAll(a) + ShowAll(b)
  {
    if a == [] {
      assert a + b == b;
    } else {
      assert (a + b)[1..] == a[1..] + b;
      ShowAllAppend(a[1..], b);
    }
  }
}
