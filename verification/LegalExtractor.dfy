/** Cutting a legal document out of a rendered page: a machine fed with tags, text and tag ends. */
module LegalExtractor {
  import opened Texts

  datatype Attribute = Attribute(name: string, value: Option<string>)

  datatype Event =
    | Start(tag: string, attrs: seq<Attribute>)
    | End(tag: string)
    | StartEnd(tag: string, attrs: seq<Attribute>)
    | Data(text: string)

  /** What is written: markup or text, the text already escaped. */
  datatype Piece =
    | Open(tag: string, attrs: seq<(string, string)>)
    | Close(tag: string)
    | Void(tag: string)
    | Text(text: string)

  const KEPT_TAGS: set<string> := {"h1", "h2", "p", "ul", "ol", "li", "strong", "em", "a", "br", "span", "section",
                                   "div"}
  const VOID_TAGS: set<string> := {"br"}
  const OWN_LINE: set<string> := {"p", "ul", "ol", "li", "h2", "section", "div"}
  const CF_EMAIL_HREF := "/cdn-cgi/l/email-protection#"

  /** The archived copy of each document's route, and the decoding of obfuscated addresses. */
  datatype Env = Env(siblings: map<string, string>, email: string -> string)

  // ---- Reading attributes ----

  /** The last value given for a name; empty when there is none. */
  function Attr(attrs: seq<Attribute>, name: string): string {
    if attrs == [] then ""
    else
      var last := attrs[|attrs| - 1];
      if last.name == name then (if last.value.Some? then last.value.value else "")
        else Attr(attrs[..|attrs| - 1], name)
  }

  predicate IsSpace(c: char) {
    c == ' ' || c == '\t' || c == '\n' || c == '\r' || c == '\U{b}' || c == '\U{c}'
  }

  function Words(s: string, word: string): set<string>
    decreases |s|
  {
    if s == [] then (if word == "" then {} else {word})
    else if IsSpace(s[0]) then (if word == "" then {} else {word}) + Words(s[1..], "")
    else Words(s[1..], word + [s[0]])
  }

  predicate HasClass(attrs: seq<Attribute>, c: string) {
    c in Words(Attr(attrs, "class"), "")
  }

  predicate IsTop(tag: string, attrs: seq<Attribute>) {
    tag == "header" && Attr(attrs, "id") == "legal-top"
  }

  predicate IsMuted(tag: string, attrs: seq<Attribute>) {
    tag == "div" && HasClass(attrs, "shop-muted")
  }

  predicate IsRoot(tag: string, attrs: seq<Attribute>) {
    tag == "div" && HasClass(attrs, "shop-legal")
  }

  predicate IsEmail(tag: string, attrs: seq<Attribute>) {
    tag == "span" && Attr(attrs, "data-cfemail") != ""
  }

  // ---- Writing text and attributes ----

  function EscapeChar(c: char, quote: bool): string {
    if c == '&' then "&amp;" else if c == '<' then "&lt;" else if c == '>' then "&gt;"
    else if quote && c == '"' then "&quot;" else if quote && c == '\'' then "&#x27;" else [c]
  }

  function Escape(s: string, quote: bool): (r: string)
    ensures '<' !in r && '>' !in r && (quote ==> '"' !in r)
  {
    if s == [] then [] else EscapeChar(s[0], quote) + Escape(s[1..], quote)
  }

  function PathOf(href: string): string {
    Head(href, '#')
  }

  lemma {:induction false} PathIsPrefix(href: string)
    ensures PathOf(href) <= href && '#' !in PathOf(href)
    ensures |PathOf(href)| < |href| ==> href[|PathOf(href)|] == '#'
    decreases |href|
  {
    if href != [] && href[0] != '#' { PathIsPrefix(href[1..]); }
  }

  /** Addresses are restored, links between the documents go to the archived copies. */
  function Href(env: Env, value: string): string {
    if CF_EMAIL_HREF <= value then "mailto:" + env.email(value[|CF_EMAIL_HREF|..])
    else
      var path := PathOf(value);
      PathIsPrefix(value);
      if path in env.siblings then env.siblings[path] + value[|path|..] else value
  }

  predicate KeptAttr(tag: string, name: string) {
    (tag == "a" && name == "href") || (tag == "section" && name == "id")
  }

  function CleanedFrom(env: Env, tag: string, attrs: seq<Attribute>): seq<(string, string)> {
    if attrs == [] then []
    else
      var rest := CleanedFrom(env, tag, attrs[..|attrs| - 1]);
      var a := attrs[|attrs| - 1];
      if !KeptAttr(tag, a.name) then rest
      else
        var value := if a.value.Some? then a.value.value else "";
        rest + [(a.name, Escape(if a.name == "href" then Href(env, value) else value, true))]
  }

  function Cleaned(env: Env, tag: string, attrs: seq<Attribute>): seq<(string, string)> {
    CleanedFrom(env, tag, attrs) + if tag == "span" && HasClass(attrs, "block") then [("class", "line")] else []
  }

  // ---- The machine ----

  /** An open element: the document's root or a tag. */
  datatype Frame = Root | Tag(name: string)

  datatype State = State(out: seq<Piece>, depth: nat, stack: seq<Frame>, metaText: seq<string>,
                         inMeta: nat, inHeader: bool, emailDepth: nat)

  const INITIAL := State([], 0, [], [], 0, false, 0)

  function StartTag(env: Env, before: State, tag: string, attrs: seq<Attribute>): State {
    var s := if IsTop(tag, attrs) then before.(inHeader := true) else before;
    if s.inHeader && tag == "h1" then s.(depth := s.depth + 1, out := s.out + [Open("h1", [])])
    else if s.inHeader && IsMuted(tag, attrs) then s.(inMeta := s.inMeta + 1)
    else if s.inMeta > 0 then s.(inMeta := s.inMeta + if tag in VOID_TAGS then 0 else 1)
    else if IsRoot(tag, attrs) && s.depth == 0 then s.(depth := s.depth + 1, stack := s.stack + [Root])
    else if s.depth == 0 then s
    else if s.emailDepth > 0 then s.(emailDepth := s.emailDepth + 1)
    else if IsEmail(tag, attrs) then
      s.(out := s.out + [Text(Escape(env.email(Attr(attrs, "data-cfemail")), false))], emailDepth := 1)
    else
      var t := if tag in VOID_TAGS then s else s.(stack := s.stack + [Tag(tag)]);
      if tag in KEPT_TAGS then t.(out := t.out + [Opening(tag, Cleaned(env, tag, attrs))]) else t
  }

  function Opening(tag: string, attrs: seq<(string, string)>): Piece {
    if tag in VOID_TAGS then Void(tag) else Open(tag, attrs)
  }

  function Closing(tag: string): seq<Piece> {
    [Close(tag)] + if tag in OWN_LINE then [Text("\n")] else []
  }

  function EndTag(before: State, tag: string): State {
    if before.inMeta > 0 then before.(inMeta := before.inMeta - 1)
    else if before.emailDepth > 0 then before.(emailDepth := before.emailDepth - 1)
    else
      var s := if tag == "header" then before.(inHeader := false) else before;
      if s.depth == 0 then s
      else if s.inHeader && tag == "h1" then s.(out := s.out + [Close("h1"), Text("\n")], depth := s.depth - 1)
      else if tag in VOID_TAGS then s
      else
        var popped := if s.stack == [] then Tag("") else s.stack[|s.stack| - 1];
        var t := if s.stack == [] then s else s.(stack := s.stack[..|s.stack| - 1]);
        if popped == Root then t.(depth := t.depth - 1)
        else if tag in KEPT_TAGS then t.(out := t.out + Closing(tag))
        else t
  }

  function StartEndTag(s: State, tag: string): State {
    if s.depth > 0 && tag in VOID_TAGS then s.(out := s.out + [Void(tag)]) else s
  }

  function TextData(s: State, text: string): State {
    if s.emailDepth > 0 then s
    else if s.inMeta > 0 then s.(metaText := s.metaText + [text])
    else if s.depth > 0 then s.(out := s.out + [Text(Escape(text, false))])
    else s
  }

  function Step(env: Env, s: State, e: Event): State {
    match e
    case Start(tag, attrs) => StartTag(env, s, tag, attrs)
    case End(tag) => EndTag(s, tag)
    case StartEnd(tag, _) => StartEndTag(s, tag)
    case Data(text) => TextData(s, text)
  }

  function Run(env: Env, s: State, events: seq<Event>): State
    decreases |events|
  {
    if events == [] then s else Run(env, Step(env, s, events[0]), events[1..])
  }

  lemma {:induction false} RunAppends(env: Env, s: State, a: seq<Event>, b: seq<Event>)
    ensures Run(env, s, a + b) == Run(env, Run(env, s, a), b)
    decreases |a|
  {
    if a == [] {
      assert a + b == b;
    } else {
      RunAppends(env, Step(env, s, a[0]), a[1..], b);
      assert (a + b)[1..] == a[1..] + b;
    }
  }

  class Extractor {
    const env: Env
    var out: seq<Piece>
    var depth: nat
    var stack: seq<Frame>
    var metaText: seq<string>
    var inMeta: nat
    var inHeader: bool
    var emailDepth: nat

    function Current(): State
      reads this
    {
      State(out, depth, stack, metaText, inMeta, inHeader, emailDepth)
    }

    constructor (env: Env)
      ensures this.env == env && Current() == INITIAL
    {
      this.env := env;
      out, depth, stack, metaText := [], 0, [], [];
      inMeta, inHeader, emailDepth := 0, false, 0;
    }

    method HandleStartTag(tag: string, attrs: seq<Attribute>)
      modifies this
      ensures Current() == StartTag(env, old(Current()), tag, attrs)
    {
      if tag == "header" && Attr(attrs, "id") == "legal-top" {
        inHeader := true;
      }
      if inHeader && tag == "h1" {
        depth := depth + 1;
        out := out + [Open("h1", [])];
        return;
      }
      if inHeader && tag == "div" && HasClass(attrs, "shop-muted") {
        inMeta := inMeta + 1;
        return;
      }
      if inMeta > 0 {
        inMeta := inMeta + if tag !in VOID_TAGS then 1 else 0;
        return;
      }
      if tag == "div" && HasClass(attrs, "shop-legal") && depth == 0 {
        depth := depth + 1;
        stack := stack + [Root];
        return;
      }
      if depth == 0 {
        return;
      }
      if emailDepth > 0 {
        emailDepth := emailDepth + 1;
        return;
      }
      if tag == "span" && Attr(attrs, "data-cfemail") != "" {
        out := out + [Text(Escape(env.email(Attr(attrs, "data-cfemail")), false))];
        emailDepth := 1;
        return;
      }
      if tag !in VOID_TAGS {
        stack := stack + [Tag(tag)];
      }
      if tag !in KEPT_TAGS {
        return;
      }
      var cleaned := [];
      for i := 0 to |attrs|
        invariant cleaned == CleanedFrom(env, tag, attrs[..i])
      {
        assert attrs[..i + 1][..i] == attrs[..i];
        if KeptAttr(tag, attrs[i].name) {
          var value := if attrs[i].value.Some? then attrs[i].value.value else "";
          if attrs[i].name == "href" {
            value := Href(env, value);
          }
          cleaned := cleaned + [(attrs[i].name, Escape(value, true))];
        }
      }
      assert attrs[..|attrs|] == attrs;
      if tag == "span" && HasClass(attrs, "block") {
        cleaned := cleaned + [("class", "line")];
      }
      assert cleaned == Cleaned(env, tag, attrs);
      out := out + [Opening(tag, cleaned)];
    }

    method HandleEndTag(tag: string)
      modifies this
      ensures Current() == EndTag(old(Current()), tag)
    {
      if inMeta > 0 {
        inMeta := inMeta - 1;
        return;
      }
      if emailDepth > 0 {
        emailDepth := emailDepth - 1;
        return;
      }
      if tag == "header" {
        inHeader := false;
      }
      if depth == 0 {
        return;
      }
      if inHeader && tag == "h1" {
        out := out + [Close("h1"), Text("\n")];
        depth := depth - 1;
        return;
      }
      if tag in VOID_TAGS {
        return;
      }
      var popped := Tag("");
      if stack != [] {
        popped, stack := stack[|stack| - 1], stack[..|stack| - 1];
      }
      if popped == Root {
        depth := depth - 1;
        return;
      }
      if tag in KEPT_TAGS {
        out := out + [Close(tag)] + if tag in OWN_LINE then [Text("\n")] else [];
      }
    }

    method HandleStartEndTag(tag: string, attrs: seq<Attribute>)
      modifies this
      ensures Current() == StartEndTag(old(Current()), tag)
    {
      if depth > 0 && tag in VOID_TAGS {
        out := out + [Void(tag)];
      }
    }

    method HandleData(text: string)
      modifies this
      ensures Current() == TextData(old(Current()), text)
    {
      if emailDepth > 0 {
        return;
      }
      if inMeta > 0 {
        metaText := metaText + [text];
        return;
      }
      if inHeader && depth > 0 && stack == [] {
        out := out + [Text(Escape(text, false))];
        return;
      }
      if depth > 0 {
        out := out + [Text(Escape(text, false))];
      }
    }

    method Feed(events: seq<Event>)
      modifies this
      ensures Current() == Run(env, old(Current()), events)
    {
      for i := 0 to |events|
        invariant Run(env, Current(), events[i..]) == Run(env, old(Current()), events)
      {
        assert events[i..][1..] == events[i + 1..];
        match events[i] {
          case Start(tag, attrs) => HandleStartTag(tag, attrs);
          case End(tag) => HandleEndTag(tag);
          case StartEnd(tag, attrs) => HandleStartEndTag(tag, attrs);
          case Data(text) => HandleData(text);
        }
      }
    }
  }
}
