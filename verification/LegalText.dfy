/** What the archived document says: the text of the page, its links, and nothing of either changed. */
module LegalText {
  import opened Texts
  import opened LegalExtractor
  import opened LegalNesting

  // ---- Reading what was escaped ----

  predicate StartsWith(s: string, p: string) {
    p <= s
  }

  /** Text as a browser reads it: the five references that escaping writes. */
  function Unescape(s: string): string
    decreases |s|
  {
    if s == [] then []
    else if StartsWith(s, "&amp;") then "&" + Unescape(s[5..])
    else if StartsWith(s, "&lt;") then "<" + Unescape(s[4..])
    else if StartsWith(s, "&gt;") then ">" + Unescape(s[4..])
    else if StartsWith(s, "&quot;") then "\"" + Unescape(s[6..])
    else if StartsWith(s, "&#x27;") then "'" + Unescape(s[6..])
    else [s[0]] + Unescape(s[1..])
  }

  lemma UnescapeFirst(c: char, quote: bool, rest: string)
    ensures Unescape(EscapeChar(c, quote) + rest) == [c] + Unescape(rest)
  {
    var first := EscapeChar(c, quote);
    assert (first + rest)[|first|..] == rest;
    if |first| == 1 {
      PlainFirst(c, rest);
    } else {
      ReferenceFirst(c, first, rest);
    }
  }

  lemma PlainFirst(c: char, rest: string)
    requires c != '&'
    ensures Unescape([c] + rest) == [c] + Unescape(rest)
  {
    var s := [c] + rest;
    assert s[0] == c && s[1..] == rest;
  }

  lemma ReferenceFirst(c: char, first: string, rest: string)
    requires (c, first) in {('&', "&amp;"), ('<', "&lt;"), ('>', "&gt;"), ('"', "&quot;"), ('\'', "&#x27;")}
    ensures Unescape(first + rest) == [c] + Unescape(rest)
  {
    var s := first + rest;
    assert StartsWith(s, first) && s[|first|..] == rest;
    assert s[1] == first[1] && s[2] == first[2];
  }

  /** What is escaped reads as it was, in text and in attributes. */
  lemma {:induction false} UnescapeEscape(s: string, quote: bool)
    ensures Unescape(Escape(s, quote)) == s
  {
    if s != [] {
      UnescapeFirst(s[0], quote, Escape(s[1..], quote));
      UnescapeEscape(s[1..], quote);
    }
  }

  // ---- The text of the document ----

  /** What is read from the pieces: their text, the markup left aside. */
  function TextOf(p: seq<Piece>): string {
    if p == [] then [] else (if p[0].Text? then Unescape(p[0].text) else []) + TextOf(p[1..])
  }

  lemma {:induction false} TextJoins(p: seq<Piece>, q: seq<Piece>)
    ensures TextOf(p + q) == TextOf(p) + TextOf(q)
    decreases |p|
  {
    if p == [] {
      assert p + q == q;
    } else {
      TextJoins(p[1..], q);
      assert (p + q)[0] == p[0] && (p + q)[1..] == p[1..] + q;
      AppendAssociative(if p[0].Text? then Unescape(p[0].text) else [], TextOf(p[1..]), TextOf(q));
    }
  }

  /** The texts of the page that belong to the document, in order, addresses decoded, a line end after each block. */
  function Said(env: Env, ns: seq<Node>, c: Ctx): string {
    if ns == [] then []
    else SaidBy(env, ns[0], c) + Said(env, ns[1..], c.(header := Render(env, ns[0], c).header))
  }

  function SaidBy(env: Env, n: Node, c: Ctx): string {
    match n
    case Elem(tag, attrs, children) =>
      Spoken(env, c, tag, attrs) + Said(env, children, Inner(c, tag, attrs)) + LineEnd(c, tag, attrs)
    case Str(text) => if c.captured && !c.meta && !c.email then text else ""
    case _ => ""
  }

  /** An obfuscated address is read as the address. */
  function Spoken(env: Env, c: Ctx, tag: string, attrs: seq<Attribute>): string {
    if KindOf(c, tag, attrs) == Address then env.email(Attr(attrs, "data-cfemail")) else ""
  }

  function LineEnd(c: Ctx, tag: string, attrs: seq<Attribute>): string {
    if KindOf(c, tag, attrs) == Heading || (KindOf(c, tag, attrs) == Structure && tag in OWN_LINE) then "\n" else ""
  }

  /** The texts in the block of dates, in order. */
  function Dated(env: Env, ns: seq<Node>, c: Ctx): seq<string> {
    if ns == [] then []
    else
      (match ns[0]
       case Elem(tag, attrs, children) => Dated(env, children, Inner(c, tag, attrs))
       case Str(text) => if c.meta && !c.email then [text] else []
       case _ => [])
      + Dated(env, ns[1..], c.(header := Render(env, ns[0], c).header))
  }

  lemma TextOfOne(x: Piece)
    ensures TextOf([x]) == if x.Text? then Unescape(x.text) else []
  {
    assert [x][1..] == [];
  }

  lemma AheadIsSpoken(env: Env, c: Ctx, tag: string, attrs: seq<Attribute>)
    ensures TextOf(Ahead(env, c, tag, attrs)) == Spoken(env, c, tag, attrs)
  {
    var ahead := Ahead(env, c, tag, attrs);
    UnescapeEscape(env.email(Attr(attrs, "data-cfemail")), false);
    if ahead != [] {
      TextOfOne(ahead[0]);
      assert ahead == [ahead[0]];
    }
  }

  lemma BehindIsLineEnd(c: Ctx, tag: string, attrs: seq<Attribute>)
    ensures TextOf(Behind(c, tag, attrs)) == LineEnd(c, tag, attrs)
  {
    var behind := Behind(c, tag, attrs);
    assert Unescape("\n") == "\n" by { assert "\n"[1..] == ""; }
    if behind != [] {
      TextOfOne(behind[0]);
      if |behind| == 2 {
        TextOfOne(behind[1]);
        TextJoins([behind[0]], [behind[1]]);
        assert behind == [behind[0]] + [behind[1]];
      } else {
        assert behind == [behind[0]];
      }
    }
  }

  /** The transformation keeps every text of the document, and nothing else is read from what it writes. */
  lemma {:induction false} RenderSays(env: Env, ns: seq<Node>, c: Ctx)
    ensures TextOf(RenderAll(env, ns, c).pieces) == Said(env, ns, c)
    ensures RenderAll(env, ns, c).meta == Dated(env, ns, c)
    decreases ns
  {
    if ns != [] {
      var first := Render(env, ns[0], c);
      var next := c.(header := first.header);
      NodeSays(env, ns[0], c);
      RenderSays(env, ns[1..], next);
      TextJoins(first.pieces, RenderAll(env, ns[1..], next).pieces);
    }
  }

  lemma {:induction false} NodeSays(env: Env, n: Node, c: Ctx)
    ensures TextOf(Render(env, n, c).pieces) == SaidBy(env, n, c)
    ensures n.Elem? ==> Render(env, n, c).meta == Dated(env, n.children, Inner(c, n.tag, n.attrs))
    decreases n
  {
    match n
    case Elem(tag, attrs, children) =>
      var r := RenderAll(env, children, Inner(c, tag, attrs));
      RenderSays(env, children, Inner(c, tag, attrs));
      AheadIsSpoken(env, c, tag, attrs);
      BehindIsLineEnd(c, tag, attrs);
      TextJoins(Ahead(env, c, tag, attrs), r.pieces);
      TextJoins(Ahead(env, c, tag, attrs) + r.pieces, Behind(c, tag, attrs));
    case Bare(tag, attrs) => TextOfOne(Void(tag));
    case Single(tag, attrs) => TextOfOne(Void(tag));
    case Str(text) =>
      UnescapeEscape(text, false);
      TextOfOne(Text(Escape(text, false)));
  }

  /** Reading the archived document of a well-placed page is reading the page's document, word for word. */
  lemma PageSays(env: Env, page: seq<Node>)
    requires WellPlaced(env, page, CtxOf(INITIAL))
    ensures var s := Run(env, INITIAL, EventsAll(page));
            TextOf(s.out) == Said(env, page, CtxOf(INITIAL)) && s.metaText == Dated(env, page, CtxOf(INITIAL))
  {
    PageIsCutClean(env, page);
    RenderSays(env, page, CtxOf(INITIAL));
  }

  // ---- The document of a rendered page ----

  /** A page as the site renders it: the header with title and dates, then the document, amid other text. */
  function RenderedPage(top: seq<Attribute>, muted: seq<Attribute>, root: seq<Attribute>, title: string, dates: string,
                        body: seq<Node>, noise: string): seq<Node>
  {
    [Str(noise),
     Elem("header", top, [Str(noise), Elem("h1", [], [Str(title)]), Elem("div", muted, [Str(dates)])]),
     Str(noise), Elem("div", root, body), Str(noise)]
  }

  /** Inside the document, outside header, dates and addresses. */
  const BODY := Ctx(false, false, true, false)

  /** The extractor cuts out the title, the dates and the body, and nothing else. */
  lemma DocumentIsCut(env: Env, top: seq<Attribute>, muted: seq<Attribute>, root: seq<Attribute>, title: string,
                      dates: string, body: seq<Node>, noise: string)
    requires IsTop("header", top) && IsMuted("div", muted) && IsRoot("div", root) && WellPlaced(env, body, BODY)
    ensures var s := Run(env, INITIAL, EventsAll(RenderedPage(top, muted, root, title, dates, body, noise)));
            && s.out == [Open("h1", []), Text(Escape(title, false)), Close("h1"), Text("\n")]
                        + RenderAll(env, body, BODY).pieces
            && s.metaText == [dates] + RenderAll(env, body, BODY).meta
            && s.depth == 0 && s.stack == []
  {
    var page := RenderedPage(top, muted, root, title, dates, body, noise);
    var c := CtxOf(INITIAL);
    HeaderIsCut(env, c, top, muted, title, dates, noise);
    BodyIsCut(env, c, root, body);
    PageInParts(env, page[1], page[3], noise, c);
    PageIsCutClean(env, page);
  }

  lemma BodyIsCut(env: Env, c: Ctx, root: seq<Attribute>, body: seq<Node>)
    requires IsRoot("div", root) && c == CtxOf(INITIAL) && WellPlaced(env, body, BODY)
    ensures var n := Elem("div", root, body);
            && NodePlaced(env, n, c)
            && Render(env, n, c).pieces == RenderAll(env, body, BODY).pieces
            && Render(env, n, c).meta == RenderAll(env, body, BODY).meta
  {
    assert Inner(c, "div", root) == BODY && KindOf(c, "div", root) == Document;
    var r := RenderAll(env, body, BODY);
    assert [] + r.pieces + [] == r.pieces;
  }

  lemma RenderFirst(env: Env, n: Node, rest: seq<Node>, c: Ctx)
    ensures var (r, q) := (Render(env, n, c), RenderAll(env, rest, c.(header := Render(env, n, c).header)));
            && RenderAll(env, [n] + rest, c) == Rendered(r.pieces + q.pieces, r.meta + q.meta, q.header)
            && (WellPlaced(env, [n] + rest, c) <==>
                NodePlaced(env, n, c) && WellPlaced(env, rest, c.(header := r.header)))
  {
    assert ([n] + rest)[0] == n && ([n] + rest)[1..] == rest;
  }

  lemma OneText(env: Env, text: string, c: Ctx)
    ensures RenderAll(env, [Str(text)], c) == Render(env, Str(text), c) && WellPlaced(env, [Str(text)], c)
  {
    RenderFirst(env, Str(text), [], c);
    assert [Str(text)] + [] == [Str(text)];
  }

  /** The header of the page. */
  lemma HeaderIsCut(env: Env, c: Ctx, top: seq<Attribute>, muted: seq<Attribute>, title: string, dates: string,
                    noise: string)
    requires IsTop("header", top) && IsMuted("div", muted) && c == CtxOf(INITIAL)
    ensures var n := Elem("header", top, [Str(noise), Elem("h1", [], [Str(title)]), Elem("div", muted, [Str(dates)])]);
            && NodePlaced(env, n, c)
            && Render(env, n, c)
               == Rendered([Open("h1", []), Text(Escape(title, false)), Close("h1"), Text("\n")], [dates], false)
  {
    var inner := c.(header := true);
    var h1, div := Elem("h1", [], [Str(title)]), Elem("div", muted, [Str(dates)]);
    TitleAndDates(env, inner, muted, title, dates);
    SkipText(env, noise, [h1, div], inner);
    assert [Str(noise)] + [h1, div] == [Str(noise), h1, div];
    assert Inner(c, "header", top) == inner && KindOf(c, "header", top) == Silent;
    var r := RenderAll(env, [Str(noise), h1, div], inner);
    assert [] + r.pieces + [] == r.pieces;
  }

  lemma TitleAndDates(env: Env, c: Ctx, muted: seq<Attribute>, title: string, dates: string)
    requires c == Ctx(true, false, false, false) && IsMuted("div", muted)
    ensures var ns := [Elem("h1", [], [Str(title)]), Elem("div", muted, [Str(dates)])];
            && WellPlaced(env, ns, c)
            && RenderAll(env, ns, c)
               == Rendered([Open("h1", []), Text(Escape(title, false)), Close("h1"), Text("\n")], [dates], true)
  {
    var h1, div := Elem("h1", [], [Str(title)]), Elem("div", muted, [Str(dates)]);
    TitleIsCut(env, c, title);
    DatesAreCut(env, c, muted, dates);
    RenderFirst(env, div, [], c);
    RenderFirst(env, h1, [div], c);
    assert [div] + [] == [div] && [h1] + [div] == [h1, div];
  }

  lemma TitleIsCut(env: Env, c: Ctx, title: string)
    requires c == Ctx(true, false, false, false)
    ensures var n := Elem("h1", [], [Str(title)]);
            && NodePlaced(env, n, c)
            && Render(env, n, c)
               == Rendered([Open("h1", []), Text(Escape(title, false)), Close("h1"), Text("\n")], [], true)
  {
    OneText(env, title, Inner(c, "h1", []));
    assert KindOf(c, "h1", []) == Heading;
    assert [Open("h1", [])] + [Text(Escape(title, false))] + [Close("h1"), Text("\n")]
           == [Open("h1", []), Text(Escape(title, false)), Close("h1"), Text("\n")];
  }

  lemma DatesAreCut(env: Env, c: Ctx, muted: seq<Attribute>, dates: string)
    requires c == Ctx(true, false, false, false) && IsMuted("div", muted)
    ensures var n := Elem("div", muted, [Str(dates)]);
            NodePlaced(env, n, c) && Render(env, n, c) == Rendered([], [dates], true)
  {
    OneText(env, dates, Inner(c, "div", muted));
    assert KindOf(c, "div", muted) == Dates;
  }

  /** Text outside the document is passed over. */
  lemma SkipText(env: Env, text: string, rest: seq<Node>, c: Ctx)
    requires !c.captured && !c.meta
    ensures RenderAll(env, [Str(text)] + rest, c) == RenderAll(env, rest, c)
    ensures WellPlaced(env, [Str(text)] + rest, c) <==> WellPlaced(env, rest, c)
  {
    RenderFirst(env, Str(text), rest, c);
    var q := RenderAll(env, rest, c);
    assert [] + q.pieces == q.pieces && [] + q.meta == q.meta;
  }

  lemma PageInParts(env: Env, header: Node, document: Node, noise: string, c: Ctx)
    requires c == CtxOf(INITIAL) && NodePlaced(env, header, c) && !Render(env, header, c).header
    requires NodePlaced(env, document, c)
    ensures var page := [Str(noise), header, Str(noise), document, Str(noise)];
            && WellPlaced(env, page, c)
            && RenderAll(env, page, c).pieces == Render(env, header, c).pieces + Render(env, document, c).pieces
            && RenderAll(env, page, c).meta == Render(env, header, c).meta + Render(env, document, c).meta
  {
    var tail := [document, Str(noise)];
    DocumentPart(env, document, noise, c);
    SkipText(env, noise, tail, c);
    RenderFirst(env, header, [Str(noise)] + tail, c);
    SkipText(env, noise, [header] + ([Str(noise)] + tail), c);
    assert [Str(noise)] + ([header] + ([Str(noise)] + tail)) == [Str(noise), header, Str(noise), document, Str(noise)];
  }

  lemma DocumentPart(env: Env, document: Node, noise: string, c: Ctx)
    requires c == CtxOf(INITIAL) && NodePlaced(env, document, c)
    ensures var (r, all) := (Render(env, document, c), RenderAll(env, [document, Str(noise)], c));
            && WellPlaced(env, [document, Str(noise)], c) && all.pieces == r.pieces && all.meta == r.meta
  {
    var r := Render(env, document, c);
    SkipText(env, noise, [], c.(header := r.header));
    assert [Str(noise)] + [] == [Str(noise)];
    RenderFirst(env, document, [Str(noise)], c);
    assert [document] + [Str(noise)] == [document, Str(noise)];
    assert r.pieces + [] == r.pieces && r.meta + [] == r.meta;
  }

  // ---- Attributes and links ----

  /** The value of an attribute as it is given last, empty when it is given without one or not at all. */
  lemma {:induction false} AttrExactly(attrs: seq<Attribute>, name: string, i: nat)
    requires i <= |attrs| && forall j :: i <= j < |attrs| ==> attrs[j].name != name
    requires i > 0 ==> attrs[i - 1].name == name
    ensures Attr(attrs, name) == if i > 0 && attrs[i - 1].value.Some? then attrs[i - 1].value.value else ""
    decreases |attrs|
  {
    if i < |attrs| { AttrExactly(attrs[..|attrs| - 1], name, i); }
  }

  /** What is kept of an element: exactly its kept attributes, each read as its value, links as they are archived. */
  lemma {:induction false} CleanedExactly(env: Env, tag: string, attrs: seq<Attribute>, name: string, value: string)
    ensures (name, Escape(value, true)) in CleanedFrom(env, tag, attrs) <==>
            KeptAttr(tag, name) && exists a :: a in attrs && a.name == name && value == Archived(env, a)
    decreases |attrs|
  {
    if attrs != [] {
      var init, last := attrs[..|attrs| - 1], attrs[|attrs| - 1];
      CleanedExactly(env, tag, init, name, value);
      assert attrs == init + [last];
      if Escape(Archived(env, last), true) == Escape(value, true) {
        EscapeIsInjective(Archived(env, last), value);
      }
    }
  }

  /** The value of an attribute in the archive. */
  function Archived(env: Env, a: Attribute): string {
    var value := if a.value.Some? then a.value.value else "";
    if a.name == "href" then Href(env, value) else value
  }

  /** A link to an obfuscated address becomes a link to the address. */
  lemma AddressLink(env: Env, encoded: string)
    ensures Href(env, CF_EMAIL_HREF + encoded) == "mailto:" + env.email(encoded)
  {
    assert (CF_EMAIL_HREF + encoded)[|CF_EMAIL_HREF|..] == encoded;
  }

  /** A link to another document leads to its archived copy, at the same fragment; any other link stays as it is. */
  lemma DocumentLink(env: Env, path: string, fragment: string)
    requires '#' !in path && (fragment == "" || fragment[0] == '#') && !(CF_EMAIL_HREF <= path + fragment)
    ensures Href(env, path + fragment) == (if path in env.siblings then env.siblings[path] else path) + fragment
  {
    PathThenRest(path, fragment);
    assert (path + fragment)[|path|..] == fragment;
  }

  /** A class is set when it stands in the attribute between spaces or its ends. */
  lemma {:induction false} ClassExactly(s: string, word: string, c: string)
    requires NoSpace(word)
    ensures c in Words(s, word) <==> HasWord(word + s, c)
    decreases |s|
  {
    if s == [] {
      assert word + s == word;
      if word != "" && c == word { assert Stands(word, 0, |word|, word); }
      forall i, j | Stands(word, i, j, c) ensures c == word && word != "" { OnlyWord(word, i, j, c); }
    } else if IsSpace(s[0]) {
      WordsAtSpace(s, word, c);
      ClassExactly(s[1..], "", c);
      assert "" + s[1..] == s[1..];
    } else {
      ClassExactly(s[1..], word + [s[0]], c);
      assert word + s == (word + [s[0]]) + s[1..];
    }
  }

  predicate NoSpace(s: string) {
    forall i :: 0 <= i < |s| ==> !IsSpace(s[i])
  }

  /** The word is the part from `i` to `j`, without spaces, and cannot be made longer on either side. */
  predicate Stands(s: string, i: int, j: int, word: string) {
    && 0 <= i < j <= |s| && s[i..j] == word && NoSpace(word)
    && (i > 0 ==> IsSpace(s[i - 1])) && (j < |s| ==> IsSpace(s[j]))
  }

  ghost predicate HasWord(s: string, word: string) {
    exists i, j :: Stands(s, i, j, word)
  }

  lemma OnlyWord(s: string, i: int, j: int, word: string)
    requires NoSpace(s) && Stands(s, i, j, word)
    ensures word == s
  {
    assert i == 0 && j == |s| && s[0..|s|] == s;
  }

  /** A space ends the word being read, and the words after it are those of the rest. */
  lemma WordsAtSpace(s: string, word: string, c: string)
    requires s != [] && IsSpace(s[0]) && NoSpace(word)
    ensures HasWord(word + s, c) <==> (word != "" && c == word) || HasWord(s[1..], c)
  {
    var n, whole := |word|, word + s;
    assert whole[n] == s[0] && whole[n + 1..] == s[1..] && whole[..n] == word;
    WordsAround(whole, n, c);
  }

  /** The words around the first space: what stands before it, and those behind it. */
  lemma WordsAround(s: string, n: int, c: string)
    requires 0 <= n < |s| && IsSpace(s[n]) && NoSpace(s[..n])
    ensures HasWord(s, c) <==> (n > 0 && c == s[..n]) || HasWord(s[n + 1..], c)
  {
    var rest := s[n + 1..];
    forall i, j | Stands(s, i, j, c) ensures (n > 0 && c == s[..n]) || HasWord(rest, c) {
      if i <= n {
        StandsBefore(s, n, i, j, c);
      } else {
        StandsBehind(s, n, i, j, c);
        assert Stands(rest, i - n - 1, j - n - 1, c);
      }
    }
    if n > 0 && c == s[..n] { assert s[0..n] == c && Stands(s, 0, n, c); }
    forall i, j | Stands(rest, i, j, c) ensures HasWord(s, c) {
      StandsBehind(s, n, i + n + 1, j + n + 1, c);
      assert Stands(s, i + n + 1, j + n + 1, c);
    }
  }

  /** Before the first space stands one word. */
  lemma StandsBefore(s: string, n: int, i: int, j: int, c: string)
    requires 0 <= n < |s| && IsSpace(s[n]) && NoSpace(s[..n]) && i <= n && Stands(s, i, j, c)
    ensures i == 0 && j == n && c == s[..n]
  {
    assert forall k :: i <= k < j ==> s[k] == c[k - i];
    assert forall k :: 0 <= k < n ==> s[k] == s[..n][k];
  }

  /** Behind a space the words are those of what is behind it. */
  lemma StandsBehind(s: string, n: int, i: int, j: int, c: string)
    requires 0 <= n < i && n < |s| && IsSpace(s[n])
    ensures Stands(s, i, j, c) <==> Stands(s[n + 1..], i - n - 1, j - n - 1, c)
  {
    var rest := s[n + 1..];
    assert forall k :: 0 <= k < |rest| ==> rest[k] == s[n + 1 + k];
    if i < j <= |s| {
      assert rest[i - n - 1..j - n - 1] == s[i..j];
      assert i > n + 1 ==> rest[i - n - 2] == s[i - 1];
      assert j < |s| ==> rest[j - n - 1] == s[j];
    }
  }

  /** So for the class attribute. */
  lemma HasClassExactly(attrs: seq<Attribute>, c: string)
    ensures HasClass(attrs, c) <==> HasWord(Attr(attrs, "class"), c)
  {
    var value := Attr(attrs, "class");
    ClassExactly(value, "", c);
    assert "" + value == value;
    assert HasClass(attrs, c) <==> c in Words(value, "");
  }

  // ---- The marks of the site's pages ----

  function One(name: string, value: string): seq<Attribute> {
    [Attribute(name, Some(value))]
  }

  lemma OneIsRead(name: string, value: string)
    ensures Attr(One(name, value), name) == value
    ensures forall other :: other != name ==> Attr(One(name, value), other) == ""
  {
    forall other | other != name ensures Attr(One(name, value), other)
      == "" { AttrExactly(One(name, value), other, 0); }
  }

  lemma OneClass(word: string, c: string)
    requires word != "" && NoSpace(word)
    ensures HasClass(One("class", word), c) <==> c == word
  {
    OneIsRead("class", word);
    HasClassExactly(One("class", word), c);
    if c == word { assert word[0..|word|] == word && Stands(word, 0, |word|, c); }
    forall i, j | Stands(word, i, j, c) ensures c == word { OnlyWord(word, i, j, c); }
  }

  /** A header, blocks and an address are told by their tag and by one attribute, and by no other value of it. */
  lemma MarksExactly(tag: string, word: string)
    requires word != "" && NoSpace(word)
    ensures IsTop(tag, One("id", word)) <==> tag == "header" && word == "legal-top"
    ensures IsMuted(tag, One("class", word)) <==> tag == "div" && word == "shop-muted"
    ensures IsRoot(tag, One("class", word)) <==> tag == "div" && word == "shop-legal"
    ensures IsEmail(tag, One("data-cfemail", word)) <==> tag == "span"
    ensures !IsEmail(tag, One("data-cfemail", "")) && !IsEmail(tag, [])
  {
    OneIsRead("id", word);
    OneIsRead("data-cfemail", word);
    OneIsRead("data-cfemail", "");
    OneClass(word, "shop-muted");
    OneClass(word, "shop-legal");
  }

  /** Of all attributes only links and the anchors of sections are kept. */
  lemma KeptExactly(tag: string, name: string)
    ensures KeptAttr(tag, name) <==> (tag, name) in {("a", "href"), ("section", "id")}
  {
  }

  /** The tags that are kept, those that stand alone, and those that end a line. */
  lemma TagsExactly(tag: string)
    ensures tag in KEPT_TAGS <==> || tag in {"h1", "h2", "p", "ul", "ol", "li", "section", "div"}
                                  || tag in {"strong", "em", "a", "br", "span"}
    ensures tag in VOID_TAGS <==> tag == "br"
    ensures tag in OWN_LINE <==> tag in {"h2", "p", "ul", "ol", "li", "section", "div"}
  {
  }

  /** A block line of an address gets a class of its own, and nothing else does. */
  lemma LineExactly(env: Env, tag: string, word: string)
    requires word != "" && NoSpace(word)
    ensures Cleaned(env, tag, One("class", word)) == if tag == "span"
            && word == "block" then [("class", "line")] else []
  {
    OneClass(word, "block");
    assert CleanedFrom(env, tag, []) == [];
    assert One("class", word)[..0] == [];
  }
}
