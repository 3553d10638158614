/** On a well-nested page the extractor is a transformation of the page's tree, and what it writes is well nested. */
module LegalNesting {
  import opened Texts
  import opened LegalExtractor

  /** A page as a tree; `Bare` is a start tag alone, as void elements are written. */
  datatype Node =
    | Elem(tag: string, attrs: seq<Attribute>, children: seq<Node>)
    | Bare(tag: string, attrs: seq<Attribute>)
    | Single(tag: string, attrs: seq<Attribute>)
    | Str(text: string)

  function Events(n: Node): seq<Event> {
    match n
    case Elem(tag, attrs, children) => [Start(tag, attrs)] + (EventsAll(children) + [End(tag)])
    case Bare(tag, attrs) => [Start(tag, attrs)]
    case Single(tag, attrs) => [StartEnd(tag, attrs)]
    case Str(text) => [Data(text)]
  }

  function EventsAll(ns: seq<Node>): seq<Event> {
    if ns == [] then [] else Events(ns[0]) + EventsAll(ns[1..])
  }

  // ---- The transformation of the tree ----

  /** What surrounds a place: the page header, the block of dates, the captured part, an address. */
  datatype Ctx = Ctx(header: bool, meta: bool, captured: bool, email: bool)

  datatype Rendered = Rendered(pieces: seq<Piece>, meta: seq<string>, header: bool)

  datatype Kind = Heading | Dates | Silent | Document | Address | Line | Structure | Dropped

  function KindOf(c: Ctx, tag: string, attrs: seq<Attribute>): Kind {
    var header := c.header || IsTop(tag, attrs);
    if header && tag == "h1" then Heading
    else if header && IsMuted(tag, attrs) then Dates
    else if c.meta then Silent
    else if IsRoot(tag, attrs) && !c.captured then Document
    else if !c.captured || c.email then Silent
    else if IsEmail(tag, attrs) then Address
    else if tag in VOID_TAGS then Line
    else if tag in KEPT_TAGS then Structure
    else Dropped
  }

  function Inner(c: Ctx, tag: string, attrs: seq<Attribute>): Ctx {
    var k := KindOf(c, tag, attrs);
    Ctx(c.header || IsTop(tag, attrs), c.meta || k == Dates, c.captured || k == Heading || k == Document,
        c.email || k == Address)
  }

  function Ahead(env: Env, c: Ctx, tag: string, attrs: seq<Attribute>): seq<Piece> {
    match KindOf(c, tag, attrs)
    case Heading => [Open("h1", [])]
    case Address => [Text(Escape(env.email(Attr(attrs, "data-cfemail")), false))]
    case Line => [Void(tag)]
    case Structure => [Open(tag, Cleaned(env, tag, attrs))]
    case _ => []
  }

  function Behind(c: Ctx, tag: string, attrs: seq<Attribute>): seq<Piece> {
    match KindOf(c, tag, attrs)
    case Heading => [Close("h1"), Text("\n")]
    case Structure => Closing(tag)
    case _ => []
  }

  /** Leaving a header that the machine notices ends the page header. */
  function HeaderAfter(inner: Ctx, tag: string, header: bool): bool {
    header && (inner.meta || inner.email || tag != "header")
  }

  function Render(env: Env, n: Node, c: Ctx): Rendered {
    match n
    case Elem(tag, attrs, children) =>
      var r := RenderAll(env, children, Inner(c, tag, attrs));
      Around(env, c, tag, attrs, r)
    case Bare(tag, attrs) =>
      Rendered(if KindOf(c, tag, attrs) == Line then [Void(tag)] else [], [], Inner(c, tag, attrs).header)
    case Single(tag, _) => Rendered(if c.captured && tag in VOID_TAGS then [Void(tag)] else [], [], c.header)
    case Str(text) =>
      Rendered(if !c.email && !c.meta && c.captured then [Text(Escape(text, false))] else [],
               if !c.email && c.meta then [text] else [], c.header)
  }

  function Around(env: Env, c: Ctx, tag: string, attrs: seq<Attribute>, r: Rendered): Rendered {
    Rendered(Ahead(env, c, tag, attrs) + r.pieces + Behind(c, tag, attrs), r.meta,
             HeaderAfter(Inner(c, tag, attrs), tag, r.header))
  }

  function RenderAll(env: Env, ns: seq<Node>, c: Ctx): Rendered {
    if ns == [] then Rendered([], [], c.header)
    else
      var first := Render(env, ns[0], c);
      var rest := RenderAll(env, ns[1..], c.(header := first.header));
      Rendered(first.pieces + rest.pieces, first.meta + rest.meta, rest.header)
  }

  // ---- What must not stand where ----

  /**
   An end tag that the machine matches with its start tag: no title inside the dates or an address, and none
   that ends with the page header off when it began with it on, or the other way round; no end tag of a line
   break inside the dates. `header` tells whether the page header is on where the element ends.
   */
  predicate Placed(c: Ctx, tag: string, attrs: seq<Attribute>, header: bool) {
    match KindOf(c, tag, attrs)
    case Heading => header && !c.meta && !c.email
    case Structure => tag == "h1" ==> !header
    case _ => tag in VOID_TAGS ==> !c.meta
  }

  /** A start tag that the machine does not count: a line break, or one that it passes over. */
  predicate BarePlaced(c: Ctx, tag: string, attrs: seq<Attribute>) {
    match KindOf(c, tag, attrs)
    case Line => true
    case Silent => if c.meta then tag in VOID_TAGS else !c.captured
    case _ => false
  }

  /** Every element is placed where the machine stands, and so is every start tag that stands alone. */
  predicate WellPlaced(env: Env, ns: seq<Node>, c: Ctx) {
    ns != [] ==> NodePlaced(env, ns[0], c) && WellPlaced(env, ns[1..], c.(header := Render(env, ns[0], c).header))
  }

  predicate NodePlaced(env: Env, n: Node, c: Ctx) {
    match n
    case Elem(tag, attrs, children) =>
      var inner := Inner(c, tag, attrs);
      WellPlaced(env, children, inner) && Placed(c, tag, attrs, RenderAll(env, children, inner).header)
    case Bare(tag, attrs) => BarePlaced(c, tag, attrs)
    case _ => true
  }

  // ---- The machine performs the transformation ----

  function CtxOf(s: State): Ctx {
    Ctx(s.inHeader, s.inMeta > 0, s.depth > 0, s.emailDepth > 0)
  }

  function Written(s: State, r: Rendered): State {
    s.(out := s.out + r.pieces, metaText := s.metaText + r.meta, inHeader := r.header)
  }

  /** An address is only entered inside the captured part. */
  predicate Ready(s: State) {
    s.emailDepth > 0 ==> s.depth > 0
  }

  /** The machine stands where it stood, whatever was written and whether or not the header is on. */
  predicate SameStand(s: State, t: State) {
    s.depth == t.depth && s.stack == t.stack && s.inMeta == t.inMeta && s.emailDepth == t.emailDepth
  }

  lemma StartEnters(env: Env, s: State, tag: string, attrs: seq<Attribute>)
    requires Ready(s)
    ensures CtxOf(StartTag(env, s, tag, attrs)) == Inner(CtxOf(s), tag, attrs) && Ready(StartTag(env, s, tag, attrs))
  {
  }

  /** The machine after an element that wrote `r` inside. */
  function Ended(env: Env, s: State, tag: string, attrs: seq<Attribute>, r: Rendered): State {
    EndTag(Written(StartTag(env, s, tag, attrs), r), tag)
  }

  lemma EndStructure(env: Env, s: State, tag: string, attrs: seq<Attribute>, r: Rendered)
    requires KindOf(CtxOf(s), tag, attrs) == Structure && (tag == "h1" ==> !r.header)
    ensures Ended(env, s, tag, attrs, r) == Written(s, Around(env, CtxOf(s), tag, attrs, r))
  {
    var open := [Open(tag, Cleaned(env, tag, attrs))];
    var t := Written(StartTag(env, s, tag, attrs), r);
    assert t.stack == s.stack + [Tag(tag)] && t.stack[..|s.stack|] == s.stack;
    assert s.out + open + r.pieces + Closing(tag) == s.out + (open + r.pieces + Closing(tag));
  }

  lemma EndDocument(env: Env, s: State, tag: string, attrs: seq<Attribute>, r: Rendered)
    requires KindOf(CtxOf(s), tag, attrs) == Document && Ready(s)
    ensures Ended(env, s, tag, attrs, r) == Written(s, Around(env, CtxOf(s), tag, attrs, r))
  {
    var t := Written(StartTag(env, s, tag, attrs), r);
    assert t.stack == s.stack + [Root] && t.stack[..|s.stack|] == s.stack;
    assert [] + r.pieces + [] == r.pieces;
  }

  lemma EndDropped(env: Env, s: State, tag: string, attrs: seq<Attribute>, r: Rendered)
    requires KindOf(CtxOf(s), tag, attrs) == Dropped
    ensures Ended(env, s, tag, attrs, r) == Written(s, Around(env, CtxOf(s), tag, attrs, r))
  {
    var t := Written(StartTag(env, s, tag, attrs), r);
    assert "h1" in KEPT_TAGS && t.stack == s.stack + [Tag(tag)] && t.stack[..|s.stack|] == s.stack;
    assert [] + r.pieces + [] == r.pieces;
  }

  lemma EndPiece(env: Env, s: State, tag: string, attrs: seq<Attribute>, r: Rendered)
    requires KindOf(CtxOf(s), tag, attrs) == Address || KindOf(CtxOf(s), tag, attrs) == Line
    ensures Ended(env, s, tag, attrs, r) == Written(s, Around(env, CtxOf(s), tag, attrs, r))
  {
    var ahead := Ahead(env, CtxOf(s), tag, attrs);
    assert StartTag(env, s, tag, attrs).out == s.out + ahead;
    assert s.out + ahead + r.pieces == s.out + (ahead + r.pieces + []);
  }

  /** The end tag undoes what the start tag did to the machine, whatever was written in between. */
  lemma EndUndoesStart(env: Env, s: State, tag: string, attrs: seq<Attribute>, r: Rendered)
    requires Ready(s) && Placed(CtxOf(s), tag, attrs, r.header)
    ensures Ended(env, s, tag, attrs, r) == Written(s, Around(env, CtxOf(s), tag, attrs, r))
  {
    match KindOf(CtxOf(s), tag, attrs) {
      case Structure => EndStructure(env, s, tag, attrs, r);
      case Document => EndDocument(env, s, tag, attrs, r);
      case Dropped => EndDropped(env, s, tag, attrs, r);
      case Address => EndPiece(env, s, tag, attrs, r);
      case Line => EndPiece(env, s, tag, attrs, r);
      case _ =>
    }
  }

  /** And only where the element is well placed. */
  lemma EndUndoesStartExactly(env: Env, s: State, tag: string, attrs: seq<Attribute>, r: Rendered)
    requires Ready(s)
    ensures Placed(CtxOf(s), tag, attrs, r.header) <==> SameStand(s, Ended(env, s, tag, attrs, r))
  {
    if Placed(CtxOf(s), tag, attrs, r.header) {
      EndUndoesStart(env, s, tag, attrs, r);
    }
  }

  lemma WrittenTwice(s: State, a: Rendered, b: Rendered)
    ensures Written(Written(s, a), b) == Written(s, Rendered(a.pieces + b.pieces, a.meta + b.meta, b.header))
    ensures CtxOf(Written(s, a)) == CtxOf(s).(header := a.header)
  {
    assert s.out + a.pieces + b.pieces == s.out + (a.pieces + b.pieces);
    assert s.metaText + a.meta + b.meta == s.metaText + (a.meta + b.meta);
  }

  /** Running the machine over a page's events is transforming the page's tree. */
  lemma {:induction false} RunIsRender(env: Env, s: State, ns: seq<Node>)
    requires WellPlaced(env, ns, CtxOf(s)) && Ready(s)
    ensures Run(env, s, EventsAll(ns)) == Written(s, RenderAll(env, ns, CtxOf(s)))
    decreases ns
  {
    if ns != [] {
      var first := Render(env, ns[0], CtxOf(s));
      var t := Written(s, first);
      RunFirst(env, s, ns[0]);
      RunAppends(env, s, Events(ns[0]), EventsAll(ns[1..]));
      WrittenTwice(s, first, RenderAll(env, ns[1..], CtxOf(t)));
      RunIsRender(env, t, ns[1..]);
    }
  }

  lemma {:induction false} RunFirst(env: Env, s: State, n: Node)
    requires NodePlaced(env, n, CtxOf(s)) && Ready(s)
    ensures Run(env, s, Events(n)) == Written(s, Render(env, n, CtxOf(s)))
    decreases n
  {
    match n {
      case Elem(tag, attrs, children) => {
        var s1 := StartTag(env, s, tag, attrs);
        StartEnters(env, s, tag, attrs);
        RunIsRender(env, s1, children);
        RunElem(env, s, tag, attrs, children);
        EndUndoesStart(env, s, tag, attrs, RenderAll(env, children, CtxOf(s1)));
      }
      case _ =>
    }
  }

  lemma RunElem(env: Env, s: State, tag: string, attrs: seq<Attribute>, children: seq<Node>)
    ensures Run(env, s, Events(Elem(tag, attrs, children)))
         == EndTag(Run(env, StartTag(env, s, tag, attrs), EventsAll(children)), tag)
  {
    RunAppends(env, StartTag(env, s, tag, attrs), EventsAll(children), [End(tag)]);
  }

  // ---- The placing is exactly what the machine needs ----

  /** Run from `s`, every node of the page, at any depth, leaves the machine standing where it stood before it. */
  predicate Restores(env: Env, s: State, ns: seq<Node>)
    decreases ns
  {
    ns != [] ==> NodeRestores(env, s, ns[0]) && Restores(env, Run(env, s, Events(ns[0])), ns[1..])
  }

  predicate NodeRestores(env: Env, s: State, n: Node)
    decreases n
  {
    && (n.Elem? ==> Restores(env, StartTag(env, s, n.tag, n.attrs), n.children))
    && SameStand(s, Run(env, s, Events(n)))
  }

  /** A page is well placed exactly when every node leaves the machine as it found it. */
  lemma {:induction false} PlacedExactly(env: Env, s: State, ns: seq<Node>)
    requires Ready(s)
    ensures WellPlaced(env, ns, CtxOf(s)) <==> Restores(env, s, ns)
    decreases ns
  {
    if ns != [] {
      NodePlacedExactly(env, s, ns[0]);
      if NodePlaced(env, ns[0], CtxOf(s)) {
        RunFirst(env, s, ns[0]);
        PlacedExactly(env, Written(s, Render(env, ns[0], CtxOf(s))), ns[1..]);
      }
    }
  }

  lemma {:induction false} NodePlacedExactly(env: Env, s: State, n: Node)
    requires Ready(s)
    ensures NodePlaced(env, n, CtxOf(s)) <==> NodeRestores(env, s, n)
    decreases n
  {
    match n {
      case Elem(tag, attrs, children) => {
        var s1 := StartTag(env, s, tag, attrs);
        StartEnters(env, s, tag, attrs);
        PlacedExactly(env, s1, children);
        if WellPlaced(env, children, CtxOf(s1)) {
          RunIsRender(env, s1, children);
          RunElem(env, s, tag, attrs, children);
          EndUndoesStartExactly(env, s, tag, attrs, RenderAll(env, children, CtxOf(s1)));
        }
      }
      case _ => RunOne(env, s, Events(n)[0]);
    }
  }

  // ---- What is written is well nested ----

  /** The open tags after some pieces, innermost first; nothing when an end tag does not match. */
  function Nest(p: seq<Piece>, open: seq<string>): Option<seq<string>>
    decreases |p|
  {
    if p == [] then Some(open)
    else match p[0]
    case Open(tag, _) => Nest(p[1..], [tag] + open)
    case Close(tag) => if open != [] && open[0] == tag then Nest(p[1..], open[1..]) else None
    case _ => Nest(p[1..], open)
  }

  ghost predicate Balanced(p: seq<Piece>) {
    forall open :: Nest(p, open) == Some(open)
  }

  lemma {:induction false} NestAppends(p: seq<Piece>, q: seq<Piece>, open: seq<string>)
    ensures Nest(p + q, open) == match Nest(p, open) case None => None case Some(inner) => Nest(q, inner)
    decreases |p|
  {
    if p == [] {
      assert p + q == q;
    } else {
      assert (p + q)[1..] == p[1..] + q;
      match p[0] {
        case Open(tag, _) => NestAppends(p[1..], q, [tag] + open);
        case Close(tag) => if open != [] && open[0] == tag { NestAppends(p[1..], q, open[1..]); }
        case _ => NestAppends(p[1..], q, open);
      }
    }
  }

  lemma BalancedJoin(p: seq<Piece>, q: seq<Piece>)
    requires Balanced(p) && Balanced(q)
    ensures Balanced(p + q)
  {
    forall open ensures Nest(p + q, open) == Some(open) { NestAppends(p, q, open); }
  }

  lemma BalancedWrap(first: Piece, p: seq<Piece>, last: seq<Piece>)
    requires first.Open? && last != [] && last[0] == Close(first.tag) && Balanced(p) && Balanced(last[1..])
    ensures Balanced([first] + p + last)
  {
    forall open ensures Nest([first] + p + last, open) == Some(open) {
      var inner := [first.tag] + open;
      assert ([first] + p + last)[1..] == p + last;
      NestAppends(p, last, inner);
      assert inner[1..] == open;
    }
  }

  predicate TextOrVoid(p: seq<Piece>) {
    |p| <= 1 && forall x :: x in p ==> x.Text? || x.Void?
  }

  lemma TextIsBalanced(p: seq<Piece>)
    requires TextOrVoid(p)
    ensures Balanced(p)
  {
    forall open ensures Nest(p, open) == Some(open) {
      if p != [] {
        assert p[0] in p && p[1..] == [];
        assert Nest([], open) == Some(open);
      }
    }
  }

  lemma {:induction false} RenderIsBalanced(env: Env, ns: seq<Node>, c: Ctx)
    ensures Balanced(RenderAll(env, ns, c).pieces)
    decreases ns
  {
    if ns != [] {
      var first := Render(env, ns[0], c);
      if ns[0].Elem? {
        var e := ns[0];
        RenderIsBalanced(env, e.children, Inner(c, e.tag, e.attrs));
        AroundIsBalanced(env, c, e.tag, e.attrs, RenderAll(env, e.children, Inner(c, e.tag, e.attrs)));
      } else {
        TextIsBalanced(first.pieces);
      }
      RenderIsBalanced(env, ns[1..], c.(header := first.header));
      BalancedJoin(first.pieces, RenderAll(env, ns[1..], c.(header := first.header)).pieces);
    }
  }

  lemma AroundIsBalanced(env: Env, c: Ctx, tag: string, attrs: seq<Attribute>, r: Rendered)
    requires Balanced(r.pieces)
    ensures Balanced(Around(env, c, tag, attrs, r).pieces)
  {
    var ahead, behind := Ahead(env, c, tag, attrs), Behind(c, tag, attrs);
    if KindOf(c, tag, attrs) in {Heading, Structure} {
      TextIsBalanced(behind[1..]);
      BalancedWrap(ahead[0], r.pieces, behind);
    } else {
      TextIsBalanced(ahead);
      BalancedJoin(ahead, r.pieces);
      assert ahead + r.pieces + behind == ahead + r.pieces;
    }
  }

  // ---- What is written is only what may be kept ----

  predicate KeptAttribute(tag: string, a: (string, string)) {
    (KeptAttr(tag, a.0) || (tag == "span" && a == ("class", "line"))) && '<' !in a.1 && '>' !in a.1 && '"' !in a.1
  }

  /** A kept tag with kept attributes, or text that cannot be taken for markup. */
  predicate KeptPiece(p: Piece) {
    match p
    case Open(tag, attrs) => tag in KEPT_TAGS && forall a :: a in attrs ==> KeptAttribute(tag, a)
    case Close(tag) => tag in KEPT_TAGS
    case Void(tag) => tag in KEPT_TAGS
    case Text(text) => '<' !in text && '>' !in text
  }

  predicate AllKept(p: seq<Piece>) {
    forall x :: x in p ==> KeptPiece(x)
  }

  lemma {:induction false} CleanedIsKept(env: Env, tag: string, attrs: seq<Attribute>)
    ensures forall a :: a in CleanedFrom(env, tag, attrs) ==> KeptAttribute(tag, a)
    decreases |attrs|
  {
    if attrs != [] { CleanedIsKept(env, tag, attrs[..|attrs| - 1]); }
  }

  lemma AroundIsKept(env: Env, c: Ctx, tag: string, attrs: seq<Attribute>, r: Rendered)
    requires AllKept(r.pieces)
    ensures AllKept(Around(env, c, tag, attrs, r).pieces)
  {
    var ahead, behind := Ahead(env, c, tag, attrs), Behind(c, tag, attrs);
    if KindOf(c, tag, attrs) == Structure {
      CleanedIsKept(env, tag, attrs);
      assert KeptPiece(Open(tag, Cleaned(env, tag, attrs)));
    }
    assert AllKept(ahead) && AllKept(behind);
  }

  lemma {:induction false} RenderIsKept(env: Env, ns: seq<Node>, c: Ctx)
    ensures AllKept(RenderAll(env, ns, c).pieces)
    decreases ns
  {
    if ns != [] {
      var first := Render(env, ns[0], c);
      if ns[0].Elem? {
        var e := ns[0];
        RenderIsKept(env, e.children, Inner(c, e.tag, e.attrs));
        AroundIsKept(env, c, e.tag, e.attrs, RenderAll(env, e.children, Inner(c, e.tag, e.attrs)));
      }
      RenderIsKept(env, ns[1..], c.(header := first.header));
    }
  }

  /**
   A well-nested page: the machine ends outside everything, with an empty stack, and what it has written
   is well nested, of kept tags and kept attributes only.
   */
  lemma PageIsCutClean(env: Env, page: seq<Node>)
    requires WellPlaced(env, page, CtxOf(INITIAL))
    ensures var s, r := Run(env, INITIAL, EventsAll(page)), RenderAll(env, page, CtxOf(INITIAL));
            && s == State(r.pieces, 0, [], r.meta, 0, r.header, 0)
            && Balanced(s.out) && AllKept(s.out)
  {
    RunIsRender(env, INITIAL, page);
    RenderIsBalanced(env, page, CtxOf(INITIAL));
    RenderIsKept(env, page, CtxOf(INITIAL));
    var r := RenderAll(env, page, CtxOf(INITIAL));
    assert [] + r.pieces == r.pieces && [] + r.meta == r.meta;
  }

  /** What is written for a link does not lead to the live route of a document. */
  lemma LinksAreArchived(env: Env, value: string)
    requires OwnPaths(env)
    ensures PathOf(Href(env, value)) !in env.siblings
  {
    PathIsPrefix(value);
    var path := PathOf(value);
    if CF_EMAIL_HREF <= value {
      assert Href(env, value)[0] == 'm';
    } else if path in env.siblings {
      PathThenRest(env.siblings[path], value[|path|..]);
    }
  }

  lemma {:induction false} PathThenRest(path: string, rest: string)
    requires '#' !in path && (rest == [] || rest[0] == '#')
    ensures PathOf(path + rest) == path
    decreases |path|
  {
    if path != [] {
      assert (path + rest)[1..] == path[1..] + rest;
      PathThenRest(path[1..], rest);
    }
  }

  /** The archived copies have paths of their own, without a fragment. */
  predicate OwnPaths(env: Env) {
    && "" !in env.siblings
    && (forall p :: p in env.siblings ==> p != "" && p[0] == '/')
    && (forall p :: p in env.siblings ==> '#' !in env.siblings[p] && env.siblings[p] !in env.siblings)
  }

  /** Escaped, `value` is a link, and it does not lead to the live route of a document. */
  ghost predicate ArchivedLink(env: Env, value: string) {
    exists href :: value == Escape(href, true) && PathOf(href) !in env.siblings
  }

  ghost predicate LinksArchived(env: Env, tag: string, attrs: seq<(string, string)>) {
    forall a :: a in attrs && a.0 == "href" ==> tag == "a" && ArchivedLink(env, a.1)
  }

  ghost predicate AllLinksArchived(env: Env, p: seq<Piece>) {
    forall x: Piece :: x in p && x.Open? ==> LinksArchived(env, x.tag, x.attrs)
  }

  lemma {:induction false} CleanedLinks(env: Env, tag: string, attrs: seq<Attribute>)
    requires OwnPaths(env)
    ensures LinksArchived(env, tag, CleanedFrom(env, tag, attrs))
    decreases |attrs|
  {
    if attrs != [] {
      var a := attrs[|attrs| - 1];
      CleanedLinks(env, tag, attrs[..|attrs| - 1]);
      if KeptAttr(tag, a.name) && a.name == "href" {
        var value := if a.value.Some? then a.value.value else "";
        LinksAreArchived(env, value);
        assert ArchivedLink(env, Escape(Href(env, value), true));
      }
    }
  }

  /** A start tag writes at most one piece; an opening tag has no attributes or the cleaned ones. */
  lemma StartWrites(env: Env, s: State, tag: string, attrs: seq<Attribute>) returns (x: Piece)
    ensures StartTag(env, s, tag, attrs).out in {s.out, s.out + [x]}
    ensures x.Open? ==> x.attrs == [] || x == Open(tag, Cleaned(env, tag, attrs))
  {
    var t := StartTag(env, s, tag, attrs);
    x := if |t.out| > |s.out| then t.out[|s.out|] else Text("");
  }

  lemma StepLinks(env: Env, s: State, e: Event)
    requires OwnPaths(env) && AllLinksArchived(env, s.out)
    ensures AllLinksArchived(env, Step(env, s, e).out)
  {
    if e.Start? {
      CleanedLinks(env, e.tag, e.attrs);
      var x := StartWrites(env, s, e.tag, e.attrs);
    }
  }

  /** Whatever page is read, no link that is written leads to the live route of a document. */
  lemma {:induction false} WrittenLinksAreArchived(env: Env, s: State, events: seq<Event>)
    requires OwnPaths(env) && AllLinksArchived(env, s.out)
    ensures AllLinksArchived(env, Run(env, s, events).out)
    decreases |events|
  {
    if events != [] {
      StepLinks(env, s, events[0]);
      WrittenLinksAreArchived(env, Step(env, s, events[0]), events[1..]);
    }
  }

  /** The link can be read off what is written: two different texts are not escaped to the same. */
  lemma {:induction false} EscapeIsInjective(s: string, t: string)
    requires Escape(s, true) == Escape(t, true)
    ensures s == t
    decreases |s|
  {
    assert s != [] ==> |EscapeChar(s[0], true)| > 0 && Escape(s, true) != [];
    assert t != [] ==> |EscapeChar(t[0], true)| > 0 && Escape(t, true) != [];
    if s != [] && t != [] {
      var a, b := EscapeChar(s[0], true), EscapeChar(t[0], true);
      var x, y := Escape(s[1..], true), Escape(t[1..], true);
      EscapeCharApart(s[0], t[0], x, y);
      assert (a + x)[|a|..] == x && (b + y)[|b|..] == y;
      EscapeIsInjective(s[1..], t[1..]);
    }
  }

  lemma EscapeCharApart(c: char, d: char, x: string, y: string)
    requires EscapeChar(c, true) + x == EscapeChar(d, true) + y
    ensures c == d
  {
    var p, q := EscapeChar(c, true) + x, EscapeChar(d, true) + y;
    assert p[0] == q[0] && (|p| > 1 ==> p[1] == q[1]);
  }

  // ---- Why the placing matters ----

  /** A bare break inside an address is waited for in vain: the document never ends. */
  lemma BreakInAddressSticks(env: Env, root: seq<Attribute>, address: seq<Attribute>, attrs: seq<Attribute>)
    requires IsRoot("div", root) && IsEmail("span", address)
    ensures var page := [Elem("div", root, [Elem("span", address, [Bare("br", attrs)])])];
            Run(env, INITIAL, EventsAll(page)).depth == 1 && Run(env, INITIAL, EventsAll(page)).stack == [Root]
  {
    var page := [Elem("div", root, [Elem("span", address, [Bare("br", attrs)])])];
    assert EventsAll(page) == [Start("div", root), Start("span", address), Start("br", attrs), End("span"),
                               End("div")] by {
      assert EventsAll([Bare("br", attrs)]) == [Start("br", attrs)];
      assert EventsAll(page[0].children) == [Start("span", address), Start("br", attrs), End("span")];
    }
    var s := StartTag(env, INITIAL, "div", root);
    RunFive(env, INITIAL, Start("div", root), Start("span", address), Start("br", attrs), End("span"), End("div"));
  }

  /**
   Two misplaced elements can undo each other: a title that ends with the page header switched on by a header
   inside its address, and then a title in the block of dates. The machine ends as it began.
   */
  lemma MisplacementsCancel(env: Env, root: seq<Attribute>, address: seq<Attribute>, top: seq<Attribute>,
                            muted: seq<Attribute>)
    requires IsRoot("div", root) && IsEmail("span", address) && IsTop("header", top) && IsMuted("div", muted)
    ensures var page := [Elem("div", root, [CrossedTitle(address, top), TitleInDates(muted)])];
            SameStand(INITIAL, Run(env, INITIAL, EventsAll(page))) && !WellPlaced(env, page, CtxOf(INITIAL))
  {
    var crossed, dates := CrossedTitle(address, top), TitleInDates(muted);
    var s1 := StartTag(env, INITIAL, "div", root);
    var s2 := Run(env, s1, Events(crossed));
    var s3 := Run(env, s2, Events(dates));
    CrossedTitleEnds(env, s1, address, top);
    TitleInDatesEnds(env, s2, muted);
    assert EventsAll([dates]) == Events(dates) && EventsAll([crossed, dates]) == Events(crossed) + Events(dates) by {
      assert [crossed, dates][1..] == [dates] && [dates][1..] == [];
    }
    RunAppends(env, s1, Events(crossed), Events(dates));
    RunElem(env, INITIAL, "div", root, [crossed, dates]);
    var page := [Elem("div", root, [crossed, dates])];
    assert page[1..] == [] && EventsAll(page) == Events(page[0]);
    assert s2.stack == [Root, Tag("h1")] && s3.stack == [Root];
    assert SameStand(INITIAL, EndTag(s3, "div"));
    NodePlacedExactly(env, s1, crossed);
    assert !WellPlaced(env, page[0].children, Inner(CtxOf(INITIAL), "div", root)) by {
      StartEnters(env, INITIAL, "div", root);
    }
  }

  function CrossedTitle(address: seq<Attribute>, top: seq<Attribute>): Node {
    Elem("h1", [], [Elem("span", address, [Elem("header", top, [])])])
  }

  function TitleInDates(muted: seq<Attribute>): Node {
    Elem("div", muted, [Elem("h1", [], [])])
  }

  lemma CrossedTitleEnds(env: Env, s: State, address: seq<Attribute>, top: seq<Attribute>)
    requires IsEmail("span", address) && IsTop("header", top)
    requires s.depth > 0 && !s.inHeader && s.inMeta == 0 && s.emailDepth == 0
    ensures var t := Run(env, s, Events(CrossedTitle(address, top)));
            t.depth == s.depth - 1 && t.inHeader && t.inMeta == 0 && t.emailDepth == 0
              && t.stack == s.stack + [Tag("h1")]
  {
    var header := Elem("header", top, []);
    assert Events(header) == [Start("header", top), End("header")];
    assert EventsAll([header]) == Events(header);
    var span := Elem("span", address, [header]);
    assert EventsAll([span]) == Events(span);
    var s1 := StartTag(env, s, "h1", []);
    var s2 := StartTag(env, s1, "span", address);
    RunElem(env, s, "h1", [], [span]);
    RunElem(env, s1, "span", address, [header]);
    RunTwo(env, s2, Start("header", top), End("header"));
  }

  lemma TitleInDatesEnds(env: Env, s: State, muted: seq<Attribute>)
    requires IsMuted("div", muted) && s.inHeader && s.inMeta == 0 && s.emailDepth == 0
    requires s.stack != [] && s.stack[|s.stack| - 1] != Root
    ensures var t := Run(env, s, Events(TitleInDates(muted)));
            && t.depth == s.depth + 1 && t.inMeta == 0 && t.emailDepth == 0 && t.stack == s.stack[..|s.stack| - 1]
  {
    var title := Elem("h1", [], []);
    assert Events(title) == [Start("h1", []), End("h1")] && EventsAll([title]) == Events(title);
    var s1 := StartTag(env, s, "div", muted);
    RunElem(env, s, "div", muted, [title]);
    RunTwo(env, s1, Start("h1", []), End("h1"));
  }

  /** So is every other void element, an image or a rule, anywhere in the document: its end tag never comes. */
  lemma BareTagSticks(env: Env, root: seq<Attribute>, tag: string, attrs: seq<Attribute>)
    requires IsRoot("div", root) && tag !in VOID_TAGS && !IsEmail(tag, attrs)
    ensures var page := [Elem("div", root, [Bare(tag, attrs)])];
            Run(env, INITIAL, EventsAll(page)).depth == 1 && Run(env, INITIAL, EventsAll(page)).stack == [Root]
  {
    var bare := [Bare(tag, attrs)];
    var page := [Elem("div", root, bare)];
    assert bare[1..] == [] && EventsAll(bare) == [Start(tag, attrs)];
    assert page[1..] == [] && EventsAll(page) == Events(page[0]);
    var s1 := StartTag(env, INITIAL, "div", root);
    RunElem(env, INITIAL, "div", root, bare);
    RunOne(env, s1, Start(tag, attrs));
  }

  lemma RunFive(env: Env, s: State, a: Event, b: Event, c: Event, d: Event, e: Event)
    ensures Run(env, s, [a, b, c, d, e]) == Step(env, Step(env, Step(env, Step(env, Step(env, s, a), b), c), d), e)
  {
    RunAppends(env, s, [a, b], [c, d, e]);
    assert [a, b] + [c, d, e] == [a, b, c, d, e];
    RunTwo(env, s, a, b);
    RunAppends(env, Run(env, s, [a, b]), [c, d], [e]);
    assert [c, d] + [e] == [c, d, e];
    RunTwo(env, Run(env, s, [a, b]), c, d);
  }

  lemma RunTwo(env: Env, s: State, a: Event, b: Event)
    ensures Run(env, s, [a, b]) == Step(env, Step(env, s, a), b)
  {
    var s1 := Step(env, s, a);
    assert [a, b][1..] == [b];
    assert [b][1..] == [];
    assert Run(env, s1, [b]) == Run(env, Step(env, s1, b), []);
  }

  /** A title inside the block of dates is counted as begun and never as ended. */
  lemma TitleInDatesSticks(env: Env, top: seq<Attribute>, muted: seq<Attribute>)
    requires IsTop("header", top) && IsMuted("div", muted)
    ensures var page := [Elem("header", top, [Elem("div", muted, [Elem("h1", [], [])])])];
            Run(env, INITIAL, EventsAll(page)).depth == 1
  {
    var h1: seq<Node> := [Elem("h1", [], [])];
    var dates := [Elem("div", muted, h1)];
    var page := [Elem("header", top, dates)];
    assert EventsAll(h1) == [Start("h1", []), End("h1")];
    assert EventsAll(dates) == [Start("div", muted), Start("h1", []), End("h1"), End("div")];
    var events := [Start("header", top), Start("div", muted), Start("h1", []), End("h1"), End("div")];
    assert EventsAll(page) == events + [End("header")];
    RunAppends(env, INITIAL, events, [End("header")]);
    RunFive(env, INITIAL, events[0], events[1], events[2], events[3], events[4]);
    var s3 := StartTag(env, StartTag(env, StartTag(env, INITIAL, "header", top), "div", muted), "h1", []);
    assert s3 == State([Open("h1", [])], 1, [], [], 1, true, 0);
    var s5 := EndTag(EndTag(s3, "h1"), "div");
    assert s5.depth == 1 && s5.inMeta == 0 && s5.emailDepth == 0 && s5.stack == [];
    RunOne(env, s5, End("header"));
  }

  lemma RunOne(env: Env, s: State, e: Event)
    ensures Run(env, s, [e]) == Step(env, s, e)
  {
    assert [e][1..] == [];
  }
}
