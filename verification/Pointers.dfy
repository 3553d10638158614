/** JSON pointers (sections 3 and 4 of RFC 6901): key paths as text, and back. */
module Pointers {
  import opened Texts

  /** Python's `replace` of one character. */
  function Replace(s: string, c: char, text: string): string {
    if s == [] then [] else (if s[0] == c then text else [s[0]]) + Replace(s[1..], c, text)
  }

  /** Python's `replace` of a pair of characters. */
  function ReplacePair(s: string, a: char, b: char, text: char): string {
    if |s| >= 2 && s[0] == a && s[1] == b then [text] + ReplacePair(s[2..], a, b, text)
    else if s == [] then []
    else [s[0]] + ReplacePair(s[1..], a, b, text)
  }

  function Escape(key: string): string {
    Replace(Replace(key, '~', "~0"), '/', "~1")
  }

  /** Section 4: first `~1`, then `~0`. */
  function Unescape(token: string): string {
    ReplacePair(ReplacePair(token, '~', '1', '/'), '~', '0', '~')
  }

  /** `/`.join */
  function Joined(tokens: seq<string>): string {
    if tokens == [] then [] else if |tokens| == 1 then tokens[0] else tokens[0] + "/" + Joined(tokens[1..])
  }

  function Escaped(parts: seq<string>): seq<string> {
    seq(|parts|, i requires 0 <= i < |parts| => Escape(parts[i]))
  }

  /** The text under which a path is logged. */
  function Pointer(parts: seq<string>): string {
    "/" + Joined(Escaped(parts))
  }

  function Split(s: string): seq<string>
    decreases |s|
  {
    if '/' in s then
      HeadTail(s, '/');
      [Head(s, '/')] + Split(Tail(s, '/'))
    else [s]
  }

  lemma {:induction false} HeadTail(s: string, c: char)
    requires c in s
    ensures s == Head(s, c) + [c] + Tail(s, c) && |Tail(s, c)| < |s| && c !in Head(s, c)
    decreases |s|
  {
    if s[0] != c {
      assert c in s[1..];
      HeadTail(s[1..], c);
    }
  }

  /** The keys that a pointer's text names. */
  function Parse(pointer: string): seq<string> {
    if pointer == [] || pointer[0] != '/' then []
    else
      var tokens := Split(pointer[1..]);
      seq(|tokens|, i requires 0 <= i < |tokens| => Unescape(tokens[i]))
  }

  // ---- Escaping is undone ----

  /** Replacing the first character, and then what follows. */
  lemma {:induction false} ReplaceAppends(s: string, t: string, c: char, text: string)
    ensures Replace(s + t, c, text) == Replace(s, c, text) + Replace(t, c, text)
    decreases |s|
  {
    if s == [] {
      assert s + t == t;
    } else {
      ReplaceAppends(s[1..], t, c, text);
      assert (s + t)[0] == s[0] && (s + t)[1..] == s[1..] + t;
      AppendAssociative(if s[0] == c then text else [s[0]], Replace(s[1..], c, text), Replace(t, c, text));
    }
  }

  function EscapeChar(c: char): string {
    if c == '~' then "~0" else if c == '/' then "~1" else [c]
  }

  /** Both replacements together, a character at a time. */
  lemma EscapeStep(key: string)
    requires key != []
    ensures Escape(key) == EscapeChar(key[0]) + Escape(key[1..])
  {
    var head := if key[0] == '~' then "~0" else [key[0]];
    ReplaceAppends(head, Replace(key[1..], '~', "~0"), '/', "~1");
    if key[0] == '~' {
      assert "~0"[1..] == "0" && "0"[1..] == "";
      assert Replace("0", '/', "~1") == "0" + Replace("", '/', "~1");
      assert Replace("~0", '/', "~1") == "~" + Replace("0", '/', "~1");
    } else {
      assert head[1..] == "";
    }
  }

  lemma {:induction false} NoSlashInEscaped(key: string)
    ensures '/' !in Escape(key)
    decreases |key|
  {
    if key != [] {
      EscapeStep(key);
      NoSlashInEscaped(key[1..]);
    }
  }

  /** The first pass of unescaping brings the slashes back and leaves the tildes escaped. */
  lemma {:induction false} FirstPass(key: string)
    ensures ReplacePair(Escape(key), '~', '1', '/') == Replace(key, '~', "~0")
    decreases |key|
  {
    if key != [] {
      EscapeStep(key);
      FirstPass(key[1..]);
      var rest := Escape(key[1..]);
      if key[0] == '~' {
        assert ("~0" + rest)[1..] == "0" + rest && ("0" + rest)[1..] == rest;
        assert ReplacePair("0" + rest, '~', '1', '/') == "0" + ReplacePair(rest, '~', '1', '/');
      } else if key[0] == '/' {
        assert ("~1" + rest)[2..] == rest;
      } else {
        assert ([key[0]] + rest)[1..] == rest;
      }
    }
  }

  /** The second pass brings the tildes back. */
  lemma {:induction false} SecondPass(key: string)
    ensures ReplacePair(Replace(key, '~', "~0"), '~', '0', '~') == key
    decreases |key|
  {
    if key != [] {
      SecondPass(key[1..]);
      var rest := Replace(key[1..], '~', "~0");
      if key[0] == '~' {
        assert ("~0" + rest)[2..] == rest;
      } else {
        assert ([key[0]] + rest)[1..] == rest;
      }
    }
  }

  lemma UnescapeEscape(key: string)
    ensures Unescape(Escape(key)) == key
  {
    FirstPass(key);
    SecondPass(key);
  }

  // ---- Pointers decode ----

  lemma {:induction false} HeadOf(token: string, rest: string, c: char)
    requires c !in token
    ensures Head(token + [c] + rest, c) == token && Tail(token + [c] + rest, c) == rest && c in token + [c] + rest
    decreases |token|
  {
    var s := token + [c] + rest;
    assert s[|token|] == c;
    if token == [] {
      assert s[1..] == rest;
    } else {
      HeadOf(token[1..], rest, c);
      assert s[1..] == token[1..] + [c] + rest;
    }
  }

  lemma {:induction false} SplitJoined(tokens: seq<string>)
    requires tokens != [] && forall i :: 0 <= i < |tokens| ==> '/' !in tokens[i]
    ensures Split(Joined(tokens)) == tokens
    decreases |tokens|
  {
    if |tokens| > 1 {
      SplitJoined(tokens[1..]);
      HeadOf(tokens[0], Joined(tokens[1..]), '/');
      assert Joined(tokens) == tokens[0] + ['/'] + Joined(tokens[1..]);
      assert tokens == [tokens[0]] + tokens[1..];
    }
  }

  /** A pointer decodes to the path it was made from. */
  lemma PointerDecodes(parts: seq<string>)
    requires parts != []
    ensures Parse(Pointer(parts)) == parts
  {
    var tokens := Escaped(parts);
    forall i | 0 <= i < |parts| ensures '/' !in tokens[i] && Unescape(tokens[i]) == parts[i] {
      NoSlashInEscaped(parts[i]);
      UnescapeEscape(parts[i]);
    }
    SplitJoined(tokens);
    assert Pointer(parts)[1..] == Joined(tokens);
  }

  /** Different paths have different pointers. */
  lemma PointersDiffer(p: seq<string>, q: seq<string>)
    requires p != [] && q != [] && Pointer(p) == Pointer(q)
    ensures p == q
  {
    PointerDecodes(p);
    PointerDecodes(q);
  }

  /** The empty path is the exception: its text is that of the path to an empty key. */
  lemma EmptyPathIsAmbiguous()
    ensures Pointer([]) == Pointer([""]) && Parse(Pointer([])) == [""]
  {
    assert Escaped([]) == [] && Escaped([""]) == [""];
    PointerDecodes([""]);
  }

  /** The pointer of a longer path, one key at a time. */
  lemma {:induction false} PointerExtends(parts: seq<string>, key: string)
    ensures Pointer(parts + [key]) == (if parts == [] then "" else Pointer(parts)) + "/" + Escape(key)
  {
    assert Escaped(parts + [key]) == Escaped(parts) + [Escape(key)];
    JoinedExtends(Escaped(parts), Escape(key));
  }

  lemma {:induction false} JoinedExtends(tokens: seq<string>, token: string)
    ensures Joined(tokens + [token]) == if tokens == [] then token else Joined(tokens) + "/" + token
    decreases |tokens|
  {
    if tokens == [] {
      assert tokens + [token] == [token];
    } else {
      JoinedExtends(tokens[1..], token);
      assert (tokens + [token])[1..] == tokens[1..] + [token];
    }
  }
}
