/** Blanking out comments and string literals without moving anything. */
module Blanking {

  predicate IsQuote(c: char) {
    c == '"' || c == '\'' || c == '`'
  }

  /** What a character inside a comment or a literal becomes. */
  function Erased(c: char): char {
    if c == '\n' then '\n' else ' '
  }

  predicate Opens(t: string, a: char, b: char) {
    |t| >= 2 && t[0] == a && t[1] == b
  }

  /** Where the scan stands: in code, in a comment, on the last stroke of one, in a literal, after a backslash. */
  datatype Mode = InCode | InLine | InBlock | InClosing | InLiteral(quote: char) | InEscape(quote: char)

  function Emit(mode: Mode, t: string): char
    requires t != []
  {
    match mode
    case InCode => if Opens(t, '/', '/') || Opens(t, '/', '*') then ' ' else t[0]
    case InLine => Erased(t[0])
    case InBlock => Erased(t[0])
    case InClosing => ' '
    case InLiteral(quote) => if t[0] == quote then quote else Erased(t[0])
    case InEscape(_) => Erased(t[0])
  }

  function After(mode: Mode, t: string): Mode
    requires t != []
  {
    match mode
    case InCode =>
      if Opens(t, '/', '/') then InLine else if Opens(t, '/', '*') then InBlock
      else if IsQuote(t[0]) then InLiteral(t[0]) else InCode
    case InLine => if t[0] == '\n' then InCode else InLine
    case InBlock => if Opens(t, '*', '/') then InClosing else InBlock
    case InClosing => InCode
    case InLiteral(quote) => if t[0] == quote then InCode else if t[0] == '\\' then InEscape(quote)
      else InLiteral(quote)
    case InEscape(quote) => InLiteral(quote)
  }

  /** The text read from a mode on, one character at a time. */
  function Read(mode: Mode, t: string): string
    decreases |t|
  {
    if t == [] then [] else [Emit(mode, t)] + Read(After(mode, t), t[1..])
  }

  // ---- The scan in place ----

  /** The part before `index` is final, the rest is still the text, to be read in the given mode. */
  ghost predicate Scanned(out: seq<char>, text: string, index: nat, mode: Mode) {
    index <= |text| == |out| && out[index..] == text[index..]
      && out[..index] + Read(mode, text[index..]) == Read(InCode, text)
  }

  /** One more character written. */
  lemma Advance(out: seq<char>, next: seq<char>, text: string, index: nat, mode: Mode)
    requires index < |text| && Scanned(out, text, index, mode) && next == out[index := Emit(mode, text[index..])]
    ensures Scanned(next, text, index + 1, After(mode, text[index..]))
  {
    var t := text[index..];
    assert t[1..] == text[index + 1..];
    assert next[..index + 1] == out[..index] + [Emit(mode, t)];
    assert next[..index + 1] + Read(After(mode, t), t[1..]) == out[..index] + Read(mode, t);
    assert next[index + 1..] == out[index..][1..];
  }

  /** One more character left as it is. */
  lemma Pass(out: seq<char>, text: string, index: nat, mode: Mode)
    requires index < |text| && Scanned(out, text, index, mode) && Emit(mode, text[index..]) == text[index]
    ensures Scanned(out, text, index + 1, After(mode, text[index..]))
  {
    assert out[index] == out[index..][0];
    assert out[index := text[index]] == out;
    Advance(out, out, text, index, mode);
  }

  /** A line comment ends before the newline, which is code. */
  lemma LineEnds(out: seq<char>, text: string, index: nat)
    requires Scanned(out, text, index, InLine) && (index < |text| ==> text[index] == '\n')
    ensures Scanned(out, text, index, InCode)
  {
  }

  lemma Ends(out: seq<char>, text: string, index: nat, mode: Mode, other: Mode)
    requires Scanned(out, text, index, mode) && index == |text|
    ensures Scanned(out, text, index, other)
  {
  }

  method Blank(text: string) returns (result: string)
    ensures result == Read(InCode, text)
  {
    var out := new char[|text|](i requires 0 <= i < |text| => text[i]);
    assert out[..] == text;
    var index := 0;
    while index < |text|
      invariant Scanned(out[..], text, index, InCode)
    {
      var c := text[index];
      if c == '/' && index + 1 < |text| && text[index + 1] == '/' {
        index := SkipLine(out, text, index);
      } else if c == '/' && index + 1 < |text| && text[index + 1] == '*' {
        index := SkipBlock(out, text, index);
      } else {
        Pass(out[..], text, index, InCode);
        index := index + 1;
        if IsQuote(c) {
          index := SkipLiteral(out, text, index, c);
        }
      }
    }
    assert text[index..] == [];
    result := out[..];
  }

  /** To the end of the line. */
  method SkipLine(out: array<char>, text: string, start: nat) returns (index: nat)
    requires Scanned(out[..], text, start, InCode) && Opens(text[start..], '/', '/')
    modifies out
    ensures start < index && Scanned(out[..], text, index, InCode)
  {
    index := start;
    while index < |text| && text[index] != '\n'
      invariant start <= index && Scanned(out[..], text, index, if index == start then InCode else InLine)
      invariant index == start ==> text[index] == '/'
    {
      Advance(out[..], out[..][index := ' '], text, index, if index == start then InCode else InLine);
      out[index] := ' ';
      index := index + 1;
    }
    LineEnds(out[..], text, index);
  }

  /** Past the closing mark of a block comment. */
  method SkipBlock(out: array<char>, text: string, start: nat) returns (index: nat)
    requires Scanned(out[..], text, start, InCode) && Opens(text[start..], '/', '*')
    modifies out
    ensures start < index && Scanned(out[..], text, index, InCode)
  {
    index := start;
    while index < |text| && !(text[index] == '*' && index + 1 < |text| && text[index + 1] == '/')
      invariant start <= index && Scanned(out[..], text, index, if index == start then InCode else InBlock)
      invariant index == start ==> text[index] == '/'
    {
      Erase(out, text, index, if index == start then InCode else InBlock);
      index := index + 1;
    }
    for k := 0 to 2
      invariant start < index && Scanned(out[..], text, index, Closing(k))
      invariant index < |text| && k == 0 ==> Opens(text[index..], '*', '/')
    {
      if index < |text| {
        Advance(out[..], out[..][index := ' '], text, index, Closing(k));
        out[index] := ' ';
        index := index + 1;
      } else {
        Ends(out[..], text, index, Closing(k), Closing(k + 1));
      }
    }
  }

  function Closing(k: nat): Mode {
    if k == 0 then InBlock else if k == 1 then InClosing else InCode
  }

  /** Past the closing quote of a literal. */
  method SkipLiteral(out: array<char>, text: string, start: nat, quote: char) returns (index: nat)
    requires Scanned(out[..], text, start, InLiteral(quote))
    modifies out
    ensures start <= index && Scanned(out[..], text, index, InCode)
  {
    index := start;
    while index < |text| && text[index] != quote
      invariant start <= index && Scanned(out[..], text, index, InLiteral(quote))
    {
      if text[index] == '\\' {
        index := Backslash(out, text, index, quote);
      } else {
        Erase(out, text, index, InLiteral(quote));
        index := index + 1;
      }
    }
    if index < |text| {
      Pass(out[..], text, index, InLiteral(quote));
      index := index + 1;
    } else {
      Ends(out[..], text, index, InLiteral(quote), InCode);
    }
  }

  /** A backslash and the character it escapes, if there is one. */
  method Backslash(out: array<char>, text: string, start: nat, quote: char) returns (index: nat)
    requires Scanned(out[..], text, start, InLiteral(quote))
    requires start < |text| && text[start] == '\\' && quote != '\\'
    modifies out
    ensures start < index && Scanned(out[..], text, index, InLiteral(quote))
  {
    Advance(out[..], out[..][start := ' '], text, start, InLiteral(quote));
    out[start] := ' ';
    index := start + 1;
    if index < |text| {
      Erase(out, text, index, InEscape(quote));
      index := index + 1;
    } else {
      Ends(out[..], text, index, InEscape(quote), InLiteral(quote));
    }
  }

  /** A space, unless the character is a newline. */
  method Erase(out: array<char>, text: string, index: nat, ghost mode: Mode)
    requires index < |text| && Scanned(out[..], text, index, mode) && Emit(mode, text[index..]) == Erased(text[index])
    modifies out
    ensures Scanned(out[..], text, index + 1, After(mode, text[index..]))
  {
    if text[index] != '\n' {
      Advance(out[..], out[..][index := ' '], text, index, mode);
      out[index] := ' ';
    } else {
      Pass(out[..], text, index, mode);
    }
  }

  // ---- What the reading keeps ----

  /** A mode the scan can be in before the text: closing strokes stand on the slash. */
  ghost predicate Possible(mode: Mode, t: string) {
    && (mode == InClosing ==> t != [] && t[0] == '/')
    && ((mode.InLiteral? || mode.InEscape?) ==> IsQuote(mode.quote))
  }

  lemma StaysPossible(mode: Mode, t: string)
    requires Possible(mode, t) && t != []
    ensures Possible(After(mode, t), t[1..])
    ensures Emit(mode, t) == t[0] || (Emit(mode, t) == ' ' && t[0] != '\n')
  {
  }

  /** Same length, the same newlines, and every other character kept or turned into a space. */
  lemma {:induction false} OffsetsKept(mode: Mode, t: string)
    requires Possible(mode, t)
    ensures |Read(mode, t)| == |t|
    ensures forall i :: 0 <= i < |t| ==> Read(mode, t)[i] == t[i] || (Read(mode, t)[i] == ' ' && t[i] != '\n')
    decreases |t|
  {
    if t != [] {
      StaysPossible(mode, t);
      OffsetsKept(After(mode, t), t[1..]);
    }
  }

  /** The line an offset lies on. */
  function LineOf(text: string, offset: nat): nat
    requires offset <= |text|
  {
    if offset == 0 then 1 else LineOf(text, offset - 1) + if text[offset - 1] == '\n' then 1 else 0
  }

  /** The line is one more than the number of newlines before the offset. */
  lemma {:induction false} LineCounts(text: string, offset: nat)
    requires offset <= |text|
    ensures LineOf(text, offset) == 1 + |set i | 0 <= i < offset && text[i] == '\n'|
    decreases offset
  {
    var before := set i | 0 <= i < offset && text[i] == '\n';
    if offset == 0 {
      assert before == {};
    } else {
      LineCounts(text, offset - 1);
      var fewer := set i | 0 <= i < offset - 1 && text[i] == '\n';
      assert before == fewer + if text[offset - 1] == '\n' then {offset - 1} else {};
    }
  }

  /** A finding in the blanked text is reported on the line where it stands in the source. */
  lemma {:induction false} LinesAgree(text: string, offset: nat)
    requires offset <= |text|
    ensures |Read(InCode, text)| == |text|
    ensures LineOf(Read(InCode, text), offset) == LineOf(text, offset)
    decreases offset
  {
    OffsetsKept(InCode, text);
    if offset > 0 {
      LinesAgree(text, offset - 1);
      var c := Read(InCode, text)[offset - 1];
      assert c == text[offset - 1] || (c == ' ' && text[offset - 1] != '\n');
    }
  }

  /** The mode in which the blanked text is read again: comments have become code. */
  function Again(mode: Mode): Mode {
    match mode
    case InLiteral(quote) => InLiteral(quote)
    case InEscape(quote) => InLiteral(quote)
    case _ => InCode
  }

  lemma {:induction false} ReadTwice(mode: Mode, t: string)
    requires Possible(mode, t)
    ensures Read(Again(mode), Read(mode, t)) == Read(mode, t)
    decreases |t|
  {
    if t != [] {
      StaysPossible(mode, t);
      ReadTwice(After(mode, t), t[1..]);
      HeadAgain(mode, t);
    }
  }

  /** Read again, the first character stays and leads to the same mode. */
  lemma HeadAgain(mode: Mode, t: string)
    requires Possible(mode, t) && t != []
    ensures Emit(Again(mode), Read(mode, t)) == Emit(mode, t)
    ensures After(Again(mode), Read(mode, t)) == Again(After(mode, t))
    ensures Read(mode, t)[1..] == Read(After(mode, t), t[1..])
  {
    NoOpening(mode, t);
  }

  /** Nothing in the blanked text opens a comment. */
  lemma NoOpening(mode: Mode, t: string)
    requires Possible(mode, t)
    ensures !Opens(Read(mode, t), '/', '/') && !Opens(Read(mode, t), '/', '*')
  {
    if |t| >= 2 {
      var rest := Read(After(mode, t), t[1..]);
      assert Read(mode, t) == [Emit(mode, t)] + rest;
      assert rest[0] == Emit(After(mode, t), t[1..]);
    }
  }

  /** Blanking twice is blanking once. */
  lemma BlankingIsIdempotent(text: string)
    ensures Read(InCode, Read(InCode, text)) == Read(InCode, text)
  {
    ReadTwice(InCode, text);
  }

  /** No position of the blanked text opens a comment, so whatever a pattern finds there is outside every comment. */
  lemma {:induction false} NoCommentLeft(mode: Mode, t: string, i: nat)
    requires Possible(mode, t) && i <= |t|
    ensures |Read(mode, t)| == |t|
    ensures !Opens(Read(mode, t)[i..], '/', '/') && !Opens(Read(mode, t)[i..], '/', '*')
    decreases i
  {
    OffsetsKept(mode, t);
    if i == 0 {
      NoOpening(mode, t);
      assert Read(mode, t)[0..] == Read(mode, t);
    } else {
      StaysPossible(mode, t);
      NoCommentLeft(After(mode, t), t[1..], i - 1);
      assert Read(mode, t)[i..] == Read(After(mode, t), t[1..])[i - 1..];
    }
  }

  // ---- What is erased ----

  function Blanks(t: string): string {
    seq(|t|, i requires 0 <= i < |t| => Erased(t[i]))
  }

  lemma BlanksSplit(t: string, n: nat)
    requires n <= |t|
    ensures Blanks(t) == Blanks(t)[..n] + Blanks(t[n..])
  {
  }

  lemma {:induction false} LineRest(body: string, rest: string)
    requires '\n' !in body
    ensures Read(InLine, body + ['\n'] + rest) == Blanks(body) + ['\n'] + Read(InCode, rest)
    decreases |body|
  {
    var t := body + ['\n'] + rest;
    if body == [] {
      assert t[1..] == rest;
    } else {
      LineRest(body[1..], rest);
      assert t[1..] == body[1..] + ['\n'] + rest;
    }
  }

  /** A line comment is erased up to its newline, and reading goes on as if the text began there. */
  lemma LineCommentErased(body: string, rest: string)
    requires '\n' !in body
    ensures Read(InCode, "//" + body + ['\n'] + rest) == "  " + Blanks(body) + ['\n'] + Read(InCode, rest)
  {
    var t := "//" + body + ['\n'] + rest;
    assert t[1..] == (['/'] + body) + ['\n'] + rest;
    LineRest(['/'] + body, rest);
    assert Blanks(['/'] + body) == [' '] + Blanks(body) by { assert (['/'] + body)[1..] == body; }
  }

  /** The text does not close a block comment before its end. */
  predicate NeverCloses(body: string) {
    forall i :: 0 <= i < |body| ==> !(body[i] == '*' && i + 1 < |body| && body[i + 1] == '/')
  }

  lemma {:induction false} BlockRest(body: string, rest: string)
    requires NeverCloses(body + "*")
    ensures Read(InBlock, body + "*/" + rest) == Blanks(body) + "  " + Read(InCode, rest)
    decreases |body|
  {
    var t := body + "*/" + rest;
    if body == [] {
      assert t[1..][1..] == rest;
      assert Read(InBlock, t) == [' '] + Read(InClosing, t[1..]);
    } else {
      ClosesLater(body);
      BlockRest(body[1..], rest);
      assert t[1..] == body[1..] + "*/" + rest;
      assert !Opens(t, '*', '/') by { assert t[0] == (body + "*")[0] && t[1] == (body + "*")[1]; }
    }
  }

  /**
   A block comment is erased up to its first closing mark, except that the opening star already counts
   as the star of a closing mark.
   */
  lemma BlockCommentErased(body: string, rest: string)
    requires NeverCloses("*" + body + "*")
    ensures Read(InCode, "/*" + body + "*/" + rest) == "  " + Blanks(body) + "  " + Read(InCode, rest)
  {
    var t := "/*" + body + "*/" + rest;
    assert t[1..] == ("*" + body) + "*/" + rest;
    BlockRest("*" + body, rest);
    assert Blanks("*" + body) == [' '] + Blanks(body) by { assert ("*" + body)[1..] == body; }
  }

  /** A comment whose text starts with a slash is taken as closed at once, and its text is read as code. */
  lemma SlashClosesAtOnce(rest: string)
    ensures Read(InCode, "/*/" + rest) == "   " + Read(InCode, rest)
  {
    var t := "/*/" + rest;
    assert t[1..] == "*/" + rest;
    BlockRest("", rest);
    assert "" + "*/" + rest == t[1..];
  }

  /** The mode in which a character is read. */
  function ModeAt(mode: Mode, t: string, i: nat): Mode
    requires i <= |t|
    decreases i
  {
    if i == 0 then mode else ModeAt(After(mode, t), t[1..], i - 1)
  }

  lemma {:induction false} BlockModes(body: string, rest: string, i: nat)
    requires NeverCloses(body + "*") && i <= |body|
    ensures ModeAt(InBlock, body + "*/" + rest, i) == InBlock
    decreases i
  {
    if i > 0 {
      var t := body + "*/" + rest;
      ClosesLater(body);
      assert t[1..] == body[1..] + "*/" + rest;
      assert t[0] == (body + "*")[0] && t[1] == (body + "*")[1];
      BlockModes(body[1..], rest, i - 1);
    }
  }

  lemma ClosesLater(body: string)
    requires body != [] && NeverCloses(body + "*")
    ensures NeverCloses(body[1..] + "*")
  {
    var shorter := body[1..] + "*";
    assert forall i :: 0 <= i < |shorter| ==> shorter[i] == (body + "*")[i + 1];
  }

  /** The text of a block comment is read as such exactly when it does not start with a slash. */
  lemma BlockCommentExactly(body: string, rest: string)
    requires NeverCloses(body + "*")
    ensures (forall i :: 2 <= i < 2 + |body| ==> ModeAt(InCode, "/*" + body + "*/" + rest, i) == InBlock)
       <==> (body == [] || body[0] != '/')
  {
    var t := "/*" + body + "*/" + rest;
    assert t[1..] == ("*" + body) + "*/" + rest;
    if body == [] {
    } else if body[0] == '/' {
      assert t[1] == '*' && t[2] == '/' && Opens(t[1..], '*', '/');
      assert ModeAt(InBlock, t[1..], 1) == ModeAt(InClosing, t[1..][1..], 0);
      assert ModeAt(InCode, t, 2) == InClosing;
    } else {
      StarStays(body);
      forall i | 2 <= i < 2 + |body| ensures ModeAt(InCode, t, i) == InBlock { BlockModes("*" + body, rest, i - 1); }
    }
  }

  lemma StarStays(body: string)
    requires NeverCloses(body + "*") && body != [] && body[0] != '/'
    ensures NeverCloses("*" + body + "*")
  {
    var longer := "*" + body + "*";
    assert forall i :: 0 < i < |longer| ==> longer[i] == (body + "*")[i - 1];
  }

  /** The text of a literal: no quote that is not escaped, and no backslash left over. */
  predicate LiteralText(quote: char, body: string)
    decreases |body|
  {
    body == []
    || (if body[0] == '\\' then |body| >= 2 && LiteralText(quote, body[2..])
        else body[0] != quote && LiteralText(quote, body[1..]))
  }

  /** The inductive step: the first characters of the body are erased, the others were already known to be. */
  lemma LiteralStep(quote: char, body: string, tail: string, n: nat)
    requires 0 < n <= |body|
    requires Read(InLiteral(quote), body + tail) == Blanks(body)[..n] + Read(InLiteral(quote), (body + tail)[n..])
    requires Blanks(body) == Blanks(body)[..n] + Blanks(body[n..])
    requires Read(InLiteral(quote), body[n..] + tail) == Blanks(body[n..]) + Read(InLiteral(quote), tail)
    ensures Read(InLiteral(quote), body + tail) == Blanks(body) + Read(InLiteral(quote), tail)
  {
    assert (body + tail)[n..] == body[n..] + tail;
  }

  lemma {:induction false} LiteralRest(quote: char, body: string, tail: string)
    requires IsQuote(quote) && LiteralText(quote, body)
    ensures Read(InLiteral(quote), body + tail) == Blanks(body) + Read(InLiteral(quote), tail)
    decreases |body|
  {
    if body == [] {
      assert body + tail == tail;
    } else if body[0] == '\\' {
      LiteralRest(quote, body[2..], tail);
      BlanksSplit(body, 2);
      LiteralStep(quote, body, tail, 2);
    } else {
      LiteralRest(quote, body[1..], tail);
      BlanksSplit(body, 1);
      LiteralStep(quote, body, tail, 1);
    }
  }

  /** A literal keeps its quotes and loses what stands between them. */
  lemma LiteralErased(quote: char, body: string, rest: string)
    requires IsQuote(quote) && LiteralText(quote, body)
    ensures Read(InCode, [quote] + (body + ([quote] + rest)))
            == [quote] + (Blanks(body) + ([quote] + Read(InCode, rest)))
  {
    var tail := [quote] + rest;
    assert ([quote] + (body + tail))[1..] == body + tail;
    LiteralRest(quote, body, tail);
    assert tail[1..] == rest;
  }

  /** Code without quotes and comment openings is untouched. */
  lemma {:induction false} CodeKept(code: string, rest: string)
    requires forall i :: 0 <= i < |code| ==> !IsQuote(code[i]) && code[i] != '/'
    ensures Read(InCode, code + rest) == code + Read(InCode, rest)
    decreases |code|
  {
    if code == [] {
      assert code + rest == rest;
    } else {
      CodeKept(code[1..], rest);
      assert (code + rest)[1..] == code[1..] + rest;
    }
  }
}
