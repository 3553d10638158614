/** What the numbers of a version are: those that are written in it, in decimal. */
module VersionNumbers {
  import opened Texts
  import opened SurfaceVersions

  /** A number as it is written, without leading zeros. */
  function Dec(n: nat): string {
    if n < 10 then [DIGITS[n]] else Dec(n / 10) + [DIGITS[n % 10]]
  }

  const DIGITS := "0123456789"

  /** A number and the zeros before it. */
  datatype Number = Number(zeros: nat, value: nat)

  function Zeros(k: nat): string {
    if k == 0 then "" else "0" + Zeros(k - 1)
  }

  function Digits(n: Number): string {
    Zeros(n.zeros) + Dec(n.value)
  }

  predicate NoDigits(s: string) {
    forall i :: 0 <= i < |s| ==> s[i] !in DIGITS
  }

  /** Numbers between texts: the first text, and after each number the text that ends it. */
  function Written(before: string, parts: seq<(Number, string)>): string
    decreases |parts|
  {
    if parts == [] then before else before + Digits(parts[0].0) + Written(parts[0].1, parts[1..])
  }

  /** No text has a digit, and numbers that follow each other are apart. */
  predicate Apart(before: string, parts: seq<(Number, string)>)
    decreases |parts|
  {
    NoDigits(before) && (parts != [] ==> (|parts| > 1 ==> parts[0].1 != "") && Apart(parts[0].1, parts[1..]))
  }

  function NumbersIn(parts: seq<(Number, string)>): seq<nat> {
    seq(|parts|, i requires 0 <= i < |parts| => parts[i].0.value)
  }

  /** The number that a run of digits has come to. */
  function Grown(run: Option<nat>, digits: string): Option<nat>
    requires forall i :: 0 <= i < |digits| ==> IsDigit(digits[i])
    decreases |digits|
  {
    if digits == [] then run
    else
      assert IsDigit(digits[0]);
      var next: nat := (if run.Some? then 10 * run.value else 0) + (digits[0] as int - '0' as int);
      Grown(Some(next), digits[1..])
  }

  lemma {:induction false} DigitsRead(run: Option<nat>, digits: string, rest: string)
    requires forall i :: 0 <= i < |digits| ==> IsDigit(digits[i])
    ensures Numbers(digits + rest, run) == Numbers(rest, Grown(run, digits))
    decreases |digits|
  {
    if digits == [] {
      assert digits + rest == rest;
    } else {
      assert IsDigit(digits[0]);
      var next: nat := (if run.Some? then 10 * run.value else 0) + (digits[0] as int - '0' as int);
      DigitsRead(Some(next), digits[1..], rest);
      assert (digits + rest)[1..] == digits[1..] + rest && (digits + rest)[0] == digits[0];
    }
  }

  lemma {:induction false} GrownJoins(run: Option<nat>, a: string, b: string)
    requires forall i :: 0 <= i < |a + b| ==> IsDigit((a + b)[i])
    ensures (forall i :: 0 <= i < |a| ==> IsDigit(a[i])) && (forall i :: 0 <= i < |b| ==> IsDigit(b[i]))
    ensures Grown(run, a + b) == Grown(Grown(run, a), b)
    decreases |a|
  {
    assert forall i :: 0 <= i < |a| ==> a[i] == (a + b)[i];
    assert forall i :: 0 <= i < |b| ==> b[i] == (a + b)[|a| + i];
    if a == [] {
      assert a + b == b;
    } else {
      assert (a + b)[1..] == a[1..] + b && (a + b)[0] == a[0];
      GrownJoins(Some((if run.Some? then 10 * run.value else 0) + (a[0] as int - '0' as int)), a[1..], b);
    }
  }

  lemma {:induction false} DecIsGrown(n: nat)
    ensures forall i :: 0 <= i < |Dec(n)| ==> IsDigit(Dec(n)[i])
    ensures Dec(n) != [] && Grown(None, Dec(n)) == Some(n)
  {
    if n >= 10 {
      DecIsGrown(n / 10);
      GrownJoins(None, Dec(n / 10), [DIGITS[n % 10]]);
      assert [DIGITS[n % 10]][1..] == [];
    } else {
      assert [DIGITS[n]][1..] == [];
    }
  }

  lemma {:induction false} ZerosAreGrown(k: nat, rest: string)
    requires rest != "" && forall i :: 0 <= i < |rest| ==> IsDigit(rest[i])
    ensures forall i :: 0 <= i < |Zeros(k) + rest| ==> IsDigit((Zeros(k) + rest)[i])
    ensures Grown(None, Zeros(k) + rest) == Grown(None, rest) == Grown(Some(0), rest)
    decreases k
  {
    if k == 0 {
      assert Zeros(0) + rest == rest;
    } else {
      ZerosAreGrown(k - 1, rest);
      var fewer := Zeros(k - 1) + rest;
      assert Zeros(k) + rest == "0" + fewer && ("0" + fewer)[1..] == fewer && fewer != "";
    }
  }

  lemma DigitsAreGrown(n: Number)
    ensures forall i :: 0 <= i < |Digits(n)| ==> IsDigit(Digits(n)[i])
    ensures Digits(n) != [] && Grown(None, Digits(n)) == Some(n.value)
  {
    DecIsGrown(n.value);
    ZerosAreGrown(n.zeros, Dec(n.value));
  }

  lemma DigitsAreDigits(c: char)
    ensures IsDigit(c) <==> c in DIGITS
  {
    if IsDigit(c) { assert DIGITS[c as int - '0' as int] == c; }
  }

  lemma {:induction false} TextSkipped(text: string, rest: string)
    requires NoDigits(text)
    ensures Numbers(text + rest, None) == Numbers(rest, None)
    decreases |text|
  {
    if text == [] {
      assert text + rest == rest;
    } else {
      DigitsAreDigits(text[0]);
      TextSkipped(text[1..], rest);
      assert (text + rest)[0] == text[0] && (text + rest)[1..] == text[1..] + rest;
    }
  }

  /** The numbers of a version are the numbers that are written in it. */
  lemma {:induction false} NumbersAreWritten(before: string, parts: seq<(Number, string)>)
    requires Apart(before, parts)
    ensures Numbers(Written(before, parts), None) == NumbersIn(parts)
    decreases |parts|
  {
    if parts == [] {
      TextSkipped(before, "");
      assert before + "" == before;
    } else {
      var (n, text) := parts[0];
      var rest := Written(text, parts[1..]);
      AppendAssociative(before, Digits(n), rest);
      TextSkipped(before, Digits(n) + rest);
      DigitsAreGrown(n);
      DigitsRead(None, Digits(n), rest);
      NumberEnds(n.value, text, parts[1..]);
      NumbersAreWritten(text, parts[1..]);
      FirstNumber(parts);
    }
  }

  lemma FirstNumber(parts: seq<(Number, string)>)
    requires parts != []
    ensures NumbersIn(parts) == [parts[0].0.value] + NumbersIn(parts[1..])
  {
  }

  /** What follows a number ends it. */
  lemma NumberEnds(n: nat, text: string, parts: seq<(Number, string)>)
    requires NoDigits(text) && (parts != [] ==> text != "")
    ensures Numbers(Written(text, parts), Some(n)) == [n] + Numbers(Written(text, parts), None)
  {
    var s := Written(text, parts);
    if s != [] {
      assert s[0] == text[0];
      DigitsAreDigits(s[0]);
    }
  }

  /** The sort key is made of the first four of them, or is zero when there is none. */
  lemma SortKeyIsWritten(before: string, parts: seq<(Number, string)>)
    requires Apart(before, parts)
    ensures SortKey(Written(before, parts)) ==
            if parts == [] then [0] else if |parts| <= 4 then NumbersIn(parts) else NumbersIn(parts)[..4]
  {
    NumbersAreWritten(before, parts);
  }

  /** Keys compare at the first place where they differ, and a beginning comes before the whole. */
  lemma {:induction false} KeyLeExactly(a: seq<nat>, b: seq<nat>)
    ensures KeyLe(a, b) <==>
            a <= b || exists i :: 0 <= i < |a| && i < |b| && a[..i] == b[..i] && a[i] < b[i]
    decreases |a|
  {
    if a != [] && b != [] {
      forall i | 0 < i < |a| && i < |b| && a[..i] == b[..i] ensures a[0] == b[0] {
        assert a[..i][0] == b[..i][0];
      }
      if a[0] == b[0] {
        KeyLeExactly(a[1..], b[1..]);
        if a[1..] <= b[1..] { assert a == [a[0]] + a[1..] && b == [b[0]] + b[1..]; }
        if i :| 0 <= i < |a[1..]| && i < |b[1..]| && a[1..][..i] == b[1..][..i] && a[1..][i] < b[1..][i] {
          assert a[..i + 1] == [a[0]] + a[1..][..i] && b[..i + 1] == [b[0]] + b[1..][..i];
        }
        if i :| 0 <= i < |a| && i < |b| && a[..i] == b[..i] && a[i] < b[i] {
          assert i > 0 && a[1..][..i - 1] == a[..i][1..] && b[1..][..i - 1] == b[..i][1..];
        }
      } else if a[0] < b[0] {
        assert a[..0] == b[..0];
      }
    }
  }
}
