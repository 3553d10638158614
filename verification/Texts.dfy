/** Code-point order on strings and the sorted listing of a finite set of strings. */
module Texts {

  datatype Option<+T> = None | Some(value: T)

  datatype Result<+T, +E> = Ok(value: T) | Err(error: E)

  predicate StrLe(a: string, b: string) {
    a == [] || (b != [] && (a[0] < b[0] || (a[0] == b[0] && StrLe(a[1..], b[1..]))))
  }

  predicate StrLt(a: string, b: string) {
    a != b && StrLe(a, b)
  }

  lemma {:induction false} StrLeReflexive(a: string)
    ensures StrLe(a, a)
  {
    if a != [] { StrLeReflexive(a[1..]); }
  }

  lemma {:induction false} StrLeTotal(a: string, b: string)
    ensures StrLe(a, b) || StrLe(b, a)
  {
    if a != [] && b != [] && a[0] == b[0] { StrLeTotal(a[1..], b[1..]); }
  }

  lemma {:induction false} StrLeAntisymmetric(a: string, b: string)
    requires StrLe(a, b) && StrLe(b, a)
    ensures a == b
  {
    if a != [] && b != [] {
      StrLeAntisymmetric(a[1..], b[1..]);
      assert a == [a[0]] + a[1..] && b == [b[0]] + b[1..];
    }
  }

  lemma {:induction false} StrLeTransitive(a: string, b: string, c: string)
    requires StrLe(a, b) && StrLe(b, c)
    ensures StrLe(a, c)
  {
    if a != [] && a[0] == b[0] && b[0] == c[0] { StrLeTransitive(a[1..], b[1..], c[1..]); }
  }

  /** The part before the first separator, or all of it. */
  function Head(s: string, c: char): string {
    if s == [] || s[0] == c then [] else [s[0]] + Head(s[1..], c)
  }

  /** The part after the first separator, or nothing. */
  function Tail(s: string, c: char): string {
    if s == [] then [] else if s[0] == c then s[1..] else Tail(s[1..], c)
  }

  predicate IsLeast(x: string, s: set<string>) {
    x in s && forall y :: y in s ==> StrLe(x, y)
  }

  lemma {:induction false} LeastExists(s: set<string>) returns (x: string)
    requires s != {}
    ensures IsLeast(x, s)
    decreases |s|
  {
    x :| x in s;
    var rest := s - {x};
    StrLeReflexive(x);
    assert forall y :: y in s ==> y == x || y in rest;
    if rest != {} {
      var m := LeastExists(rest);
      StrLeTotal(x, m);
      if StrLe(x, m) {
        forall y | y in s ensures StrLe(x, y) {
          if y != x {
            assert y in rest;
            StrLeTransitive(x, m, y);
          }
        }
      } else {
        x := m;
      }
    }
  }

  function Least(s: set<string>): (x: string)
    requires s != {}
    ensures IsLeast(x, s)
  {
    assert exists x :: IsLeast(x, s) by { var x := LeastExists(s); }
    assert forall x, y :: IsLeast(x, s) && IsLeast(y, s) ==> x == y by {
      forall x, y | IsLeast(x, s) && IsLeast(y, s) ensures x == y { StrLeAntisymmetric(x, y); }
    }
    var x :| IsLeast(x, s);
    x
  }

  predicate StrictlySorted(xs: seq<string>) {
    forall i, j :: 0 <= i < j < |xs| ==> StrLt(xs[i], xs[j])
  }

  function Elements<T>(xs: seq<T>): set<T> {
    set x | x in xs
  }

  predicate NoRepeats<T(==)>(xs: seq<T>) {
    forall i, j :: 0 <= i < j < |xs| ==> xs[i] != xs[j]
  }

  /** A list without what it repeats: each element where it first stands. */
  function Firsts<T(==)>(xs: seq<T>): seq<T> {
    if xs == [] then []
    else
      var firsts, last := Firsts(xs[..|xs| - 1]), xs[|xs| - 1];
      if last in firsts then firsts else firsts + [last]
  }

  /** The same elements, each once. */
  lemma {:induction false} FirstsOnce<T>(xs: seq<T>)
    ensures NoRepeats(Firsts(xs)) && Elements(Firsts(xs)) == Elements(xs)
    decreases |xs|
  {
    if xs != [] {
      var init, last := xs[..|xs| - 1], xs[|xs| - 1];
      FirstsOnce(init);
      assert xs == init + [last];
      assert Elements(xs) == Elements(init) + {last};
      assert last in Firsts(init) <==> last in Elements(Firsts(init));
    }
  }

  /** What a beginning of the list gives comes first. */
  lemma {:induction false} FirstsInOrder<T>(xs: seq<T>, n: nat)
    requires n <= |xs|
    ensures Firsts(xs[..n]) <= Firsts(xs)
    decreases |xs|
  {
    if n < |xs| {
      FirstsInOrder(xs[..|xs| - 1], n);
      assert xs[..|xs| - 1][..n] == xs[..n];
    } else {
      assert xs[..n] == xs;
    }
  }

  lemma OneMore<T>(xs: seq<T>, i: nat)
    requires i < |xs|
    ensures Elements(xs[..i + 1]) == Elements(xs[..i]) + {xs[i]}
  {
    assert xs[..i + 1] == xs[..i] + [xs[i]];
  }

  lemma AppendAssociative<T>(a: seq<T>, b: seq<T>, c: seq<T>)
    ensures (a + b) + c == a + (b + c)
  {
  }

  /** Python's `sorted(s)` on a set of strings. */
  function Sorted(s: set<string>): (r: seq<string>)
    ensures forall x :: x in r <==> x in s
    ensures StrictlySorted(r)
    decreases |s|
  {
    if s == {} then [] else
      var x := Least(s);
      [x] + Sorted(s - {x})
  }

  lemma {:induction false} SortedUnique(a: seq<string>, b: seq<string>)
    requires StrictlySorted(a) && StrictlySorted(b)
    requires forall x :: x in a <==> x in b
    ensures a == b
  {
    assert a != [] ==> a[0] in b;
    assert b != [] ==> b[0] in a;
    if a != [] && b != [] {
      assert a[0] in b;
      assert b[0] in a;
      if a[0] != b[0] {
        var i :| 0 <= i < |b| && b[i] == a[0];
        var j :| 0 <= j < |a| && a[j] == b[0];
        StrLeAntisymmetric(a[0], b[0]);
        assert false;
      }
      var x := a[0];
      assert forall y :: y in a[1..] ==> y != x;
      assert forall y :: y in b[1..] ==> y != x;
      forall y ensures y in a[1..] <==> y in b[1..] {
        assert a == [x] + a[1..] && b == [x] + b[1..];
        assert y in a <==> y == x || y in a[1..];
        assert y in b <==> y == x || y in b[1..];
      }
      SortedUnique(a[1..], b[1..]);
      assert a == [x] + a[1..] && b == [x] + b[1..];
    }
  }

  /** Sorting the elements of a strictly sorted list gives the list back. */
  lemma SortedOfSorted(xs: seq<string>)
    requires StrictlySorted(xs)
    ensures Sorted(Elements(xs)) == xs
  {
    SortedUnique(Sorted(Elements(xs)), xs);
  }
}
