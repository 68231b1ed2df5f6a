/** Code-point order on strings and Python's `sorted` applied to a set of them. */
module Ordering {

  predicate StrLe(a: string, b: string) {
    a == [] || (b != [] && (a[0] < b[0] || (a[0] == b[0] && StrLe(a[1..], b[1..]))))
  }

  lemma {:induction false} StrLeTotal(a: string, b: string)
    ensures StrLe(a, b) || StrLe(b, a)
  {
    if a != [] && b != [] && a[0] == b[0] {
      StrLeTotal(a[1..], b[1..]);
    }
  }

  lemma {:induction false} StrLeAntisymmetric(a: string, b: string)
    requires StrLe(a, b) && StrLe(b, a)
    ensures a == b
  {
    if a != [] && b != [] {
      StrLeAntisymmetric(a[1..], b[1..]);
      assert a == [a[0]] + a[1..] && b == [b[0]] + b[1..];
    }
  }

  lemma {:induction false} StrLeTransitive(a: string, b: string, c: string)
    requires StrLe(a, b) && StrLe(b, c)
    ensures StrLe(a, c)
  {
    if a != [] && a[0] == b[0] == c[0] {
      StrLeTransitive(a[1..], b[1..], c[1..]);
    }
  }

  predicate IsMinimum(m: string, s: set<string>) {
    m in s && forall x :: x in s ==> StrLe(m, x)
  }

  lemma {:induction false} MinimumExists(s: set<string>) returns (m: string)
    requires s != {}
    ensures IsMinimum(m, s)
    ensures forall n :: IsMinimum(n, s) ==> n == m
    decreases |s|
  {
    var x :| x in s;
    if s == {x} {
      m := x;
      StrLeTotal(x, x);
    } else {
      var rest := MinimumExists(s - {x});
      StrLeTotal(x, rest);
      StrLeTotal(x, x);
      m := if StrLe(x, rest) then x else rest;
      forall y | y in s ensures StrLe(m, y) {
        if y != x && m == x {
          StrLeTransitive(x, rest, y);
        }
      }
    }
    forall n | IsMinimum(n, s) ensures n == m {
      StrLeAntisymmetric(n, m);
    }
  }

  predicate StrictlySorted(r: seq<string>) {
    forall i, j :: 0 <= i < j < |r| ==> StrLe(r[i], r[j]) && r[i] != r[j]
  }

  /** The least element of a non-empty set. */
  function Least(s: set<string>): (m: string)
    requires s != {}
    ensures m in s
  {
    assert exists m :: IsMinimum(m, s) && forall n :: IsMinimum(n, s) ==> n == m by {
      var m := MinimumExists(s);
    }
    var m :| IsMinimum(m, s);
    m
  }

  function Sorted(s: set<string>): (r: seq<string>)
    ensures forall x :: x in r <==> x in s
    ensures |r| == |s|
    decreases |s|
  {
    if s == {} then [] else [Least(s)] + Sorted(s - {Least(s)})
  }

  lemma PrependedIsStrict(m: string, rest: seq<string>)
    requires StrictlySorted(rest) && forall x :: x in rest ==> StrLe(m, x) && m != x
    ensures StrictlySorted([m] + rest)
  {
  }

  lemma {:induction false} SortedIsStrict(s: set<string>)
    ensures StrictlySorted(Sorted(s))
    decreases |s|
  {
    if s != {} {
      var m := Least(s);
      SortedIsStrict(s - {m});
      assert IsMinimum(m, s);
      PrependedIsStrict(m, Sorted(s - {m}));
    }
  }

  // ----- lists, with repetitions ---------------------------------------------------------

  function InsertString(x: string, s: seq<string>): (r: seq<string>)
    ensures multiset(r) == multiset(s) + multiset{x}
  {
    if s == [] then [x]
    else if StrLe(x, s[0]) then [x] + s
    else
      assert s == [s[0]] + s[1..];
      [s[0]] + InsertString(x, s[1..])
  }

  /** Python's `sorted` applied to a list. */
  function SortedList(s: seq<string>): (r: seq<string>)
    ensures multiset(r) == multiset(s)
  {
    if s == [] then []
    else
      assert s == s[..|s| - 1] + [s[|s| - 1]];
      InsertString(s[|s| - 1], SortedList(s[..|s| - 1]))
  }

  predicate Ascending(s: seq<string>) {
    forall i, j :: 0 <= i < j < |s| ==> StrLe(s[i], s[j])
  }

  lemma {:induction false} InsertAscends(x: string, s: seq<string>)
    requires Ascending(s)
    ensures Ascending(InsertString(x, s))
  {
    if s != [] {
      StrLeTotal(x, s[0]);
      if StrLe(x, s[0]) {
        forall j | 0 <= j < |s| ensures StrLe(x, s[j]) {
          if j > 0 {
            StrLeTransitive(x, s[0], s[j]);
          }
        }
      } else {
        var rest := InsertString(x, s[1..]);
        InsertAscends(x, s[1..]);
        forall j | 0 <= j < |rest| ensures StrLe(s[0], rest[j]) {
          assert rest[j] in multiset(rest);
          assert rest[j] == x || rest[j] in s[1..];
        }
      }
    }
  }

  lemma {:induction false} SortedListAscends(s: seq<string>)
    ensures Ascending(SortedList(s))
  {
    if s != [] {
      SortedListAscends(s[..|s| - 1]);
      InsertAscends(s[|s| - 1], SortedList(s[..|s| - 1]));
    }
  }

  /** Nothing but white space. */
  predicate Blank(s: string) {
    forall i :: 0 <= i < |s| ==> s[i] == ' ' || '\t' <= s[i] <= '\r'
  }
}
