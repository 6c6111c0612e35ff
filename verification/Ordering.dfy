/** Python's string order, and the sorted() calls that use it. */
module Ordering {
  predicate Leq(a: string, b: string) {
    a == "" || (b != "" && (a[0] < b[0] || (a[0] == b[0] && Leq(a[1..], b[1..]))))
  }

  lemma {:induction false} LeqTotal(a: string, b: string)
    ensures Leq(a, b) || Leq(b, a)
    ensures Leq(a, b) && Leq(b, a) ==> a == b
    decreases |a|
  {
    if a != "" && b != "" {
      LeqTotal(a[1..], b[1..]);
      assert a == [a[0]] + a[1..] && b == [b[0]] + b[1..];
    }
  }

  lemma {:induction false} LeqTransitive(a: string, b: string, c: string)
    requires Leq(a, b) && Leq(b, c)
    ensures Leq(a, c)
    decreases |a|
  {
    if a != "" && a[0] == b[0] && b[0] == c[0] {
      LeqTransitive(a[1..], b[1..], c[1..]);
    }
  }

  ghost predicate IsLeast(m: string, s: set<string>) {
    m in s && forall y :: y in s ==> Leq(m, y)
  }

  lemma {:induction false} LeastExists(s: set<string>)
    requires s != {}
    ensures exists m :: IsLeast(m, s)
    decreases s
  {
    var x :| x in s;
    LeqTotal(x, x);
    if s == {x} {
      assert IsLeast(x, s);
    } else {
      LeastExists(s - {x});
      var n :| IsLeast(n, s - {x});
      LeqTotal(x, n);
      var m := if Leq(x, n) then x else n;
      forall y | y in s ensures Leq(m, y) {
        if y != x {
          if m == x { LeqTransitive(x, n, y); }
        }
      }
      assert IsLeast(m, s);
    }
  }

  /** sorted(s) of a set of strings. */
  ghost function SortedKeys(s: set<string>): (keys: seq<string>)
    decreases s
  {
    if s == {} then []
    else
      LeastExists(s);
      var m :| IsLeast(m, s);
      [m] + SortedKeys(s - {m})
  }

  lemma {:induction false} SortedKeysMeaning(s: set<string>)
    ensures forall k :: k in SortedKeys(s) <==> k in s
    ensures forall i, j :: 0 <= i < j < |SortedKeys(s)| ==>
              SortedKeys(s)[i] != SortedKeys(s)[j] && Leq(SortedKeys(s)[i], SortedKeys(s)[j])
    decreases s
  {
    if s != {} {
      LeastExists(s);
      var m := SortedKeys(s)[0];
      SortedKeysMeaning(s - {m});
      assert SortedKeys(s) == [m] + SortedKeys(s - {m});
    }
  }

  method LeastOf(s: set<string>) returns (m: string)
    requires s != {}
    ensures IsLeast(m, s)
  {
    m :| m in s;
    LeqTotal(m, m);
    var todo := s - {m};
    while todo != {}
      invariant m in s && todo <= s
      invariant forall y :: y in s - todo ==> Leq(m, y)
      decreases todo
    {
      var x :| x in todo;
      LeqTotal(m, x);
      LeqTotal(x, x);
      if !Leq(m, x) {
        forall y | y in s - todo ensures Leq(x, y) {
          LeqTransitive(x, m, y);
        }
        m := x;
      }
      todo := todo - {x};
    }
  }

  lemma {:induction false} SortedKeysStep(s: set<string>, m: string)
    requires IsLeast(m, s)
    ensures SortedKeys(s) == [m] + SortedKeys(s - {m})
  {
    forall x | IsLeast(x, s) ensures x == m {
      LeqTotal(x, m);
    }
  }

  method SortKeys(s: set<string>) returns (keys: seq<string>)
    ensures keys == SortedKeys(s)
  {
    keys := [];
    var todo := s;
    while todo != {}
      invariant keys + SortedKeys(todo) == SortedKeys(s)
      decreases todo
    {
      var m := LeastOf(todo);
      SortedKeysStep(todo, m);
      assert keys + ([m] + SortedKeys(todo - {m})) == keys + [m] + SortedKeys(todo - {m});
      keys := keys + [m];
      todo := todo - {m};
    }
  }

  // ---------- sorted(): stable ----------

  /** Any two are comparable, and the comparison chains. */
  ghost predicate Preorder<T(!new)>(leq: (T, T) -> bool) {
    (forall a, b :: leq(a, b) || leq(b, a)) && forall a, b, c :: leq(a, b) && leq(b, c) ==> leq(a, c)
  }

  /** The order of the texts a key gives. */
  function ByText<T>(key: T -> string): (T, T) -> bool {
    (a, b) => Leq(key(a), key(b))
  }

  lemma {:induction false} ByTextIsPreorder<T(!new)>(key: T -> string)
    ensures Preorder(ByText(key))
  {
    forall a, b ensures ByText(key)(a, b) || ByText(key)(b, a) {
      LeqTotal(key(a), key(b));
    }
    forall a, b, c | ByText(key)(a, b) && ByText(key)(b, c) ensures ByText(key)(a, c) {
      LeqTransitive(key(a), key(b), key(c));
    }
  }

  function Insert<T>(leq: (T, T) -> bool, x: T, xs: seq<T>): (r: seq<T>)
    ensures multiset(r) == multiset(xs) + multiset{x}
  {
    if xs == [] || leq(x, xs[0]) then
      [x] + xs
    else
      assert xs == [xs[0]] + xs[1..];
      [xs[0]] + Insert(leq, x, xs[1..])
  }

  function SortBy<T>(leq: (T, T) -> bool, xs: seq<T>): (r: seq<T>)
    ensures multiset(r) == multiset(xs)
  {
    if xs == [] then []
    else
      assert xs == [xs[0]] + xs[1..];
      Insert(leq, xs[0], SortBy(leq, xs[1..]))
  }

  ghost predicate Sorted<T>(leq: (T, T) -> bool, xs: seq<T>) {
    forall i, j :: 0 <= i < j < |xs| ==> leq(xs[i], xs[j])
  }

  lemma {:induction false} InsertKeepsSorted<T(!new)>(leq: (T, T) -> bool, x: T, xs: seq<T>)
    requires Preorder(leq) && Sorted(leq, xs)
    ensures Sorted(leq, Insert(leq, x, xs))
    decreases |xs|
  {
    if xs != [] && !leq(x, xs[0]) {
      var rest := Insert(leq, x, xs[1..]);
      InsertKeepsSorted(leq, x, xs[1..]);
      forall j | 0 <= j < |rest| ensures leq(xs[0], rest[j]) {
        assert rest[j] in multiset(rest);
        assert rest[j] == x || rest[j] in xs[1..];
      }
    }
  }

  lemma {:induction false} SortBySorts<T(!new)>(leq: (T, T) -> bool, xs: seq<T>)
    requires Preorder(leq)
    ensures Sorted(leq, SortBy(leq, xs))
    decreases |xs|
  {
    if xs != [] {
      SortBySorts(leq, xs[1..]);
      InsertKeepsSorted(leq, xs[0], SortBy(leq, xs[1..]));
    }
  }

  lemma {:induction false} SortByOfSorted<T>(leq: (T, T) -> bool, xs: seq<T>)
    requires Sorted(leq, xs)
    ensures SortBy(leq, xs) == xs
    decreases |xs|
  {
    if xs != [] {
      SortByOfSorted(leq, xs[1..]);
    }
  }
}
