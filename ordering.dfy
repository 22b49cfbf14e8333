/**
 * The order a `$sort` stage puts documents in. Values of different types compare by type
 * (a missing field first, then numbers, then strings, then booleans); numbers compare
 * numerically, strings by code point, and `false` comes before `true`.
 */
module Ordering {
  import opened Primitives

  /** The value of the sorted-on field of one document. */
  datatype SortKey = Missing | Num(n: int) | Str(s: string) | Flag(b: bool)

  /** `1` sorts ascending, `-1` descending. */
  datatype Direction = Ascending | Descending

  function Rank(k: SortKey): nat {
    match k
    case Missing => 0
    case Num(_) => 1
    case Str(_) => 2
    case Flag(_) => 3
  }

  /** `s` is at most `t` in lexicographic code-point order. */
  predicate StrLe(s: string, t: string) {
    s == [] || (t != [] && (s[0] < t[0] || (s[0] == t[0] && StrLe(s[1..], t[1..]))))
  }

  lemma {:induction false} StrLeTotal(s: string, t: string)
    ensures StrLe(s, t) || StrLe(t, s)
  {
    if s != [] && t != [] && s[0] == t[0] {
      StrLeTotal(s[1..], t[1..]);
    }
  }

  lemma {:induction false} StrLeTransitive(s: string, t: string, u: string)
    requires StrLe(s, t) && StrLe(t, u)
    ensures StrLe(s, u)
  {
    if s != [] && s[0] == t[0] && t[0] == u[0] {
      StrLeTransitive(s[1..], t[1..], u[1..]);
    }
  }

  /** `a` sorts no later than `b` in ascending order. */
  predicate KeyLe(a: SortKey, b: SortKey) {
    match (a, b)
    case (Num(x), Num(y)) => x <= y
    case (Str(x), Str(y)) => StrLe(x, y)
    case (Flag(x), Flag(y)) => !x || y
    case _ => Rank(a) <= Rank(b)
  }

  lemma KeyLeTotal(a: SortKey, b: SortKey)
    ensures KeyLe(a, b) || KeyLe(b, a)
  {
    if a.Str? && b.Str? {
      StrLeTotal(a.s, b.s);
    }
  }

  lemma KeyLeTransitive(a: SortKey, b: SortKey, c: SortKey)
    requires KeyLe(a, b) && KeyLe(b, c)
    ensures KeyLe(a, c)
  {
    if a.Str? && b.Str? && c.Str? {
      StrLeTransitive(a.s, b.s, c.s);
    }
  }

  /** `a` may precede `b` in the given direction. */
  predicate InOrder(dir: Direction, a: SortKey, b: SortKey) {
    if dir == Ascending then KeyLe(a, b) else KeyLe(b, a)
  }

  /** Every pair of positions of `xs` is in order. */
  ghost predicate SortedBy<T>(xs: seq<T>, key: T -> SortKey, dir: Direction) {
    forall i, j :: 0 <= i < j < |xs| ==> InOrder(dir, key(xs[i]), key(xs[j]))
  }

  /** `x` placed before the first element it may precede. */
  function Insert<T>(x: T, xs: seq<T>, key: T -> SortKey, dir: Direction): (r: seq<T>)
    ensures |r| == |xs| + 1
    ensures multiset(r) == multiset(xs) + multiset{x}
  {
    if xs == [] || InOrder(dir, key(x), key(xs[0])) then [x] + xs
    else
      assert xs == [xs[0]] + xs[1..];
      [xs[0]] + Insert(x, xs[1..], key, dir)
  }

  /** The documents reordered by the key in the given direction. */
  function SortBy<T>(xs: seq<T>, key: T -> SortKey, dir: Direction): (r: seq<T>)
    ensures |r| == |xs|
    ensures multiset(r) == multiset(xs)
  {
    if xs == [] then []
    else
      assert xs == [xs[0]] + xs[1..];
      Insert(xs[0], SortBy(xs[1..], key, dir), key, dir)
  }

  lemma {:induction false} InsertKeepsSorted<T>(x: T, xs: seq<T>, key: T -> SortKey, dir: Direction)
    requires SortedBy(xs, key, dir)
    ensures SortedBy(Insert(x, xs, key, dir), key, dir)
  {
    if xs == [] {
    } else if InOrder(dir, key(x), key(xs[0])) {
      var r := [x] + xs;
      forall i, j | 0 <= i < j < |r|
        ensures InOrder(dir, key(r[i]), key(r[j]))
      {
        if i == 0 && j > 1 {
          assert r[j] == xs[j - 1];
          if dir == Ascending {
            KeyLeTransitive(key(x), key(xs[0]), key(xs[j - 1]));
          } else {
            KeyLeTransitive(key(xs[j - 1]), key(xs[0]), key(x));
          }
        }
      }
    } else {
      KeyLeTotal(key(x), key(xs[0]));
      var tail := xs[1..];
      var rest := Insert(x, tail, key, dir);
      InsertKeepsSorted(x, tail, key, dir);
      var r := [xs[0]] + rest;
      forall i, j | 0 <= i < j < |r|
        ensures InOrder(dir, key(r[i]), key(r[j]))
      {
        if i == 0 {
          var y := rest[j - 1];
          assert y in multiset(rest);
          if y != x {
            assert y in multiset(tail);
            var m :| 0 <= m < |tail| && tail[m] == y;
            assert y == xs[m + 1];
          }
        }
      }
    }
  }

  /** The result of a sort is ordered. */
  lemma {:induction false} SortBySorted<T>(xs: seq<T>, key: T -> SortKey, dir: Direction)
    ensures SortedBy(SortBy(xs, key, dir), key, dir)
  {
    if xs != [] {
      SortBySorted(xs[1..], key, dir);
      InsertKeepsSorted(xs[0], SortBy(xs[1..], key, dir), key, dir);
    }
  }

  /**
   * A projection that leaves the sort key alone commutes with the sort: later stages that only
   * add fields see the documents in the order the sort gave them.
   */
  lemma {:induction false} SortByMap<T>(xs: seq<T>, key: T -> SortKey, dir: Direction, f: T -> T)
    requires forall x :: key(f(x)) == key(x)
    ensures Map(SortBy(xs, key, dir), f) == SortBy(Map(xs, f), key, dir)
  {
    if xs != [] {
      assert Map(xs, f)[1..] == Map(xs[1..], f);
      SortByMap(xs[1..], key, dir, f);
      InsertMap(xs[0], SortBy(xs[1..], key, dir), key, dir, f);
    }
  }

  lemma {:induction false} InsertMap<T>(x: T, xs: seq<T>, key: T -> SortKey, dir: Direction, f: T -> T)
    requires forall y :: key(f(y)) == key(y)
    ensures Map(Insert(x, xs, key, dir), f) == Insert(f(x), Map(xs, f), key, dir)
  {
    if xs != [] && !InOrder(dir, key(x), key(xs[0])) {
      assert Map(xs, f)[1..] == Map(xs[1..], f);
      InsertMap(x, xs[1..], key, dir, f);
    }
  }
}
