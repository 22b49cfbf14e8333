/**
 * The document store's primitives, over a collection held as a sequence of records in
 * insertion (natural) order: `create` appends, `findOneAndDelete` removes the first match,
 * `$push` appends to an array and `$pull` removes every equal element.
 */
module Primitives {
  import opened Wrappers

  /** An ObjectId, in the string form the handlers receive and compare. */
  type Id = string

  /**
   * What a handler receives besides its request: the authenticated principal (`req.user._id`)
   * and mongoose's `isValidObjectId`, left uninterpreted.
   */
  datatype Env = Env(principal: Id, validId: string -> bool)

  /** JavaScript truthiness of an optional string field: present and not "". */
  predicate Truthy(o: Option<string>) {
    o.Some? && o.value != ""
  }

  predicate NoneMatch<T>(rows: seq<T>, p: T -> bool) {
    forall k :: 0 <= k < |rows| ==> !p(rows[k])
  }

  /** Index `i` holds the first row of `rows` that `p` selects. */
  predicate FirstMatchAt<T>(rows: seq<T>, p: T -> bool, i: nat) {
    i < |rows| && p(rows[i]) && forall k :: 0 <= k < i ==> !p(rows[k])
  }

  /** The index of the first row `p` selects, if any. */
  function FindFirst<T>(rows: seq<T>, p: T -> bool): (r: Option<nat>)
    ensures r.Some? ==> FirstMatchAt(rows, p, r.value)
    ensures r.None? <==> NoneMatch(rows, p)
  {
    if |rows| == 0 then None
    else if p(rows[0]) then Some(0)
    else match FindFirst(rows[1..], p)
      case None => None
      case Some(i) => Some(i + 1)
  }

  lemma FirstMatchUnique<T>(rows: seq<T>, p: T -> bool, i: nat, j: nat)
    requires FirstMatchAt(rows, p, i) && FirstMatchAt(rows, p, j)
    ensures i == j
  {
  }

  /** `rows` without its element at index `i`. */
  function RemoveAt<T>(rows: seq<T>, i: nat): (r: seq<T>)
    requires i < |rows|
    ensures |r| == |rows| - 1
    ensures forall k :: 0 <= k < i ==> r[k] == rows[k]
    ensures forall k :: i <= k < |r| ==> r[k] == rows[k + 1]
    ensures multiset(r) + multiset{rows[i]} == multiset(rows)
  {
    assert rows == rows[..i] + [rows[i]] + rows[i + 1..];
    rows[..i] + rows[i + 1..]
  }

  /** `findOneAndDelete(filter)`: removes the first row the filter selects and returns it. */
  function FindOneAndDelete<T>(rows: seq<T>, p: T -> bool): (r: (seq<T>, Option<T>))
    ensures r.1.None? <==> NoneMatch(rows, p)
    ensures r.1.None? ==> r.0 == rows
    ensures r.1.Some? ==> exists i: nat :: FirstMatchAt(rows, p, i) && r.1.value == rows[i] && r.0 == RemoveAt(rows, i)
  {
    match FindFirst(rows, p)
    case None => (rows, None)
    case Some(i) => (RemoveAt(rows, i), Some(rows[i]))
  }

  /** The rows `p` selects, in collection order (a `find(filter)`). */
  function Select<T>(rows: seq<T>, p: T -> bool): (r: seq<T>)
    ensures |r| <= |rows|
    ensures forall k :: 0 <= k < |r| ==> r[k] in rows && p(r[k])
    ensures forall k :: 0 <= k < |rows| && p(rows[k]) ==> rows[k] in r
  {
    if rows == [] then []
    else
      assert rows == [rows[0]] + rows[1..];
      (if p(rows[0]) then [rows[0]] else []) + Select(rows[1..], p)
  }

  /** `f` applied to every row, in order (a projection or an `$addFields` stage). */
  function Map<T, U>(rows: seq<T>, f: T -> U): (r: seq<U>)
    ensures |r| == |rows|
    ensures forall k :: 0 <= k < |rows| ==> r[k] == f(rows[k])
  {
    if rows == [] then [] else [f(rows[0])] + Map(rows[1..], f)
  }

  lemma ConcatAssoc<T>(a: seq<T>, b: seq<T>, c: seq<T>)
    ensures a + (b + c) == (a + b) + c
  {
  }

  lemma {:induction false} MapConcat<T, U>(a: seq<T>, b: seq<T>, f: T -> U)
    ensures Map(a + b, f) == Map(a, f) + Map(b, f)
  {
    if a == [] {
      assert a + b == b;
    } else {
      var t := a[1..] + b;
      assert (a + b)[0] == a[0] && (a + b)[1..] == t;
      MapConcat(a[1..], b, f);
      var h := [f(a[0])];
      assert Map(a + b, f) == h + Map(t, f);
      assert Map(a, f) == h + Map(a[1..], f);
      ConcatAssoc(h, Map(a[1..], f), Map(b, f));
    }
  }

  /** Selecting after a projection is projecting after selecting with the predicate seen through it. */
  lemma {:induction false} SelectMap<T, U>(rows: seq<T>, f: T -> U, p: U -> bool, q: T -> bool)
    requires forall x :: p(f(x)) == q(x)
    ensures Select(Map(rows, f), p) == Map(Select(rows, q), f)
  {
    if rows != [] {
      assert Map(rows, f)[1..] == Map(rows[1..], f);
      SelectMap(rows[1..], f, p, q);
      assert Select(rows, q) == (if q(rows[0]) then [rows[0]] else []) + Select(rows[1..], q);
      if q(rows[0]) {
        assert Map(Select(rows, q), f) == [f(rows[0])] + Map(Select(rows[1..], q), f);
      }
    }
  }

  /** A selected row appears, projected, in the projection of the selection. */
  lemma SelectMapMember<T, U>(rows: seq<T>, p: T -> bool, f: T -> U, x: T)
    requires x in rows && p(x)
    ensures f(x) in Map(Select(rows, p), f)
  {
    var i :| 0 <= i < |rows| && rows[i] == x;
    var sel := Select(rows, p);
    assert p(rows[i]);
    var j :| 0 <= j < |sel| && sel[j] == x;
    assert Map(sel, f)[j] == f(x);
  }

  /** Every item of the projection of a selection is a selected row, projected. */
  lemma SelectMapOrigin<T, U>(rows: seq<T>, p: T -> bool, f: T -> U)
    ensures forall k :: 0 <= k < |Map(Select(rows, p), f)| ==>
      exists x :: x in rows && p(x) && Map(Select(rows, p), f)[k] == f(x)
  {
    var sel := Select(rows, p);
    var r := Map(sel, f);
    forall k | 0 <= k < |r|
      ensures exists x :: x in rows && p(x) && r[k] == f(x)
    {
      var x := sel[k];
      assert x in rows && p(x) && r[k] == f(x);
    }
  }

  /** Creating a row extends the projection of a selection by that row exactly when it is selected. */
  lemma SelectMapAppend<T, U>(rows: seq<T>, p: T -> bool, f: T -> U, x: T)
    ensures Map(Select(rows + [x], p), f) == Map(Select(rows, p), f) + (if p(x) then [f(x)] else [])
  {
    var tail := if p(x) then [x] else [];
    SelectConcat(rows, [x], p);
    assert [x][1..] == [];
    assert Select([x], p) == tail + Select([], p);
    MapConcat(Select(rows, p), tail, f);
    assert Map(tail, f) == if p(x) then [f(x)] else [];
  }

  /** A projection that a second one cannot see through is invisible to it. */
  lemma {:induction false} MapKeep<T, U>(rows: seq<T>, f: T -> T, g: T -> U)
    requires forall x :: g(f(x)) == g(x)
    ensures Map(Map(rows, f), g) == Map(rows, g)
  {
    if rows != [] {
      assert Map(rows, f)[1..] == Map(rows[1..], f);
      MapKeep(rows[1..], f, g);
    }
  }

  /** The first row a filter selects is the first row of its `find`. */
  lemma {:induction false} SelectStartsAtFirstMatch<T>(rows: seq<T>, p: T -> bool, i: nat)
    requires FirstMatchAt(rows, p, i)
    ensures Select(rows, p) != [] && Select(rows, p)[0] == rows[i]
  {
    if i > 0 {
      assert FirstMatchAt(rows[1..], p, i - 1);
      SelectStartsAtFirstMatch(rows[1..], p, i - 1);
    }
  }

  /**
   * Selection keeps collection order: a selected row lands at the position given by the
   * number of selected rows before it.
   */
  lemma SelectPosition<T>(rows: seq<T>, p: T -> bool, i: nat)
    requires i < |rows| && p(rows[i])
    ensures Count(rows[..i], p) < Count(rows, p)
    ensures Select(rows, p)[Count(rows[..i], p)] == rows[i]
  {
    assert rows == rows[..i] + rows[i..];
    SelectConcat(rows[..i], rows[i..], p);
    assert FirstMatchAt(rows[i..], p, 0);
    SelectStartsAtFirstMatch(rows[i..], p, 0);
  }

  /** The rows `p` does not select, in collection order. */
  function Reject<T>(rows: seq<T>, p: T -> bool): (r: seq<T>)
    ensures |r| <= |rows|
    ensures forall k :: 0 <= k < |r| ==> r[k] in rows && !p(r[k])
  {
    if rows == [] then []
    else (if p(rows[0]) then [] else [rows[0]]) + Reject(rows[1..], p)
  }

  lemma {:induction false} SelectConcat<T>(a: seq<T>, b: seq<T>, p: T -> bool)
    ensures Select(a + b, p) == Select(a, p) + Select(b, p)
  {
    if a == [] {
      assert a + b == b;
    } else {
      var t := a[1..] + b;
      assert (a + b)[0] == a[0] && (a + b)[1..] == t;
      SelectConcat(a[1..], b, p);
      var h := if p(a[0]) then [a[0]] else [];
      assert Select(a + b, p) == h + Select(t, p);
      assert Select(a, p) == h + Select(a[1..], p);
      ConcatAssoc(h, Select(a[1..], p), Select(b, p));
    }
  }

  lemma {:induction false} RejectConcat<T>(a: seq<T>, b: seq<T>, p: T -> bool)
    ensures Reject(a + b, p) == Reject(a, p) + Reject(b, p)
  {
    if a == [] {
      assert a + b == b;
    } else {
      var t := a[1..] + b;
      assert (a + b)[0] == a[0] && (a + b)[1..] == t;
      RejectConcat(a[1..], b, p);
      var h := if p(a[0]) then [] else [a[0]];
      assert Reject(a + b, p) == h + Reject(t, p);
      assert Reject(a, p) == h + Reject(a[1..], p);
      ConcatAssoc(h, Reject(a[1..], p), Reject(b, p));
    }
  }

  /** Removing a row that `p` selects leaves the rows `p` does not select as they were, in order. */
  lemma RejectRemoveAt<T>(rows: seq<T>, p: T -> bool, i: nat)
    requires i < |rows| && p(rows[i])
    ensures Reject(RemoveAt(rows, i), p) == Reject(rows, p)
  {
    var x, a, b := rows[i], rows[..i], rows[i + 1..];
    assert RemoveAt(rows, i) == a + b;
    assert rows == a + ([x] + b) by {
      assert rows[i..] == [x] + b;
      assert rows == a + rows[i..];
    }
    RejectConcat(a, b, p);
    RejectConcat(a, [x] + b, p);
    RejectSkip(x, b, p);
    calc {
      Reject(RemoveAt(rows, i), p);
      Reject(a, p) + Reject(b, p);
      Reject(a, p) + Reject([x] + b, p);
      Reject(rows, p);
    }
  }

  lemma RejectSkip<T>(x: T, b: seq<T>, p: T -> bool)
    requires p(x)
    ensures Reject([x] + b, p) == Reject(b, p)
  {
    assert ([x] + b)[1..] == b;
  }

  /** A filter that selects no row yields nothing. */
  lemma {:induction false} SelectNone<T>(rows: seq<T>, p: T -> bool)
    requires NoneMatch(rows, p)
    ensures Select(rows, p) == []
  {
    if rows != [] {
      assert NoneMatch(rows[1..], p) by {
        forall k | 0 <= k < |rows[1..]|
          ensures !p(rows[1..][k])
        {
          assert rows[1..][k] == rows[k + 1];
        }
      }
      SelectNone(rows[1..], p);
    }
  }

  /** The number of rows `p` selects (a `$sum: 1` group, or the `$size` of a `$lookup`). */
  function Count<T>(rows: seq<T>, p: T -> bool): nat {
    |Select(rows, p)|
  }

  /** A filter that is the disjoint union of two others counts the sum of their counts. */
  lemma {:induction false} CountDisjointUnion<T>(rows: seq<T>, p: T -> bool, q: T -> bool, both: T -> bool)
    requires forall x :: both(x) == (p(x) || q(x)) && !(p(x) && q(x))
    ensures Count(rows, both) == Count(rows, p) + Count(rows, q)
  {
    if rows != [] {
      CountDisjointUnion(rows[1..], p, q, both);
    }
  }

  /** Appending one row raises the count by one exactly when the row matches. */
  lemma CountAppend<T>(rows: seq<T>, p: T -> bool, x: T)
    ensures Count(rows + [x], p) == Count(rows, p) + (if p(x) then 1 else 0)
  {
    SelectConcat(rows, [x], p);
    assert [x][1..] == [];
  }

  /** Removing a matching row lowers the count by one. */
  lemma CountRemoveAt<T>(rows: seq<T>, p: T -> bool, i: nat)
    requires i < |rows| && p(rows[i])
    ensures Count(RemoveAt(rows, i), p) + 1 == Count(rows, p)
  {
    var a, b := rows[..i], rows[i + 1..];
    assert rows == a + ([rows[i]] + b);
    assert RemoveAt(rows, i) == a + b;
    SelectConcat(a, [rows[i]] + b, p);
    SelectConcat([rows[i]], b, p);
    SelectConcat(a, b, p);
    assert [rows[i]][1..] == [];
  }

  /** Removing a row that does not match leaves the count as it was. */
  lemma CountRemoveUnmatched<T>(rows: seq<T>, p: T -> bool, i: nat)
    requires i < |rows| && !p(rows[i])
    ensures Count(RemoveAt(rows, i), p) == Count(rows, p)
  {
    var a, b := rows[..i], rows[i + 1..];
    assert rows == a + ([rows[i]] + b);
    assert RemoveAt(rows, i) == a + b;
    SelectConcat(a, [rows[i]] + b, p);
    SelectConcat([rows[i]], b, p);
    SelectConcat(a, b, p);
    assert [rows[i]][1..] == [];
  }

  // ---------------------------------------------------------------------------------------
  // Toggle-by-existence

  /**
   * Delete the first row `p` selects; when there was none, append `added` (`create`).
   * The flag is true when a row was removed.
   */
  function Toggle<T>(rows: seq<T>, p: T -> bool, added: T): (r: (seq<T>, bool))
    ensures r.1 <==> !NoneMatch(rows, p)
    ensures !r.1 ==> r.0 == rows + [added]
    ensures r.1 ==> exists i: nat :: FirstMatchAt(rows, p, i) && r.0 == RemoveAt(rows, i)
  {
    var (rest, removed) := FindOneAndDelete(rows, p);
    if removed.Some? then (rest, true) else (rows + [added], false)
  }

  /** A toggle never removes, alters or reorders a row `p` does not select. */
  lemma ToggleKeepsOthers<T>(rows: seq<T>, p: T -> bool, added: T)
    requires p(added)
    ensures Reject(Toggle(rows, p, added).0, p) == Reject(rows, p)
  {
    var (r, removed) := Toggle(rows, p, added);
    if removed {
      var i :| FirstMatchAt(rows, p, i) && r == RemoveAt(rows, i);
      RejectRemoveAt(rows, p, i);
    } else {
      RejectConcat(rows, [added], p);
    }
  }

  /** From a collection without a selected row, two toggles restore the collection exactly. */
  lemma ToggleTwiceWhenAbsent<T>(rows: seq<T>, p: T -> bool, added: T, added2: T)
    requires NoneMatch(rows, p) && p(added)
    ensures Toggle(rows, p, added) == (rows + [added], false)
    ensures Toggle(rows + [added], p, added2) == (rows, true)
  {
    var s := rows + [added];
    assert FirstMatchAt(s, p, |rows|);
    var (r, removed) := Toggle(s, p, added2);
    var i :| FirstMatchAt(s, p, i) && r == RemoveAt(s, i);
    FirstMatchUnique(s, p, i, |rows|);
    assert r == rows;
  }

  /**
   * From a collection with a selected row, two toggles replace the first selected row by the
   * second toggle's new row, at the end.
   */
  lemma ToggleTwiceWhenPresent<T>(rows: seq<T>, p: T -> bool, added: T, added2: T, i: nat)
    requires FirstMatchAt(rows, p, i)
    ensures Toggle(rows, p, added) == (RemoveAt(rows, i), true)
    ensures Toggle(RemoveAt(rows, i), p, added2) == (RemoveAt(rows, i) + [added2], false)
      <==> NoneMatch(RemoveAt(rows, i), p)
  {
    var (r, removed) := Toggle(rows, p, added);
    var j :| FirstMatchAt(rows, p, j) && r == RemoveAt(rows, j);
    FirstMatchUnique(rows, p, i, j);
  }

  // ---------------------------------------------------------------------------------------
  // Array updates

  /** `$pull`: every element equal to `x` is removed; the others keep their order. */
  function Pull<T(==)>(xs: seq<T>, x: T): (r: seq<T>)
    ensures x !in r
    ensures multiset(r) == multiset(xs)[x := 0]
  {
    if xs == [] then []
    else
      assert xs == [xs[0]] + xs[1..];
      (if xs[0] == x then [] else [xs[0]]) + Pull(xs[1..], x)
  }

  lemma {:induction false} PullConcat<T>(a: seq<T>, b: seq<T>, x: T)
    ensures Pull(a + b, x) == Pull(a, x) + Pull(b, x)
  {
    if a == [] {
      assert a + b == b;
    } else {
      var t := a[1..] + b;
      assert (a + b)[0] == a[0] && (a + b)[1..] == t;
      PullConcat(a[1..], b, x);
      var h := if a[0] == x then [] else [a[0]];
      assert Pull(a + b, x) == h + Pull(t, x);
      assert Pull(a, x) == h + Pull(a[1..], x);
      ConcatAssoc(h, Pull(a[1..], x), Pull(b, x));
    }
  }

  /** `$pull` of a value the array does not hold changes nothing. */
  lemma {:induction false} PullAbsent<T>(xs: seq<T>, x: T)
    requires x !in xs
    ensures Pull(xs, x) == xs
  {
    if xs != [] {
      PullAbsent(xs[1..], x);
      assert xs == [xs[0]] + xs[1..];
    }
  }

  /** `$push` of a value the array does not hold, then `$pull` of it, restores the array. */
  lemma PushThenPull<T>(xs: seq<T>, x: T)
    requires x !in xs
    ensures Pull(xs + [x], x) == xs
  {
    PullConcat(xs, [x], x);
    PullAbsent(xs, x);
    assert Pull([x], x) == [] + Pull([], x);
  }

  // ---------------------------------------------------------------------------------------
  // Identifiers

  /** No two rows of `rows` have the same `key`. */
  ghost predicate Distinct<T, K>(rows: seq<T>, key: T -> K) {
    forall i, j :: 0 <= i < j < |rows| ==> key(rows[i]) != key(rows[j])
  }

  /** No two records of a collection share an `_id`. */
  ghost predicate UniqueIds<T>(rows: seq<T>, id: T -> Id) {
    Distinct(rows, id)
  }

  /** Every row of `rows` satisfies `p`. */
  ghost predicate All<T>(rows: seq<T>, p: T -> bool) {
    forall k :: 0 <= k < |rows| ==> p(rows[k])
  }

  /** A selection of rows with distinct keys has distinct keys. */
  lemma {:induction false} DistinctSelect<T, K>(rows: seq<T>, key: T -> K, p: T -> bool)
    requires Distinct(rows, key)
    ensures Distinct(Select(rows, p), key)
  {
    if rows != [] {
      var rest := rows[1..];
      assert Distinct(rest, key) by {
        forall i, j | 0 <= i < j < |rest|
          ensures key(rest[i]) != key(rest[j])
        {
          assert rest[i] == rows[i + 1] && rest[j] == rows[j + 1];
        }
      }
      DistinctSelect(rest, key, p);
      var tail := Select(rest, p);
      if p(rows[0]) {
        var r := [rows[0]] + tail;
        forall i, j | 0 <= i < j < |r|
          ensures key(r[i]) != key(r[j])
        {
          if i == 0 {
            assert r[j] == tail[j - 1];
            var m :| 0 <= m < |rest| && rest[m] == tail[j - 1];
            assert rest[m] == rows[m + 1];
          } else {
            assert r[i] == tail[i - 1] && r[j] == tail[j - 1];
          }
        }
      }
    }
  }

  lemma DistinctAppend<T, K>(rows: seq<T>, key: T -> K, x: T)
    requires Distinct(rows, key) && forall k :: 0 <= k < |rows| ==> key(rows[k]) != key(x)
    ensures Distinct(rows + [x], key)
  {
  }

  lemma DistinctRemoveAt<T, K>(rows: seq<T>, key: T -> K, i: nat)
    requires Distinct(rows, key) && i < |rows|
    ensures Distinct(RemoveAt(rows, i), key)
    ensures forall k :: 0 <= k < |rows| - 1 ==> key(RemoveAt(rows, i)[k]) != key(rows[i])
  {
    var r := RemoveAt(rows, i);
    forall a, b | 0 <= a < b < |r|
      ensures key(r[a]) != key(r[b])
    {
      var a', b' := if a < i then a else a + 1, if b < i then b else b + 1;
      assert r[a] == rows[a'] && r[b] == rows[b'];
    }
  }

  lemma AllRemoveAt<T>(rows: seq<T>, p: T -> bool, i: nat)
    requires All(rows, p) && i < |rows|
    ensures All(RemoveAt(rows, i), p)
  {
  }

  predicate HasId<T>(rows: seq<T>, id: T -> Id, x: Id) {
    exists k :: 0 <= k < |rows| && id(rows[k]) == x
  }

  /** `findById`: the index of the record whose `_id` is `x`. */
  function FindById<T>(rows: seq<T>, id: T -> Id, x: Id): (r: Option<nat>)
    ensures r.Some? ==> r.value < |rows| && id(rows[r.value]) == x
    ensures r.None? <==> !HasId(rows, id, x)
  {
    FindFirst(rows, (row: T) => id(row) == x)
  }

  /** With unique identifiers, `findById` finds the one record carrying the identifier. */
  lemma FindByIdUnique<T>(rows: seq<T>, id: T -> Id, k: nat)
    requires UniqueIds(rows, id) && k < |rows|
    ensures FindById(rows, id, id(rows[k])) == Some(k)
  {
  }

  lemma UniqueAppend<T>(rows: seq<T>, id: T -> Id, x: T)
    requires UniqueIds(rows, id) && !HasId(rows, id, id(x))
    ensures UniqueIds(rows + [x], id)
  {
    DistinctAppend(rows, id, x);
  }

  lemma UniqueRemoveAt<T>(rows: seq<T>, id: T -> Id, i: nat)
    requires UniqueIds(rows, id) && i < |rows|
    ensures UniqueIds(RemoveAt(rows, i), id)
    ensures !HasId(RemoveAt(rows, i), id, id(rows[i]))
  {
    DistinctRemoveAt(rows, id, i);
  }

  lemma UniqueReplace<T>(rows: seq<T>, id: T -> Id, i: nat, x: T)
    requires UniqueIds(rows, id) && i < |rows| && id(x) == id(rows[i])
    ensures UniqueIds(rows[i := x], id)
  {
  }

  /**
   * `findByIdAndUpdate(x, update, { new: true })`: the collection with the record whose `_id`
   * is `x` replaced by `f` of it, and the updated record; nothing changes when no record has
   * the id.
   */
  function UpdateById<T>(rows: seq<T>, id: T -> Id, x: Id, f: T -> T): (r: (seq<T>, Option<T>))
    ensures r.1.None? <==> !HasId(rows, id, x)
    ensures r.1.None? ==> r.0 == rows
    ensures r.1.Some? ==>
      exists i: nat :: i < |rows| && id(rows[i]) == x && r.1.value == f(rows[i]) && r.0 == rows[i := f(rows[i])]
  {
    match FindById(rows, id, x)
    case None => (rows, None)
    case Some(i) => (rows[i := f(rows[i])], Some(f(rows[i])))
  }

  /** With unique `_id`s, `findByIdAndUpdate` replaces exactly the record at the id's index. */
  lemma UpdateAt<T>(rows: seq<T>, id: T -> Id, x: Id, f: T -> T, k: nat)
    requires UniqueIds(rows, id) && k < |rows| && id(rows[k]) == x
    ensures UpdateById(rows, id, x, f) == (rows[k := f(rows[k])], Some(f(rows[k])))
  {
    FindByIdUnique(rows, id, k);
  }

  /** An update that keeps every record's `_id` keeps the `_id`s unique. */
  lemma UpdateByIdKeepsUnique<T>(rows: seq<T>, id: T -> Id, x: Id, f: T -> T)
    requires UniqueIds(rows, id)
    requires forall row :: id(f(row)) == id(row)
    ensures UniqueIds(UpdateById(rows, id, x, f).0, id)
  {
    match FindById(rows, id, x)
    case None =>
    case Some(i) => UniqueReplace(rows, id, i, f(rows[i]));
  }

  /** `findByIdAndDelete(x)`: the collection without the record whose `_id` is `x`, and that record. */
  function DeleteById<T>(rows: seq<T>, id: T -> Id, x: Id): (r: (seq<T>, Option<T>))
    ensures r.1.None? <==> !HasId(rows, id, x)
    ensures r.1.None? ==> r.0 == rows
    ensures r.1.Some? ==>
      exists i: nat :: i < |rows| && id(rows[i]) == x && r.1.value == rows[i] && r.0 == RemoveAt(rows, i)
  {
    match FindById(rows, id, x)
    case None => (rows, None)
    case Some(i) => (RemoveAt(rows, i), Some(rows[i]))
  }

  /** With unique `_id`s, a delete by id keeps them unique and leaves no record with that id. */
  lemma DeleteByIdKeepsUnique<T>(rows: seq<T>, id: T -> Id, x: Id)
    requires UniqueIds(rows, id)
    ensures UniqueIds(DeleteById(rows, id, x).0, id)
    ensures !HasId(DeleteById(rows, id, x).0, id, x)
  {
    match FindById(rows, id, x)
    case None =>
    case Some(i) => UniqueRemoveAt(rows, id, i);
  }

  // ---------------------------------------------------------------------------------------
  // Pagination

  /**
   * The items `aggregatePaginate` returns for `{page, limit}`: skip `(page - 1) * limit`
   * results and take at most `limit`.
   */
  function Page<T>(xs: seq<T>, page: nat, limit: nat): (r: seq<T>)
    requires page >= 1 && limit >= 1
    ensures |r| <= limit
    ensures (page - 1) * limit >= |xs| ==> r == []
    ensures (page - 1) * limit < |xs| ==>
      (page - 1) * limit + |r| <= |xs| && r == xs[(page - 1) * limit..(page - 1) * limit + |r|]
    ensures |r| == limit || (page - 1) * limit + |r| == |xs| || r == []
    ensures forall k :: 0 <= k < |r| ==> r[k] in xs
  {
    var skip := (page - 1) * limit;
    if skip >= |xs| then []
    else if skip + limit <= |xs| then xs[skip..skip + limit]
    else xs[skip..]
  }
}
