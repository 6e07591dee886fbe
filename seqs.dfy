/** The array operations the core builds on: `filter`, `find` and the stable
    `Array.prototype.sort` with a consistent comparator (ES2019 and later), here a stable
    insertion sort ordered by a total preorder `le` ("a may come before b"). */
module Seqs {
  import opened Js

  /** `s.filter(p)` */
  function Select<T>(s: seq<T>, p: T -> bool): (r: seq<T>)
    ensures |r| <= |s|
    ensures forall i :: 0 <= i < |r| ==> r[i] in s && p(r[i])
    ensures forall i :: 0 <= i < |s| && p(s[i]) ==> s[i] in r
  {
    if s == [] then [] else (if p(s[0]) then [s[0]] else []) + Select(s[1..], p)
  }

  lemma SelectCons<T>(x: T, s: seq<T>, p: T -> bool)
    ensures Select([x] + s, p) == (if p(x) then [x] else []) + Select(s, p)
  {
    assert ([x] + s)[0] == x;
    assert ([x] + s)[1..] == s;
  }

  lemma SelectOne<T>(x: T, p: T -> bool)
    ensures Select([x], p) == if p(x) then [x] else []
  {
    assert [x][1..] == [];
  }

  lemma {:induction false} SelectConcat<T>(a: seq<T>, b: seq<T>, p: T -> bool)
    ensures Select(a + b, p) == Select(a, p) + Select(b, p)
  {
    if a != [] {
      assert a + b == [a[0]] + (a[1..] + b);
      var h := if p(a[0]) then [a[0]] else [];
      calc {
        Select(a + b, p);
        { SelectCons(a[0], a[1..] + b, p); }
        h + Select(a[1..] + b, p);
        { SelectConcat(a[1..], b, p); }
        h + (Select(a[1..], p) + Select(b, p));
        (h + Select(a[1..], p)) + Select(b, p);
        { SelectCons(a[0], a[1..], p); assert [a[0]] + a[1..] == a; }
        Select(a, p) + Select(b, p);
      }
    } else {
      assert a + b == b;
    }
  }

  /** Extending a prefix by one element. */
  lemma TakeOneMore<T>(s: seq<T>, i: nat)
    requires i < |s|
    ensures s[..i + 1] == s[..i] + [s[i]]
  {
  }

  /** Filtering keeps everything exactly when every element passes. */
  lemma {:induction false} SelectAll<T>(s: seq<T>, p: T -> bool)
    requires forall i :: 0 <= i < |s| ==> p(s[i])
    ensures Select(s, p) == s
  {
    if s != [] {
      SelectAll(s[1..], p);
    }
  }

  /** The filter keeps every copy of a passing element and no copy of any other. */
  lemma {:induction false} SelectMultiset<T>(s: seq<T>, p: T -> bool)
    ensures multiset(Select(s, p)) <= multiset(s)
    ensures forall x :: multiset(Select(s, p))[x] == if p(x) then multiset(s)[x] else 0
  {
    if s != [] {
      var h, t := s[0], s[1..];
      var kept := if p(h) then [h] else [];
      SelectMultiset(t, p);
      assert s == [h] + t;
      SelectCons(h, t, p);
      assert multiset(Select(s, p)) == multiset(kept) + multiset(Select(t, p));
      assert multiset(s) == multiset{h} + multiset(t);
    }
  }

  /** `s.findIndex(p)`, `None` for -1: the first index whose element satisfies `p`. */
  function FindFirst<T>(s: seq<T>, p: T -> bool): (r: Option<nat>)
    ensures r.Some? ==> r.value < |s| && p(s[r.value])
    ensures r.Some? ==> forall j :: 0 <= j < r.value ==> !p(s[j])
    ensures r.None? ==> forall j :: 0 <= j < |s| ==> !p(s[j])
  {
    if s == [] then None
    else if p(s[0]) then Some(0)
    else match FindFirst(s[1..], p)
      case None => None
      case Some(k) => Some(k + 1)
  }

  // ---------------------------------------------------------------- sorting

  ghost predicate TotalPreorder<T(!new)>(le: (T, T) -> bool) {
    && (forall a, b :: le(a, b) || le(b, a))
    && (forall a, b, c :: le(a, b) && le(b, c) ==> le(a, c))
  }

  predicate SortedBy<T>(s: seq<T>, le: (T, T) -> bool) {
    forall i, j :: 0 <= i < j < |s| ==> le(s[i], s[j])
  }

  /** The elements that `le` ranks level with `c`. */
  function Level<T>(le: (T, T) -> bool, c: T): T -> bool {
    y => le(y, c) && le(c, y)
  }

  /** Inserts `x` before the first element it may precede, so that `x`, which comes
      first in the input, stays ahead of every element ranked level with it. */
  function Insert<T>(x: T, s: seq<T>, le: (T, T) -> bool): (r: seq<T>)
    ensures multiset(r) == multiset(s) + multiset{x}
  {
    if s == [] || le(x, s[0]) then [x] + s
    else
      assert s == [s[0]] + s[1..];
      [s[0]] + Insert(x, s[1..], le)
  }

  /** `s.slice().sort(cmp)` for a comparator that orders by `le`. */
  function SortBy<T>(s: seq<T>, le: (T, T) -> bool): (r: seq<T>)
    ensures multiset(r) == multiset(s)
    ensures |r| == |s|
  {
    if s == [] then []
    else
      assert s == [s[0]] + s[1..];
      Insert(s[0], SortBy(s[1..], le), le)
  }

  lemma {:induction false} InsertSorted<T(!new)>(x: T, s: seq<T>, le: (T, T) -> bool)
    requires TotalPreorder(le) && SortedBy(s, le)
    ensures SortedBy(Insert(x, s, le), le)
  {
    if s != [] && !le(x, s[0]) {
      InsertSorted(x, s[1..], le);
      var t := Insert(x, s[1..], le);
      forall j | 0 <= j < |t| ensures le(s[0], t[j]) {
        assert t[j] in multiset(t);
        assert t[j] == x || t[j] in multiset(s[1..]);
      }
    }
  }

  /** The sort orders its output by `le`. */
  lemma {:induction false} SortBySorted<T(!new)>(s: seq<T>, le: (T, T) -> bool)
    requires TotalPreorder(le)
    ensures SortedBy(SortBy(s, le), le)
  {
    if s != [] {
      SortBySorted(s[1..], le);
      InsertSorted(s[0], SortBy(s[1..], le), le);
    }
  }

  /** Two elements out of order are never both level with the same `c`. */
  lemma LevelExclusive<T(!new)>(le: (T, T) -> bool, c: T, x: T, y: T)
    requires TotalPreorder(le) && !le(x, y)
    ensures !Level(le, c)(x) || !Level(le, c)(y)
  {
  }

  lemma {:induction false} InsertLevel<T(!new)>(x: T, s: seq<T>, le: (T, T) -> bool, c: T)
    requires TotalPreorder(le)
    ensures Select(Insert(x, s, le), Level(le, c))
         == (if Level(le, c)(x) then [x] else []) + Select(s, Level(le, c))
  {
    var p := Level(le, c);
    if s == [] || le(x, s[0]) {
      SelectCons(x, s, p);
    } else {
      var t := Insert(x, s[1..], le);
      assert Insert(x, s, le) == [s[0]] + t;
      assert [s[0]] + s[1..] == s;
      InsertLevel(x, s[1..], le, c);
      LevelExclusive(le, c, x, s[0]);
      PassHead(x, s[0], s[1..], t, p);
    }
  }

  /** Filtering by `p` with `x` moved past a head `h` changes nothing when `x` and `h` do
      not both pass. */
  lemma PassHead<T>(x: T, h: T, rest: seq<T>, t: seq<T>, p: T -> bool)
    requires !(p(x) && p(h))
    requires Select(t, p) == (if p(x) then [x] else []) + Select(rest, p)
    ensures Select([h] + t, p) == (if p(x) then [x] else []) + Select([h] + rest, p)
  {
    var r := Select(rest, p);
    SelectCons(h, t, p);
    SelectCons(h, rest, p);
    if p(h) {
      assert Select(t, p) == r;
      assert Select([h] + rest, p) == [h] + r;
    } else {
      assert Select([h] + t, p) == Select(t, p);
      assert Select([h] + rest, p) == r;
    }
  }

  /** The sort is stable: the elements ranked level with any `c` keep their input order. */
  lemma {:induction false} SortByStable<T(!new)>(s: seq<T>, le: (T, T) -> bool, c: T)
    requires TotalPreorder(le)
    ensures Select(SortBy(s, le), Level(le, c)) == Select(s, Level(le, c))
  {
    if s != [] {
      SortByStable(s[1..], le, c);
      InsertLevel(s[0], SortBy(s[1..], le), le, c);
    }
  }

  /** Sorting a sequence that is already in order leaves it as it is. */
  lemma {:induction false} SortBySortedIdentity<T>(s: seq<T>, le: (T, T) -> bool)
    requires SortedBy(s, le)
    ensures SortBy(s, le) == s
  {
    if s != [] {
      SortBySortedIdentity(s[1..], le);
      assert SortBy(s, le) == Insert(s[0], s[1..], le);
    }
  }

  /** What a prefix of a sorted sequence leaves out is ranked no earlier than what it keeps. */
  lemma PrefixOfSorted<T>(s: seq<T>, n: nat, le: (T, T) -> bool)
    requires SortedBy(s, le)
    ensures forall i, j :: 0 <= i < |Prefix(s, n)| <= j < |s| ==> le(s[i], s[j])
  {
  }
}
