/** Python's `sorted(xs, key=...)` for the keys the generators use: a small
    rank (`not required` is 0 or 1) and then a name. Insertion sort, stable
    like Python's. */
module Sorting {
  import opened Text

  datatype SortKey = SortKey(rank: nat, name: string)

  predicate KeyLe(a: SortKey, b: SortKey)
  {
    a.rank < b.rank || (a.rank == b.rank && LexLe(a.name, b.name))
  }

  lemma KeyLeTotal(a: SortKey, b: SortKey)
    ensures KeyLe(a, b) || KeyLe(b, a)
  {
    LexLeTotal(a.name, b.name);
  }

  lemma KeyLeTrans(a: SortKey, b: SortKey, c: SortKey)
    requires KeyLe(a, b) && KeyLe(b, c)
    ensures KeyLe(a, c)
  {
    if a.rank == b.rank == c.rank {
      LexLeTrans(a.name, b.name, c.name);
    }
  }

  ghost predicate SortedBy<T>(s: seq<T>, key: T -> SortKey)
  {
    forall i, j :: 0 <= i < j < |s| ==> KeyLe(key(s[i]), key(s[j]))
  }

  function Insert<T>(x: T, s: seq<T>, key: T -> SortKey): (r: seq<T>)
    requires SortedBy(s, key)
    ensures SortedBy(r, key)
    ensures multiset(r) == multiset(s) + multiset{x}
    ensures |r| == |s| + 1
  {
    if |s| == 0 then [x]
    else if KeyLe(key(x), key(s[0])) then
      assert forall j :: 0 <= j < |s| ==> KeyLe(key(x), key(s[j])) by {
        forall j | 0 <= j < |s| ensures KeyLe(key(x), key(s[j])) {
          if j > 0 { KeyLeTrans(key(x), key(s[0]), key(s[j])); }
        }
      }
      [x] + s
    else
      KeyLeTotal(key(x), key(s[0]));
      var rest := Insert(x, s[1..], key);
      assert s == [s[0]] + s[1..];
      LowerBound(s[0], s[1..], x, rest, key);
      [s[0]] + rest
  }

  /** A key below every element of `s` and below `x` is below every element
      of a rearrangement of `s` with `x` added. */
  lemma LowerBound<T>(y: T, s: seq<T>, x: T, r: seq<T>, key: T -> SortKey)
    requires forall j :: 0 <= j < |s| ==> KeyLe(key(y), key(s[j]))
    requires KeyLe(key(y), key(x))
    requires multiset(r) == multiset(s) + multiset{x}
    ensures forall j :: 0 <= j < |r| ==> KeyLe(key(y), key(r[j]))
  {
    forall j | 0 <= j < |r| ensures KeyLe(key(y), key(r[j])) {
      assert r[j] in multiset(r);
      if r[j] != x {
        assert r[j] in multiset(s);
        var k :| 0 <= k < |s| && s[k] == r[j];
      }
    }
  }

  /** `sorted(s, key=key)`: sorted by `key` and a permutation of `s`. */
  function SortBy<T>(s: seq<T>, key: T -> SortKey): (r: seq<T>)
    ensures SortedBy(r, key)
    ensures multiset(r) == multiset(s)
    ensures |r| == |s|
  {
    if |s| == 0 then []
    else
      assert s == [s[0]] + s[1..];
      Insert(s[0], SortBy(s[1..], key), key)
  }
}
