/**
  `sorted(environ.items())`: Python orders strings lexicographically by code
  point and pairs by their first component, then their second. `Sort` is an
  insertion sort; since the order is total and antisymmetric, every sorted
  permutation is the same sequence (`SortedUnique`), so it yields exactly what
  Python's `sorted` yields.
*/
module Sorting {
  /** Python's `a <= b` on strings. */
  predicate StrLe(a: string, b: string)
    decreases |a|
  {
    a == [] || (b != [] && (a[0] < b[0] || (a[0] == b[0] && StrLe(a[1..], b[1..]))))
  }

  lemma {:induction false} StrLeReflexive(a: string)
    ensures StrLe(a, a)
    decreases |a|
  {
    if a != [] {
      StrLeReflexive(a[1..]);
    }
  }

  lemma {:induction false} StrLeTotal(a: string, b: string)
    ensures StrLe(a, b) || StrLe(b, a)
    decreases |a|
  {
    if a != [] && b != [] && a[0] == b[0] {
      StrLeTotal(a[1..], b[1..]);
    }
  }

  lemma {:induction false} StrLeAntisymmetric(a: string, b: string)
    requires StrLe(a, b) && StrLe(b, a)
    ensures a == b
    decreases |a|
  {
    if a != [] {
      StrLeAntisymmetric(a[1..], b[1..]);
      assert a == [a[0]] + a[1..] && b == [b[0]] + b[1..];
    }
  }

  lemma {:induction false} StrLeTransitive(a: string, b: string, c: string)
    requires StrLe(a, b) && StrLe(b, c)
    ensures StrLe(a, c)
    decreases |a|
  {
    if a != [] && a[0] == b[0] && b[0] == c[0] {
      StrLeTransitive(a[1..], b[1..], c[1..]);
    }
  }

  /** One `environ` entry: a key and its rendered value. */
  type Item = (string, string)

  /** Python's `x <= y` on pairs of strings. */
  predicate ItemLe(x: Item, y: Item)
  {
    if x.0 == y.0 then StrLe(x.1, y.1) else StrLe(x.0, y.0)
  }

  lemma ItemLeReflexive(x: Item)
    ensures ItemLe(x, x)
  {
    StrLeReflexive(x.1);
  }

  lemma ItemLeTotal(x: Item, y: Item)
    ensures ItemLe(x, y) || ItemLe(y, x)
  {
    StrLeTotal(x.0, y.0);
    StrLeTotal(x.1, y.1);
  }

  lemma ItemLeAntisymmetric(x: Item, y: Item)
    requires ItemLe(x, y) && ItemLe(y, x)
    ensures x == y
  {
    if x.0 == y.0 {
      StrLeAntisymmetric(x.1, y.1);
    } else {
      StrLeAntisymmetric(x.0, y.0);
    }
  }

  lemma ItemLeTransitive(x: Item, y: Item, z: Item)
    requires ItemLe(x, y) && ItemLe(y, z)
    ensures ItemLe(x, z)
  {
    if x.0 == y.0 && y.0 == z.0 {
      StrLeTransitive(x.1, y.1, z.1);
    } else if x.0 == y.0 {
      assert StrLe(y.0, z.0);
    } else if y.0 == z.0 {
      assert StrLe(x.0, y.0);
    } else {
      StrLeTransitive(x.0, y.0, z.0);
      if x.0 == z.0 {
        StrLeAntisymmetric(x.0, y.0);
      }
    }
  }

  /** Every entry is at most every later entry. */
  ghost predicate Sorted(s: seq<Item>)
  {
    forall i, j :: 0 <= i < j < |s| ==> ItemLe(s[i], s[j])
  }

  /** No key occurs twice, as in a dict. */
  ghost predicate KeysDistinct(s: seq<Item>)
  {
    forall i, j :: 0 <= i < j < |s| ==> s[i].0 != s[j].0
  }

  /** `x` placed before the first entry of `s` that it does not exceed. */
  function Insert(x: Item, s: seq<Item>): (r: seq<Item>)
    ensures multiset(r) == multiset(s) + multiset{x}
  {
    if s == [] then [x]
    else if ItemLe(x, s[0]) then [x] + s
    else
      assert s == [s[0]] + s[1..];
      [s[0]] + Insert(x, s[1..])
  }

  lemma {:induction false} InsertSorted(x: Item, s: seq<Item>)
    requires Sorted(s)
    ensures Sorted(Insert(x, s))
  {
    if s == [] {
    } else if ItemLe(x, s[0]) {
      forall j | 0 <= j < |s| ensures ItemLe(x, s[j]) {
        if j > 0 { ItemLeTransitive(x, s[0], s[j]); }
      }
    } else {
      ItemLeTotal(x, s[0]);
      var rest := Insert(x, s[1..]);
      InsertSorted(x, s[1..]);
      assert s == [s[0]] + s[1..];
      forall k | 0 <= k < |rest| ensures ItemLe(s[0], rest[k]) {
        assert rest[k] in multiset(rest);
        assert rest[k] == x || rest[k] in multiset(s[1..]);
      }
    }
  }

  lemma {:induction false} InsertKeysDistinct(x: Item, s: seq<Item>)
    requires KeysDistinct(s)
    requires forall e :: e in s ==> e.0 != x.0
    ensures KeysDistinct(Insert(x, s))
  {
    if s != [] && !ItemLe(x, s[0]) {
      var rest := Insert(x, s[1..]);
      InsertKeysDistinct(x, s[1..]);
      assert s == [s[0]] + s[1..];
      forall k | 0 <= k < |rest| ensures rest[k].0 != s[0].0 {
        assert rest[k] in multiset(rest);
        assert rest[k] == x || rest[k] in multiset(s[1..]);
      }
    }
  }

  /** `sorted(items)`. */
  function Sort(items: seq<Item>): (r: seq<Item>)
    ensures Sorted(r)
    ensures multiset(r) == multiset(items)
  {
    if items == [] then []
    else
      var rest := Sort(items[1..]);
      assert items == [items[0]] + items[1..];
      InsertSorted(items[0], rest);
      Insert(items[0], rest)
  }

  /** Sorting keeps the keys of a dict's items distinct. */
  lemma {:induction false} SortKeysDistinct(items: seq<Item>)
    requires KeysDistinct(items)
    ensures KeysDistinct(Sort(items))
  {
    if items != [] {
      var rest := Sort(items[1..]);
      SortKeysDistinct(items[1..]);
      assert items == [items[0]] + items[1..];
      assert forall e :: e in rest ==> e in multiset(items[1..]);
      InsertKeysDistinct(items[0], rest);
    }
  }

  /** Removing the first entry removes one copy of it from the multiset. */
  lemma MultisetTail(a: seq<Item>)
    requires a != []
    ensures multiset(a[1..]) == multiset(a) - multiset{a[0]}
  {
    assert a == [a[0]] + a[1..];
    assert multiset(a) == multiset{a[0]} + multiset(a[1..]);
  }

  /** Two sorted sequences with the same entries start with the same entry. */
  lemma SortedSameHead(a: seq<Item>, b: seq<Item>)
    requires Sorted(a) && Sorted(b)
    requires a != [] && multiset(a) == multiset(b)
    ensures b != [] && a[0] == b[0]
  {
    assert a[0] in multiset(b);
    var i :| 0 <= i < |b| && b[i] == a[0];
    assert b[0] in multiset(a);
    var j :| 0 <= j < |a| && a[j] == b[0];
    assert ItemLe(b[0], a[0]) by { if i > 0 { assert ItemLe(b[0], b[i]); } else { ItemLeReflexive(a[0]); } }
    assert ItemLe(a[0], b[0]) by { if j > 0 { assert ItemLe(a[0], a[j]); } else { ItemLeReflexive(a[0]); } }
    ItemLeAntisymmetric(a[0], b[0]);
  }

  /** Two sorted sequences with the same entries are equal: sorting is determined by the order. */
  lemma {:induction false} SortedUnique(a: seq<Item>, b: seq<Item>)
    requires Sorted(a) && Sorted(b)
    requires multiset(a) == multiset(b)
    ensures a == b
    decreases |a|
  {
    if a == [] {
      assert |b| == |multiset(b)| == 0;
    } else {
      SortedSameHead(a, b);
      MultisetTail(a);
      MultisetTail(b);
      SortedUnique(a[1..], b[1..]);
      assert a == [a[0]] + a[1..] && b == [b[0]] + b[1..];
    }
  }

  /** Sorting a dict's items puts the keys in strictly ascending order. */
  lemma SortedKeysAscend(items: seq<Item>)
    requires KeysDistinct(items)
    ensures var r := Sort(items);
            forall i, j :: 0 <= i < j < |r| ==> StrLe(r[i].0, r[j].0) && r[i].0 != r[j].0
  {
    SortKeysDistinct(items);
  }
}
