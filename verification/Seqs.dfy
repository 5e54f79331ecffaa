/** Sequences as the database and the standard library hand them out: filtering,
    mapping, the stable sort behind `ORDER BY` and `sorted`, and text order. */
module Seqs {

  datatype Option<+T> = None | Some(value: T)

  datatype Result<+T, +E> = Ok(value: T) | Err(error: E)

  // ----- filter and map -----

  /** The first of two that is there. */
  function Else<T>(a: Option<T>, b: Option<T>): Option<T> {
    if a.Some? then a else b
  }

  function Filter<T>(p: T -> bool, s: seq<T>): (r: seq<T>)
    ensures |r| <= |s|
  {
    if s == [] then [] else (if p(s[0]) then [s[0]] else []) + Filter(p, s[1..])
  }

  lemma {:induction false} FilterMembers<T(!new)>(p: T -> bool, s: seq<T>)
    ensures forall x :: x in Filter(p, s) <==> x in s && p(x)
  {
    if s != [] {
      FilterMembers(p, s[1..]);
    }
  }

  function Map<T, U>(f: T -> U, s: seq<T>): (r: seq<U>)
    ensures |r| == |s|
    ensures forall i :: 0 <= i < |s| ==> r[i] == f(s[i])
  {
    if s == [] then [] else [f(s[0])] + Map(f, s[1..])
  }

  lemma {:induction false} FilterConcat<T>(p: T -> bool, a: seq<T>, b: seq<T>)
    ensures Filter(p, a + b) == Filter(p, a) + Filter(p, b)
  {
    if a == [] {
      assert a + b == b;
    } else {
      var head := if p(a[0]) then [a[0]] else [];
      var rest := a[1..];
      FilterConcat(p, rest, b);
      assert (a + b)[0] == a[0] && (a + b)[1..] == rest + b;
      assert Filter(p, a + b) == head + Filter(p, rest + b);
      assert Filter(p, a) == head + Filter(p, rest);
    }
  }

  lemma {:induction false} FilterAgree<T(!new)>(p: T -> bool, q: T -> bool, s: seq<T>)
    requires forall x :: x in s ==> p(x) == q(x)
    ensures Filter(p, s) == Filter(q, s)
  {
    if s != [] {
      FilterAgree(p, q, s[1..]);
    }
  }

  lemma {:induction false} FilterAll<T(!new)>(p: T -> bool, s: seq<T>)
    requires forall x :: x in s ==> p(x)
    ensures Filter(p, s) == s
  {
    if s != [] {
      FilterAll(p, s[1..]);
    }
  }

  lemma {:induction false} FilterNone<T(!new)>(p: T -> bool, s: seq<T>)
    requires forall x :: x in s ==> !p(x)
    ensures Filter(p, s) == []
  {
    if s != [] {
      FilterNone(p, s[1..]);
    }
  }

  lemma {:induction false} FilterMultiset<T(!new)>(p: T -> bool, s: seq<T>, x: T)
    ensures multiset(Filter(p, s))[x] == if p(x) then multiset(s)[x] else 0
  {
    if s != [] {
      FilterMultiset(p, s[1..], x);
      assert s == [s[0]] + s[1..];
      assert Filter(p, s) == (if p(s[0]) then [s[0]] else []) + Filter(p, s[1..]);
    }
  }

  lemma {:induction false} FilterTwice<T(!new)>(p: T -> bool, q: T -> bool, both: T -> bool, s: seq<T>)
    requires forall x :: both(x) <==> p(x) && q(x)
    ensures Filter(q, Filter(p, s)) == Filter(both, s)
  {
    if s != [] {
      FilterTwice(p, q, both, s[1..]);
      FilterConcat(q, if p(s[0]) then [s[0]] else [], Filter(p, s[1..]));
    }
  }

  /** The positions at which p holds. */
  function Hits<T>(p: T -> bool, s: seq<T>): set<int> {
    set i | 0 <= i < |s| && p(s[i])
  }

  lemma HitsAppend<T>(p: T -> bool, s: seq<T>, x: T)
    ensures Hits(p, s + [x]) == Hits(p, s) + if p(x) then {|s|} else {}
    ensures |Hits(p, s + [x])| == |Hits(p, s)| + if p(x) then 1 else 0
  {
    assert |s| !in Hits(p, s);
    assert Hits(p, s + [x]) == Hits(p, s) + if p(x) then {|s|} else {};
  }

  /** A filter keeps one element for each position at which the condition holds. */
  lemma {:induction false} FilterCountsHits<T>(p: T -> bool, s: seq<T>)
    ensures |Filter(p, s)| == |Hits(p, s)|
  {
    if s == [] {
      assert Hits(p, s) == {};
    } else {
      var rest, last := s[..|s| - 1], s[|s| - 1];
      assert s == rest + [last];
      FilterCountsHits(p, rest);
      FilterConcat(p, rest, [last]);
      HitsAppend(p, rest, last);
    }
  }

  lemma {:induction false} FilterKeepsOrder<T>(p: T -> bool, s: seq<T>, i: nat, k: nat) returns (a: nat, b: nat)
    requires i < k < |Filter(p, s)|
    ensures a < b < |s| && s[a] == Filter(p, s)[i] && s[b] == Filter(p, s)[k]
  {
    var rest := Filter(p, s[1..]);
    if !p(s[0]) {
      a, b := FilterKeepsOrder(p, s[1..], i, k);
      a, b := a + 1, b + 1;
    } else if i > 0 {
      a, b := FilterKeepsOrder(p, s[1..], i - 1, k - 1);
      a, b := a + 1, b + 1;
    } else {
      var c := FilterTakes(p, s[1..], k - 1);
      a, b := 0, c + 1;
    }
  }

  lemma {:induction false} FilterTakes<T>(p: T -> bool, s: seq<T>, i: nat) returns (a: nat)
    requires i < |Filter(p, s)|
    ensures a < |s| && s[a] == Filter(p, s)[i]
  {
    if p(s[0]) && i == 0 {
      a := 0;
    } else {
      var c := FilterTakes(p, s[1..], if p(s[0]) then i - 1 else i);
      a := c + 1;
    }
  }

  lemma {:induction false} MapConcat<T, U>(f: T -> U, a: seq<T>, b: seq<T>)
    ensures Map(f, a + b) == Map(f, a) + Map(f, b)
  {
  }

  lemma {:induction false} FilterMap<T, U>(p: T -> bool, q: U -> bool, f: T -> U, s: seq<T>)
    requires forall x :: q(f(x)) == p(x)
    ensures Filter(q, Map(f, s)) == Map(f, Filter(p, s))
  {
    if s != [] {
      FilterMap(p, q, f, s[1..]);
      assert Map(f, s)[1..] == Map(f, s[1..]);
      MapConcat(f, if p(s[0]) then [s[0]] else [], Filter(p, s[1..]));
    }
  }

  // ----- stable sorting -----

  ghost predicate TotalPreorder<T(!new)>(le: (T, T) -> bool) {
    && (forall x, y :: le(x, y) || le(y, x))
    && (forall x, y, z :: le(x, y) && le(y, z) ==> le(x, z))
  }

  ghost predicate Sorted<T>(le: (T, T) -> bool, s: seq<T>) {
    forall i, j :: 0 <= i < j < |s| ==> le(s[i], s[j])
  }

  function Insert<T>(le: (T, T) -> bool, x: T, s: seq<T>): (r: seq<T>)
    ensures |r| == |s| + 1
  {
    if s == [] || le(x, s[0]) then [x] + s else [s[0]] + Insert(le, x, s[1..])
  }

  /** Rows that compare equal keep their original relative order. */
  function StableSort<T>(le: (T, T) -> bool, s: seq<T>): (r: seq<T>)
    ensures |r| == |s|
  {
    if s == [] then [] else Insert(le, s[0], StableSort(le, s[1..]))
  }

  lemma {:induction false} InsertPermutes<T>(le: (T, T) -> bool, x: T, s: seq<T>)
    ensures multiset(Insert(le, x, s)) == multiset{x} + multiset(s)
  {
    if s == [] || le(x, s[0]) {
    } else {
      InsertPermutes(le, x, s[1..]);
      assert s == [s[0]] + s[1..];
    }
  }

  lemma {:induction false} InsertMembers<T(!new)>(le: (T, T) -> bool, x: T, s: seq<T>)
    ensures forall y :: y in Insert(le, x, s) <==> y == x || y in s
  {
    if s != [] && !le(x, s[0]) {
      InsertMembers(le, x, s[1..]);
    }
  }

  lemma {:induction false} SortPermutes<T(!new)>(le: (T, T) -> bool, s: seq<T>)
    ensures multiset(StableSort(le, s)) == multiset(s)
    ensures forall x :: x in StableSort(le, s) <==> x in s
  {
    if s != [] {
      SortPermutes(le, s[1..]);
      InsertPermutes(le, s[0], StableSort(le, s[1..]));
      assert s == [s[0]] + s[1..];
    }
    assert forall x :: x in StableSort(le, s) <==> x in multiset(StableSort(le, s));
    assert forall x :: x in s <==> x in multiset(s);
  }

  lemma {:induction false} InsertSorts<T(!new)>(le: (T, T) -> bool, x: T, s: seq<T>)
    requires TotalPreorder(le) && Sorted(le, s)
    ensures Sorted(le, Insert(le, x, s))
  {
    if s == [] || le(x, s[0]) {
    } else {
      InsertSorts(le, x, s[1..]);
      InsertPermutes(le, x, s[1..]);
      var rest := Insert(le, x, s[1..]);
      forall j | 0 <= j < |rest|
        ensures le(s[0], rest[j])
      {
        assert rest[j] in multiset(rest);
        if rest[j] != x {
          assert rest[j] in multiset(s[1..]);
          assert rest[j] in s[1..];
        }
      }
    }
  }

  lemma {:induction false} SortSorts<T(!new)>(le: (T, T) -> bool, s: seq<T>)
    requires TotalPreorder(le)
    ensures Sorted(le, StableSort(le, s))
  {
    if s != [] {
      SortSorts(le, s[1..]);
      InsertSorts(le, s[0], StableSort(le, s[1..]));
    }
  }

  lemma FilterCons<T>(p: T -> bool, x: T, s: seq<T>)
    ensures Filter(p, [x] + s) == (if p(x) then [x] else []) + Filter(p, s)
  {
    assert ([x] + s)[1..] == s;
  }

  lemma {:induction false} InsertStable<T>(le: (T, T) -> bool, p: T -> bool, x: T, s: seq<T>)
    requires p(x) ==> forall i :: 0 <= i < |s| && p(s[i]) ==> le(x, s[i])
    ensures Filter(p, Insert(le, x, s)) == Filter(p, [x] + s)
  {
    if s != [] && !le(x, s[0]) {
      var rest := s[1..];
      InsertStable(le, p, x, rest);
      FilterCons(p, s[0], Insert(le, x, rest));
      FilterCons(p, x, rest);
      FilterCons(p, x, s);
    }
  }

  /** Stability: a group of mutually equal elements comes out in its own order. */
  lemma {:induction false} SortStable<T(!new)>(le: (T, T) -> bool, p: T -> bool, s: seq<T>)
    requires forall y, z :: p(y) && p(z) && y in s && z in s ==> le(y, z)
    ensures Filter(p, StableSort(le, s)) == Filter(p, s)
  {
    if s != [] {
      var rest := StableSort(le, s[1..]);
      SortStable(le, p, s[1..]);
      SortPermutes(le, s[1..]);
      forall i | 0 <= i < |rest| && p(s[0]) && p(rest[i]) ensures le(s[0], rest[i]) {
        assert rest[i] in rest;
      }
      InsertStable(le, p, s[0], rest);
      FilterCons(p, s[0], rest);
    }
  }

  lemma InsertBeforeAll<T>(le: (T, T) -> bool, x: T, s: seq<T>)
    requires forall i :: 0 <= i < |s| ==> le(x, s[i])
    ensures Insert(le, x, s) == [x] + s
  {
  }

  lemma InsertBehind<T>(le: (T, T) -> bool, x: T, head: T, s: seq<T>)
    requires !le(x, head)
    ensures Insert(le, x, [head] + s) == [head] + Insert(le, x, s)
  {
    assert ([head] + s)[1..] == s;
  }

  lemma {:induction false} FilterInserted<T(!new)>(le: (T, T) -> bool, p: T -> bool, x: T, s: seq<T>)
    requires TotalPreorder(le) && Sorted(le, s)
    ensures Filter(p, Insert(le, x, s)) == if p(x) then Insert(le, x, Filter(p, s)) else Filter(p, s)
  {
    if s == [] || le(x, s[0]) {
      FilterCons(p, x, s);
      FilterMembers(p, s);
      forall y | y in s ensures le(x, y) {
        var k :| 0 <= k < |s| && s[k] == y;
        assert k == 0 || (le(x, s[0]) && le(s[0], s[k]));
      }
      forall i | 0 <= i < |Filter(p, s)| ensures le(x, Filter(p, s)[i]) {
        assert Filter(p, s)[i] in Filter(p, s);
      }
      InsertBeforeAll(le, x, Filter(p, s));
    } else {
      var rest := Filter(p, s[1..]);
      FilterInserted(le, p, x, s[1..]);
      FilterCons(p, s[0], Insert(le, x, s[1..]));
      InsertBehind(le, x, s[0], rest);
      assert Filter(p, s) == if p(s[0]) then [s[0]] + rest else rest;
    }
  }

  /** Filtering before or after a stable sort makes no difference. */
  lemma {:induction false} FilterSorted<T(!new)>(le: (T, T) -> bool, p: T -> bool, s: seq<T>)
    requires TotalPreorder(le)
    ensures Filter(p, StableSort(le, s)) == StableSort(le, Filter(p, s))
  {
    if s != [] {
      var rest := Filter(p, s[1..]);
      FilterSorted(le, p, s[1..]);
      SortSorts(le, s[1..]);
      FilterInserted(le, p, s[0], StableSort(le, s[1..]));
      assert ([s[0]] + rest)[1..] == rest;
      assert Filter(p, s) == if p(s[0]) then [s[0]] + rest else rest;
    }
  }

  lemma {:induction false} InsertMap<T, U>(le: (T, T) -> bool, ge: (U, U) -> bool, f: T -> U, x: T, s: seq<T>)
    requires forall y, z :: ge(f(y), f(z)) == le(y, z)
    ensures Insert(ge, f(x), Map(f, s)) == Map(f, Insert(le, x, s))
  {
    if s != [] && !le(x, s[0]) {
      InsertMap(le, ge, f, x, s[1..]);
      assert Map(f, s)[1..] == Map(f, s[1..]);
    }
  }

  /** Sorting commutes with any change of the elements that keeps the sort key. */
  lemma {:induction false} SortMap<T, U>(le: (T, T) -> bool, ge: (U, U) -> bool, f: T -> U, s: seq<T>)
    requires forall y, z :: ge(f(y), f(z)) == le(y, z)
    ensures StableSort(ge, Map(f, s)) == Map(f, StableSort(le, s))
  {
    if s != [] {
      SortMap(le, ge, f, s[1..]);
      assert Map(f, s)[1..] == Map(f, s[1..]);
      InsertMap(le, ge, f, s[0], StableSort(le, s[1..]));
    }
  }

  lemma {:induction false} InsertMapMultiset<T, U>(le: (T, T) -> bool, f: T -> U, x: T, s: seq<T>)
    ensures multiset(Map(f, Insert(le, x, s))) == multiset{f(x)} + multiset(Map(f, s))
  {
    if s != [] && !le(x, s[0]) {
      InsertMapMultiset(le, f, x, s[1..]);
      assert Map(f, s) == [f(s[0])] + Map(f, s[1..]);
    }
  }

  lemma {:induction false} SortMapMultiset<T, U>(le: (T, T) -> bool, f: T -> U, s: seq<T>)
    ensures multiset(Map(f, StableSort(le, s))) == multiset(Map(f, s))
  {
    if s != [] {
      SortMapMultiset(le, f, s[1..]);
      InsertMapMultiset(le, f, s[0], StableSort(le, s[1..]));
      assert Map(f, s) == [f(s[0])] + Map(f, s[1..]);
    }
  }

  lemma TailMultiset<T>(s: seq<T>)
    requires s != []
    ensures multiset(s) == multiset{s[0]} + multiset(s[1..])
  {
    assert s == [s[0]] + s[1..];
  }

  /** A total order leaves no choice in the sorted arrangement. */
  lemma {:induction false} SortedIsUnique<T(!new)>(le: (T, T) -> bool, a: seq<T>, b: seq<T>)
    requires forall x, y :: le(x, y) && le(y, x) ==> x == y
    requires Sorted(le, a) && Sorted(le, b) && multiset(a) == multiset(b)
    ensures a == b
  {
    assert |a| == |multiset(a)| == |multiset(b)| == |b|;
    if a != [] {
      SortedHead(le, a, b);
      SortedHead(le, b, a);
      TailMultiset(a);
      TailMultiset(b);
      assert multiset(a[1..]) == multiset(a) - multiset{a[0]} == multiset(b[1..]);
      SortedIsUnique(le, a[1..], b[1..]);
    }
  }

  lemma SortedHead<T>(le: (T, T) -> bool, a: seq<T>, b: seq<T>)
    requires Sorted(le, a) && multiset(a) == multiset(b) && a != [] && b != []
    ensures a[0] == b[0] || le(a[0], b[0])
  {
    assert b[0] in multiset(a);
    var j :| 0 <= j < |a| && a[j] == b[0];
  }

  // ----- counting by key -----

  function Keyed<T>(key: T -> string, k: string): T -> bool {
    x => key(x) == k
  }

  function CountPerKey<T>(key: T -> string, keys: seq<string>, s: seq<T>): nat {
    if keys == [] then 0 else |Filter(Keyed(key, keys[0]), s)| + CountPerKey(key, keys[1..], s)
  }

  lemma {:induction false} CountStep<T>(key: T -> string, keys: seq<string>, x: T, s: seq<T>)
    requires forall i, k :: 0 <= i < k < |keys| ==> keys[i] != keys[k]
    ensures CountPerKey(key, keys, [x] + s) == CountPerKey(key, keys, s) + if key(x) in keys then 1 else 0
  {
    if keys != [] {
      CountStep(key, keys[1..], x, s);
      assert ([x] + s)[1..] == s;
      assert keys == [keys[0]] + keys[1..];
    }
  }

  lemma {:induction false} KeysPartition<T>(key: T -> string, keys: seq<string>, s: seq<T>)
    requires forall i, k :: 0 <= i < k < |keys| ==> keys[i] != keys[k]
    requires forall x :: x in Map(key, s) ==> x in keys
    ensures CountPerKey(key, keys, s) == |s|
  {
    if s == [] {
      EmptyCounts(key, keys);
    } else {
      assert Map(key, s) == [key(s[0])] + Map(key, s[1..]);
      KeysPartition(key, keys, s[1..]);
      CountStep(key, keys, s[0], s[1..]);
      assert s == [s[0]] + s[1..];
    }
  }

  lemma {:induction false} EmptyCounts<T>(key: T -> string, keys: seq<string>)
    ensures CountPerKey(key, keys, []) == 0
  {
    if keys != [] {
      EmptyCounts(key, keys[1..]);
    }
  }

  // ----- dictionaries with integer keys, sorted -----

  ghost predicate KeysAscend<V>(items: seq<(int, V)>) {
    forall i, j :: 0 <= i < j < |items| ==> items[i].0 < items[j].0
  }

  function InsertItem<V>(k: int, v: V, items: seq<(int, V)>): seq<(int, V)> {
    if items == [] || k < items[0].0 then [(k, v)] + items else [items[0]] + InsertItem(k, v, items[1..])
  }

  lemma {:induction false} InsertItemMembers<V(!new)>(k: int, v: V, items: seq<(int, V)>)
    ensures forall x :: x in InsertItem(k, v, items) <==> x == (k, v) || x in items
  {
    if items != [] && !(k < items[0].0) {
      InsertItemMembers(k, v, items[1..]);
      assert items == [items[0]] + items[1..];
    }
  }

  lemma {:induction false} InsertItemAscends<V(!new)>(k: int, v: V, items: seq<(int, V)>)
    requires KeysAscend(items) && forall i :: 0 <= i < |items| ==> items[i].0 != k
    ensures KeysAscend(InsertItem(k, v, items))
  {
    if items != [] && !(k < items[0].0) {
      InsertItemAscends(k, v, items[1..]);
      InsertItemMembers(k, v, items[1..]);
      var rest := InsertItem(k, v, items[1..]);
      forall j | 0 <= j < |rest| ensures items[0].0 < rest[j].0 {
        assert rest[j] in rest;
        assert rest[j] == (k, v) || rest[j] in items[1..];
      }
    }
  }

  ghost predicate ItemsExcept<V(!new)>(m: map<int, V>, left: set<int>, items: seq<(int, V)>) {
    forall k, v :: (k, v) in items <==> k in m && k !in left && m[k] == v
  }

  /** `sorted(m.items())` for distinct integer keys. */
  method SortItems<V(!new)>(m: map<int, V>) returns (items: seq<(int, V)>)
    ensures KeysAscend(items)
    ensures ItemsExcept(m, {}, items)
  {
    items := [];
    var left := m.Keys;
    while left != {}
      invariant left <= m.Keys
      invariant KeysAscend(items)
      invariant ItemsExcept(m, left, items)
    {
      assert (forall k: int :: k !in left) ==> left == {};
      var k: int :| k in left;
      forall i | 0 <= i < |items| ensures items[i].0 != k {
        assert items[i] == (items[i].0, items[i].1) && items[i] in items;
      }
      InsertItemAscends(k, m[k], items);
      InsertItemMembers(k, m[k], items);
      items := InsertItem(k, m[k], items);
      left := left - {k};
    }
  }

  // ----- text order -----

  /** Code-point order of strings. */
  predicate TextLe(a: string, b: string) {
    a == [] || (b != [] && (a[0] < b[0] || (a[0] == b[0] && TextLe(a[1..], b[1..]))))
  }

  lemma {:induction false} TextLeTotal(a: string, b: string)
    ensures TextLe(a, b) || TextLe(b, a)
    ensures TextLe(a, b) && TextLe(b, a) ==> a == b
  {
    if a != [] && b != [] && a[0] == b[0] {
      TextLeTotal(a[1..], b[1..]);
      assert a == [a[0]] + a[1..] && b == [b[0]] + b[1..];
    }
  }

  lemma {:induction false} TextLeTransitive(a: string, b: string, c: string)
    requires TextLe(a, b) && TextLe(b, c)
    ensures TextLe(a, c)
  {
    if a != [] && b != [] && c != [] && a[0] == b[0] == c[0] {
      TextLeTransitive(a[1..], b[1..], c[1..]);
    }
  }

  /** The texts agree up to k, where the first ends or has the smaller character. */
  predicate SmallerAt(a: string, b: string, k: nat) {
    k <= |a| && k <= |b| && a[..k] == b[..k] && (k == |a| || (k < |b| && a[k] < b[k]))
  }

  lemma {:induction false} TextLeIsLexicographic(a: string, b: string)
    ensures TextLe(a, b) <==> exists k: nat :: SmallerAt(a, b, k)
  {
    if a == [] {
      assert SmallerAt(a, b, 0);
    } else if b != [] && a[0] == b[0] {
      TextLeIsLexicographic(a[1..], b[1..]);
      if k: nat :| SmallerAt(a[1..], b[1..], k) {
        assert a[..k + 1] == [a[0]] + a[1..][..k] && b[..k + 1] == [b[0]] + b[1..][..k];
        assert SmallerAt(a, b, k + 1);
      }
      if k: nat :| SmallerAt(a, b, k) && k > 0 {
        assert a[1..][..k - 1] == a[..k][1..] && b[1..][..k - 1] == b[..k][1..];
        assert SmallerAt(a[1..], b[1..], k - 1);
      }
    } else {
      assert b != [] && a[0] < b[0] ==> SmallerAt(a, b, 0);
      if k: nat :| SmallerAt(a, b, k) {
        assert k > 0 ==> a[..k][0] == b[..k][0];
      }
    }
  }

  ghost predicate StrictlyIncreasing(s: seq<string>) {
    forall i, j :: 0 <= i < j < |s| ==> TextLe(s[i], s[j]) && s[i] != s[j]
  }

  function InsertNew(x: string, s: seq<string>): (r: seq<string>)
    ensures forall y :: y in r <==> y == x || y in s
  {
    if s == [] then [x]
    else if x == s[0] then s
    else if TextLe(x, s[0]) then [x] + s
    else [s[0]] + InsertNew(x, s[1..])
  }

  /** The distinct elements in increasing order: `sorted` of a set of strings. */
  function SortedSet(xs: seq<string>): (r: seq<string>)
    ensures forall y :: y in r <==> y in xs
  {
    if xs == [] then [] else InsertNew(xs[0], SortedSet(xs[1..]))
  }

  lemma {:induction false} InsertNewIncreases(x: string, s: seq<string>)
    requires StrictlyIncreasing(s)
    ensures StrictlyIncreasing(InsertNew(x, s))
  {
    if s == [] || x == s[0] {
    } else if TextLe(x, s[0]) {
      forall j | 0 <= j < |s| ensures TextLe(x, s[j]) && x != s[j] {
        if j > 0 {
          TextLeTransitive(x, s[0], s[j]);
          TextLeTotal(s[0], s[j]);
        }
      }
    } else {
      TextLeTotal(x, s[0]);
      var rest := InsertNew(x, s[1..]);
      InsertNewIncreases(x, s[1..]);
      forall j | 0 <= j < |rest| ensures TextLe(s[0], rest[j]) && s[0] != rest[j] {
        assert rest[j] in rest;
        if rest[j] != x {
          var k :| 0 <= k < |s| - 1 && s[1..][k] == rest[j];
          assert s[k + 1] == rest[j];
        }
      }
    }
  }

  lemma {:induction false} SortedSetIncreases(xs: seq<string>)
    ensures StrictlyIncreasing(SortedSet(xs))
  {
    if xs != [] {
      SortedSetIncreases(xs[1..]);
      InsertNewIncreases(xs[0], SortedSet(xs[1..]));
    }
  }
}
