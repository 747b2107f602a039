/** Selections, sums and the stable newest-first sort shared by the balance, the tabs and the feed. */
module Sequences {
  import opened Options

  // ----- Selection

  /** The elements that satisfy p, in order. */
  function Filter<T>(s: seq<T>, p: T -> bool): (r: seq<T>)
    ensures |r| <= |s|
  {
    if s == [] then []
    else if p(s[0]) then [s[0]] + Filter(s[1..], p)
    else Filter(s[1..], p)
  }

  lemma {:induction false} FilterMembers<T>(s: seq<T>, p: T -> bool)
    ensures forall x :: x in Filter(s, p) ==> x in s && p(x)
    ensures forall x :: x in s && p(x) ==> x in Filter(s, p)
  {
    if s != [] {
      FilterMembers(s[1..], p);
      forall x ensures x in Filter(s, p) <==> x in s && p(x) {
        assert x in s <==> x == s[0] || x in s[1..];
      }
    }
  }

  lemma {:induction false} FilterAppend<T>(a: seq<T>, b: seq<T>, p: T -> bool)
    ensures Filter(a + b, p) == Filter(a, p) + Filter(b, p)
  {
    if a == [] {
      assert a + b == b;
    } else {
      assert (a + b)[1..] == a[1..] + b;
      FilterAppend(a[1..], b, p);
    }
  }

  lemma FilterTake<T>(s: seq<T>, k: nat, p: T -> bool)
    requires k < |s|
    ensures Filter(s[..k + 1], p) == Filter(s[..k], p) + if p(s[k]) then [s[k]] else []
  {
    assert s[..k + 1] == s[..k] + [s[k]];
    FilterAppend(s[..k], [s[k]], p);
  }

  /** Only the verdicts on the elements present matter. */
  lemma {:induction false} FilterCongruent<T>(s: seq<T>, p: T -> bool, q: T -> bool)
    requires forall x :: x in s ==> p(x) == q(x)
    ensures Filter(s, p) == Filter(s, q)
  {
    if s != [] {
      assert s[0] in s;
      assert forall x :: x in s[1..] ==> x in s;
      FilterCongruent(s[1..], p, q);
    }
  }

  lemma {:induction false} FilterBoth<T>(s: seq<T>, p: T -> bool, q: T -> bool, both: T -> bool)
    requires forall x :: x in s ==> both(x) == (p(x) && q(x))
    ensures Filter(Filter(s, p), q) == Filter(s, both)
  {
    if s != [] {
      assert s[0] in s;
      assert forall x :: x in s[1..] ==> x in s;
      FilterBoth(s[1..], p, q, both);
      assert p(s[0]) ==> Filter(s, p)[1..] == Filter(s[1..], p);
    }
  }

  lemma FilterCommutes<T>(s: seq<T>, p: T -> bool, q: T -> bool)
    ensures Filter(Filter(s, p), q) == Filter(Filter(s, q), p)
  {
    var both := x => p(x) && q(x);
    FilterBoth(s, p, q, both);
    FilterBoth(s, q, p, both);
  }

  lemma {:induction false} FilterAll<T>(s: seq<T>, p: T -> bool)
    requires forall x :: x in s ==> p(x)
    ensures Filter(s, p) == s
  {
    if s != [] {
      assert s[0] in s;
      assert forall x :: x in s[1..] ==> x in s;
      FilterAll(s[1..], p);
    }
  }

  lemma {:induction false} FilterNone<T>(s: seq<T>, p: T -> bool)
    requires forall x :: x in s ==> !p(x)
    ensures Filter(s, p) == []
  {
    if s != [] {
      assert s[0] in s;
      assert forall x :: x in s[1..] ==> x in s;
      FilterNone(s[1..], p);
    }
  }

  /** A selection and its complement share out every element. */
  lemma {:induction false} FilterPartition<T(!new)>(s: seq<T>, p: T -> bool, q: T -> bool)
    requires forall x :: p(x) != q(x)
    ensures multiset(Filter(s, p)) + multiset(Filter(s, q)) == multiset(s)
  {
    if s != [] {
      var x, rest := s[0], s[1..];
      assert s == [x] + rest;
      FilterPartition(rest, p, q);
      OneMore(x, multiset(Filter(rest, p)), multiset(Filter(rest, q)));
      OneMoreSelected(x, rest, p);
      OneMoreSelected(x, rest, q);
      assert p(x) != q(x);
    }
  }

  lemma OneMore<T>(x: T, a: multiset<T>, b: multiset<T>)
    ensures (multiset{x} + a) + b == multiset{x} + (a + b) == a + (multiset{x} + b)
  {}

  lemma OneMoreSelected<T>(x: T, rest: seq<T>, p: T -> bool)
    ensures multiset(Filter([x] + rest, p)) ==
            if p(x) then multiset{x} + multiset(Filter(rest, p)) else multiset(Filter(rest, p))
  {
    assert ([x] + rest)[1..] == rest;
  }

  // ----- The first match and the rest

  /** The first element that satisfies p. */
  function FirstMatch<T>(s: seq<T>, p: T -> bool): (r: Option<T>)
    ensures r.Some? ==> p(r.value)
  {
    if s == [] then None else if p(s[0]) then Some(s[0]) else FirstMatch(s[1..], p)
  }

  /** Everything that satisfies q, except the first match of p. */
  function Others<T>(s: seq<T>, p: T -> bool, q: T -> bool): seq<T> {
    if s == [] then []
    else if p(s[0]) then Filter(s[1..], q)
    else if q(s[0]) then [s[0]] + Others(s[1..], p, q)
    else Others(s[1..], p, q)
  }

  lemma {:induction false} FirstAt<T>(s: seq<T>, k: nat, p: T -> bool, q: T -> bool)
    requires k < |s| && p(s[k]) && forall j :: 0 <= j < k ==> !p(s[j])
    ensures FirstMatch(s, p) == Some(s[k]) && Others(s, p, q) == Filter(s[..k] + s[k + 1..], q)
  {
    var rest := s[..k] + s[k + 1..];
    if k == 0 {
      assert rest == s[1..];
    } else {
      FirstAt(s[1..], k - 1, p, q);
      assert rest[0] == s[0] && rest[1..] == s[1..][..k - 1] + s[1..][k..];
    }
  }

  lemma {:induction false} NoneMatches<T>(s: seq<T>, p: T -> bool, q: T -> bool)
    requires forall x :: x in s ==> !p(x)
    ensures FirstMatch(s, p) == None && Others(s, p, q) == Filter(s, q)
  {
    if s != [] {
      assert s[0] in s;
      assert forall x :: x in s[1..] ==> x in s;
      NoneMatches(s[1..], p, q);
    }
  }

  lemma {:induction false} FirstMatchExists<T>(s: seq<T>, p: T -> bool)
    ensures FirstMatch(s, p).None? <==> forall x :: x in s ==> !p(x)
  {
    if s != [] {
      FirstMatchExists(s[1..], p);
      assert s[0] in s;
      assert forall x :: x in s <==> x == s[0] || x in s[1..];
    }
  }

  lemma FilterOne<T>(x: T, p: T -> bool)
    ensures Filter([x], p) == if p(x) then [x] else []
  {}

  lemma FilterFour<T>(a: T, b: T, c: T, d: T, p: T -> bool)
    ensures Filter([a, b, c, d], p) ==
            (if p(a) then [a] else []) + (if p(b) then [b] else []) + (if p(c) then [c] else []) + (if p(d) then [d] else [])
  {
    hide Filter;
    assert [a, b, c, d] == [a] + ([b] + ([c] + [d]));
    FilterOne(a, p);
    FilterOne(b, p);
    FilterOne(c, p);
    FilterOne(d, p);
    FilterAppend([a], [b] + ([c] + [d]), p);
    FilterAppend([b], [c] + [d], p);
    FilterAppend([c], [d], p);
  }

  /** The multiset of the element an option holds, if any. */
  function Held<T>(o: Option<T>): multiset<T> {
    if o.Some? then multiset{o.value} else multiset{}
  }

  lemma FirstPicked<T>(a: T, rest: seq<T>, p: T -> bool, q: T -> bool)
    requires p(a)
    ensures FirstMatch([a] + rest, p) == Some(a) && Others([a] + rest, p, q) == Filter(rest, q)
  {
    assert ([a] + rest)[1..] == rest;
  }

  lemma {:induction false} FirstMatchStep<T>(s: seq<T>, x: T, p: T -> bool)
    ensures FirstMatch(s + [x], p) ==
            if FirstMatch(s, p).Some? then FirstMatch(s, p) else if p(x) then Some(x) else None
  {
    if s == [] {
      assert s + [x] == [x];
    } else {
      assert (s + [x])[1..] == s[1..] + [x];
      FirstMatchStep(s[1..], x, p);
    }
  }

  lemma {:induction false} OthersStep<T>(s: seq<T>, x: T, p: T -> bool, q: T -> bool)
    ensures Others(s + [x], p, q) ==
            Others(s, p, q) + if q(x) && !(FirstMatch(s, p).None? && p(x)) then [x] else []
  {
    if s == [] {
      assert s + [x] == [x] && [x][1..] == [];
    } else {
      assert (s + [x])[1..] == s[1..] + [x];
      if p(s[0]) {
        FilterAppend(s[1..], [x], q);
      } else {
        OthersStep(s[1..], x, p, q);
      }
    }
  }

  /** A selection that keeps every match of p holds the first match and the others. */
  lemma {:induction false} FirstAndOthers<T(!new)>(s: seq<T>, p: T -> bool, q: T -> bool)
    requires forall x :: p(x) ==> q(x)
    ensures multiset(Filter(s, q)) == Held(FirstMatch(s, p)) + multiset(Others(s, p, q))
  {
    if s != [] && !p(s[0]) {
      FirstAndOthers(s[1..], p, q);
    }
  }

  /** The first match and the others can be read off such a selection alone. */
  lemma {:induction false} OthersOfFilter<T(!new)>(s: seq<T>, p: T -> bool, q: T -> bool)
    requires forall x :: p(x) ==> q(x)
    ensures FirstMatch(s, p) == FirstMatch(Filter(s, q), p)
    ensures Others(s, p, q) == Others(Filter(s, q), p, q)
  {
    if s != [] {
      var r := Filter(s[1..], q);
      if p(s[0]) {
        assert Filter(s, q)[1..] == r;
        FilterMembers(s[1..], q);
        FilterAll(r, q);
      } else {
        OthersOfFilter(s[1..], p, q);
        assert q(s[0]) ==> Filter(s, q)[1..] == r;
      }
    }
  }

  /** Three selections of which every element meets exactly one share out the whole. */
  lemma {:induction false} ThreeWayPartition<T(!new)>(s: seq<T>, p: T -> bool, q: T -> bool, r: T -> bool)
    requires forall x :: (p(x) ==> !q(x)) && (r(x) <==> !p(x) && !q(x))
    ensures multiset(s) == multiset(Filter(s, p)) + multiset(Filter(s, q)) + multiset(Filter(s, r))
  {
    if s != [] {
      ThreeWayPartition(s[1..], p, q, r);
      assert multiset(s) == multiset{s[0]} + multiset(s[1..]) by { assert s == [s[0]] + s[1..]; }
    }
  }

  // ----- Sums

  function Sum<T>(s: seq<T>, f: T -> int): int {
    if s == [] then 0 else f(s[0]) + Sum(s[1..], f)
  }

  lemma {:induction false} SumAppend<T>(a: seq<T>, b: seq<T>, f: T -> int)
    ensures Sum(a + b, f) == Sum(a, f) + Sum(b, f)
  {
    if a == [] {
      assert a + b == b;
    } else {
      assert (a + b)[1..] == a[1..] + b;
      SumAppend(a[1..], b, f);
    }
  }

  lemma SumTake<T>(s: seq<T>, k: nat, f: T -> int)
    requires k < |s|
    ensures Sum(s[..k + 1], f) == Sum(s[..k], f) + f(s[k])
  {
    assert s[..k + 1] == s[..k] + [s[k]];
    SumAppend(s[..k], [s[k]], f);
  }

  lemma {:induction false} SumCongruent<T>(s: seq<T>, f: T -> int, g: T -> int)
    requires forall x :: x in s ==> f(x) == g(x)
    ensures Sum(s, f) == Sum(s, g)
  {
    if s != [] {
      assert s[0] in s;
      assert forall x :: x in s[1..] ==> x in s;
      SumCongruent(s[1..], f, g);
    }
  }

  lemma {:induction false} SumPlus<T>(s: seq<T>, f: T -> int, g: T -> int, h: T -> int)
    requires forall x :: x in s ==> h(x) == f(x) + g(x)
    ensures Sum(s, h) == Sum(s, f) + Sum(s, g)
  {
    if s != [] {
      assert s[0] in s;
      assert forall x :: x in s[1..] ==> x in s;
      SumPlus(s[1..], f, g, h);
    }
  }

  /** Summing over a selection is summing f where p holds and zero elsewhere. */
  lemma {:induction false} SumFilter<T>(s: seq<T>, p: T -> bool, f: T -> int, g: T -> int)
    requires forall x :: x in s ==> g(x) == if p(x) then f(x) else 0
    ensures Sum(Filter(s, p), f) == Sum(s, g)
  {
    if s != [] {
      assert s[0] in s;
      assert forall x :: x in s[1..] ==> x in s;
      SumFilter(s[1..], p, f, g);
      SumAppend(if p(s[0]) then [s[0]] else [], Filter(s[1..], p), f);
    }
  }

  lemma {:induction false} SumZero<T>(s: seq<T>, f: T -> int)
    requires forall x :: x in s ==> f(x) == 0
    ensures Sum(s, f) == 0
  {
    if s != [] {
      assert s[0] in s;
      assert forall x :: x in s[1..] ==> x in s;
      SumZero(s[1..], f);
    }
  }

  lemma SumTakeOut<T>(a: seq<T>, x: T, b: seq<T>, f: T -> int)
    ensures Sum(a + ([x] + b), f) == f(x) + Sum(a + b, f)
  {
    assert ([x] + b)[1..] == b;
    SumAppend(a, [x] + b, f);
    SumAppend(a, b, f);
  }

  lemma TakeOut<T>(t: seq<T>, x: T) returns (a: seq<T>, b: seq<T>)
    requires x in multiset(t)
    ensures t == a + ([x] + b) && multiset(a + b) == multiset(t) - multiset{x}
  {
    var j :| 0 <= j < |t| && t[j] == x;
    a, b := t[..j], t[j + 1..];
    assert t == a + ([x] + b);
  }

  /** Sums ignore order: they depend on the multiset alone. */
  lemma {:induction false} SumOfMultiset<T>(s: seq<T>, t: seq<T>, f: T -> int)
    requires multiset(s) == multiset(t)
    ensures Sum(s, f) == Sum(t, f)
  {
    if s == [] {
      assert |multiset(t)| == |multiset(s)| == 0;
    } else {
      assert s == [s[0]] + s[1..];
      assert s[0] in multiset(s);
      var a, b := TakeOut(t, s[0]);
      SumOfMultiset(s[1..], a + b, f);
      SumTakeOut(a, s[0], b, f);
    }
  }

  // ----- Images

  function Map<T, U>(s: seq<T>, f: T -> U): (r: seq<U>)
    ensures |r| == |s|
  {
    if s == [] then [] else [f(s[0])] + Map(s[1..], f)
  }

  lemma {:induction false} MapAppend<T, U>(a: seq<T>, b: seq<T>, f: T -> U)
    ensures Map(a + b, f) == Map(a, f) + Map(b, f)
  {
    if a == [] {
      assert a + b == b;
    } else {
      assert (a + b)[1..] == a[1..] + b;
      MapAppend(a[1..], b, f);
    }
  }

  lemma {:induction false} SumOfMap<T, U>(s: seq<T>, f: T -> U, g: U -> int, h: T -> int)
    requires forall x :: x in s ==> h(x) == g(f(x))
    ensures Sum(Map(s, f), g) == Sum(s, h)
  {
    if s != [] {
      assert s[0] in s;
      assert forall x :: x in s[1..] ==> x in s;
      SumOfMap(s[1..], f, g, h);
      assert Map(s, f)[1..] == Map(s[1..], f);
    }
  }

  lemma {:induction false} MapMembers<T, U>(s: seq<T>, f: T -> U, y: U)
    requires y in Map(s, f)
    ensures exists x :: x in s && f(x) == y
  {
    if y == f(s[0]) {
      assert s[0] in s;
    } else {
      MapMembers(s[1..], f, y);
      var x :| x in s[1..] && f(x) == y;
      assert x in s;
    }
  }

  /** Selecting images is taking the images of a selection. */
  lemma {:induction false} FilterMap<T, U>(s: seq<T>, f: T -> U, p: U -> bool, q: T -> bool)
    requires forall x :: x in s ==> p(f(x)) == q(x)
    ensures Filter(Map(s, f), p) == Map(Filter(s, q), f)
  {
    if s != [] {
      assert s[0] in s;
      assert forall x :: x in s[1..] ==> x in s;
      FilterMap(s[1..], f, p, q);
      assert Map(s, f)[1..] == Map(s[1..], f);
      assert q(s[0]) ==> Filter(s, q)[1..] == Filter(s[1..], q);
    }
  }

  lemma {:induction false} MapMap<T, U, V>(s: seq<T>, f: T -> U, g: U -> V, h: T -> V)
    requires forall x :: x in s ==> g(f(x)) == h(x)
    ensures Map(Map(s, f), g) == Map(s, h)
  {
    if s != [] {
      assert s[0] in s;
      assert forall x :: x in s[1..] ==> x in s;
      MapMap(s[1..], f, g, h);
      assert Map(s, f)[1..] == Map(s[1..], f);
    }
  }

  // ----- The newest-first order

  /** The recency key of a listed record. */
  datatype Key = Key(date: int, createdAt: int)

  /** Strictly more recent: later date, or the same date and later creation. */
  predicate Newer(a: Key, b: Key) {
    a.date > b.date || (a.date == b.date && a.createdAt > b.createdAt)
  }

  ghost predicate NewestFirst<T>(s: seq<T>, key: T -> Key) {
    forall i, j :: 0 <= i < j < |s| ==> !Newer(key(s[j]), key(s[i]))
  }

  ghost function HasKey<T>(key: T -> Key, k: Key): T -> bool {
    x => key(x) == k
  }

  /** The elements with one exact key, in order. */
  ghost function WithKey<T>(s: seq<T>, key: T -> Key, k: Key): seq<T> {
    Filter(s, HasKey(key, k))
  }

  /** What a stable sort may do: order by key, and keep each key's elements in their order. */
  ghost predicate StablySorted<T>(s: seq<T>, out: seq<T>, key: T -> Key) {
    NewestFirst(out, key) && forall k :: WithKey(out, key, k) == WithKey(s, key, k)
  }

  function Insert<T>(x: T, s: seq<T>, key: T -> Key): (r: seq<T>)
    ensures |r| == |s| + 1
  {
    if s == [] || !Newer(key(s[0]), key(x)) then [x] + s
    else [s[0]] + Insert(x, s[1..], key)
  }

  /** The stable newest-first sort. */
  function Sort<T>(s: seq<T>, key: T -> Key): (r: seq<T>)
    ensures |r| == |s|
  {
    if s == [] then [] else Insert(s[0], Sort(s[1..], key), key)
  }

  lemma {:induction false} InsertContents<T>(x: T, s: seq<T>, key: T -> Key)
    ensures multiset(Insert(x, s, key)) == multiset{x} + multiset(s)
  {
    if s != [] {
      assert s == [s[0]] + s[1..];
      InsertContents(x, s[1..], key);
    }
  }

  lemma {:induction false} SortContents<T>(s: seq<T>, key: T -> Key)
    ensures multiset(Sort(s, key)) == multiset(s)
    ensures forall x :: x in Sort(s, key) <==> x in s
  {
    if s != [] {
      var r := Sort(s[1..], key);
      SortContents(s[1..], key);
      InsertContents(s[0], r, key);
      assert multiset(s) == multiset{s[0]} + multiset(s[1..]) by { assert s == [s[0]] + s[1..]; }
      assert Sort(s, key) == Insert(s[0], r, key);
    }
    forall x ensures x in Sort(s, key) <==> x in s {
      assert x in multiset(Sort(s, key)) <==> x in multiset(s);
    }
  }

  lemma {:induction false} InsertKeepsOrder<T>(x: T, s: seq<T>, key: T -> Key)
    requires NewestFirst(s, key)
    ensures NewestFirst(Insert(x, s, key), key)
  {
    if s != [] && Newer(key(s[0]), key(x)) {
      var r := Insert(x, s[1..], key);
      InsertKeepsOrder(x, s[1..], key);
      InsertContents(x, s[1..], key);
      forall j | 0 <= j < |r| ensures !Newer(key(r[j]), key(s[0])) {
        assert r[j] in multiset(r);
        assert r[j] == x || r[j] in s[1..];
      }
    }
  }

  /** Neighbours that are not both selected may swap. */
  lemma FilterSwap<T>(x: T, y: T, s: seq<T>, p: T -> bool)
    requires !(p(x) && p(y))
    ensures Filter([x] + ([y] + s), p) == Filter([y] + ([x] + s), p)
  {
    assert ([x] + ([y] + s))[1..] == [y] + s && ([y] + s)[1..] == s;
    assert ([y] + ([x] + s))[1..] == [x] + s && ([x] + s)[1..] == s;
  }

  lemma {:induction false} InsertIsStable<T>(x: T, s: seq<T>, key: T -> Key, k: Key)
    requires NewestFirst(s, key)
    ensures WithKey(Insert(x, s, key), key, k) == WithKey([x] + s, key, k)
  {
    if s != [] && Newer(key(s[0]), key(x)) {
      hide Filter;
      InsertIsStable(x, s[1..], key, k);
      var p := HasKey(key, k);
      assert s == [s[0]] + s[1..];
      FilterAppend([s[0]], Insert(x, s[1..], key), p);
      FilterAppend([s[0]], [x] + s[1..], p);
      FilterSwap(x, s[0], s[1..], p);
    }
  }

  lemma {:induction false} SortIsStable<T>(s: seq<T>, key: T -> Key)
    ensures StablySorted(s, Sort(s, key), key)
  {
    if s != [] {
      SortIsStable(s[1..], key);
      var r := Sort(s[1..], key);
      InsertKeepsOrder(s[0], r, key);
      assert s == [s[0]] + s[1..];
      forall k ensures WithKey(Sort(s, key), key, k) == WithKey(s, key, k) {
        InsertIsStable(s[0], r, key, k);
        FilterAppend([s[0]], r, HasKey(key, k));
        FilterAppend([s[0]], s[1..], HasKey(key, k));
        assert WithKey(r, key, k) == WithKey(s[1..], key, k);
        assert WithKey([s[0]] + s[1..], key, k) == WithKey(s, key, k);
      }
    }
  }

  lemma FirstHasItsKey<T>(s: seq<T>, key: T -> Key)
    ensures s == [] || WithKey(s, key, key(s[0])) != []
  {}

  /** Two newest-first lists that agree key by key are one and the same list. */
  lemma {:induction false} StableSortUnique<T>(a: seq<T>, b: seq<T>, key: T -> Key)
    requires NewestFirst(a, key) && NewestFirst(b, key)
    requires forall k :: WithKey(a, key, k) == WithKey(b, key, k)
    ensures a == b
  {
    if a == [] {
      FirstHasItsKey(b, key);
    } else if b == [] {
      FirstHasItsKey(a, key);
    } else {
      var k := key(a[0]);
      var h := key(b[0]);
      FilterMembers(a, HasKey(key, h));
      FilterMembers(b, HasKey(key, k));
      assert WithKey(a, key, k)[0] == a[0];
      assert a[0] in WithKey(b, key, k);
      assert WithKey(b, key, h)[0] == b[0];
      assert b[0] in WithKey(a, key, h);
      assert k == h;
      assert a[0] == b[0];
      forall m ensures WithKey(a[1..], key, m) == WithKey(b[1..], key, m) {
        FilterAppend([a[0]], a[1..], HasKey(key, m));
        FilterAppend([b[0]], b[1..], HasKey(key, m));
        assert a == [a[0]] + a[1..] && b == [b[0]] + b[1..];
        assert WithKey(a, key, m) == WithKey(b, key, m);
        var first := WithKey([a[0]], key, m);
        assert WithKey(a[1..], key, m) == WithKey(a, key, m)[|first|..];
        assert WithKey(b[1..], key, m) == WithKey(b, key, m)[|first|..];
      }
      StableSortUnique(a[1..], b[1..], key);
    }
  }

  /** Rows in descending id order, stably sorted by recency, come out by recency and then by descending id. */
  ghost predicate ByRecencyThenId<T>(s: seq<T>, key: T -> Key, id: T -> int) {
    forall i, j :: 0 <= i < j < |s| ==> Comes(s[i], s[j], key, id)
  }

  predicate Comes<T>(x: T, y: T, key: T -> Key, id: T -> int) {
    Newer(key(x), key(y)) || (key(x) == key(y) && id(x) > id(y))
  }

  lemma FirstOrdersById<T>(x: T, s: seq<T>, key: T -> Key, id: T -> int)
    requires ByRecencyThenId(s, key, id) && forall y :: y in s ==> Comes(x, y, key, id)
    ensures ByRecencyThenId([x] + s, key, id)
  {
    hide Comes;
  }

  lemma {:induction false} SortOrdersById<T>(s: seq<T>, key: T -> Key, id: T -> int)
    requires forall i, j :: 0 <= i < j < |s| ==> id(s[i]) > id(s[j])
    ensures ByRecencyThenId(Sort(s, key), key, id)
  {
    if s != [] {
      var rest := s[1..];
      SortOrdersById(rest, key, id);
      SortContents(rest, key);
      forall x | x in Sort(rest, key) ensures id(s[0]) > id(x) {
        assert x in multiset(Sort(rest, key));
        assert x in rest;
      }
      InsertOrdersById(s[0], Sort(rest, key), key, id);
    }
  }

  lemma {:induction false} InsertOrdersById<T>(x: T, s: seq<T>, key: T -> Key, id: T -> int)
    requires ByRecencyThenId(s, key, id) && forall y :: y in s ==> id(x) > id(y)
    ensures ByRecencyThenId(Insert(x, s, key), key, id)
  {
    if s != [] && Newer(key(s[0]), key(x)) {
      InsertOrdersById(x, s[1..], key, id);
      InsertContents(x, s[1..], key);
      FirstOrdersById(s[0], Insert(x, s[1..], key), key, id) by {
        forall y | y in Insert(x, s[1..], key) ensures Comes(s[0], y, key, id) {
          assert y in multiset(Insert(x, s[1..], key));
          assert y == x || y in s[1..];
        }
      }
    } else {
      forall y | y in s ensures Comes(x, y, key, id) {
        assert s[0] in s;
        assert y == s[0] || y in s[1..];
      }
      FirstOrdersById(x, s, key, id);
    }
  }

  /** Selecting commutes with the stable sort. */
  lemma {:induction false} FilterOfSort<T>(s: seq<T>, key: T -> Key, p: T -> bool)
    ensures Filter(Sort(s, key), p) == Sort(Filter(s, p), key)
  {
    SortIsStable(s, key);
    SortIsStable(Filter(s, p), key);
    FilterKeepsOrder(Sort(s, key), key, p);
    forall k ensures WithKey(Filter(Sort(s, key), p), key, k) == WithKey(Sort(Filter(s, p), key), key, k) {
      FilterCommutes(Sort(s, key), p, HasKey(key, k));
      FilterCommutes(s, p, HasKey(key, k));
      assert WithKey(Sort(s, key), key, k) == WithKey(s, key, k);
      assert WithKey(Sort(Filter(s, p), key), key, k) == WithKey(Filter(s, p), key, k);
    }
    StableSortUnique(Filter(Sort(s, key), p), Sort(Filter(s, p), key), key);
  }

  lemma {:induction false} FilterKeepsOrder<T>(s: seq<T>, key: T -> Key, p: T -> bool)
    requires NewestFirst(s, key)
    ensures NewestFirst(Filter(s, p), key)
  {
    if s != [] {
      FilterKeepsOrder(s[1..], key, p);
      FilterMembers(s[1..], p);
      var r := Filter(s[1..], p);
      forall j | 0 <= j < |r| ensures !Newer(key(r[j]), key(s[0])) {
        assert r[j] in r;
        assert r[j] in s[1..];
      }
    }
  }
}
