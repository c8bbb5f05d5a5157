/** Keeping the smallest items of a stream: with a bounded heap, duplicates kept, and
    with a bounded ordered set. */
module BoundedSelection {
  import opened Text

  type Order<!T> = (T, T) -> bool

  ghost predicate Total<T(!new)>(le: Order<T>) {
    && (forall a, b :: le(a, b) || le(b, a))
    && (forall a, b :: le(a, b) && le(b, a) ==> a == b)
    && (forall a, b, c :: le(a, b) && le(b, c) ==> le(a, c))
  }

  function Take<T>(s: seq<T>, n: nat): (r: seq<T>)
    ensures |r| == if |s| < n then |s| else n
  {
    if |s| < n then s else s[..n]
  }

  ghost predicate Ascending<T>(le: Order<T>, s: seq<T>) {
    forall i, j | 0 <= i < j < |s| :: le(s[i], s[j])
  }

  // ----- Sorting

  function Into<T>(le: Order<T>, x: T, s: seq<T>): (r: seq<T>)
    ensures |r| == |s| + 1
  {
    if s == [] || le(x, s[0]) then [x] + s else [s[0]] + Into(le, x, s[1..])
  }

  function Sorted<T>(le: Order<T>, s: seq<T>): (r: seq<T>)
    ensures |r| == |s|
  {
    if s == [] then [] else Into(le, s[|s| - 1], Sorted(le, s[..|s| - 1]))
  }

  lemma {:induction false} IntoItems<T>(le: Order<T>, x: T, s: seq<T>)
    ensures multiset(Into(le, x, s)) == multiset(s) + multiset{x}
    decreases |s|
  {
    if s != [] && !le(x, s[0]) {
      IntoItems(le, x, s[1..]);
      assert s == [s[0]] + s[1..];
    }
  }

  lemma {:induction false} IntoKeeps<T(!new)>(le: Order<T>, x: T, s: seq<T>)
    requires Total(le) && Ascending(le, s)
    ensures Ascending(le, Into(le, x, s)) && multiset(Into(le, x, s)) == multiset(s) + multiset{x}
    decreases |s|
  {
    IntoItems(le, x, s);
    if s != [] && !le(x, s[0]) {
      IntoKeeps(le, x, s[1..]);
      var rest := Into(le, x, s[1..]);
      IntoItems(le, x, s[1..]);
      forall j | 0 <= j < |rest|
        ensures le(s[0], rest[j])
      {
        assert rest[j] in multiset(rest);
        assert rest[j] in s[1..] || rest[j] == x;
      }
    }
  }

  /** Sorting puts the same items in order. */
  lemma {:induction false} SortedSorts<T(!new)>(le: Order<T>, s: seq<T>)
    requires Total(le)
    ensures Ascending(le, Sorted(le, s)) && multiset(Sorted(le, s)) == multiset(s)
    decreases |s|
  {
    if s != [] {
      SortedSorts(le, s[..|s| - 1]);
      IntoKeeps(le, s[|s| - 1], Sorted(le, s[..|s| - 1]));
      assert s == s[..|s| - 1] + [s[|s| - 1]];
    }
  }

  lemma {:induction false} SameFirst<T(!new)>(le: Order<T>, a: seq<T>, b: seq<T>)
    requires Total(le) && Ascending(le, a) && Ascending(le, b) && multiset(a) == multiset(b)
    requires a != [] && b != []
    ensures a[0] == b[0]
  {
    assert a[0] in multiset(b) && b[0] in multiset(a);
    assert le(b[0], a[0]) && le(a[0], b[0]);
  }

  lemma {:induction false} TailItems<T>(s: seq<T>)
    requires s != []
    ensures multiset(s[1..]) == multiset(s) - multiset{s[0]}
  {
    assert s == [s[0]] + s[1..];
  }

  lemma {:induction false} TailAscends<T>(le: Order<T>, s: seq<T>)
    requires Ascending(le, s) && s != []
    ensures Ascending(le, s[1..])
  {
  }

  lemma {:induction false} SameLength<T>(a: seq<T>, b: seq<T>)
    requires multiset(a) == multiset(b)
    ensures |a| == |b|
  {
    assert |multiset(a)| == |a| && |multiset(b)| == |b|;
  }

  /** Items in order are determined by which they are. */
  lemma {:induction false} OneOrder<T(!new)>(le: Order<T>, a: seq<T>, b: seq<T>)
    requires Total(le) && Ascending(le, a) && Ascending(le, b) && multiset(a) == multiset(b)
    ensures a == b
    decreases |a|
  {
    SameLength(a, b);
    if a != [] {
      SameFirst(le, a, b);
      TailAscends(le, a);
      TailAscends(le, b);
      hide Ascending, Total;
      TailItems(a);
      TailItems(b);
      OneOrder(le, a[1..], b[1..]);
      SameSequence(a, b);
    } else {
      hide Ascending, Total;
    }
  }

  lemma {:induction false} SameSequence<T>(a: seq<T>, b: seq<T>)
    requires a != [] && b != [] && a[0] == b[0] && a[1..] == b[1..]
    ensures a == b
  {
    assert a == [a[0]] + a[1..] && b == [b[0]] + b[1..];
  }

  // ----- The heap

  /** What keeping the smallest `limit` items does with one more. */
  lemma {:induction false} TakeInto<T>(le: Order<T>, x: T, s: seq<T>, limit: nat)
    ensures Take(Into(le, x, s), limit) == Take(Into(le, x, Take(s, limit)), limit)
    decreases |s|
  {
    if |s| == limit {
      assert s[..limit] == s;
    } else if 0 < limit < |s| {
      assert s[..limit][0] == s[0];
      if le(x, s[0]) {
        assert ([x] + s)[..limit] == ([x] + s[..limit])[..limit];
      } else {
        TakeInto(le, x, s[1..], limit - 1);
        assert s[..limit][1..] == s[1..][..limit - 1];
      }
    }
  }

  /** In a full heap one more item takes the place of the largest if it is smaller,
      and changes nothing otherwise. */
  lemma {:induction false} FullHeap<T(!new)>(le: Order<T>, x: T, kept: seq<T>)
    requires Total(le) && Ascending(le, kept) && kept != []
    ensures var largest := kept[|kept| - 1];
      Take(Into(le, x, kept), |kept|) == if le(largest, x) then kept else Into(le, x, kept[..|kept| - 1])
    decreases |kept|
  {
    if |kept| > 1 && !le(x, kept[0]) {
      FullHeap(le, x, kept[1..]);
      assert kept[1..][..|kept| - 2] == kept[..|kept| - 1][1..];
    }
  }

  function Kept<T>(le: Order<T>, items: seq<T>, n: nat, limit: nat): seq<T>
    requires n <= |items|
  {
    Take(Sorted(le, items[..n]), limit)
  }

  lemma {:induction false} KeptAscends<T(!new)>(le: Order<T>, items: seq<T>, n: nat, limit: nat)
    requires Total(le) && n <= |items|
    ensures Ascending(le, Kept(le, items, n, limit))
  {
    SortedSorts(le, items[..n]);
  }

  /** The items kept, after one more. */
  lemma {:induction false} KeptNext<T(!new)>(le: Order<T>, items: seq<T>, n: nat, limit: nat)
    requires Total(le) && n < |items|
    ensures var kept := Kept(le, items, n, limit);
      Kept(le, items, n + 1, limit) ==
        if |kept| < limit then Into(le, items[n], kept)
        else if kept == [] || le(kept[|kept| - 1], items[n]) then kept
        else Into(le, items[n], kept[..|kept| - 1])
  {
    SortedSorts(le, items[..n]);
    assert items[..n + 1][..n] == items[..n];
    TakeInto(le, items[n], Sorted(le, items[..n]), limit);
    var kept := Kept(le, items, n, limit);
    if |kept| == limit && kept != [] {
      FullHeap(le, items[n], kept);
    }
  }

  predicate IsLargest<T>(le: Order<T>, heap: seq<T>, at: nat)
    requires at < |heap|
  {
    forall j | 0 <= j < |heap| :: le(heap[j], heap[at])
  }

  lemma {:induction false} HasLargest<T(!new)>(le: Order<T>, heap: seq<T>) returns (at: nat)
    requires Total(le) && heap != []
    ensures at < |heap| && IsLargest(le, heap, at)
    decreases |heap|
  {
    var n := |heap| - 1;
    assert le(heap[n], heap[n]);
    if n == 0 {
      at := 0;
    } else {
      at := HasLargest(le, heap[..n]);
      assert forall j | 0 <= j < n :: le(heap[..n][j], heap[at]);
      if le(heap[at], heap[n]) {
        at := n;
      } else {
        assert le(heap[n], heap[at]);
      }
    }
  }

  lemma {:induction false} KeptWithout<T(!new)>(le: Order<T>, x: T, kept: seq<T>)
    requires Total(le) && Ascending(le, kept) && kept != []
    ensures multiset(Into(le, x, kept[..|kept| - 1])) == multiset(kept[..|kept| - 1]) + multiset{x}
  {
    IntoKeeps(le, x, kept[..|kept| - 1]);
  }

  lemma {:induction false} WithoutOne<T>(s: seq<T>, at: nat)
    requires at < |s|
    ensures multiset(s) == multiset(s[..at] + s[at + 1..]) + multiset{s[at]}
    ensures multiset(s[..at] + s[at + 1..]) == multiset(s) - multiset{s[at]}
  {
    assert s == s[..at] + [s[at]] + s[at + 1..];
  }

  lemma {:induction false} LargestEquals<T(!new)>(le: Order<T>, heap: seq<T>, kept: seq<T>, at: nat)
    requires Total(le) && Ascending(le, kept) && multiset(heap) == multiset(kept)
    requires at < |heap| && IsLargest(le, heap, at)
    ensures kept != [] && heap[at] == kept[|kept| - 1]
  {
    assert heap[at] in multiset(kept);
    var last := kept[|kept| - 1];
    assert last in multiset(heap);
    assert le(last, heap[at]);
    assert le(heap[at], last);
  }

  /** The largest item of a store is the last of the items in order. */
  lemma {:induction false} LargestIsLast<T(!new)>(le: Order<T>, heap: seq<T>, kept: seq<T>, at: nat)
    requires Total(le) && Ascending(le, kept) && multiset(heap) == multiset(kept)
    requires at < |heap| && IsLargest(le, heap, at)
    ensures kept != [] && heap[at] == kept[|kept| - 1]
    ensures multiset(heap[..at] + heap[at + 1..]) == multiset(kept[..|kept| - 1])
  {
    LargestEquals(le, heap, kept, at);
    hide Total, Ascending, IsLargest;
    WithoutOne(heap, at);
    WithoutOne(kept, |kept| - 1);
    assert kept[..|kept| - 1] + kept[|kept|..] == kept[..|kept| - 1];
  }

  /** `heap` stores, in some order, the items kept of the first `n`. */
  ghost predicate Stores<T>(le: Order<T>, items: seq<T>, n: nat, limit: nat, heap: seq<T>)
    requires n <= |items|
  {
    multiset(heap) == multiset(Kept(le, items, n, limit))
  }

  lemma {:induction false} StorePush<T(!new)>(le: Order<T>, items: seq<T>, n: nat, limit: nat, heap: seq<T>)
    requires Total(le) && n < |items| && Stores(le, items, n, limit, heap) && |heap| < limit
    ensures Stores(le, items, n + 1, limit, heap + [items[n]])
  {
    var kept := Kept(le, items, n, limit);
    assert |multiset(heap)| == |heap| && |multiset(kept)| == |kept|;
    KeptAscends(le, items, n, limit);
    KeptNext(le, items, n, limit);
    IntoKeeps(le, items[n], kept);
  }

  lemma {:induction false} StoreFull<T(!new)>(le: Order<T>, items: seq<T>, n: nat, limit: nat, heap: seq<T>, at: nat)
    requires Total(le) && n < |items| && Stores(le, items, n, limit, heap) && |heap| >= limit
    requires at < |heap| && IsLargest(le, heap, at)
    ensures Stores(le, items, n + 1, limit,
      if le(heap[at], items[n]) then heap else Removed(heap, at) + [items[n]])
  {
    var kept := Kept(le, items, n, limit);
    assert |multiset(heap)| == |heap| && |multiset(kept)| == |kept|;
    KeptAscends(le, items, n, limit);
    KeptNext(le, items, n, limit);
    LargestIsLast(le, heap, kept, at);
    KeptWithout(le, items[n], kept);
    hide Kept, Into, Total, Ascending;
  }

  function Removed<T>(heap: seq<T>, at: nat): seq<T>
    requires at < |heap|
  {
    heap[..at] + heap[at + 1..]
  }

  lemma {:induction false} StoreEmpty<T(!new)>(le: Order<T>, items: seq<T>, limit: nat)
    ensures Stores(le, items, 0, limit, [])
  {
  }

  lemma {:induction false} StoreNothing<T(!new)>(le: Order<T>, items: seq<T>, n: nat, heap: seq<T>)
    requires n < |items| && Stores(le, items, n, 0, heap)
    ensures heap == [] && Stores(le, items, n + 1, 0, heap)
  {
    assert |multiset(heap)| == |heap| && Kept(le, items, n, 0) == [] && Kept(le, items, n + 1, 0) == [];
  }

  /** Put `candidate` in the place of the largest item if it is smaller. */
  method ReplaceLargest<T(!new)>(le: Order<T>, heap: seq<T>, candidate: T) returns (replaced: seq<T>, ghost at: nat)
    requires Total(le) && heap != []
    ensures at < |heap| && IsLargest(le, heap, at)
    ensures replaced == if le(heap[at], candidate) then heap else Removed(heap, at) + [candidate]
  {
    hide Total, IsLargest, Removed;
    ghost var largest := HasLargest(le, heap);
    var peek: nat :| peek < |heap| && IsLargest(le, heap, peek);
    at := peek;
    replaced := heap;
    if !le(heap[peek], candidate) {
      replaced := Removed(replaced, peek);
      replaced := replaced + [candidate];
    }
  }

  /** Scan until `stop` items are consumed or none is left, keeping the `limit`
      smallest in a heap; in which order the heap stores them is left open. */
  method BoundedSortedCandidates<T(!new)>(le: Order<T>, items: seq<T>, limit: nat, stop: nat) returns (r: seq<T>)
    requires Total(le)
    ensures r == Take(Sorted(le, Take(items, stop)), limit)
  {
    var heap: seq<T> := [];
    var next: nat := 0;
    hide *;
    StoreEmpty(le, items, limit);
    while next < stop && next < |items|
      invariant next <= |items| && next <= stop
      invariant Stores(le, items, next, limit, heap)
    {
      var candidate := items[next];
      if |heap| < limit {
        StorePush(le, items, next, limit, heap);
        heap := heap + [candidate];
      } else if heap != [] {
        ghost var at;
        ghost var full := heap;
        heap, at := ReplaceLargest(le, heap, candidate);
        StoreFull(le, items, next, limit, full, at);
      } else {
        StoreNothing(le, items, next, heap);
      }
      next := next + 1;
    }
    r := Sorted(le, heap);
    StoreSorted(le, items, next, limit, heap);
    AllTaken(items, next, stop);
  }

  lemma {:induction false} AllTaken<T>(items: seq<T>, n: nat, stop: nat)
    requires n <= |items| && n <= stop && (n == stop || n == |items|)
    ensures items[..n] == Take(items, stop)
  {
  }

  lemma {:induction false} StoreSorted<T(!new)>(le: Order<T>, items: seq<T>, n: nat, limit: nat, heap: seq<T>)
    requires Total(le) && n <= |items| && Stores(le, items, n, limit, heap)
    ensures Sorted(le, heap) == Take(Sorted(le, items[..n]), limit)
  {
    SortedSorts(le, heap);
    KeptAscends(le, items, n, limit);
    OneOrder(le, Sorted(le, heap), Kept(le, items, n, limit));
  }

  /** Nothing that was left out is smaller than anything kept. */
  lemma {:induction false} KeptAreSmallest<T(!new)>(le: Order<T>, items: seq<T>, limit: nat)
    requires Total(le)
    ensures var all, kept := Sorted(le, items), Take(Sorted(le, items), limit);
      && multiset(all) == multiset(items) && Ascending(le, kept) && kept <= all
      && forall i, j | 0 <= i < |kept| <= j < |all| :: le(kept[i], all[j])
  {
    SortedSorts(le, items);
  }

  // ----- The ordered set

  ghost predicate Strictly<T>(le: Order<T>, s: seq<T>) {
    Ascending(le, s) && forall i, j | 0 <= i < j < |s| :: s[i] != s[j]
  }

  /** An ordered set, as its items in order, with one more item. */
  function Inserted<T(==)>(le: Order<T>, x: T, s: seq<T>): (r: seq<T>)
    ensures |s| <= |r| <= |s| + 1
  {
    if s == [] then [x]
    else if x == s[0] then s
    else if le(x, s[0]) then [x] + s
    else [s[0]] + Inserted(le, x, s[1..])
  }

  /** The distinct items, in order. */
  function Distinct<T(==)>(le: Order<T>, s: seq<T>): seq<T> {
    if s == [] then [] else Inserted(le, s[|s| - 1], Distinct(le, s[..|s| - 1]))
  }

  lemma {:induction false} InsertedItems<T>(le: Order<T>, x: T, s: seq<T>, y: T)
    ensures y in Inserted(le, x, s) <==> y in s || y == x
    decreases |s|
  {
    if s != [] {
      assert y in s <==> y == s[0] || y in s[1..];
      InsertedItems(le, x, s[1..], y);
    }
  }

  lemma {:induction false} StrictlyAfter<T>(le: Order<T>, x: T, s: seq<T>)
    requires Strictly(le, s) && forall j | 0 <= j < |s| :: le(x, s[j]) && x != s[j]
    ensures Strictly(le, [x] + s)
  {
  }

  lemma {:induction false} InsertedKeeps<T(!new)>(le: Order<T>, x: T, s: seq<T>)
    requires Total(le) && Strictly(le, s)
    ensures Strictly(le, Inserted(le, x, s))
    ensures forall y :: y in Inserted(le, x, s) <==> y in s || y == x
    decreases |s|
  {
    forall y {
      InsertedItems(le, x, s, y);
    }
    if s != [] && x != s[0] {
      if le(x, s[0]) {
        StrictlyAfter(le, x, s);
      } else {
        var rest := Inserted(le, x, s[1..]);
        InsertedKeeps(le, x, s[1..]);
        forall j | 0 <= j < |rest|
          ensures le(s[0], rest[j]) && s[0] != rest[j]
        {
          InsertedItems(le, x, s[1..], rest[j]);
        }
        StrictlyAfter(le, s[0], rest);
      }
    }
  }

  /** The distinct items are the items, each once, in order. */
  lemma {:induction false} DistinctSorts<T(!new)>(le: Order<T>, s: seq<T>)
    requires Total(le)
    ensures Strictly(le, Distinct(le, s))
    ensures forall y :: y in Distinct(le, s) <==> y in s
    decreases |s|
  {
    if s != [] {
      DistinctSorts(le, s[..|s| - 1]);
      InsertedKeeps(le, s[|s| - 1], Distinct(le, s[..|s| - 1]));
      assert s == s[..|s| - 1] + [s[|s| - 1]];
    }
  }

  lemma {:induction false} TakeFirst<T>(x: T, s: seq<T>, limit: nat)
    requires limit > 0
    ensures Take([x] + s, limit) == [x] + Take(s, limit - 1)
  {
  }

  lemma {:induction false} TakeInserted<T>(le: Order<T>, x: T, s: seq<T>, limit: nat)
    ensures Take(Inserted(le, x, s), limit) == Take(Inserted(le, x, Take(s, limit)), limit)
    decreases |s|
  {
    if |s| <= limit {
      assert Take(s, limit) == s;
    } else if 0 < limit {
      var rest, kept := s[1..], Take(s, limit);
      assert s == [s[0]] + rest;
      TakeFirst(s[0], rest, limit);
      assert kept[0] == s[0] && kept[1..] == Take(rest, limit - 1);
      if x != s[0] && !le(x, s[0]) {
        TakeInserted(le, x, rest, limit - 1);
        TakeFirst(s[0], Inserted(le, x, rest), limit);
        TakeFirst(s[0], Inserted(le, x, Take(rest, limit - 1)), limit);
      } else if x != s[0] {
        TakeFirst(x, s, limit);
        TakeFirst(x, kept, limit);
        assert Take(kept, limit - 1) == Take(s, limit - 1);
      }
    }
  }

  /** Scan all items, keeping the `limit` smallest distinct ones. */
  method BoundedSortedUniqueCandidates<T(!new, ==)>(le: Order<T>, items: seq<T>, limit: nat) returns (unique: seq<T>)
    requires Total(le)
    ensures unique == Take(Distinct(le, items), limit)
  {
    unique := [];
    for i := 0 to |items|
      invariant unique == Take(Distinct(le, items[..i]), limit)
    {
      DistinctSorts(le, items[..i]);
      TakeInserted(le, items[i], Distinct(le, items[..i]), limit);
      InsertedKeeps(le, items[i], unique);
      assert items[..i + 1][..i] == items[..i];
      unique := Inserted(le, items[i], unique);
      if |unique| > limit {
        unique := unique[..|unique| - 1];
      }
    }
    assert items[..|items|] == items;
  }
}
