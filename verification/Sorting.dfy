/** Stable sorting (`slice::sort_by`), filtering and truncation of sequences. */
module Sorting {

  predicate SortedBy<T>(s: seq<T>, le: (T, T) -> bool) {
    forall i, j :: 0 <= i < j < |s| ==> le(s[i], s[j])
  }

  /** `le` compares any two elements of `s` and is transitive on them. */
  ghost predicate Preorder<T(!new)>(le: (T, T) -> bool) {
    && (forall a, b :: le(a, b) || le(b, a))
    && (forall a, b, c :: le(a, b) && le(b, c) ==> le(a, c))
  }

  /** No two different elements of `xs` compare equal. */
  ghost predicate Antisymmetric<T(!new)>(le: (T, T) -> bool, xs: seq<T>) {
    forall a, b :: a in xs && b in xs && le(a, b) && le(b, a) ==> a == b
  }

  /** Puts `x` behind every element that does not come strictly after it. */
  function Insert<T>(s: seq<T>, x: T, le: (T, T) -> bool): seq<T> {
    if s == [] || le(s[|s| - 1], x) then s + [x]
    else Insert(s[..|s| - 1], x, le) + [s[|s| - 1]]
  }

  function Sort<T>(s: seq<T>, le: (T, T) -> bool): seq<T> {
    if s == [] then [] else Insert(Sort(s[..|s| - 1], le), s[|s| - 1], le)
  }

  function Filter<T>(s: seq<T>, p: T -> bool): seq<T> {
    if s == [] then [] else (if p(s[0]) then [s[0]] else []) + Filter(s[1..], p)
  }

  function Take<T>(s: seq<T>, n: nat): seq<T> {
    if |s| <= n then s else s[..n]
  }

  /** `usize::clamp` */
  function Clamp(x: nat, lo: nat, hi: nat): (r: nat)
    requires lo <= hi
    ensures lo <= r <= hi && (lo <= x <= hi ==> r == x)
  {
    if x < lo then lo else if x > hi then hi else x
  }

  lemma {:induction false} FilterMembers<T(!new)>(s: seq<T>, p: T -> bool)
    ensures forall x :: x in Filter(s, p) <==> x in s && p(x)
  {
    if s != [] {
      FilterMembers(s[1..], p);
    }
  }

  lemma {:induction false} FilterAppend<T(!new)>(a: seq<T>, b: seq<T>, p: T -> bool)
    ensures Filter(a + b, p) == Filter(a, p) + Filter(b, p)
  {
    if a == [] {
      assert a + b == b;
    } else {
      var first := if p(a[0]) then [a[0]] else [];
      assert (a + b)[1..] == a[1..] + b;
      FilterAppend(a[1..], b, p);
      assert first + (Filter(a[1..], p) + Filter(b, p)) == (first + Filter(a[1..], p)) + Filter(b, p);
    }
  }

  lemma {:induction false} InsertElements<T>(s: seq<T>, x: T, le: (T, T) -> bool)
    ensures multiset(Insert(s, x, le)) == multiset(s) + multiset{x}
  {
    if s != [] {
      InsertElements(s[..|s| - 1], x, le);
      assert s == s[..|s| - 1] + [s[|s| - 1]];
    }
  }

  lemma {:induction false} InsertSorted<T(!new)>(s: seq<T>, x: T, le: (T, T) -> bool)
    requires Preorder(le) && SortedBy(s, le)
    ensures SortedBy(Insert(s, x, le), le)
  {
    if s != [] && !le(s[|s| - 1], x) {
      var init, last := s[..|s| - 1], s[|s| - 1];
      InsertSorted(init, x, le);
      InsertElements(init, x, le);
      var r := Insert(init, x, le);
      forall i | 0 <= i < |r| ensures le(r[i], last) {
        assert r[i] in multiset(r);
        assert r[i] == x || r[i] in init;
      }
    } else {
      forall i | 0 <= i < |s| ensures le(s[i], x) {
        assert i == |s| - 1 || le(s[i], s[|s| - 1]);
      }
    }
  }

  lemma {:induction false} SortElements<T>(s: seq<T>, le: (T, T) -> bool)
    ensures multiset(Sort(s, le)) == multiset(s)
  {
    if s != [] {
      var init, last := s[..|s| - 1], s[|s| - 1];
      SortElements(init, le);
      InsertElements(Sort(init, le), last, le);
      assert s == init + [last];
    }
  }

  lemma {:induction false} SortSorted<T(!new)>(s: seq<T>, le: (T, T) -> bool)
    requires Preorder(le)
    ensures SortedBy(Sort(s, le), le)
    ensures multiset(Sort(s, le)) == multiset(s)
  {
    SortElements(s, le);
    if s != [] {
      SortSorted(s[..|s| - 1], le);
      InsertSorted(Sort(s[..|s| - 1], le), s[|s| - 1], le);
    }
  }

  /** Equal-ranking elements keep their order. */
  lemma {:induction false} InsertStable<T(!new)>(s: seq<T>, x: T, le: (T, T) -> bool, p: T -> bool)
    requires Preorder(le) && SortedBy(s, le)
    requires forall a, b :: p(a) && p(b) ==> le(a, b)
    ensures Filter(Insert(s, x, le), p) == Filter(s + [x], p)
  {
    if s != [] && !le(s[|s| - 1], x) {
      var init, last := s[..|s| - 1], s[|s| - 1];
      assert s == init + [last];
      InsertStable(init, x, le, p);
      FilterAppend(Insert(init, x, le), [last], p);
      assert Filter(Insert(s, x, le), p) == Filter(init + [x], p) + Filter([last], p);
      FilterAppend(init, [x], p);
      SwapFiltered(init, last, x, p);
    }
  }

  /** Two neighbours of which at most one is kept can change places. */
  lemma SwapFiltered<T(!new)>(s: seq<T>, a: T, b: T, p: T -> bool)
    requires !(p(a) && p(b))
    ensures Filter(s, p) + Filter([b], p) + Filter([a], p) == Filter(s + [a] + [b], p)
  {
    FilterAppend(s + [a], [b], p);
    FilterAppend(s, [a], p);
    if !p(a) {
      assert Filter([a], p) == [];
    } else {
      assert Filter([b], p) == [];
    }
  }

  lemma {:induction false} SortStable<T(!new)>(s: seq<T>, le: (T, T) -> bool, p: T -> bool)
    requires Preorder(le)
    requires forall a, b :: p(a) && p(b) ==> le(a, b)
    ensures Filter(Sort(s, le), p) == Filter(s, p)
  {
    if s != [] {
      var init, last := s[..|s| - 1], s[|s| - 1];
      assert s == init + [last];
      SortSorted(init, le);
      SortStable(init, le, p);
      InsertStable(Sort(init, le), last, le, p);
      FilterAppend(Sort(init, le), [last], p);
      FilterAppend(init, [last], p);
    }
  }

  lemma CountedTwice<T>(s: seq<T>, i: nat, j: nat)
    requires i < j < |s| && s[i] == s[j]
    ensures multiset(s)[s[i]] >= 2
  {
    assert s == s[..j] + [s[j]] + s[j + 1..] && s[i] in s[..j];
  }

  /** A rearrangement has the same elements, and none twice if there was none before. */
  lemma Rearranged<T(!new)>(a: seq<T>, b: seq<T>)
    requires multiset(a) == multiset(b)
    ensures forall x :: x in a <==> x in b
    ensures NoRepeats(a) ==> NoRepeats(b)
  {
    forall x ensures x in a <==> x in b {
      assert x in multiset(a) <==> x in multiset(b);
    }
    forall i, j | NoRepeats(a) && 0 <= i < j < |b| ensures b[i] != b[j] {
      if b[i] == b[j] {
        CountedTwice(b, i, j);
        OnceEach(a, b[i]);
      }
    }
  }

  ghost predicate NoRepeats<T>(s: seq<T>) {
    forall i, j :: 0 <= i < j < |s| ==> s[i] != s[j]
  }

  lemma {:induction false} OnceEach<T>(s: seq<T>, x: T)
    requires NoRepeats(s)
    ensures multiset(s)[x] <= 1
  {
    if s != [] {
      OnceEach(s[1..], x);
      assert s == [s[0]] + s[1..];
    }
  }

  lemma SameFirst<T(!new)>(a: seq<T>, b: seq<T>, le: (T, T) -> bool)
    requires Preorder(le) && Antisymmetric(le, a) && a != [] && b != []
    requires SortedBy(a, le) && SortedBy(b, le) && multiset(a) == multiset(b)
    ensures a[0] == b[0]
  {
    Rearranged(a, b);
    assert a[0] in b && b[0] in a;
    assert le(a[0], b[0]) && le(b[0], a[0]);
  }

  lemma TailOrdered<T(!new)>(s: seq<T>, le: (T, T) -> bool)
    requires s != [] && SortedBy(s, le)
    ensures SortedBy(s[1..], le)
    ensures Antisymmetric(le, s) ==> Antisymmetric(le, s[1..])
  {
    assert forall x :: x in s[1..] ==> x in s;
  }

  /** A sorted arrangement without ties is unique. */
  lemma {:induction false} SortedUnique<T(!new)>(a: seq<T>, b: seq<T>, le: (T, T) -> bool)
    requires Preorder(le) && Antisymmetric(le, a)
    requires SortedBy(a, le) && SortedBy(b, le) && multiset(a) == multiset(b)
    ensures a == b
  {
    SameLength(a, b);
    if a != [] {
      SameFirst(a, b, le);
      SameTail(a, b);
      TailOrdered(a, le);
      TailOrdered(b, le);
      SortedUnique(a[1..], b[1..], le);
      SameWhole(a, b);
    }
  }

  lemma SameLength<T>(a: seq<T>, b: seq<T>)
    requires multiset(a) == multiset(b)
    ensures |a| == |b|
  {
    assert |a| == |multiset(a)| == |multiset(b)| == |b|;
  }

  lemma TailElements<T>(s: seq<T>)
    requires s != []
    ensures multiset(s[1..]) == multiset(s) - multiset{s[0]}
  {
    assert s == [s[0]] + s[1..];
  }

  lemma SameTail<T>(a: seq<T>, b: seq<T>)
    requires a != [] && b != [] && a[0] == b[0] && multiset(a) == multiset(b)
    ensures multiset(a[1..]) == multiset(b[1..])
  {
    TailElements(a);
    TailElements(b);
  }

  lemma SameWhole<T>(a: seq<T>, b: seq<T>)
    requires a != [] && b != [] && a[0] == b[0] && a[1..] == b[1..]
    ensures a == b
  {
    assert a == [a[0]] + a[1..] && b == [b[0]] + b[1..];
  }

  /** Sorting forgets the order in which distinct-ranking elements arrive. */
  lemma SortOfPermutation<T(!new)>(a: seq<T>, b: seq<T>, le: (T, T) -> bool)
    requires Preorder(le) && Antisymmetric(le, a) && multiset(a) == multiset(b)
    ensures Sort(a, le) == Sort(b, le)
  {
    SortSorted(a, le);
    SortSorted(b, le);
    forall x, y | x in Sort(a, le) && y in Sort(a, le) && le(x, y) && le(y, x) ensures x == y {
      assert x in multiset(a) && y in multiset(a);
    }
    SortedUnique(Sort(a, le), Sort(b, le), le);
  }

  /** A listing keeps the smallest elements: nothing left out comes before anything returned. */
  ghost predicate FirstOf<T(!new)>(r: seq<T>, all: multiset<T>, le: (T, T) -> bool, limit: nat) {
    && multiset(r) <= all && SortedBy(r, le)
    && |r| == (if |all| < limit then |all| else limit)
    && forall x, y :: x in all - multiset(r) && y in r ==> le(y, x)
  }

  lemma PrefixComesFirst<T(!new)>(r: seq<T>, rest: seq<T>, le: (T, T) -> bool)
    requires SortedBy(r + rest, le)
    ensures SortedBy(r, le)
    ensures forall x, y :: x in rest && y in r ==> le(y, x)
  {
    var all := r + rest;
    forall i, j | 0 <= i < j < |r| ensures le(r[i], r[j]) {
      assert le(all[i], all[j]);
    }
    forall i, j | 0 <= i < |rest| && 0 <= j < |r| ensures le(r[j], rest[i]) {
      assert le(all[j], all[|r| + i]);
    }
  }

  lemma TakeOfSort<T(!new)>(s: seq<T>, le: (T, T) -> bool, limit: nat)
    requires Preorder(le)
    ensures FirstOf(Take(Sort(s, le), limit), multiset(s), le, limit)
  {
    SortSorted(s, le);
    var all := Sort(s, le);
    var r := Take(all, limit);
    assert all == r + all[|r|..];
    FrontComesFirst(r, all[|r|..], multiset(s), le);
    assert |all| == |multiset(s)|;
  }

  lemma FrontComesFirst<T(!new)>(r: seq<T>, rest: seq<T>, all: multiset<T>, le: (T, T) -> bool)
    requires SortedBy(r + rest, le) && multiset(r + rest) == all
    ensures multiset(r) <= all && SortedBy(r, le)
    ensures forall x, y :: x in all - multiset(r) && y in r ==> le(y, x)
  {
    PrefixComesFirst(r, rest, le);
    assert all == multiset(r) + multiset(rest);
    assert all - multiset(r) == multiset(rest);
  }

  /** An arrangement of a set has none of its elements twice. */
  lemma ArrangedOnce<T(!new)>(s: seq<T>, all: set<T>)
    requires multiset(s) <= multiset(all)
    ensures NoRepeats(s)
  {
    forall i, j | 0 <= i < j < |s| ensures s[i] != s[j] {
      if s[i] == s[j] {
        CountedTwice(s, i, j);
      }
    }
  }

  lemma ArrangementOf<T(!new)>(s: seq<T>, all: set<T>)
    requires NoRepeats(s) && forall x :: x in s <==> x in all
    ensures multiset(s) == multiset(all)
  {
    forall x ensures multiset(s)[x] == multiset(all)[x] {
      OnceEach(s, x);
      assert x in s <==> x in multiset(s);
    }
  }

  /** Some order in which the elements of `s` can be visited. */
  ghost function Enumerate<T(!new)>(s: set<T>): (r: seq<T>)
    ensures multiset(r) == multiset(s)
  {
    if s == {} then []
    else
      var x :| x in s;
      assert s == (s - {x}) + {x};
      [x] + Enumerate(s - {x})
  }
}
