/**
 * The query semantics the store applies for the data-access layer, kept
 * abstract: a filter is a predicate, an ordering is a comparison supplied by
 * the store, and `.skip(n).limit(m)` takes a slice of the sorted matches.
 */
module Query {

  function Min(a: int, b: int): int { if a <= b then a else b }

  /** The documents satisfying `cond`, in their stored order. */
  function Find<T>(xs: seq<T>, cond: T -> bool): (r: seq<T>)
    ensures |r| <= |xs|
    ensures forall x :: x in r ==> x in xs && cond(x)
    ensures forall x :: x in xs && cond(x) ==> x in r
  {
    if xs == [] then []
    else (if cond(xs[0]) then [xs[0]] else []) + Find(xs[1..], cond)
  }

  /** Finding over a concatenation finds in each part, in order. */
  lemma {:induction false} FindAppend<T>(xs: seq<T>, ys: seq<T>, cond: T -> bool)
    ensures Find(xs + ys, cond) == Find(xs, cond) + Find(ys, cond)
  {
    if xs == [] {
      assert xs + ys == ys;
    } else {
      assert (xs + ys)[1..] == xs[1..] + ys;
      FindAppend(xs[1..], ys, cond);
    }
  }

  /** With a filter that matches everything, Find returns the whole sequence. */
  lemma {:induction false} FindAll<T>(xs: seq<T>, cond: T -> bool)
    requires forall x :: x in xs ==> cond(x)
    ensures Find(xs, cond) == xs
  {
    if xs != [] {
      assert forall x :: x in xs[1..] ==> x in xs;
      FindAll(xs[1..], cond);
    }
  }

  /** The negated filter. */
  function Not<T>(cond: T -> bool): T -> bool {
    x => !cond(x)
  }

  /** The elements `cond` does not select, in their stored order. */
  function Reject<T>(xs: seq<T>, cond: T -> bool): seq<T> {
    Find(xs, Not(cond))
  }

  /** A filter and its negation split the sequence's multiset between them. */
  lemma {:induction false} FindPartition<T>(xs: seq<T>, cond: T -> bool)
    ensures multiset(Find(xs, cond)) + multiset(Reject(xs, cond)) == multiset(xs)
    ensures |Find(xs, cond)| + |Reject(xs, cond)| == |xs|
  {
    if xs != [] {
      FindPartition(xs[1..], cond);
      assert xs == [xs[0]] + xs[1..];
    }
  }

  /** A stricter filter finds no more elements. */
  lemma {:induction false} FindMonotone<T>(xs: seq<T>, strict: T -> bool, cond: T -> bool)
    requires forall x :: x in xs && strict(x) ==> cond(x)
    ensures |Find(xs, strict)| <= |Find(xs, cond)|
  {
    if xs != [] {
      assert forall x :: x in xs[1..] ==> x in xs;
      FindMonotone(xs[1..], strict, cond);
    }
  }

  /** Insert x before the first element it is ordered before (ties keep x first, so the sort is stable). */
  function Insert<T>(le: (T, T) -> bool, x: T, s: seq<T>): (r: seq<T>)
    ensures multiset(r) == multiset(s) + multiset{x}
  {
    if s == [] then [x]
    else if le(x, s[0]) then [x] + s
    else
      assert s == [s[0]] + s[1..];
      [s[0]] + Insert(le, x, s[1..])
  }

  /** The store's `.sort(...)`, as a stable insertion sort under `le`. */
  function SortBy<T>(le: (T, T) -> bool, xs: seq<T>): (r: seq<T>)
    ensures multiset(r) == multiset(xs)
    ensures |r| == |xs|
  {
    if xs == [] then []
    else
      assert xs == [xs[0]] + xs[1..];
      Insert(le, xs[0], SortBy(le, xs[1..]))
  }

  /** `le` orders all values: total and transitive (ties allowed). */
  ghost predicate TotalPreorder<T(!new)>(le: (T, T) -> bool) {
    (forall a, b :: le(a, b) || le(b, a)) &&
    (forall a, b, c :: le(a, b) && le(b, c) ==> le(a, c))
  }

  ghost predicate SortedBy<T>(le: (T, T) -> bool, s: seq<T>) {
    forall i, j :: 0 <= i < j < |s| ==> le(s[i], s[j])
  }

  lemma {:induction false} InsertSorted<T(!new)>(le: (T, T) -> bool, x: T, s: seq<T>)
    requires TotalPreorder(le) && SortedBy(le, s)
    ensures SortedBy(le, Insert(le, x, s))
  {
    if s == [] {
    } else if le(x, s[0]) {
      forall y | y in s ensures le(x, y) {
        var k :| 0 <= k < |s| && s[k] == y;
        if k > 0 { assert le(s[0], s[k]); }
      }
      ConsSorted(le, x, s);
    } else {
      var t := Insert(le, x, s[1..]);
      assert SortedBy(le, s[1..]);
      InsertSorted(le, x, s[1..]);
      InsertedTailBound(le, x, s);
      ConsSorted(le, s[0], t);
    }
  }

  /** Putting a lower bound of every element in front of a sorted sequence keeps it sorted. */
  lemma ConsSorted<T>(le: (T, T) -> bool, a: T, t: seq<T>)
    requires SortedBy(le, t)
    requires forall y :: y in t ==> le(a, y)
    ensures SortedBy(le, [a] + t)
  {
    var u := [a] + t;
    forall i, j | 0 <= i < j < |u| ensures le(u[i], u[j]) {
      assert u[j] == t[j - 1];
      if i == 0 { assert t[j - 1] in t; } else { assert u[i] == t[i - 1]; }
    }
  }

  /** When x goes after the head, the head is below everything in the rest after insertion. */
  lemma InsertedTailBound<T(!new)>(le: (T, T) -> bool, x: T, s: seq<T>)
    requires TotalPreorder(le) && SortedBy(le, s)
    requires s != [] && !le(x, s[0])
    ensures forall y :: y in Insert(le, x, s[1..]) ==> le(s[0], y)
  {
    var t := Insert(le, x, s[1..]);
    assert le(s[0], x);
    forall y | y in t ensures le(s[0], y) {
      assert y in multiset(t);
      assert y == x || y in multiset(s[1..]);
      if y != x {
        var k :| 0 < k < |s| && s[k] == y;
      }
    }
  }

  /** Under a total preorder the result of SortBy is sorted. */
  lemma {:induction false} SortBySorted<T(!new)>(le: (T, T) -> bool, xs: seq<T>)
    requires TotalPreorder(le)
    ensures SortedBy(le, SortBy(le, xs))
  {
    if xs != [] {
      SortBySorted(le, xs[1..]);
      InsertSorted(le, xs[0], SortBy(le, xs[1..]));
    }
  }

  /**
   * Without ties between distinct elements there is one sorted arrangement:
   * two sorted permutations of the same elements are equal, so any sort the
   * store applies under such an ordering returns what SortBy returns.
   */
  lemma {:induction false} SortedUnique<T>(le: (T, T) -> bool, s: seq<T>, t: seq<T>)
    requires multiset(s) == multiset(t)
    requires SortedBy(le, s) && SortedBy(le, t)
    requires forall a, b :: a in s && b in s && le(a, b) && le(b, a) ==> a == b
    ensures s == t
  {
    if s != [] {
      SameHead(le, s, t);
      SortedTail(le, s);
      SortedTail(le, t);
      SameTailElements(s, t);
      SortedUnique(le, s[1..], t[1..]);
      assert s == [s[0]] + s[1..] && t == [t[0]] + t[1..];
    }
  }

  /** The first elements of two sorted permutations are ordered both ways, so they are equal. */
  lemma SameHead<T>(le: (T, T) -> bool, s: seq<T>, t: seq<T>)
    requires s != [] && multiset(s) == multiset(t)
    requires SortedBy(le, s) && SortedBy(le, t)
    requires forall a, b :: a in s && b in s && le(a, b) && le(b, a) ==> a == b
    ensures t != [] && s[0] == t[0]
  {
    assert s[0] in multiset(t);
    assert t[0] in multiset(s);
    var k :| 0 <= k < |t| && t[k] == s[0];
    var m :| 0 <= m < |s| && s[m] == t[0];
    if k > 0 { assert le(t[0], t[k]); }
    if m > 0 { assert le(s[0], s[m]); }
    assert s[0] in s && t[0] in s;
  }

  lemma SortedTail<T>(le: (T, T) -> bool, s: seq<T>)
    requires s != [] && SortedBy(le, s)
    ensures SortedBy(le, s[1..])
  {
    forall i, j | 0 <= i < j < |s| - 1 ensures le(s[1..][i], s[1..][j]) {
      assert s[1..][i] == s[i + 1] && s[1..][j] == s[j + 1];
    }
  }

  lemma SameTailElements<T>(s: seq<T>, t: seq<T>)
    requires s != [] && t != [] && s[0] == t[0] && multiset(s) == multiset(t)
    ensures multiset(s[1..]) == multiset(t[1..])
  {
    assert s == [s[0]] + s[1..] && t == [t[0]] + t[1..];
    assert multiset(s) == multiset{s[0]} + multiset(s[1..]);
    assert multiset(t) == multiset{t[0]} + multiset(t[1..]);
    assert multiset(s[1..]) == multiset(s) - multiset{s[0]};
    assert multiset(t[1..]) == multiset(t) - multiset{t[0]};
  }

  /** When every pair is a tie, sorting keeps the stored order. */
  lemma {:induction false} SortByAllTies<T>(le: (T, T) -> bool, xs: seq<T>)
    requires forall a, b :: le(a, b)
    ensures SortBy(le, xs) == xs
  {
    if xs != [] {
      SortByAllTies(le, xs[1..]);
      assert xs == [xs[0]] + xs[1..];
    }
  }

  /** `.skip(skip).limit(take)` on the sorted matches: at most `take` elements, starting at `skip`. */
  function Page<T>(xs: seq<T>, skip: nat, take: nat): (r: seq<T>)
    ensures |r| == (if skip >= |xs| then 0 else Min(take, |xs| - skip))
    ensures forall i :: 0 <= i < |r| ==> r[i] == xs[skip + i]
  {
    if skip >= |xs| then [] else xs[skip..Min(skip + take, |xs|)]
  }

  /** Pages 1..k of size `limit`, concatenated in order. */
  function AllPages<T>(xs: seq<T>, limit: nat, k: nat): seq<T> {
    if k == 0 then [] else AllPages(xs, limit, k - 1) + Page(xs, (k - 1) * limit, limit)
  }

  /** The pages of a paged read, concatenated in order. */
  function Flatten<T>(pages: seq<seq<T>>): seq<T> {
    if pages == [] then [] else Flatten(pages[..|pages| - 1]) + pages[|pages| - 1]
  }

  /** The first k pages of xs under a page size of `limit`. */
  function Slices<T>(xs: seq<T>, limit: nat, k: nat): (pages: seq<seq<T>>)
    ensures |pages| == k
    ensures forall i :: 0 <= i < k ==> pages[i] == Page(xs, i * limit, limit)
  {
    seq(k, i requires 0 <= i < k => Page(xs, i * limit, limit))
  }

  /** The first k slices, concatenated, are the first k pages. */
  lemma {:induction false} FlattenSlices<T>(xs: seq<T>, limit: nat, k: nat)
    ensures Flatten(Slices(xs, limit, k)) == AllPages(xs, limit, k)
  {
    if k > 0 {
      var pages := Slices(xs, limit, k);
      assert pages[..k - 1] == Slices(xs, limit, k - 1);
      FlattenSlices(xs, limit, k - 1);
    }
  }

  /** The first k pages are exactly the first k*limit documents (or all of them). */
  lemma {:induction false} AllPagesPrefix<T>(xs: seq<T>, limit: nat, k: nat)
    ensures AllPages(xs, limit, k) == xs[..Min(k * limit, |xs|)]
  {
    if k > 0 {
      MulSucc(k, limit);
      var lo: nat := (k - 1) * limit;
      AllPagesPrefix(xs, limit, k - 1);
      AppendPage(xs, lo, limit);
      assert k * limit == lo + limit;
    }
  }

  lemma MulSucc(k: nat, l: nat)
    requires k >= 1
    ensures k * l == (k - 1) * l + l && (k - 1) * l >= 0
  {
  }

  /** One more page extends the prefix ending at lo to the prefix ending at lo + limit. */
  lemma AppendPage<T>(xs: seq<T>, lo: nat, limit: nat)
    ensures xs[..Min(lo, |xs|)] + Page(xs, lo, limit) == xs[..Min(lo + limit, |xs|)]
  {
    if lo < |xs| {
      assert Page(xs, lo, limit) == xs[lo..Min(lo + limit, |xs|)];
      assert xs[..lo] + xs[lo..Min(lo + limit, |xs|)] == xs[..Min(lo + limit, |xs|)];
    }
  }
}
