/**
 * The time-window filter: sort the caller's history in place by date (a
 * stable sort), then keep its last `days` bars.
 */
module Window {
  import opened Market

  predicate SortedByDate(s: seq<Point>)
  {
    forall i, j :: 0 <= i < j < |s| ==> s[i].date <= s[j].date
  }

  /** The bars of `s` dated `d`, in their order in `s`. */
  function WithDate(s: seq<Point>, d: int): seq<Point>
  {
    if s == [] then []
    else WithDate(s[..|s| - 1], d) + (if s[|s| - 1].date == d then [s[|s| - 1]] else [])
  }

  /** Inserts `p` after the last bar of `s` dated no later than `p`. */
  function Insert(s: seq<Point>, p: Point): seq<Point>
  {
    if s == [] || s[|s| - 1].date <= p.date then s + [p]
    else Insert(s[..|s| - 1], p) + [s[|s| - 1]]
  }

  /** The stable sort by ascending date, specified as insertion sort. */
  function SortByDate(s: seq<Point>): seq<Point>
  {
    if s == [] then [] else Insert(SortByDate(s[..|s| - 1]), s[|s| - 1])
  }

  /** Every bar of `s` is dated no later than `hi`. */
  predicate DatesAtMost(s: seq<Point>, hi: int)
  {
    forall i :: 0 <= i < |s| ==> s[i].date <= hi
  }

  /** `Insert` adds exactly `p`. */
  lemma {:induction false} InsertPermutes(s: seq<Point>, p: Point)
    ensures multiset(Insert(s, p)) == multiset(s) + multiset{p}
    ensures |Insert(s, p)| == |s| + 1
  {
    if s != [] && s[|s| - 1].date > p.date {
      var init, last := s[..|s| - 1], s[|s| - 1];
      assert s == init + [last];
      InsertPermutes(init, p);
    }
  }

  /** `Insert` keeps every date within a bound that `s` and `p` keep. */
  lemma {:induction false} InsertBounded(s: seq<Point>, p: Point, hi: int)
    requires DatesAtMost(s, hi) && p.date <= hi
    ensures DatesAtMost(Insert(s, p), hi)
  {
    if s != [] && s[|s| - 1].date > p.date {
      var init := s[..|s| - 1];
      InsertBounded(init, p, hi);
      InsertPermutes(init, p);
    }
  }

  /** `Insert` into a date-sorted sequence keeps it sorted. */
  lemma {:induction false} InsertSorted(s: seq<Point>, p: Point)
    requires SortedByDate(s)
    ensures SortedByDate(Insert(s, p))
  {
    if s != [] && s[|s| - 1].date > p.date {
      var init, last := s[..|s| - 1], s[|s| - 1];
      InsertSorted(init, p);
      InsertBounded(init, p, last.date);
      InsertPermutes(init, p);
      var r := Insert(init, p);
      assert Insert(s, p) == r + [last];
    }
  }

  /** `Insert` puts `p` after every bar of its own date, as appending it would. */
  lemma {:induction false} InsertStable(s: seq<Point>, p: Point, d: int)
    ensures WithDate(Insert(s, p), d) == WithDate(s + [p], d)
  {
    assert (s + [p])[..|s|] == s;
    if s != [] && s[|s| - 1].date > p.date {
      var init, last := s[..|s| - 1], s[|s| - 1];
      InsertStable(init, p, d);
      InsertPermutes(init, p);
      var r := Insert(init, p);
      assert (r + [last])[..|r|] == r;
      assert (init + [p])[..|init|] == init;
    }
  }

  /** The sort is ascending by date. */
  lemma {:induction false} SortByDateSorted(s: seq<Point>)
    ensures SortedByDate(SortByDate(s))
  {
    if s != [] {
      SortByDateSorted(s[..|s| - 1]);
      InsertSorted(SortByDate(s[..|s| - 1]), s[|s| - 1]);
    }
  }

  /** The sort is a permutation. */
  lemma {:induction false} SortByDatePermutes(s: seq<Point>)
    ensures multiset(SortByDate(s)) == multiset(s)
    ensures |SortByDate(s)| == |s|
  {
    if s != [] {
      var init, last := s[..|s| - 1], s[|s| - 1];
      SortByDatePermutes(init);
      InsertPermutes(SortByDate(init), last);
      MultisetOfSnoc(s);
    }
  }

  /** The bars of `s` are those before its last bar and that bar. */
  lemma MultisetOfSnoc(s: seq<Point>)
    requires s != []
    ensures multiset(s) == multiset(s[..|s| - 1]) + multiset{s[|s| - 1]}
  {
    assert s == s[..|s| - 1] + [s[|s| - 1]];
  }

  /** The sort is stable: bars sharing a date keep their relative order. */
  lemma {:induction false} SortByDateStable(s: seq<Point>, d: int)
    ensures WithDate(SortByDate(s), d) == WithDate(s, d)
  {
    if s != [] {
      var init, last := s[..|s| - 1], s[|s| - 1];
      SortByDateStable(init, d);
      InsertStable(SortByDate(init), last, d);
      var t := SortByDate(init);
      assert (t + [last])[..|t|] == t;
    }
  }

  /** A bar picked out for date `d` is a bar of `s` dated `d`. */
  lemma {:induction false} WithDateMember(s: seq<Point>, d: int, x: Point)
    requires x in WithDate(s, d)
    ensures x in s && x.date == d
  {
    if s != [] && x in WithDate(s[..|s| - 1], d) {
      WithDateMember(s[..|s| - 1], d, x);
    }
  }

  /** The bars picked out for the date of the last bar end with that bar. */
  lemma WithDateOfLast(s: seq<Point>)
    requires s != []
    ensures WithDate(s, s[|s| - 1].date) != []
    ensures WithDate(s, s[|s| - 1].date)[|WithDate(s, s[|s| - 1].date)| - 1] == s[|s| - 1]
  {
  }

  lemma WithDateDropLast(s: seq<Point>, d: int)
    requires s != []
    ensures WithDate(s[..|s| - 1], d)
      == if s[|s| - 1].date == d then WithDate(s, d)[..|WithDate(s, d)| - 1] else WithDate(s, d)
  {
    var w := WithDate(s, d);
    if s[|s| - 1].date == d {
      assert w == WithDate(s[..|s| - 1], d) + [s[|s| - 1]];
      assert w[..|w| - 1] == WithDate(s[..|s| - 1], d);
    }
  }

  /** A member of a date-sorted sequence is dated no later than its last bar. */
  lemma MemberNotAfterLast(s: seq<Point>, x: Point)
    requires SortedByDate(s) && x in s
    ensures x.date <= s[|s| - 1].date
  {
    var k :| 0 <= k < |s| && s[k] == x;
  }

  /** Two date-sorted sequences that agree on the bars of every date end with the same bar. */
  lemma SortedAgreeingLast(a: seq<Point>, b: seq<Point>)
    requires SortedByDate(a) && SortedByDate(b) && a != [] && b != []
    requires forall d :: WithDate(a, d) == WithDate(b, d)
    ensures a[|a| - 1] == b[|b| - 1]
  {
    var ea, eb := a[|a| - 1], b[|b| - 1];
    var wa, wb := WithDate(a, ea.date), WithDate(b, eb.date);
    WithDateOfLast(a);
    WithDateOfLast(b);
    assert wa == WithDate(b, ea.date);
    assert wb == WithDate(a, eb.date);
    WithDateMember(b, ea.date, wa[|wa| - 1]);
    WithDateMember(a, eb.date, wb[|wb| - 1]);
    MemberNotAfterLast(b, ea);
    MemberNotAfterLast(a, eb);
    assert wa == wb;
  }

  /** Two date-sorted sequences that agree on the bars of every date are equal. */
  lemma {:induction false} SortedAgreeingEqual(a: seq<Point>, b: seq<Point>)
    requires SortedByDate(a) && SortedByDate(b)
    requires forall d :: WithDate(a, d) == WithDate(b, d)
    ensures a == b
    decreases |a| + |b|
  {
    if a == [] && b != [] {
      WithDateOfLast(b);
      assert false;
    } else if a != [] && b == [] {
      WithDateOfLast(a);
      assert false;
    } else if a != [] {
      SortedAgreeingLast(a, b);
      var a', b' := a[..|a| - 1], b[..|b| - 1];
      forall d ensures WithDate(a', d) == WithDate(b', d) {
        WithDateDropLast(a, d);
        WithDateDropLast(b, d);
      }
      SortedAgreeingEqual(a', b');
      assert a == a' + [a[|a| - 1]];
      assert b == b' + [b[|b| - 1]];
    }
  }

  /**
   * Any date-sorted arrangement that keeps the order of same-dated bars is
   * exactly `SortByDate`: every stable sort by date gives this result.
   */
  lemma StableSortIsUnique(s: seq<Point>, r: seq<Point>)
    requires SortedByDate(r)
    requires forall d :: WithDate(r, d) == WithDate(s, d)
    ensures r == SortByDate(s)
  {
    SortByDateSorted(s);
    forall d ensures WithDate(r, d) == WithDate(SortByDate(s), d) {
      SortByDateStable(s, d);
    }
    SortedAgreeingEqual(r, SortByDate(s));
  }

  /**
   * `Insert` places `p` at `j` when the bars before `j` end with one dated no
   * later than `p` and every bar from `j` on is dated later.
   */
  lemma {:induction false} InsertAt(s: seq<Point>, j: nat, p: Point)
    requires j <= |s| && (j == 0 || s[j - 1].date <= p.date)
    requires forall k :: j <= k < |s| ==> s[k].date > p.date
    ensures Insert(s, p) == s[..j] + [p] + s[j..]
  {
    if j < |s| {
      var init := s[..|s| - 1];
      assert init[..j] == s[..j];
      InsertAt(init, j, p);
      assert s[j..] == init[j..] + [s[|s| - 1]];
    } else {
      assert s[..j] == s;
    }
  }

  /** Moves `a[i]` left past the later-dated bars before it, as one step of insertion sort. */
  method InsertInPlace(a: array<Point>, i: nat)
    requires i < a.Length
    modifies a
    ensures a[..i + 1] == Insert(old(a[..i]), old(a[i]))
    ensures a[i + 1..] == old(a[i + 1..])
  {
    ghost var prefix := a[..i];
    var x := a[i];
    var j := i;
    while j > 0 && a[j - 1].date > x.date
      invariant 0 <= j <= i
      invariant forall k :: 0 <= k < j ==> a[k] == prefix[k]
      invariant forall k :: j < k <= i ==> a[k] == prefix[k - 1]
      invariant forall k :: i < k < a.Length ==> a[k] == old(a[k])
      invariant forall k :: j <= k < i ==> prefix[k].date > x.date
    {
      a[j] := a[j - 1];
      j := j - 1;
    }
    a[j] := x;
    InsertAt(prefix, j, x);
    ShiftedIsInsert(a[..i + 1], prefix, j, x);
  }

  /** The array contents left by `InsertInPlace`, read as a sequence. */
  lemma ShiftedIsInsert(r: seq<Point>, prefix: seq<Point>, j: nat, x: Point)
    requires j <= |prefix| && |r| == |prefix| + 1
    requires forall k :: 0 <= k < j ==> r[k] == prefix[k]
    requires r[j] == x
    requires forall k :: j < k < |r| ==> r[k] == prefix[k - 1]
    ensures r == prefix[..j] + [x] + prefix[j..]
  {
  }

  /** Sorts `a` in place, stably by ascending date. */
  method SortInPlace(a: array<Point>)
    modifies a
    ensures a[..] == SortByDate(old(a[..]))
  {
    ghost var orig := a[..];
    var i := 0;
    while i < a.Length
      invariant 0 <= i <= a.Length
      invariant a[..i] == SortByDate(orig[..i])
      invariant a[i..] == orig[i..]
    {
      assert a[i] == orig[i];
      InsertInPlace(a, i);
      assert orig[..i + 1][..i] == orig[..i];
      assert a[i + 1..] == orig[i + 1..];
      i := i + 1;
    }
    assert a[..] == a[..a.Length];
    assert orig == orig[..a.Length];
  }

  /** A suffix of a date-sorted sequence is sorted and holds its latest bars. */
  lemma SuffixIsLatest(t: seq<Point>, k: nat)
    requires SortedByDate(t) && k <= |t|
    ensures SortedByDate(t[k..])
    ensures multiset(t[k..]) <= multiset(t)
    ensures multiset(t) - multiset(t[k..]) == multiset(t[..k])
    ensures forall x, y :: x in multiset(t[..k]) && y in t[k..] ==> x.date <= y.date
  {
    assert t == t[..k] + t[k..];
    forall x, y | x in multiset(t[..k]) && y in t[k..] ensures x.date <= y.date {
      var i :| 0 <= i < k && t[i] == x;
      var j :| k <= j < |t| && t[j] == y;
    }
  }

  /** The bars `getFilteredData` returns: none for a non-positive `days`, else the last `days` bars of the date-sorted history. */
  function FilteredData(s: seq<Point>, days: int): (r: seq<Point>)
    ensures |r| == if days <= 0 then 0 else if days < |s| then days else |s|
    ensures SortedByDate(r)
    ensures multiset(r) <= multiset(s)
    ensures forall x, y :: x in multiset(s) - multiset(r) && y in r ==> x.date <= y.date
  {
    if days <= 0 then []
    else
      var t := SortByDate(s);
      SortByDateSorted(s);
      SortByDatePermutes(s);
      var k := if days < |t| then |t| - days else 0;
      SuffixIsLatest(t, k);
      t[k..]
  }

  /**
   * `getFilteredData`: for a non-positive `days` returns nothing and leaves the
   * history alone; otherwise sorts the history in place and returns its last
   * `days` bars (all of them when there are fewer).
   */
  method GetFilteredData(data: array<Point>, days: int) returns (r: seq<Point>)
    modifies data
    ensures days <= 0 ==> data[..] == old(data[..])
    ensures days > 0 ==> data[..] == SortByDate(old(data[..]))
    ensures r == FilteredData(old(data[..]), days)
  {
    if days <= 0 {
      return [];
    }
    SortInPlace(data);
    SortByDatePermutes(old(data[..]));
    var n := data.Length;
    var k := if days < n then n - days else 0;
    r := data[k..];
  }
}
