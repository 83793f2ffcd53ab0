/** Moving the late elements of a list behind the others. */
module Partition {
  import opened Text

  /** The elements on which `p` is `want`, in order. */
  function Filter<T>(want: bool, p: T -> bool, xs: seq<T>): seq<T> {
    if xs == [] then []
    else (if p(xs[0]) == want then [xs[0]] else []) + Filter(want, p, xs[1..])
  }

  lemma {:induction false} FilterAppend<T>(want: bool, p: T -> bool, a: seq<T>, b: seq<T>)
    ensures Filter(want, p, a + b) == Filter(want, p, a) + Filter(want, p, b)
  {
    if a == [] {
      assert a + b == b;
    } else {
      FilterAppend(want, p, a[1..], b);
      assert (a + b)[1..] == a[1..] + b;
      Associate(if p(a[0]) == want then [a[0]] else [], Filter(want, p, a[1..]), Filter(want, p, b));
    }
  }

  lemma FilterSnoc<T>(want: bool, p: T -> bool, xs: seq<T>, x: T)
    ensures Filter(want, p, xs + [x]) == if p(x) == want then Filter(want, p, xs) + [x] else Filter(want, p, xs)
  {
    FilterAppend(want, p, xs, [x]);
    assert [x][1..] == [];
  }

  lemma {:induction false} FilterMember<T>(want: bool, p: T -> bool, xs: seq<T>, x: T)
    ensures x in Filter(want, p, xs) <==> x in xs && p(x) == want
  {
    if xs == [] {
    } else {
      FilterMember(want, p, xs[1..], x);
      assert xs == [xs[0]] + xs[1..];
    }
  }

  function StablePartition<T>(late: T -> bool, xs: seq<T>): seq<T> {
    Filter(false, late, xs) + Filter(true, late, xs)
  }

  /** Nothing is lost or duplicated. */
  lemma {:induction false} PartitionPermutes<T>(late: T -> bool, xs: seq<T>)
    ensures multiset(StablePartition(late, xs)) == multiset(xs)
  {
    if xs == [] {
    } else {
      PartitionPermutes(late, xs[1..]);
      assert xs == [xs[0]] + xs[1..];
    }
  }

  /** No carrying element that is not late comes after one that is. */
  ghost predicate Sorted<T>(late: T -> bool, carries: T -> bool, xs: seq<T>) {
    forall i, j :: 0 <= i < j < |xs| && late(xs[i]) && carries(xs[i]) && carries(xs[j]) ==> late(xs[j])
  }

  lemma SortedSnoc<T>(late: T -> bool, carries: T -> bool, xs: seq<T>, x: T)
    ensures Sorted(late, carries, xs + [x])
       <==> Sorted(late, carries, xs) && (carries(x) && !late(x) ==> forall y :: y in xs && late(y) ==> !carries(y))
  {
    var all := xs + [x];
    assert all[|xs|] == x && forall i :: 0 <= i < |xs| ==> all[i] == xs[i];
    if Sorted(late, carries, all) {
      forall i, j | 0 <= i < j < |xs| && late(xs[i]) && carries(xs[i]) && carries(xs[j]) ensures late(xs[j]) {
        assert all[i] == xs[i] && all[j] == xs[j];
      }
      forall y | y in xs && late(y) && carries(x) && !late(x) ensures !carries(y) {
        var i :| 0 <= i < |xs| && xs[i] == y;
        assert all[i] == y;
      }
    }
  }

  lemma SnocInjective<T>(a: seq<T>, b: seq<T>, x: T)
    ensures a + [x] == b + [x] <==> a == b
  {
    if a + [x] == b + [x] {
      assert a == (a + [x])[..|a|] && b == (b + [x])[..|b|];
    }
  }

  /** Appending on the right keeps `m + f == c`; inserting before `f` breaks it
      unless `f` is empty. */
  lemma AppendKeepsSplit<T>(m: seq<T>, f: seq<T>, c: seq<T>, x: T)
    ensures m + (f + [x]) == c + [x] <==> m + f == c
    ensures f == [] ==> ((m + [x]) + f == c + [x] <==> m + f == c)
    ensures f != [] && f[|f| - 1] != x ==> (m + [x]) + f != c + [x]
  {
    assert m + (f + [x]) == (m + f) + [x];
    SnocInjective(m + f, c, x);
    if f == [] {
      SnocInjective(m, c, x);
      assert m + f == m && (m + [x]) + f == m + [x];
    } else if (m + [x]) + f == c + [x] {
      assert ((m + [x]) + f)[|m| + |f|] == f[|f| - 1];
    }
  }

  /** The carrying elements that are late, and those that are not. */
  function Part<T>(late: T -> bool, carries: T -> bool, wantLate: bool, xs: seq<T>): seq<T> {
    Filter(true, carries, Filter(wantLate, late, xs))
  }

  lemma PartSnoc<T>(late: T -> bool, carries: T -> bool, wantLate: bool, xs: seq<T>, x: T)
    ensures Part(late, carries, wantLate, xs + [x])
         == if late(x) == wantLate && carries(x) then Part(late, carries, wantLate, xs) + [x]
            else Part(late, carries, wantLate, xs)
  {
    FilterSnoc(wantLate, late, xs, x);
    FilterSnoc(true, carries, Filter(wantLate, late, xs), x);
  }

  lemma PartMember<T>(late: T -> bool, carries: T -> bool, wantLate: bool, xs: seq<T>, x: T)
    ensures x in Part(late, carries, wantLate, xs) <==> x in xs && late(x) == wantLate && carries(x)
  {
    FilterMember(wantLate, late, xs, x);
    FilterMember(true, carries, Filter(wantLate, late, xs), x);
  }

  lemma PartEmptyIff<T>(late: T -> bool, carries: T -> bool, xs: seq<T>)
    ensures Part(late, carries, true, xs) == [] <==> forall y :: y in xs && late(y) ==> !carries(y)
    ensures var f := Part(late, carries, true, xs); f != [] ==> late(f[|f| - 1])
  {
    var f := Part(late, carries, true, xs);
    if f != [] {
      var y := f[|f| - 1];
      PartMember(late, carries, true, xs, y);
      assert y in f;
    }
    forall y | y in xs && late(y) && carries(y) ensures f != [] {
      PartMember(late, carries, true, xs, y);
    }
  }

  lemma {:induction false} PartsInOrderIff<T>(late: T -> bool, carries: T -> bool, xs: seq<T>)
    ensures Part(late, carries, false, xs) + Part(late, carries, true, xs) == Filter(true, carries, xs)
       <==> Sorted(late, carries, xs)
  {
    if xs == [] {
    } else {
      var before, x := xs[..|xs| - 1], xs[|xs| - 1];
      assert xs == before + [x];
      PartsInOrderIff(late, carries, before);
      SortedSnoc(late, carries, before, x);
      PartSnoc(late, carries, false, before, x);
      PartSnoc(late, carries, true, before, x);
      FilterSnoc(true, carries, before, x);
      PartEmptyIff(late, carries, before);
      AppendKeepsSplit(Part(late, carries, false, before), Part(late, carries, true, before),
                       Filter(true, carries, before), x);
    }
  }

  lemma {:induction false} PartsLength<T>(late: T -> bool, carries: T -> bool, xs: seq<T>)
    ensures |Part(late, carries, false, xs)| + |Part(late, carries, true, xs)| == |Filter(true, carries, xs)|
  {
    if xs == [] {
    } else {
      var before, x := xs[..|xs| - 1], xs[|xs| - 1];
      assert xs == before + [x];
      PartsLength(late, carries, before);
      PartSnoc(late, carries, false, before, x);
      PartSnoc(late, carries, true, before, x);
      FilterSnoc(true, carries, before, x);
    }
  }

  /** The early part alone is everything exactly when nothing late carries. */
  lemma EarlyIsAllIff<T>(late: T -> bool, carries: T -> bool, xs: seq<T>)
    ensures Part(late, carries, false, xs) == Filter(true, carries, xs)
       <==> forall y :: y in xs && late(y) ==> !carries(y)
  {
    PartsLength(late, carries, xs);
    PartEmptyIff(late, carries, xs);
    PartsInOrderIff(late, carries, xs);
    if forall y :: y in xs && late(y) ==> !carries(y) {
      assert Part(late, carries, false, xs) + [] == Part(late, carries, false, xs);
    }
  }

  /** Moving the late elements back keeps the order of the carrying ones exactly
      when these were sorted already. */
  lemma PartitionKeepsOrderIff<T>(late: T -> bool, carries: T -> bool, xs: seq<T>)
    ensures Filter(true, carries, StablePartition(late, xs)) == Filter(true, carries, xs)
       <==> Sorted(late, carries, xs)
  {
    FilterAppend(true, carries, Filter(false, late, xs), Filter(true, late, xs));
    PartsInOrderIff(late, carries, xs);
  }

  // ------------------------------------------------ a reader that stops early

  ghost predicate OnlyLastEnds<T>(ends: T -> bool, xs: seq<T>) {
    forall i :: 0 <= i < |xs| - 1 ==> !ends(xs[i])
  }

  /** The last element ends the reading and is not late, so nothing late is read. */
  predicate CutsOff<T>(late: T -> bool, ends: T -> bool, xs: seq<T>) {
    xs != [] && ends(xs[|xs| - 1]) && !late(xs[|xs| - 1])
  }

  /** After a late carrying element, every element is late, or neither carries
      nor ends. */
  ghost predicate Orderly<T>(late: T -> bool, carries: T -> bool, ends: T -> bool, xs: seq<T>) {
    forall i, j :: 0 <= i < j < |xs| && late(xs[i]) && carries(xs[i])
      ==> late(xs[j]) || (!carries(xs[j]) && !ends(xs[j]))
  }

  lemma {:induction false} FilterNoneHolds<T>(ends: T -> bool, want: bool, p: T -> bool, xs: seq<T>)
    requires NoneHolds(ends, xs)
    ensures NoneHolds(ends, Filter(want, p, xs))
  {
    if xs == [] {
    } else {
      FilterNoneHolds(ends, want, p, xs[1..]);
    }
  }

  lemma ThroughLast<T>(ends: T -> bool, mid: seq<T>, fin: seq<T>, x: T)
    requires NoneHolds(ends, mid) && NoneHolds(ends, fin)
    ensures Through(ends, mid + (fin + [x])) == mid + (fin + [x])
    ensures Through(ends, (mid + [x]) + fin) == if ends(x) then mid + [x] else (mid + [x]) + fin
  {
    Associate(mid, fin, [x]);
    ThroughSkips(ends, mid + fin, [x]);
    assert [x][1..] == [];
    Associate(mid, [x], fin);
    ThroughSkips(ends, mid, [x] + fin);
    assert ([x] + fin)[1..] == fin && fin + [] == fin;
    ThroughSkips(ends, fin, []);
  }

  lemma ThroughOfPartition<T>(late: T -> bool, ends: T -> bool, xs: seq<T>)
    requires OnlyLastEnds(ends, xs)
    ensures Through(ends, StablePartition(late, xs))
         == if CutsOff(late, ends, xs) then Filter(false, late, xs) else StablePartition(late, xs)
  {
    if xs != [] {
      var before, x := xs[..|xs| - 1], xs[|xs| - 1];
      assert xs == before + [x];
      FilterNoneHolds(ends, false, late, before);
      FilterNoneHolds(ends, true, late, before);
      FilterSnoc(false, late, before, x);
      FilterSnoc(true, late, before, x);
      ThroughLast(ends, Filter(false, late, before), Filter(true, late, before), x);
    }
  }

  lemma OrderlyWhenCut<T>(late: T -> bool, carries: T -> bool, ends: T -> bool, xs: seq<T>)
    requires CutsOff(late, ends, xs)
    ensures Orderly(late, carries, ends, xs) <==> forall y :: y in xs && late(y) ==> !carries(y)
  {
    var n := |xs| - 1;
    if Orderly(late, carries, ends, xs) {
      forall y | y in xs && late(y) ensures !carries(y) {
        var i :| 0 <= i <= n && xs[i] == y;
        assert i < n;
      }
    }
  }

  lemma OrderlyWhenNotCut<T>(late: T -> bool, carries: T -> bool, ends: T -> bool, xs: seq<T>)
    requires OnlyLastEnds(ends, xs) && !CutsOff(late, ends, xs)
    ensures Orderly(late, carries, ends, xs) <==> Sorted(late, carries, xs)
  {
  }

  /** A reader of the rearranged list sees the carrying elements in their order
      exactly when the list is orderly. */
  lemma ReadInOrderIff<T>(late: T -> bool, carries: T -> bool, ends: T -> bool, xs: seq<T>)
    requires OnlyLastEnds(ends, xs)
    ensures Filter(true, carries, Through(ends, StablePartition(late, xs))) == Filter(true, carries, xs)
       <==> Orderly(late, carries, ends, xs)
  {
    ThroughOfPartition(late, ends, xs);
    if CutsOff(late, ends, xs) {
      EarlyIsAllIff(late, carries, xs);
      OrderlyWhenCut(late, carries, ends, xs);
    } else {
      PartitionKeepsOrderIff(late, carries, xs);
      OrderlyWhenNotCut(late, carries, ends, xs);
    }
  }
}
