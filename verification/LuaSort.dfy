/** `table.sort`: a quicksort that trusts its order function with nothing but the order. */
module LuaSort {

  /** What the n-th call of an order function with x and y says. */
  type Order<!T> = (nat, T, T) -> bool

  const RANLIMIT: nat := 100
  const INT_MAX: nat := 0x7FFF_FFFF

  /** Subtraction of indices, which are unsigned: an empty rest counts as a very large one. */
  function Minus(a: int, b: int): nat { (a - b) % 0x1_0000_0000 }

  datatype Outcome = Done | InvalidOrder | TooBig

  // ---- orders ----

  /** The answers do not depend on the call, and are a strict weak order (section 6.6 of the Lua 5.3 Reference Manual
      asks for a strict partial order whose incomparability is transitive). */
  ghost predicate StrictWeak<T(!new)>(less: Order<T>) {
    (forall n: nat, x: T, y: T :: less(n, x, y) == Lt(less, x, y)) &&
    (forall x: T :: !Lt(less, x, x)) &&
    (forall x: T, y: T, z: T :: Lt(less, x, y) && Lt(less, y, z) ==> Lt(less, x, z)) &&
    (forall x: T, y: T, z: T :: Alike(less, x, y) && Alike(less, y, z) ==> Alike(less, x, z))
  }

  predicate Lt<T>(less: Order<T>, x: T, y: T) { less(0, x, y) }

  predicate Alike<T>(less: Order<T>, x: T, y: T) { !Lt(less, x, y) && !Lt(less, y, x) }

  predicate Le<T>(less: Order<T>, x: T, y: T) { !Lt(less, y, x) }

  lemma LeTransitive<T(!new)>(less: Order<T>, x: T, y: T, z: T)
    requires StrictWeak(less) && Le(less, x, y) && Le(less, y, z)
    ensures Le(less, x, z)
  {
    if Lt(less, z, x) {
      if !Lt(less, x, y) && !Lt(less, y, z) { assert Alike(less, x, y) && Alike(less, y, z); }
    }
  }

  ghost predicate Sorted<T>(less: Order<T>, s: seq<T>, lo: nat, up: int) {
    forall i, j :: lo <= i < j <= up && j < |s| ==> Le(less, s[i], s[j])
  }

  // ---- permutations ----

  /** t is s with the elements from lo to up in another order. */
  ghost predicate Permuted<T>(s: seq<T>, t: seq<T>, lo: nat, up: int) {
    |s| == |t| && lo <= up + 1 <= |s| && s[..lo] == t[..lo] && s[up + 1..] == t[up + 1..] &&
    multiset(s[lo..up + 1]) == multiset(t[lo..up + 1])
  }

  lemma PermutedSelf<T>(s: seq<T>, lo: nat, up: int)
    requires lo <= up + 1 <= |s|
    ensures Permuted(s, s, lo, up)
  {
  }

  lemma PermutedTrans<T>(s: seq<T>, t: seq<T>, u: seq<T>, lo: nat, up: int)
    requires Permuted(s, t, lo, up) && Permuted(t, u, lo, up)
    ensures Permuted(s, u, lo, up)
  {
  }

  /** A part of the range. */
  lemma PermutedWider<T>(s: seq<T>, t: seq<T>, lo: nat, up: int, lo0: nat, up0: int)
    requires Permuted(s, t, lo, up) && lo0 <= lo && up <= up0 < |s|
    ensures Permuted(s, t, lo0, up0)
  {
    assert s[..lo0] == s[..lo][..lo0] && t[..lo0] == t[..lo][..lo0];
    assert s[up0 + 1..] == s[up + 1..][up0 - up..] && t[up0 + 1..] == t[up + 1..][up0 - up..];
    Parts(s, lo, up, lo0, up0);
    Parts(t, lo, up, lo0, up0);
    assert s[lo0..lo] == s[..lo][lo0..] && t[lo0..lo] == t[..lo][lo0..];
    assert s[up + 1..up0 + 1] == s[up + 1..][..up0 - up] && t[up + 1..up0 + 1] == t[up + 1..][..up0 - up];
  }

  lemma Parts<T>(s: seq<T>, lo: nat, up: int, lo0: nat, up0: int)
    requires lo0 <= lo <= up + 1 <= up0 + 1 <= |s|
    ensures multiset(s[lo0..up0 + 1]) == multiset(s[lo0..lo]) + multiset(s[lo..up + 1]) + multiset(s[up + 1..up0 + 1])
  {
    assert s[lo0..up0 + 1] == s[lo0..lo] + s[lo..up + 1] + s[up + 1..up0 + 1];
  }

  function Swapped<T>(s: seq<T>, i: nat, j: nat): seq<T>
    requires i < |s| && j < |s|
  {
    s[i := s[j]][j := s[i]]
  }

  lemma SwapPermutes<T>(s: seq<T>, i: nat, j: nat, lo: nat, up: int)
    requires lo <= i <= j <= up < |s|
    ensures Permuted(s, Swapped(s, i, j), lo, up)
  {
    var t := Swapped(s, i, j);
    assert s[..lo] == t[..lo] && s[up + 1..] == t[up + 1..];
    if i < j {
      Around(s, i, j, lo, up);
      Around(t, i, j, lo, up);
      assert s[lo..i] == t[lo..i] && s[i + 1..j] == t[i + 1..j] && s[j + 1..up + 1] == t[j + 1..up + 1];
    } else {
      assert s == t;
    }
  }

  lemma Around<T>(s: seq<T>, i: nat, j: nat, lo: nat, up: int)
    requires lo <= i < j <= up < |s|
    ensures multiset(s[lo..up + 1]) ==
              multiset(s[lo..i]) + multiset{s[i]} + multiset(s[i + 1..j]) + multiset{s[j]} + multiset(s[j + 1..up + 1])
  {
    assert s[lo..up + 1] == s[lo..i] + [s[i]] + s[i + 1..j] + [s[j]] + s[j + 1..up + 1];
  }

  lemma PermutedOutside<T>(s: seq<T>, t: seq<T>, lo: nat, up: int, k: nat)
    requires Permuted(s, t, lo, up) && k < |s| && (k < lo || k > up)
    ensures t[k] == s[k]
  {
    if k < lo { assert s[..lo][k] == t[..lo][k]; } else { assert s[up + 1..][k - up - 1] == t[up + 1..][k - up - 1]; }
  }

  /** Every element of the range comes from the range. */
  lemma PermutedInside<T>(s: seq<T>, t: seq<T>, lo: nat, up: int, k: nat) returns (m: nat)
    requires Permuted(s, t, lo, up) && lo <= k <= up
    ensures lo <= m <= up && t[k] == s[m]
  {
    assert t[lo..up + 1][k - lo] == t[k];
    assert t[k] in multiset(t[lo..up + 1]);
    assert t[k] in s[lo..up + 1];
    var i :| 0 <= i < |s[lo..up + 1]| && s[lo..up + 1][i] == t[k];
    m := lo + i;
  }

  // ---- parts that are in order ----

  /** All from lo to up are before x. */
  ghost predicate AllBefore<T>(less: Order<T>, s: seq<T>, lo: nat, up: int, x: T) {
    forall k :: lo <= k <= up && k < |s| ==> Le(less, s[k], x)
  }

  ghost predicate AllAfter<T>(less: Order<T>, s: seq<T>, lo: nat, up: int, x: T) {
    forall k :: lo <= k <= up && k < |s| ==> Le(less, x, s[k])
  }

  /** In order, but for pairs within lo and up. */
  ghost predicate SortedAround<T>(less: Order<T>, s: seq<T>, lo0: nat, up0: int, lo: nat, up: int) {
    forall i, j :: lo0 <= i < j <= up0 && j < |s| && (i < lo || j > up) ==> Le(less, s[i], s[j])
  }

  lemma StaysBefore<T(!new)>(less: Order<T>, s: seq<T>, t: seq<T>, lo: nat, up: int, x: T)
    requires Permuted(s, t, lo, up) && AllBefore(less, s, lo, up, x)
    ensures AllBefore(less, t, lo, up, x)
  {
    hide Permuted, Le;
    SameLength(s, t, lo, up);
    forall k | lo <= k <= up && k < |t| ensures Le(less, t[k], x) { var _ := PermutedInside(s, t, lo, up, k); }
  }

  lemma StaysAfter<T(!new)>(less: Order<T>, s: seq<T>, t: seq<T>, lo: nat, up: int, x: T)
    requires Permuted(s, t, lo, up) && AllAfter(less, s, lo, up, x)
    ensures AllAfter(less, t, lo, up, x)
  {
    hide Permuted, Le;
    SameLength(s, t, lo, up);
    forall k | lo <= k <= up && k < |t| ensures Le(less, x, t[k]) { var _ := PermutedInside(s, t, lo, up, k); }
  }

  lemma StaysSortedAround<T(!new)>(less: Order<T>, s: seq<T>, t: seq<T>, lo0: nat, up0: int, lo: nat, up: int)
    requires Permuted(s, t, lo, up) && SortedAround(less, s, lo0, up0, lo, up) && lo0 <= lo && up <= up0
    ensures SortedAround(less, t, lo0, up0, lo, up)
  {
    hide Permuted, Le;
    SameLength(s, t, lo, up);
    forall i, j | lo0 <= i < j <= up0 && j < |t| && (i < lo || j > up) ensures Le(less, t[i], t[j]) {
      var m, n := i, j;
      if lo <= i <= up { m := PermutedInside(s, t, lo, up, i); } else { PermutedOutside(s, t, lo, up, i); }
      if lo <= j <= up { n := PermutedInside(s, t, lo, up, j); } else { PermutedOutside(s, t, lo, up, j); }
    }
  }

  lemma SameLength<T>(s: seq<T>, t: seq<T>, lo: nat, up: int)
    requires Permuted(s, t, lo, up)
    ensures |s| == |t| && lo <= up + 1 <= |s|
  {
  }

  /** What a partition leaves: the pivot at p, and each side on its side. */
  ghost predicate Split<T>(less: Order<T>, s: seq<T>, lo: nat, p: nat, up: nat) {
    lo <= p <= up < |s| && AllBefore(less, s, lo, p - 1, s[p]) && AllAfter(less, s, p + 1, up, s[p])
  }

  /** One side has been sorted: only the other is left. */
  lemma NarrowUp<T(!new)>(less: Order<T>, s: seq<T>, t: seq<T>, lo0: nat, up0: int, lo: nat, p: nat, up: nat)
    requires StrictWeak(less) && SortedAround(less, s, lo0, up0, lo, up) && Split(less, s, lo, p, up) && lo0 <= lo
    requires up <= up0 && lo < p
    requires Permuted(s, t, lo, p - 1) && Sorted(less, t, lo, p - 1)
    ensures SortedAround(less, t, lo0, up0, p + 1, up)
  {
    hide Permuted, Le, StrictWeak;
    SameLength(s, t, lo, p - 1);
    PermutedWider(s, t, lo, p - 1, lo, up);
    StaysSortedAround(less, s, t, lo0, up0, lo, up);
    StaysBefore(less, s, t, lo, p - 1, s[p]);
    forall i, j | lo0 <= i < j <= up0 && j < |t| && (i < p + 1 || j > up) ensures Le(less, t[i], t[j]) {
      if lo <= i <= p && p <= j <= up {
        PermutedOutside(s, t, lo, p - 1, j);
        if i == p {
          PermutedOutside(s, t, lo, p - 1, i);
        } else if j > p {
          LeTransitive(less, t[i], s[p], t[j]);
        }
      }
    }
  }

  lemma NarrowDown<T(!new)>(less: Order<T>, s: seq<T>, t: seq<T>, lo0: nat, up0: int, lo: nat, p: nat, up: nat)
    requires StrictWeak(less) && SortedAround(less, s, lo0, up0, lo, up) && Split(less, s, lo, p, up) && lo0 <= lo
    requires up <= up0 && lo < p < up
    requires Permuted(s, t, p + 1, up) && Sorted(less, t, p + 1, up)
    ensures SortedAround(less, t, lo0, up0, lo, p - 1)
  {
    hide Permuted, Le, StrictWeak;
    SameLength(s, t, p + 1, up);
    PermutedWider(s, t, p + 1, up, lo, up);
    StaysSortedAround(less, s, t, lo0, up0, lo, up);
    StaysAfter(less, s, t, p + 1, up, s[p]);
    forall i, j | lo0 <= i < j <= up0 && j < |t| && (i < lo || j > p - 1) ensures Le(less, t[i], t[j]) {
      if lo <= i <= p && p <= j <= up {
        PermutedOutside(s, t, p + 1, up, i);
        if j == p {
          PermutedOutside(s, t, p + 1, up, j);
        } else if i < p {
          LeTransitive(less, t[i], s[p], t[j]);
        }
      }
    }
  }

  function Pow2(d: nat): nat { if d == 0 then 1 else 2 * Pow2(d - 1) }

  class Sorter<T(==,!new)> {
    /** The table; element 0 is not used. */
    const a: array<T>
    const less: Order<T>
    /** What the clock says when it is asked. */
    const random: nat -> nat
    var calls: nat
    var draws: nat

    constructor (a: array<T>, less: Order<T>, random: nat -> nat)
      ensures this.a == a && this.less == less && this.random == random
    {
      this.a, this.less, this.random, calls, draws := a, less, random, 0, 0;
    }

    /** `sort_comp`. */
    method Compare(x: T, y: T) returns (b: bool)
      modifies this`calls
      ensures StrictWeak(less) ==> b == Lt(less, x, y)
    {
      b := less(calls, x, y);
      calls := calls + 1;
    }

    /** `l_randomizePivot`. */
    method Randomize() returns (r: nat)
      modifies this`draws
    {
      r := random(draws) % 0x1_0000_0000;
      draws := draws + 1;
    }

    /** `set2`: x goes to i, and y to j. */
    method Set2(i: nat, j: nat, x: T, y: T)
      requires i < a.Length && j < a.Length
      modifies a
      ensures a[..] == old(a[..])[i := x][j := y]
    {
      a[i] := x;
      a[j] := y;
    }

    /** `choosePivot`. */
    method ChoosePivot(lo: nat, up: nat, rnd: nat) returns (p: nat)
      requires lo + 4 <= up
      ensures var r4 := (up - lo) / 4; lo + r4 <= p && p <= up - r4
    {
      var r4 := (up - lo) / 4;
      p := rnd % (r4 * 2) + (lo + r4);
    }

    /** The first loop of `partition`: repeats ++i while a[i] < pivot. */
    method ScanUp(lo: nat, i0: nat, j: nat, up: nat, pivot: T) returns (ok: bool, i: nat)
      requires lo <= i0 <= j < up < a.Length && i0 < up - 1 && a[up - 1] == pivot
      requires StrictWeak(less) ==> AllBefore(less, a[..], lo, i0, pivot) && AllAfter(less, a[..], j, up, pivot)
      modifies this`calls
      ensures ok ==> i0 < i < up
      ensures StrictWeak(less) ==> ok && AllBefore(less, a[..], lo, i - 1, pivot) && Le(less, pivot, a[i])
    {
      hide StrictWeak, Le, Lt;
      ghost var s := a[..];
      i := i0 + 1;
      var b := Compare(a[i], pivot);
      while b
        invariant i0 < i < up
        invariant StrictWeak(less) ==> b == Lt(less, s[i], pivot) && AllBefore(less, s, lo, i - 1, pivot)
        decreases up - i
      {
        if StrictWeak(less) { LtIsLe(less, s[i], pivot); }
        if i == up - 1 {
          return false, i;
        }
        i := i + 1;
        b := Compare(a[i], pivot);
      }
      if StrictWeak(less) { LtIsLe(less, s[i], pivot); }
      return true, i;
    }

    /** The second loop: repeats --j while pivot < a[j]. */
    method ScanDown(lo: nat, i: nat, j0: nat, up: nat, pivot: T) returns (ok: bool, j: nat)
      requires lo < i < up < a.Length && lo < j0 < up
      requires StrictWeak(less) ==> AllBefore(less, a[..], lo, i - 1, pivot) && AllAfter(less, a[..], j0, up, pivot)
      modifies this`calls
      ensures ok ==> lo <= j < j0
      ensures StrictWeak(less) ==> ok && AllAfter(less, a[..], j + 1, up, pivot) && Le(less, a[j], pivot)
    {
      hide StrictWeak, Le, Lt;
      ghost var s := a[..];
      j := j0 - 1;
      var b := Compare(pivot, a[j]);
      while b
        invariant lo <= j < j0
        invariant StrictWeak(less) ==> b == Lt(less, pivot, s[j]) && AllAfter(less, s, j + 1, up, pivot)
        decreases j
      {
        if StrictWeak(less) { LtIsLe(less, pivot, s[j]); }
        if j < i {
          return false, j;
        }
        j := j - 1;
        b := Compare(pivot, a[j]);
      }
      if StrictWeak(less) { LtIsLe(less, pivot, s[j]); }
      return true, j;
    }

    /** `partition`: never leaves the range, whatever the order function says. */
    method Partition(lo: nat, up: nat) returns (r: Outcome, p: nat)
      requires 1 <= lo && lo + 3 <= up < a.Length
      requires StrictWeak(less) ==> Le(less, a[lo], a[up - 1]) && Le(less, a[up - 1], a[up])
      modifies a, this`calls
      ensures Permuted(old(a[..]), a[..], lo, up) && r != TooBig
      ensures r.Done? ==> lo < p < up
      ensures StrictWeak(less) ==> r.Done? && Split(less, a[..], lo, p, up)
    {
      hide Permuted, StrictWeak, Le, Lt, Split;
      var i: nat, j: nat, pivot := lo, up - 1, a[up - 1];
      PermutedSelf(a[..], lo, up);
      if StrictWeak(less) { Reflexive(less, pivot); }
      while true
        invariant lo <= i <= j < up && lo < j && i < up - 1 && a[up - 1] == pivot && Permuted(old(a[..]), a[..], lo, up)
        invariant StrictWeak(less) ==> AllBefore(less, a[..], lo, i, pivot) && AllAfter(less, a[..], j, up, pivot)
        decreases j - i
      {
        ghost var s := a[..];
        var ok;
        ok, i := ScanUp(lo, i, j, up, pivot);
        if !ok {
          return InvalidOrder, 0;
        }
        ok, j := ScanDown(lo, i, j, up, pivot);
        if !ok {
          return InvalidOrder, 0;
        }
        if j < i {
          Set2(up - 1, i, a[i], pivot);
          FinalSwap(less, s, a[..], lo, i, j, up, pivot);
          PermutedTrans(old(a[..]), s, a[..], lo, up);
          return Done, i;
        }
        Set2(i, j, a[j], a[i]);
        InnerSwap(less, s, a[..], lo, i, j, up, pivot);
        PermutedTrans(old(a[..]), s, a[..], lo, up);
      }
    }

    /** The elements i and j change places. */
    method Swap(i: nat, j: nat, ghost lo: nat, ghost up: nat)
      requires lo <= i <= j <= up < a.Length
      modifies a
      ensures a[..] == Swapped(old(a[..]), i, j) && Permuted(old(a[..]), a[..], lo, up)
    {
      SwapPermutes(a[..], i, j, lo, up);
      Set2(i, j, a[j], a[i]);
    }

    /** The first and the last element are put in order. */
    method SortEnds(lo: nat, up: nat)
      requires lo < up < a.Length
      modifies a, this`calls
      ensures Permuted(old(a[..]), a[..], lo, up)
      ensures StrictWeak(less) ==> Le(less, a[lo], a[up])
    {
      hide Permuted, StrictWeak, Le, Lt;
      PermutedSelf(a[..], lo, up);
      ghost var s := a[..];
      var b := Compare(a[up], a[lo]);
      if StrictWeak(less) { LtIsLe(less, s[up], s[lo]); }
      if b {
        Swap(lo, up, lo, up);
      }
    }

    /** Then the pivot candidate at p comes between them. */
    method SortMiddle(lo: nat, p: nat, up: nat)
      requires lo < p < up < a.Length
      requires StrictWeak(less) ==> Le(less, a[lo], a[up])
      modifies a, this`calls
      ensures Permuted(old(a[..]), a[..], lo, up)
      ensures StrictWeak(less) ==> Le(less, a[lo], a[p]) && Le(less, a[p], a[up])
    {
      hide Permuted, StrictWeak, Le, Lt;
      PermutedSelf(a[..], lo, up);
      ghost var s := a[..];
      var b := Compare(a[p], a[lo]);
      if StrictWeak(less) { LtIsLe(less, s[p], s[lo]); }
      if b {
        Swap(lo, p, lo, up);
      } else {
        b := Compare(a[up], a[p]);
        if StrictWeak(less) { LtIsLe(less, s[up], s[p]); }
        if b {
          Swap(p, up, lo, up);
        }
      }
    }

    /** The pivot goes to its place for `partition`, and from there between the parts. */
    method Divide(lo: nat, p0: nat, up: nat) returns (r: Outcome, p: nat)
      requires 1 <= lo < p0 < up < a.Length && lo + 3 <= up
      requires StrictWeak(less) ==> Le(less, a[lo], a[p0]) && Le(less, a[p0], a[up])
      modifies a, this`calls
      ensures Permuted(old(a[..]), a[..], lo, up) && r != TooBig
      ensures r.Done? ==> lo < p < up
      ensures StrictWeak(less) ==> r.Done? && Split(less, a[..], lo, p, up)
    {
      hide Permuted, StrictWeak, Le, Lt, Split;
      Swap(p0, up - 1, lo, up);
      ghost var s := a[..];
      r, p := Partition(lo, up);
      PermutedTrans(old(a[..]), s, a[..], lo, up);
    }

    /** The pivot candidate: the middle, or a random place in a large range after a bad partition. Indices are
        unsigned 32-bit numbers, whose sum does not wrap around. */
    method Middle(lo: nat, up: nat, rnd: nat) returns (p: nat)
      requires lo + 2 <= up < INT_MAX
      ensures lo < p < up
    {
      if up - lo < RANLIMIT || rnd == 0 {
        p := (lo + up) % 0x1_0000_0000 / 2;
      } else {
        p := ChoosePivot(lo, up, rnd);
      }
    }

    /** `auxsort`: recursion goes to the smaller part, so a range of up to 2^depth elements takes at most depth
        nested calls. The range is permuted in any case, and sorted if the order function is one. */
    method AuxSort(lo0: nat, up0: nat, rnd0: nat, ghost depth: nat) returns (r: Outcome)
      requires 1 <= lo0 <= up0 + 1 <= a.Length && up0 < INT_MAX && up0 + 1 - lo0 <= Pow2(depth)
      modifies a, this`calls, this`draws
      ensures Permuted(old(a[..]), a[..], lo0, up0) && r != TooBig
      ensures StrictWeak(less) ==> r.Done? && Sorted(less, a[..], lo0, up0)
      decreases depth
    {
      hide Permuted, StrictWeak, Le, Lt, Split, Sorted, SortedAround, Minus;
      var lo, up, rnd := lo0, up0, rnd0;
      PermutedSelf(a[..], lo, up);
      AroundAll(less, a[..], lo, up);
      while lo < up
        invariant lo0 <= lo <= up + 1 && up <= up0 && Permuted(old(a[..]), a[..], lo0, up0)
        invariant StrictWeak(less) ==> SortedAround(less, a[..], lo0, up0, lo, up)
        decreases up - lo
      {
        ghost var s0 := a[..];
        SortEnds(lo, up);
        ghost var s1 := a[..];
        Step(less, old(a[..]), s0, s1, lo0, up0, lo, up);
        if up - lo == 1 {
          FewSorted(less, s1, lo0, up0, lo, up);
          return Done;
        }
        var p := Middle(lo, up, rnd);
        SortMiddle(lo, p, up);
        ghost var s2 := a[..];
        Step(less, old(a[..]), s1, s2, lo0, up0, lo, up);
        if up - lo == 2 {
          FewSorted(less, s2, lo0, up0, lo, up);
          return Done;
        }
        r, p := Divide(lo, p, up);
        ghost var s3 := a[..];
        Step(less, old(a[..]), s2, s3, lo0, up0, lo, up);
        if r != Done {
          return r;
        }
        Halves(lo0, up0, lo, p, up, depth);
        var n;
        if p - lo < up - p {
          r := AuxSort(lo, p - 1, rnd, depth - 1);
          StepWider(old(a[..]), s3, a[..], lo0, up0, lo, p - 1);
          if StrictWeak(less) { NarrowUp(less, s3, a[..], lo0, up0, lo, p, up); }
          n := p - lo;
          lo := p + 1;
        } else {
          r := AuxSort(p + 1, up, rnd, depth - 1);
          StepWider(old(a[..]), s3, a[..], lo0, up0, p + 1, up);
          if StrictWeak(less) { NarrowDown(less, s3, a[..], lo0, up0, lo, p, up); }
          n := up - p;
          up := p - 1;
        }
        if r != Done {
          return r;
        }
        if Minus(up, lo) / 128 > n {
          rnd := Randomize();
        }
      }
      NoneLeft(less, a[..], lo0, up0, lo, up);
      return Done;
    }

    /** `sort`, of the elements from 1 to n. Nested calls are at most the logarithm of n. */
    method Sort(n: nat, ghost depth: nat) returns (r: Outcome)
      requires n + 1 <= a.Length && n <= Pow2(depth)
      modifies a, this`calls, this`draws
      ensures Permuted(old(a[..]), a[..], 1, n)
      ensures r == TooBig <==> n >= INT_MAX
      ensures StrictWeak(less) && n < INT_MAX ==> r.Done? && Sorted(less, a[..], 1, n)
    {
      PermutedSelf(a[..], 1, n);
      if n > 1 {
        if n >= INT_MAX {
          return TooBig;
        }
        r := AuxSort(1, n, 0, depth);
        return r;
      }
      return Done;
    }
  }

  lemma Reflexive<T(!new)>(less: Order<T>, x: T)
    requires StrictWeak(less)
    ensures Le(less, x, x) && !Lt(less, x, x)
  {
  }

  lemma LtIsLe<T(!new)>(less: Order<T>, x: T, y: T)
    requires StrictWeak(less)
    ensures Lt(less, x, y) ==> Le(less, x, y) && !Le(less, y, x) && x != y
    ensures !Lt(less, x, y) ==> Le(less, y, x)
  {
  }

  /** Pivot and a[i] change places. */
  lemma FinalSwap<T(!new)>(less: Order<T>, s: seq<T>, t: seq<T>, lo: nat, i: nat, j: nat, up: nat, pivot: T)
    requires lo < i < up < |s| && j < i && s[up - 1] == pivot && t == s[up - 1 := s[i]][i := pivot]
    ensures Permuted(s, t, lo, up)
    ensures StrictWeak(less) && AllBefore(less, s, lo, i - 1, pivot) && AllAfter(less, s, j + 1, up, pivot) ==>
              Split(less, t, lo, i, up)
  {
    hide StrictWeak, Permuted, Le;
    assert t == Swapped(s, i, up - 1);
    SwapPermutes(s, i, up - 1, lo, up);
  }

  lemma InnerSwap<T(!new)>(less: Order<T>, s: seq<T>, t: seq<T>, lo: nat, i: nat, j: nat, up: nat, pivot: T)
    requires lo < i <= j < up < |s| && t == s[i := s[j]][j := s[i]]
    ensures Permuted(s, t, lo, up)
    ensures AllBefore(less, s, lo, i - 1, pivot) && Le(less, s[j], pivot) ==> AllBefore(less, t, lo, i, pivot)
    ensures AllAfter(less, s, j + 1, up, pivot) && Le(less, pivot, s[i]) ==> AllAfter(less, t, j, up, pivot)
  {
    hide Permuted, Le;
    SwapPermutes(s, i, j, lo, up);
  }

  lemma AroundAll<T>(less: Order<T>, s: seq<T>, lo: nat, up: int)
    ensures SortedAround(less, s, lo, up, lo, up)
  {
  }

  lemma NoneLeft<T>(less: Order<T>, s: seq<T>, lo0: nat, up0: int, lo: nat, up: int)
    requires lo >= up
    ensures SortedAround(less, s, lo0, up0, lo, up) ==> Sorted(less, s, lo0, up0)
  {
    hide Le;
  }

  /** Two or three elements, compared one by one. */
  lemma FewSorted<T(!new)>(less: Order<T>, s: seq<T>, lo0: nat, up0: int, lo: nat, up: nat)
    requires lo < up <= lo + 2 && up < |s|
    ensures StrictWeak(less) && SortedAround(less, s, lo0, up0, lo, up) &&
            Le(less, s[lo], s[lo + 1]) && Le(less, s[up - 1], s[up])
            ==> Sorted(less, s, lo0, up0)
  {
    hide Le, StrictWeak;
    if up == lo + 2 && StrictWeak(less) && Le(less, s[lo], s[lo + 1]) && Le(less, s[up - 1], s[up]) {
      LeTransitive(less, s[lo], s[up - 1], s[up]);
    }
  }

  /** The whole range, when a part of it has been permuted. */
  lemma Step<T(!new)>(less: Order<T>, s: seq<T>, t: seq<T>, u: seq<T>, lo0: nat, up0: int, lo: nat, up: int)
    requires Permuted(s, t, lo0, up0) && Permuted(t, u, lo, up) && lo0 <= lo && up <= up0
    ensures Permuted(s, u, lo0, up0)
    ensures SortedAround(less, t, lo0, up0, lo, up) ==> SortedAround(less, u, lo0, up0, lo, up)
  {
    hide Permuted, SortedAround;
    StepWider(s, t, u, lo0, up0, lo, up);
    if SortedAround(less, t, lo0, up0, lo, up) { StaysSortedAround(less, t, u, lo0, up0, lo, up); }
  }

  lemma StepWider<T>(s: seq<T>, t: seq<T>, u: seq<T>, lo0: nat, up0: int, lo: nat, up: int)
    requires Permuted(s, t, lo0, up0) && Permuted(t, u, lo, up) && lo0 <= lo && up <= up0
    ensures Permuted(s, u, lo0, up0)
  {
    hide Permuted;
    SameLength(s, t, lo0, up0);
    PermutedWider(t, u, lo, up, lo0, up0);
    PermutedTrans(s, t, u, lo0, up0);
  }

  /** The smaller part is at most half. */
  lemma Halves(lo0: nat, up0: nat, lo: nat, p: nat, up: nat, depth: nat)
    requires lo0 <= lo < p < up <= up0 && up0 + 1 - lo0 <= Pow2(depth)
    ensures depth > 0 && (p - lo < up - p ==> p - lo <= Pow2(depth - 1))
    ensures p - lo >= up - p ==> up - p <= Pow2(depth - 1)
  {
  }
}
