/** Choosing the size of a table's array part: the count array of `rehash` and `computesizes`. */
module TableSizes {
  import opened Shared
  import opened TableCore

  const MAXABITS := 31
  const MAXASIZE := 0x8000_0000
  const MAXHBITS := 30
  const MAXHSIZE := 0x4000_0000

  function Pow2(n: nat): nat
    ensures Pow2(n) >= 1
  {
    if n == 0 then 1 else 2 * Pow2(n - 1)
  }

  lemma {:induction false} Pow2Grows(i: nat, j: nat)
    requires i <= j
    ensures Pow2(i) <= Pow2(j)
  {
    if i < j {
      Pow2Grows(i, j - 1);
    }
  }

  lemma Pow2At31()
    ensures Pow2(31) == MAXASIZE
  {
    assert Pow2(8) == 256;
    assert Pow2(16) == 65536 by {
      assert Pow2(12) == 4096;
    }
    assert Pow2(20) == 0x10_0000;
    assert Pow2(24) == 0x100_0000;
    assert Pow2(28) == 0x1000_0000;
  }

  /** Lower end of slice i of the integers: 0, 1, 2, 4, ... */
  function SliceLow(i: nat): nat { if i == 0 then 0 else Pow2(i - 1) }

  function Slice(s: set<int>, i: nat): set<int> { set k | k in s && SliceLow(i) < k <= Pow2(i) }

  function UpTo(s: set<int>, n: int): set<int> { set k | k in s && k <= n }

  /** `luaO_ceillog2`, searching from l. */
  function CeilLog2From(x: int, l: nat): nat
    requires l <= MAXABITS && SliceLow(l) < x <= MAXASIZE
    ensures l <= CeilLog2From(x, l) <= MAXABITS
    ensures SliceLow(CeilLog2From(x, l)) < x <= Pow2(CeilLog2From(x, l))
    decreases MAXABITS - l
  {
    if x <= Pow2(l) then l
    else
      Pow2At31();
      CeilLog2From(x, l + 1)
  }

  function CeilLog2(x: int): nat
    requires 1 <= x <= MAXASIZE
    ensures CeilLog2(x) <= MAXABITS && SliceLow(CeilLog2(x)) < x <= Pow2(CeilLog2(x))
  {
    CeilLog2From(x, 0)
  }

  /** A vector that is not too big has at most 2^MAXHBITS nodes. */
  lemma CeilLog2Fits(x: int)
    requires 1 <= x <= MAXHSIZE
    ensures CeilLog2(x) <= MAXHBITS && Pow2(CeilLog2(x)) <= MAXHSIZE
  {
    Pow2At31();
    assert Pow2(31) == 2 * Pow2(30);
    if CeilLog2(x) <= MAXHBITS { Pow2Grows(CeilLog2(x), MAXHBITS); }
  }

  /** Candidates for the array part. */
  ghost predicate Candidates(s: set<int>) { forall k :: k in s ==> 1 <= k <= MAXASIZE }

  /** Entry i of the count array is the number of candidates in slice i. */
  ghost predicate Counts(nums: seq<int>, s: set<int>) {
    |nums| == MAXABITS + 1 && forall i :: 0 <= i <= MAXABITS ==> nums[i] == |Slice(s, i)|
  }

  lemma CountsEmpty()
    ensures Counts(seq(MAXABITS + 1, i => 0), {})
  {
    forall i: nat ensures Slice({}, i) == {} {
    }
  }

  lemma SlicesApart(x: int, i: nat, j: nat)
    requires SliceLow(i) < x <= Pow2(i) && SliceLow(j) < x <= Pow2(j)
    ensures i == j
  {
    if i != j {
      if i < j { SliceOrder(x, i, j); } else { SliceOrder(x, j, i); }
    }
  }

  lemma SliceOrder(x: int, i: nat, j: nat)
    requires x <= Pow2(i) && i < j
    ensures !(SliceLow(j) < x)
  {
    Pow2Grows(i, j - 1);
  }

  /** `nums[luaO_ceillog2(k)]++` keeps the count array right. */
  lemma CountOne(nums: seq<int>, s: set<int>, k: int)
    requires Counts(nums, s) && 1 <= k <= MAXASIZE && k !in s
    ensures Counts(nums[CeilLog2(k) := nums[CeilLog2(k)] + 1], s + {k})
  {
    var l := CeilLog2(k);
    forall i: nat | i <= MAXABITS
      ensures |Slice(s + {k}, i)| == |Slice(s, i)| + (if i == l then 1 else 0)
    {
      if i == l {
        assert Slice(s + {k}, i) == Slice(s, i) + {k};
      } else {
        if SliceLow(i) < k <= Pow2(i) {
          SlicesApart(k, i, l);
        }
        assert Slice(s + {k}, i) == Slice(s, i);
      }
    }
  }

  /** n is the largest power of two such that more than half of 1..n are candidates, or 0. */
  ghost predicate Optimal(s: set<int>, n: int) {
    (n == 0 || ((exists j: nat :: j <= MAXABITS && n == Pow2(j)) && |UpTo(s, n)| > n / 2)) &&
    forall j: nat :: j <= MAXABITS && Pow2(j) > n ==> |UpTo(s, Pow2(j))| <= Pow2(j) / 2
  }

  /** The same among the powers of two before the i-th. */
  ghost predicate OptimalBefore(s: set<int>, n: int, i: nat) {
    (n == 0 || ((exists j: nat :: j < i && j <= MAXABITS && n == Pow2(j)) && |UpTo(s, n)| > n / 2)) &&
    forall j: nat :: j < i && j <= MAXABITS && Pow2(j) > n ==> |UpTo(s, Pow2(j))| <= Pow2(j) / 2
  }

  lemma OptimalIsUnique(s: set<int>, n: int, n': int)
    requires Optimal(s, n) && Optimal(s, n')
    ensures n == n'
  {
    OptimalIsLargest(s, n, n');
    OptimalIsLargest(s, n', n);
  }

  lemma OptimalIsLargest(s: set<int>, n: int, n': int)
    requires Optimal(s, n) && Optimal(s, n')
    ensures n' <= n
  {
    var i := OptimalPower(s, n);
    var j := OptimalPower(s, n');
    OptimalAt(s, n, j);
    hide Optimal;
  }

  lemma OptimalPower(s: set<int>, n: int) returns (j: nat)
    requires Optimal(s, n)
    ensures n >= 0 && (n != 0 ==> j <= MAXABITS && n == Pow2(j) && |UpTo(s, n)| > n / 2)
  {
    j := 0;
    if n != 0 { j :| j <= MAXABITS && n == Pow2(j); }
  }

  lemma OptimalAt(s: set<int>, n: int, j: nat)
    requires Optimal(s, n)
    ensures j <= MAXABITS && Pow2(j) > n ==> |UpTo(s, Pow2(j))| <= Pow2(j) / 2
  {
  }

  lemma UpToSlice(s: set<int>, i: nat)
    requires Candidates(s)
    ensures |UpTo(s, Pow2(i))| == |UpTo(s, SliceLow(i))| + |Slice(s, i)|
    ensures |UpTo(s, SliceLow(i))| <= SliceLow(i)
  {
    assert SliceLow(i) <= Pow2(i);
    assert UpTo(s, Pow2(i)) == UpTo(s, SliceLow(i)) + Slice(s, i);
    UpToSize(s, SliceLow(i));
  }

  lemma {:induction false} UpToSize(s: set<int>, n: nat)
    requires Candidates(s)
    ensures |UpTo(s, n)| <= n
  {
    if n == 0 {
      assert UpTo(s, n) == {};
    } else {
      UpToSize(s, n - 1);
      if n in s {
        assert UpTo(s, n) == UpTo(s, n - 1) + {n};
      } else {
        assert UpTo(s, n) == UpTo(s, n - 1);
      }
    }
  }

  lemma Pow2Above(j: nat, i: nat)
    requires j < i
    ensures Pow2(j) < Pow2(i)
  {
    Pow2Grows(j, i - 1);
  }

  /** One round of the loop: candidate size 2^i. */
  lemma OptimalStep(s: set<int>, optimal: int, i: nat)
    requires Candidates(s) && OptimalBefore(s, optimal, i) && i <= MAXABITS
    ensures Pow2(i) > optimal
    ensures |UpTo(s, Pow2(i))| > Pow2(i) / 2 ==> OptimalBefore(s, Pow2(i), i + 1)
    ensures |UpTo(s, Pow2(i))| <= Pow2(i) / 2 ==> OptimalBefore(s, optimal, i + 1)
  {
    hide UpTo, Candidates, Pow2;
    forall j: nat | j < i ensures Pow2(j) < Pow2(i) {
      Pow2Above(j, i);
    }
    forall j: nat | j < i + 1 ensures Pow2(j) <= Pow2(i) {
      Pow2Grows(j, i);
    }
  }

  /** Once all candidates together cannot fill half of 2^i, no larger size can do better. */
  lemma OptimalStop(s: set<int>, optimal: int, i: nat)
    requires OptimalBefore(s, optimal, i) && (i > MAXABITS || |s| <= Pow2(i) / 2)
    ensures Optimal(s, optimal)
  {
    forall j: nat | i <= j <= MAXABITS
      ensures |UpTo(s, Pow2(j))| <= Pow2(j) / 2
    {
      Pow2Grows(i, j);
      SubsetCard(UpTo(s, Pow2(j)), s);
    }
  }

  /** `computesizes`. */
  method ComputeSizes(nums: seq<int>, pna: int, ghost s: set<int>) returns (optimal: int, na: int)
    requires Candidates(s) && Counts(nums, s) && pna == |s|
    ensures Optimal(s, optimal) && na == |UpTo(s, optimal)|
  {
    hide Slice, UpTo, OptimalBefore, Optimal, Candidates;
    Pow2At31();
    var i := 0;
    var twotoi := 1;
    var a := 0;
    na, optimal := 0, 0;
    EmptyPrefix(s);
    while twotoi > 0 && pna > twotoi / 2
      invariant 0 <= i <= MAXABITS + 1
      invariant twotoi == if i <= MAXABITS then Pow2(i) else 0
      invariant a == |UpTo(s, SliceLow(i))| && na == |UpTo(s, optimal)|
      invariant OptimalBefore(s, optimal, i)
      decreases MAXABITS + 1 - i
    {
      UpToSlice(s, i);
      OptimalStep(s, optimal, i);
      SliceHalf(i);
      if nums[i] > 0 {
        a := a + nums[i];
        if a > twotoi / 2 {
          optimal := twotoi;
          na := a;
        }
      }
      if i < MAXABITS { Pow2Grows(i + 1, MAXABITS); }
      i, twotoi := i + 1, (twotoi * 2) % 0x1_0000_0000;
    }
    OptimalStop(s, optimal, i);
  }

  lemma SliceHalf(i: nat)
    ensures SliceLow(i) == Pow2(i) / 2 && SliceLow(i + 1) == Pow2(i)
  {
  }

  lemma EmptyPrefix(s: set<int>)
    requires Candidates(s)
    ensures |UpTo(s, 0)| == 0 && OptimalBefore(s, 0, 0)
  {
    assert UpTo(s, 0) == {};
  }

  function AsKeys(s: set<int>): set<Key> { set i | i in s :: IntKey(i) }

  predicate In(x: int, s: set<int>) { x in s }

  lemma NoMember(s: set<int>)
    requires forall x: int :: !In(x, s)
    ensures s == {}
  {
    forall x: int ensures x !in s {
      assert !In(x, s);
    }
  }

  lemma Pick(s: set<int>) returns (x: int)
    requires s != {}
    ensures x in s
  {
    if forall x: int :: !In(x, s) {
      NoMember(s);
      assert false;
    }
    x :| In(x, s);
  }

  lemma {:induction false} AsKeysSize(s: set<int>)
    ensures |AsKeys(s)| == |s|
  {
    if s == {} {
      assert AsKeys(s) == {};
    } else {
      var x := Pick(s);
      AsKeysSize(s - {x});
      assert AsKeys(s) == AsKeys(s - {x}) + {IntKey(x)};
    }
  }

  // ---- counting the keys of a table ----

  /** Integer keys of the live elements of the array part. */
  function ArrayInts(arr: seq<Value>): set<int> { set i | 1 <= i <= |arr| && LiveIndex(arr, i) }

  predicate LiveIndex(arr: seq<Value>, i: int)
    requires 1 <= i <= |arr|
  {
    arr[i - 1] != Nil
  }

  lemma {:induction false} ArrayIntsPrefix(arr: seq<Value>, i: nat)
    requires i < |arr|
    ensures ArrayInts(arr[..i + 1]) == ArrayInts(arr[..i]) + (if arr[i] != Nil then {i + 1} else {})
    ensures i + 1 !in ArrayInts(arr[..i])
  {
  }

  /** The inner loop of `numusearray`: counts the elements from i to lim, all in slice lg. */
  method CountSlice(arr: seq<Value>, lg: nat, i0: int, lim: int, ghost nums: seq<int>, ghost ause: int)
    returns (lc: int, i: int)
    requires lg <= MAXABITS && |nums| == MAXABITS + 1 && |arr| <= MAXASIZE
    requires 1 <= i0 == SliceLow(lg) + 1 <= lim + 1 <= |arr| + 1 && lim <= Pow2(lg)
    requires Counts(nums, ArrayInts(arr[..i0 - 1])) && ause == |ArrayInts(arr[..i0 - 1])|
    ensures i == lim + 1 && Counts(nums[lg := nums[lg] + lc], ArrayInts(arr[..i - 1]))
    ensures ause + lc == |ArrayInts(arr[..i - 1])|
  {
    hide Counts, ArrayInts;
    lc, i := 0, i0;
    assert nums[lg := nums[lg] + lc] == nums;
    while i <= lim
      invariant i0 <= i <= lim + 1 && 0 <= lc
      invariant Counts(nums[lg := nums[lg] + lc], ArrayInts(arr[..i - 1]))
      invariant ause + lc == |ArrayInts(arr[..i - 1])|
    {
      ArrayIntsPrefix(arr, i - 1);
      if arr[i - 1] != Nil {
        CountOne(nums[lg := nums[lg] + lc], ArrayInts(arr[..i - 1]), i);
        SlicesApart(i, CeilLog2(i), lg);
        assert nums[lg := nums[lg] + lc][lg := nums[lg] + lc + 1] == nums[lg := nums[lg] + (lc + 1)];
        lc := lc + 1;
      }
      i := i + 1;
    }
  }

  /** `numusearray`: counts the array part slice by slice. */
  method CountArray(arr: seq<Value>) returns (nums: seq<int>, ause: int)
    requires |arr| <= MAXASIZE
    ensures |nums| == MAXABITS + 1 && Counts(nums, ArrayInts(arr)) && ause == |ArrayInts(arr)|
  {
    hide Counts, ArrayInts;
    Pow2At31();
    CountsEmpty();
    nums := seq(MAXABITS + 1, i => 0);
    ause := 0;
    var i := 1;
    var lg := 0;
    var ttlg := 1;
    assert arr[..0] == [];
    NoArrayInts();
    while lg <= MAXABITS
      invariant 0 <= lg <= MAXABITS + 1 && ttlg == Pow2(lg)
      invariant 1 <= i <= |arr| + 1 && |nums| == MAXABITS + 1
      invariant i == SliceLow(lg) + 1 || (i == |arr| + 1 && SliceLow(lg) >= |arr|)
      invariant Counts(nums, ArrayInts(arr[..i - 1])) && ause == |ArrayInts(arr[..i - 1])|
      decreases MAXABITS + 1 - lg
    {
      var lim := ttlg;
      if lim > |arr| {
        lim := |arr|;
        if i > lim {
          break;
        }
      }
      var lc;
      lc, i := CountSlice(arr, lg, i, lim, nums, ause);
      nums := nums[lg := nums[lg] + lc];
      ause := ause + lc;
      lg, ttlg := lg + 1, ttlg * 2;
    }
    assert i == |arr| + 1;
    assert arr[..i - 1] == arr;
  }

  lemma NoArrayInts()
    ensures ArrayInts([]) == {}
  {
  }
}
