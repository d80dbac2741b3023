/** `table.sort` on integers, with the two orders that programs use most. */
module SortMeaning {
  import opened LuaSort

  function Ascending(): Order<int> { (n: nat, x: int, y: int) => x < y }

  function Descending(): Order<int> { (n: nat, x: int, y: int) => x > y }

  lemma OrdersAreStrict()
    ensures StrictWeak(Ascending()) && StrictWeak(Descending())
  {
  }

  lemma {:induction false} PowerIsEnough(n: nat)
    ensures n <= Pow2(n)
  {
    if n > 0 { PowerIsEnough(n - 1); }
  }

  /** Sorted with `<`, the elements from 1 to n ascend, and are the same elements. */
  method SortAscending(a: array<int>, n: nat, random: nat -> nat)
    requires n + 1 <= a.Length && n < INT_MAX
    modifies a
    ensures forall i, j :: 1 <= i < j <= n ==> a[i] <= a[j]
    ensures multiset(a[1..n + 1]) == multiset(old(a[1..n + 1])) && a[0] == old(a[0])
    ensures forall i :: n < i < a.Length ==> a[i] == old(a[i])
  {
    OrdersAreStrict();
    PowerIsEnough(n);
    var sorter := new Sorter(a, Ascending(), random);
    ghost var s := a[..];
    var r := sorter.Sort(n, n);
    SortedMeans(Ascending(), a[..], n);
    PermutedMeans(s, a[..], n);
  }

  /** Sorted with `>`, they descend. */
  method SortDescending(a: array<int>, n: nat, random: nat -> nat)
    requires n + 1 <= a.Length && n < INT_MAX
    modifies a
    ensures forall i, j :: 1 <= i < j <= n ==> a[i] >= a[j]
    ensures multiset(a[1..n + 1]) == multiset(old(a[1..n + 1]))
  {
    OrdersAreStrict();
    PowerIsEnough(n);
    var sorter := new Sorter(a, Descending(), random);
    ghost var s := a[..];
    var r := sorter.Sort(n, n);
    SortedMeans(Descending(), a[..], n);
    PermutedMeans(s, a[..], n);
  }

  lemma SortedMeans(less: Order<int>, s: seq<int>, n: nat)
    requires Sorted(less, s, 1, n) && n < |s|
    ensures less == Ascending() ==> forall i, j :: 1 <= i < j <= n ==> s[i] <= s[j]
    ensures less == Descending() ==> forall i, j :: 1 <= i < j <= n ==> s[i] >= s[j]
  {
  }

  lemma PermutedMeans(s: seq<int>, t: seq<int>, n: nat)
    requires Permuted(s, t, 1, n)
    ensures |s| == |t| > n && s[0] == t[0] && multiset(s[1..n + 1]) == multiset(t[1..n + 1])
    ensures forall i :: n < i < |s| ==> s[i] == t[i]
  {
    assert s[0] == s[..1][0] && t[0] == t[..1][0];
    forall i | n < i < |s| ensures s[i] == t[i] {
      assert s[i] == s[n + 1..][i - n - 1] && t[i] == t[n + 1..][i - n - 1];
    }
  }
}
