/** Steps of the collector in a row: they come to the end of the cycle, and a whole cycle frees what nothing holds. */
module GcRun {
  import opened Shared
  import opened GcState
  import opened GcMark
  import opened GcCycle
  import opened GcSurvive

  /** What one step of the collector does. From the pause it begins a cycle; any other step comes closer to the end of
      the cycle, and none lets more objects be kept. */
  ghost predicate Stepped(g0: G, g: G) {
    StepKeeps(g0, g) &&
    (if g0.state == Pause then g.state == Propagate
     else Closer(g0, g) && (g.state == Pause ==> g0.state == CallFin)) &&
    (g0.state == Propagate ==> KeepInvariant(g)) && (!KeepInvariant(g0) && g0.state != Pause ==> SweepRel(g0, g)) &&
    (g0.state != CallFin ==> Allowed(g) <= Allowed(g0))
  }

  // ---- how far it is to the pause ----

  /** A number of steps after which the cycle is over. */
  function Distance(g: G): nat {
    var n := |g.heap|;
    match g.state
    case Propagate => 8 + n + |Whites(g)| * (n + 1) + |g.gray|
    case Atomic => 7 + n
    case InsideAtomic => 6 + n
    case SwpAllGc => 5 + g.rem
    case SwpFinObj => 4
    case SwpToBeFnz => 3
    case SwpEnd => 2
    case CallFin => 1
    case Pause => 0
  }

  /** The steps of a whole cycle for n objects. */
  function CycleLength(n: nat): nat { n * (n + 1) + 2 * n + 9 }

  lemma SizesFit(g: G)
    requires Inv(g)
    ensures g.rem <= |g.heap| && |Whites(g)| <= |g.heap|
    ensures KeepInvariant(g) ==> |g.gray| <= |g.heap|
  {
    hide UpsOk, Sound, Swept;
    ListSize(g.allgc, g.heap.Keys);
    SubsetCard(Whites(g), g.heap.Keys);
    if KeepInvariant(g) { SubsetCard(g.gray, g.heap.Keys); }
  }

  lemma {:induction false} ListSize(l: seq<Ref>, k: set<Ref>)
    requires Distinct(l) && forall r :: r in l ==> r in k
    ensures |l| <= |k|
  {
    if l == [] {
    } else {
      var n := |l| - 1;
      assert l[n] in l;
      ListSize(l[..n], k - {l[n]});
    }
  }

  lemma HeapShrinks(g0: G, g: G)
    requires StepKeeps(g0, g)
    ensures g.heap.Keys <= g0.heap.Keys && |g.heap| <= |g0.heap|
  {
    hide Worn, Buried, Complete, SameUpValues, SameRoots;
    SubsetCard(g.heap.Keys, g0.heap.Keys);
  }

  lemma Product(a: nat, b: nat, c: nat, d: nat)
    requires a <= b && c <= d
    ensures a * c <= b * d
  {
    assert a * c <= b * c;
  }

  lemma CycleIsBounded(g: G)
    requires Inv(g)
    ensures Distance(g) <= CycleLength(|g.heap|)
  {
    hide Inv, Whites;
    SizesFit(g);
    Product(|Whites(g)|, |g.heap|, |g.heap| + 1, |g.heap| + 1);
    Product(0, |g.heap|, 0, |g.heap| + 1);
  }

  /** One white object fewer is worth more than the whole gray list. */
  lemma Lighter(w: nat, w0: nat, n: nat, n0: nat, y: nat, y0: nat)
    requires n <= n0 && y <= n && (w < w0 || (w == w0 && y < y0))
    ensures n + w * (n + 1) + y < n0 + w0 * (n0 + 1) + y0
  {
    Product(w, w, n + 1, n0 + 1);
    if w < w0 {
      Product(w + 1, w0, n0 + 1, n0 + 1);
      assert (w + 1) * (n0 + 1) == w * (n0 + 1) + (n0 + 1);
    }
  }

  /** Every step outside the pause brings it nearer. */
  lemma StepNearer(g0: G, g: G)
    requires Inv(g0) && Inv(g) && Stepped(g0, g) && g0.state != Pause
    ensures Distance(g) < Distance(g0)
  {
    hide Inv, StepKeeps, Allowed, SweepRel, Whites, KeepInvariant;
    SizesFit(g0);
    SizesFit(g);
    HeapShrinks(g0, g);
    CloserMeans(g0, g);
    if g.state == Propagate {
      MarkingNearer(g0, g);
    } else if g0.state == Propagate {
      Product(0, |Whites(g0)|, 0, |g0.heap| + 1);
    }
  }

  lemma MarkingNearer(g0: G, g: G)
    requires Closer(g0, g) && g.state == Propagate && |g.heap| <= |g0.heap| && |g.gray| <= |g.heap|
    ensures g0.state == Propagate && Distance(g) < Distance(g0)
  {
    hide Whites;
    if Whites(g) < Whites(g0) {
      SmallerSet(Whites(g), Whites(g0));
    } else {
      SmallerSet(g.gray, g0.gray);
    }
    Lighter(|Whites(g)|, |Whites(g0)|, |g.heap|, |g0.heap|, |g.gray|, |g0.gray|);
  }

  lemma SmallerSet(a: set<Ref>, b: set<Ref>)
    requires a < b
    ensures |a| < |b|
  {
    var x :| x in b && x !in a;
    SubsetCard(a, b - {x});
  }

  // ---- steps in a row ----

  ghost predicate Steps(trace: seq<G>) {
    |trace| > 0 && (forall i :: 0 <= i < |trace| ==> Inv(trace[i])) &&
    forall i :: 0 < i < |trace| ==> Stepped(trace[i - 1], trace[i])
  }

  lemma StepsAt(trace: seq<G>)
    requires Steps(trace) && |trace| > 1
    ensures Inv(trace[0]) && Inv(trace[1]) && Stepped(trace[0], trace[1]) && Steps(trace[1..])
  {
    hide Inv, Stepped;
    assert Stepped(trace[1 - 1], trace[1]);
    forall i | 0 < i < |trace[1..]| ensures Stepped(trace[1..][i - 1], trace[1..][i]) {
      assert Stepped(trace[i + 1 - 1], trace[i + 1]);
    }
  }

  /** Whatever the state, enough steps come to the pause. */
  lemma {:induction false} StepsReachPause(trace: seq<G>) returns (n: nat)
    requires Steps(trace) && |trace| > Distance(trace[0])
    ensures n <= Distance(trace[0]) && trace[n].state == Pause
    decreases |trace|
  {
    hide Inv, Stepped, Distance, Steps;
    n := 0;
    if trace[0].state != Pause {
      MoreThanNone(trace[0]);
      StepsAt(trace);
      StepNearer(trace[0], trace[1]);
      n := StepsReachPause(trace[1..]);
      n := n + 1;
    }
  }

  lemma MoreThanNone(g: G)
    ensures g.state != Pause ==> Distance(g) > 0
  {
  }

  /** What a whole cycle has done when it is over: nothing is left outside any set that could be kept at its beginning,
      and all that has to be left is. */
  ghost predicate Collected(g0: G, g: G) {
    (forall keep :: Keepable(g0, keep) ==> g.heap.Keys <= keep) && Complete(g0, g.heap.Keys, {}) && Survives(g0, g, {})
  }

  /** On the way. */
  ghost predicate Underway(g0: G, g: G) { Course(g0, g) && Allowed(g) <= Allowed(g0) && g.state != Pause }

  lemma CycleBegins(g0: G, g: G)
    requires Inv(g0) && g0.state == Pause && Stepped(g0, g)
    ensures Underway(g0, g)
  {
    SurvivesSelf(g0);
    hide Inv, StepKeeps, Course, Allowed, Survives, Untouched;
    CourseBegins(g0, g0, g);
  }

  lemma CycleGoes(g0: G, g1: G, g: G)
    requires Underway(g0, g1) && Inv(g1) && Inv(g) && Stepped(g1, g) && g.state != Pause
    ensures Underway(g0, g)
  {
    NotCallFin(g1, g);
    hide Inv, StepKeeps, Course, Allowed, SweepRel, Closer;
    CourseGoes(g0, g1, g);
  }

  lemma NotCallFin(g0: G, g: G)
    requires Closer(g0, g) && g.state != Pause
    ensures g0.state != CallFin
  {
  }

  lemma CycleEnds(g0: G, g1: G, g: G)
    requires Inv(g0) && g0.state == Pause && Underway(g0, g1) && Inv(g1) && Inv(g) && Stepped(g1, g) && g.state == Pause
    ensures Collected(g0, g)
  {
    LastStep(g1, g);
    hide StepKeeps, Course, Allowed, SweepRel, Closer, Inv;
    CourseGoes(g0, g1, g);
    CourseEnds(g0, g);
    forall keep | Keepable(g0, keep) ensures g.heap.Keys <= keep {
      PauseAllows(g0, keep);
    }
  }

  lemma LastStep(g1: G, g: G)
    requires Inv(g1) && Stepped(g1, g) && g1.state == CallFin
    ensures g.heap.Keys <= Allowed(g1)
  {
    NoDead(g1);
    HeapShrinks(g1, g);
  }

  lemma PauseAllows(g: G, keep: set<Ref>)
    requires g.state == Pause && Keepable(g, keep)
    ensures Allowed(g) <= keep
  {
    AllowedLeast(g, keep);
  }

  /** A whole cycle: from the pause, enough steps come back to it and have collected. */
  lemma {:induction false} CycleCollects(trace: seq<G>) returns (n: nat)
    requires Steps(trace) && trace[0].state == Pause && |trace| > 1 + CycleLength(|trace[0].heap|)
    ensures 0 < n <= 1 + CycleLength(|trace[0].heap|) && trace[n].state == Pause && Collected(trace[0], trace[n])
  {
    hide Inv, Stepped, Distance, Steps, Underway, CycleLength;
    StepsAt(trace);
    CycleBegins(trace[0], trace[1]);
    FirstStep(trace[0], trace[1]);
    n := CycleRuns(trace[0], trace[1..]);
    n := n + 1;
  }

  lemma FirstStep(g0: G, g: G)
    requires Inv(g0) && Inv(g) && Stepped(g0, g)
    ensures Distance(g) <= CycleLength(|g0.heap|)
  {
    hide Inv, StepKeeps, Allowed, SweepRel, Distance;
    CycleIsBounded(g);
    HeapShrinks(g0, g);
    Product(|g.heap|, |g0.heap|, |g.heap| + 1, |g0.heap| + 1);
  }

  lemma {:induction false} CycleRuns(g0: G, trace: seq<G>) returns (n: nat)
    requires Inv(g0) && g0.state == Pause && Steps(trace) && Underway(g0, trace[0]) && |trace| > Distance(trace[0])
    ensures n <= Distance(trace[0]) && trace[n].state == Pause && Collected(g0, trace[n])
    decreases |trace|
  {
    hide Inv, Stepped, Distance, Steps, Underway, Collected;
    NotPaused(g0, trace[0]);
    MoreThanNone(trace[0]);
    StepsAt(trace);
    StepNearer(trace[0], trace[1]);
    if trace[1].state == Pause {
      CycleEnds(g0, trace[0], trace[1]);
      n := 1;
    } else {
      CycleGoes(g0, trace[0], trace[1]);
      n := CycleRuns(g0, trace[1..]);
      n := n + 1;
    }
  }

  lemma NotPaused(g0: G, g: G)
    requires Underway(g0, g)
    ensures g.state != Pause
  {
  }
}
