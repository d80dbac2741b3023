/** The whole cycle: the invariant between steps, sweeping, and what a program may rely on. */
module GcCycle {
  import opened GcState
  import opened GcMark
  import opened GcTraverse
  import opened GcAtomic

  /** The program runs between steps. */
  function Idling(): Phase { Phase({}, false, {}) }

  /** Objects that the sweep has passed are white again. */
  ghost predicate Swept(g: G) {
    (forall i :: 0 <= i < |g.allgc| - g.rem ==> g.allgc[i] in g.mark && g.mark[g.allgc[i]] == White(g.white)) &&
    (g.state == CallFin || g.state == Pause ==> g.main in g.mark && g.mark[g.main] == White(g.white))
  }

  /** The invariant while the program runs: nothing dangles; while marking, the tri-colour invariant; and
      while sweeping, what has been swept is white. */
  ghost predicate Inv(g: G) {
    Shape(g) && UpsOk(g, {}) && Sound(g) && g.state != InsideAtomic && (g.state != SwpAllGc ==> g.rem == 0) &&
    if KeepInvariant(g) then
      MarkInv(g, {}, Idling()) && Marked(g, g.main) && (g.state == Propagate ==> g.gray != {})
    else
      Swept(g)
  }

  // ---- safety ----

  /** The values that an object refers to itself, strongly or weakly. */
  function Vals(o: Obj): seq<Value> {
    match o
    case Str => []
    case Udata(mt, uv) => [mt, uv]
    case Closure(fs, _) => fs
    case Table(_, mt, arr, hash) =>
      [mt] + arr + seq(|hash|, i requires 0 <= i < |hash| => hash[i].key) +
        seq(|hash|, i requires 0 <= i < |hash| => hash[i].val)
    case Thread(st) => st
    case Proto(rs, cache) => rs + [cache]
  }

  /** What the program can get hold of through an object: its values, and those of its upvalues. */
  ghost predicate Holds(g: G, o: Obj, v: Value) {
    v in Vals(o) || (o.Closure? &&
        exists i :: 0 <= i < |o.upvals| && o.upvals[i] < |g.ups| && v == UpValue(g, g.ups[o.upvals[i]]))
  }

  ghost predicate Root(g: G, v: Value) { v == Gc(g.main) || v == Gc(g.running) || v == g.registry || v in g.mts }

  /** A program can get hold of the last value of the path: each is held by the object before, the first is a root. */
  ghost predicate Path(g: G, p: seq<Value>) {
    |p| > 0 && Root(g, p[0]) && forall i :: 0 < i < |p| ==> HeldBefore(g, p, i)
  }

  ghost predicate HeldBefore(g: G, p: seq<Value>, i: nat) {
    0 < i < |p| && p[i - 1].Gc? && p[i - 1].r in g.heap && Holds(g, g.heap[p[i - 1].r], p[i])
  }

  ghost predicate Accessible(g: G, v: Value) { exists p :: Path(g, p) && p[|p| - 1] == v }

  lemma TableVals(o: Obj)
    requires o.Table?
    ensures forall x :: x in Vals(o) <==>
              x == o.tmt || x in o.arr || exists i :: 0 <= i < |o.hash| && (x == o.hash[i].key || x == o.hash[i].val)
  {
    var ks := seq(|o.hash|, i requires 0 <= i < |o.hash| => o.hash[i].key);
    var vs := seq(|o.hash|, i requires 0 <= i < |o.hash| => o.hash[i].val);
    assert Vals(o) == [o.tmt] + o.arr + ks + vs;
    forall x
      ensures x in ks || x in vs <==> exists i :: 0 <= i < |o.hash| && (x == o.hash[i].key || x == o.hash[i].val)
    {
      if i :| 0 <= i < |o.hash| && (x == o.hash[i].key || x == o.hash[i].val) {
        assert x == ks[i] || x == vs[i];
      }
    }
  }

  lemma ValsLive(g: G, o: Obj)
    ensures RefsLive(g, o) <==>
            (forall x :: x in Vals(o) ==> Live(g, x)) &&
            (o.Closure? ==> forall i :: 0 <= i < |o.upvals| ==> UpLive(g, o.upvals[i]))
  {
    match o
    case Udata(mt, uv) => assert mt in Vals(o) && uv in Vals(o);
    case Table(_, mt, arr, hash) =>
      TableVals(o);
      if forall x :: x in Vals(o) ==> Live(g, x) {
        forall i | 0 <= i < |hash|
          ensures EntryLive(g, hash[i])
        {
          assert hash[i].key in Vals(o) && hash[i].val in Vals(o);
        }
        forall i | 0 <= i < |arr| ensures Live(g, arr[i]) { assert arr[i] in Vals(o); }
        assert mt in Vals(o);
      } else if RefsLive(g, o) {
        forall x | x in Vals(o) ensures Live(g, x) {
          if i :| 0 <= i < |hash| && (x == hash[i].key || x == hash[i].val) { assert EntryLive(g, hash[i]); }
        }
      }
    case Proto(rs, cache) =>
      assert cache in Vals(o);
      assert forall i :: 0 <= i < |rs| ==> rs[i] in Vals(o);
    case _ =>
  }

  lemma HeldIsLive(g: G, o: Obj, v: Value)
    requires RefsLive(g, o) && Holds(g, o, v)
    ensures Live(g, v)
  {
    ValsLive(g, o);
    if v !in Vals(o) {
      var i :| 0 <= i < |o.upvals| && o.upvals[i] < |g.ups| && v == UpValue(g, g.ups[o.upvals[i]]);
      assert UpLive(g, o.upvals[i]);
    }
  }

  lemma {:induction false} PathIsLive(g: G, p: seq<Value>)
    requires Sound(g) && Path(g, p)
    ensures Live(g, p[|p| - 1])
    decreases |p|
  {
    if |p| > 1 {
      var q := p[..|p| - 1];
      assert Path(g, q) by {
        forall i | 0 < i < |q| ensures HeldBefore(g, q, i) { assert HeldBefore(g, p, i); }
      }
      PathIsLive(g, q);
      var i := |p| - 1;
      assert HeldBefore(g, p, i);
      HeldIsLive(g, g.heap[p[i - 1].r], p[i]);
    }
  }

  /** Nothing that a program can reach has been freed, or is about to be: every accessible object is in the
      heap, and not dead. */
  lemma AccessibleIsAllocated(g: G, v: Value)
    requires Inv(g) && Accessible(g, v)
    ensures v.Gc? ==> v.r in g.heap && !Dead(g, v.r)
  {
    var p :| Path(g, p) && p[|p| - 1] == v;
    PathIsLive(g, p);
  }

  // ---- sweeping ----

  /** Between two objects of a sweep. */
  ghost predicate Sweeping(g: G) {
    Shape(g) && UpsOk(g, {}) && Sound(g) && !KeepInvariant(g) && g.state != InsideAtomic && Swept(g)
  }

  lemma RefsSame(g: G, g': G, o: Obj)
    requires RefsLive(g, o) && |g'.ups| == |g.ups|
    requires forall v :: Live(g, v) ==> Live(g', v)
    requires forall i :: 0 <= i < |g.ups| && Live(g, UpValue(g, g.ups[i])) ==>
                 UpValue(g', g'.ups[i]) == UpValue(g, g.ups[i])
    ensures RefsLive(g', o)
  {
    match o
    case Closure(_, us) =>
      forall i | 0 <= i < |us| ensures UpLive(g', us[i]) { assert UpLive(g, us[i]); }
    case Table(_, _, _, hash) =>
      forall i | 0 <= i < |hash| ensures EntryLive(g', hash[i]) { assert EntryLive(g, hash[i]); }
    case _ =>
  }

  /** An object that is not dead turns white. */
  lemma Whiten(g: G, c: Ref)
    requires Sweeping(g) && g.rem > 0 && c == g.allgc[|g.allgc| - g.rem] && !Dead(g, c)
    ensures c in g.heap && Sweeping(g.(mark := g.mark[c := White(g.white)], rem := g.rem - 1))
  {
    hide RefsLive, Shape, UpsOk, Sound, Swept;
    var g' := g.(mark := g.mark[c := White(g.white)], rem := g.rem - 1);
    FreedParts(g);
    WhitenShape(g, c);
    assert forall r :: (Allocated(g', r) <==> Allocated(g, r)) && (Dead(g', r) <==> Dead(g, r));
    SameUps(g, g');
    SameSound(g, g');
  }

  lemma WhitenShape(g: G, c: Ref)
    requires Shape(g) && Swept(g) && 0 < g.rem <= |g.allgc| && c == g.allgc[|g.allgc| - g.rem]
    ensures c in g.heap && Shape(g.(mark := g.mark[c := White(g.white)], rem := g.rem - 1))
    ensures Swept(g.(mark := g.mark[c := White(g.white)], rem := g.rem - 1))
  {
    assert c in g.allgc;
  }

  lemma SameSound(g: G, g': G)
    requires Sound(g) && g'.ups == g.ups && g'.heap == g.heap && g'.main == g.main && g'.running == g.running
    requires g'.registry == g.registry && g'.mts == g.mts
    requires forall r :: Allocated(g', r) <==> Allocated(g, r)
    ensures Sound(g')
  {
    hide RefsLive;
    assert forall v :: Live(g', v) <==> Live(g, v);
    assert forall i :: 0 <= i < |g.ups| ==> UpValue(g', g'.ups[i]) == UpValue(g, g.ups[i]);
    forall r | Allocated(g', r) ensures RefsLive(g', g'.heap[r]) {
      RefsSame(g, g', g.heap[r]);
    }
  }

  lemma SameUps(g: G, g': G)
    requires UpsOk(g, {}) && g'.ups == g.ups && g'.heap == g.heap && g'.twups == g.twups && g.state != InsideAtomic
    requires forall r :: Allocated(g', r) <==> Allocated(g, r)
    requires forall r :: Dead(g', r) <==> Dead(g, r)
    ensures UpsOk(g', {})
  {
    forall i | 0 <= i < |g'.ups| ensures SlotOf(g', g'.ups[i]) { assert SlotOf(g, g.ups[i]); }
    forall i | 0 <= i < |g'.ups| && g'.ups[i].Open?
      ensures Waiting(g', {}, g'.ups[i].th)
    {
      assert Waiting(g, {}, g.ups[i].th);
    }
  }

  /** What closing all upvalues of a thread makes of them. */
  function CloseThread(g: G, th: Ref): (us: seq<UpVal>)
    ensures |us| == |g.ups|
    ensures forall i :: 0 <= i < |us| ==>
                us[i] == if g.ups[i].Open? && g.ups[i].th == th then Closed(UpValue(g, g.ups[i])) else g.ups[i]
  {
    seq(|g.ups|, i requires 0 <= i < |g.ups| => if g.ups[i].Open? && g.ups[i].th == th then
          Closed(UpValue(g, g.ups[i])) else g.ups[i])
  }

  function Without(s: seq<Ref>, k: nat): seq<Ref>
    requires k < |s|
  {
    s[..k] + s[k + 1..]
  }

  lemma WithoutOne(s: seq<Ref>, k: nat)
    requires Distinct(s) && k < |s|
    ensures Distinct(Without(s, k)) && forall r :: r in Without(s, k) <==> r in s && r != s[k]
  {
    var w := Without(s, k);
    forall i, j | 0 <= i < j < |w| ensures w[i] != w[j] {
      assert w[i] == s[if i < k then i else i + 1] && w[j] == s[if j < k then j else j + 1];
    }
    forall r ensures r in w <==> r in s && r != s[k] {
      if r in w {
        var i :| 0 <= i < |w| && w[i] == r;
        assert r == s[if i < k then i else i + 1];
      }
      if r in s && r != s[k] {
        var i :| 0 <= i < |s| && s[i] == r;
        assert w[if i < k then i else i - 1] == r;
      }
    }
  }

  function Freed(g: G, c: Ref): G
    requires 0 < g.rem <= |g.allgc|
  {
    g.(heap := g.heap - {c}, mark := g.mark - {c}, ups := CloseThread(g, c),
        allgc := Without(g.allgc, |g.allgc| - g.rem), rem := g.rem - 1)
  }

  /** A dead object can be freed: no live object refers to it, and upvalues leave its stack before it goes. */
  lemma Free(g: G, c: Ref)
    requires Sweeping(g) && g.rem > 0 && c == g.allgc[|g.allgc| - g.rem] && Dead(g, c)
    ensures Sweeping(Freed(g, c))
  {
    hide Shape, UpsOk, Sound, Swept;
    SoundRoots(g);
    FreedParts(g);
    FreedShape(g, c);
    FreedUps(g, c);
    FreedSound(g, c);
    FreedSwept(g, c);
  }

  lemma SoundRoots(g: G)
    requires Sound(g)
    ensures Allocated(g, g.main) && Allocated(g, g.running) && Live(g, g.registry) && AllLive(g, g.mts)
  {
  }

  lemma FreedParts(g: G)
    requires Shape(g)
    ensures g.rem <= |g.allgc| && g.mark.Keys == g.heap.Keys
  {
  }

  lemma FreedShape(g: G, c: Ref)
    requires Shape(g) && 0 < g.rem <= |g.allgc| && c == g.allgc[|g.allgc| - g.rem] && Dead(g, c)
    requires Allocated(g, g.running)
    ensures Shape(Freed(g, c))
  {
    WithoutOne(g.allgc, |g.allgc| - g.rem);
    assert c in g.allgc;
  }

  lemma FreedSwept(g: G, c: Ref)
    requires Shape(g) && Swept(g) && 0 < g.rem <= |g.allgc| && c == g.allgc[|g.allgc| - g.rem] && Dead(g, c)
    ensures Swept(Freed(g, c))
  {
    var k := |g.allgc| - g.rem;
    var g' := Freed(g, c);
    forall i | 0 <= i < |g'.allgc| - g'.rem ensures g'.allgc[i] in g'.mark && g'.mark[g'.allgc[i]] == White(g'.white) {
      assert g'.allgc[i] == g.allgc[i];
    }
  }

  lemma FreedUps(g: G, c: Ref)
    requires UpsOk(g, {}) && 0 < g.rem <= |g.allgc| && Dead(g, c) && g.state != InsideAtomic
    ensures UpsOk(Freed(g, c), {})
  {
    var g' := Freed(g, c);
    forall i | 0 <= i < |g'.ups| ensures SlotOf(g', g'.ups[i]) { assert SlotOf(g, g.ups[i]); }
    forall i | 0 <= i < |g'.ups| && g'.ups[i].Open?
      ensures Waiting(g', {}, g'.ups[i].th)
    {
      assert Waiting(g, {}, g.ups[i].th);
    }
    forall r | r in g'.twups ensures Allocated(g', r) && g'.heap[r].Thread? { assert Allocated(g, r); }
  }

  lemma FreedSound(g: G, c: Ref)
    requires Sound(g) && UpsOk(g, {}) && 0 < g.rem <= |g.allgc| && Dead(g, c)
    ensures Sound(Freed(g, c))
  {
    hide RefsLive;
    var g' := Freed(g, c);
    assert forall r :: Allocated(g', r) <==> Allocated(g, r);
    assert forall v :: Live(g', v) <==> Live(g, v);
    FreedValues(g, c);
    forall r | Allocated(g', r) ensures RefsLive(g', g'.heap[r]) {
      RefsSame(g, g', g.heap[r]);
    }
  }

  lemma FreedValues(g: G, c: Ref)
    requires 0 < g.rem <= |g.allgc|
    ensures var g' := Freed(g, c); forall i :: 0 <= i < |g.ups| ==> UpValue(g', g'.ups[i]) == UpValue(g, g.ups[i])
  {
  }

  /** What a sweep does: it frees dead objects and nothing else, and closes upvalues of freed threads. */
  ghost predicate SweepRel(g0: G, g: G) {
    g == g0.(heap := g.heap, mark := g.mark, ups := g.ups, allgc := g.allgc, rem := g.rem, state := g.state) &&
    (forall r :: r in g.heap ==> r in g0.heap && g.heap[r] == g0.heap[r]) &&
    (forall r :: r in g0.heap && r !in g.heap ==> Dead(g0, r)) &&
    (forall r :: r in g.heap ==> (Dead(g, r) <==> Dead(g0, r))) &&
    |g.ups| == |g0.ups| && (forall i :: 0 <= i < |g.ups| ==> g.ups[i] == g0.ups[i] || g.ups[i].Closed?) &&
    forall i :: 0 <= i < |g.ups| ==> UpValue(g, g.ups[i]) == UpValue(g0, g0.ups[i])
  }

  lemma SweepTrans(g0: G, g1: G, g2: G)
    requires SweepRel(g0, g1) && SweepRel(g1, g2)
    ensures SweepRel(g0, g2)
  {
    hide UpValue;
  }

  lemma SweepSelf(g: G)
    ensures SweepRel(g, g)
  {
    hide UpValue;
  }

  lemma WhitenRel(g: G, c: Ref)
    requires !Dead(g, c) && c in g.mark && g.rem > 0
    ensures SweepRel(g, g.(mark := g.mark[c := White(g.white)], rem := g.rem - 1))
  {
    assert forall i :: 0 <= i < |g.ups| ==>
          UpValue(g.(mark := g.mark[c := White(g.white)], rem := g.rem - 1), g.ups[i]) == UpValue(g, g.ups[i]);
  }

  lemma FreeRel(g: G, c: Ref)
    requires Dead(g, c) && 0 < g.rem <= |g.allgc|
    ensures SweepRel(g, Freed(g, c))
  {
    FreedValues(g, c);
  }

  lemma StateRel(g: G, st: State)
    ensures SweepRel(g, g.(state := st))
  {
    assert forall i :: 0 <= i < |g.ups| ==> UpValue(g.(state := st), g.ups[i]) == UpValue(g, g.ups[i]);
  }

  ghost predicate NonDeadIn(g: G, s: Bounds) { forall r :: r in g.heap && !Dead(g, r) ==> r in s.keep }

  lemma SweepIn(g0: G, g: G, s: Bounds)
    requires SweepRel(g0, g) && NonDeadIn(g0, s)
    ensures NonDeadIn(g, s)
  {
  }

  /** The metatables of tables that wait in `allweak` count as well. */
  ghost predicate KeepStrict(g: G, s: Bounds) { KeepSet(g.(allweak := {}), s) }

  lemma KeepSwept(g0: G, g: G, s: Bounds)
    requires SweepRel(g0, g) && KeepStrict(g0, s)
    ensures KeepStrict(g, s)
  {
    hide KeepsIn, UpValue;
    var h0, h := g0.(allweak := {}), g.(allweak := {});
    assert forall i :: 0 <= i < |g.ups| ==> UpValue(h, h.ups[i]) == UpValue(h0, h0.ups[i]) by { SweepValues(g0, g); }
    forall r | r in s.keep && r in h.heap ensures KeepsIn(h, s, r, h.heap[r]) {
      KeepsSwept(h0, h, s, r);
    }
  }

  lemma SweepValues(g0: G, g: G)
    requires SweepRel(g0, g)
    ensures var h0, h := g0.(allweak := {}), g.(allweak := {});
            forall i :: 0 <= i < |g.ups| ==> UpValue(h, h.ups[i]) == UpValue(h0, h0.ups[i])
  {
    var h0, h := g0.(allweak := {}), g.(allweak := {});
    forall i | 0 <= i < |g.ups| ensures UpValue(h, h.ups[i]) == UpValue(h0, h0.ups[i]) {
      assert UpValue(g, g.ups[i]) == UpValue(g0, g0.ups[i]);
    }
  }

  lemma KeepsSwept(g0: G, g: G, s: Bounds, r: Ref)
    requires r in g.heap && r in g0.heap && g.heap[r] == g0.heap[r] && KeepsIn(g0, s, r, g0.heap[r])
    requires |g.ups| == |g0.ups|
    requires forall q :: q in g.heap ==> q in g0.heap && g.heap[q] == g0.heap[q]
    requires g0.allweak <= g.allweak && forall i :: 0 <= i < |g.ups| ==> UpValue(g, g.ups[i]) == UpValue(g0, g0.ups[i])
    ensures KeepsIn(g, s, r, g.heap[r])
  {
    hide UpValue;
    match g.heap[r]
    case Closure(_, us) =>
      forall i | 0 <= i < |us| && us[i] < |g.ups| ensures InS(s, UpValue(g, g.ups[us[i]])) {
        assert UpValue(g, g.ups[us[i]]) == UpValue(g0, g0.ups[us[i]]);
      }
    case Table(mode, _, arr, hash) =>
      assert forall v :: IsString(g, v) ==> IsString(g0, v);
      forall i | 0 <= i < |hash| ensures EntryKeeps(g, s, mode, hash[i]) { assert EntryKeeps(g0, s, mode, hash[i]); }
      forall i | 0 <= i < |arr| ensures StrongOrString(g, s, mode == WeakValue || mode == AllWeak, arr[i]) {
        assert StrongOrString(g0, s, mode == WeakValue || mode == AllWeak, arr[i]);
      }
    case _ =>
  }

  // ---- from phase to phase ----

  /** What is known of a set that bounds the collection, phase by phase. */
  ghost predicate Prec(g: G, s: Bounds) {
    s.lost == {} &&
    if KeepInvariant(g) then Bound(g, s) else if g.state == Pause then KeepStrict(g, s) else NonDeadIn(g, s)
  }

  ghost predicate MaySweep(g: G) {
    Shape(g) && UpsOk(g, {}) && Sound(g) &&
    (g.state == InsideAtomic ==> g.gray == {} && forall r :: r in g.heap && !Dead(g, r) ==> Marked(g, r))
  }

  lemma StartSweep(g: G)
    requires MaySweep(g)
    ensures Sweeping(g.(state := SwpAllGc, rem := |g.allgc|))
  {
    hide RefsLive;
    var g' := g.(state := SwpAllGc, rem := |g.allgc|);
    assert forall r :: (Allocated(g', r) <==> Allocated(g, r)) && (Dead(g', r) <==> Dead(g, r));
    SameSound(g, g');
    forall i | 0 <= i < |g'.ups| ensures SlotOf(g', g'.ups[i]) { assert SlotOf(g, g.ups[i]); }
    forall i | 0 <= i < |g'.ups| && g'.ups[i].Open? ensures Waiting(g', {}, g'.ups[i].th) {
      assert SlotOf(g, g.ups[i]) && Waiting(g, {}, g.ups[i].th);
    }
  }

  lemma FlippedSweeps(g: G, s: Bounds)
    requires Flipped(g, s) && s.lost == {}
    ensures MaySweep(g) && NonDeadIn(g, s)
  {
  }

  lemma InvSweeps(g: G)
    requires Inv(g)
    ensures MaySweep(g)
  {
  }

  lemma SweepNext(g: G, st: State)
    requires Sweeping(g) && g.rem == 0 && (st == SwpFinObj || st == SwpToBeFnz || st == SwpEnd)
    ensures Inv(g.(state := st))
  {
    SameState(g, st);
  }

  lemma SameState(g: G, st: State)
    requires Shape(g) && UpsOk(g, {}) && Sound(g) && g.state != InsideAtomic && st != InsideAtomic
    ensures Shape(g.(state := st)) && UpsOk(g.(state := st), {}) && Sound(g.(state := st))
  {
    hide RefsLive;
    var g' := g.(state := st);
    assert forall r :: (Allocated(g', r) <==> Allocated(g, r)) && (Dead(g', r) <==> Dead(g, r));
    SameSound(g, g');
    SameUps(g, g');
  }

  lemma SweepingInv(g: G)
    requires Sweeping(g) && g.state == SwpAllGc
    ensures Inv(g)
  {
  }

  lemma InvSweeping(g: G)
    requires Inv(g) && IsSweepPhase(g)
    ensures Sweeping(g)
  {
  }

  /** `GCSswpend`: the main thread is swept. */
  lemma SweepMain(g: G)
    requires Inv(g) && g.state == SwpEnd
    ensures var g' := g.(mark := g.mark[g.main := White(g.white)], state := CallFin); Inv(g') && SweepRel(g, g')
  {
    hide RefsLive, SweepRel, Shape, UpsOk, Sound;
    MainWhite(g);
    var g1 := g.(mark := g.mark[g.main := White(g.white)]);
    SameState(g1, CallFin);
    StateRel(g1, CallFin);
    SweepTrans(g, g1, g1.(state := CallFin));
  }

  lemma MainWhite(g: G)
    requires Shape(g) && UpsOk(g, {}) && Sound(g) && Swept(g) && g.state == SwpEnd
    ensures var g1 := g.(mark := g.mark[g.main := White(g.white)]);
            Shape(g1) && UpsOk(g1, {}) && Sound(g1) && SweepRel(g, g1) && Swept(g1)
  {
    hide RefsLive;
    var g1 := g.(mark := g.mark[g.main := White(g.white)]);
    assert forall r :: (Allocated(g1, r) <==> Allocated(g, r)) && (Dead(g1, r) <==> Dead(g, r));
    SameSound(g, g1);
    SameUps(g, g1);
    assert forall i :: 0 <= i < |g.ups| ==> UpValue(g1, g1.ups[i]) == UpValue(g, g.ups[i]);
  }

  lemma Finish(g: G)
    requires Inv(g) && g.state == CallFin
    ensures Inv(g.(state := Pause)) && SweepRel(g, g.(state := Pause)) && NoneDead(g)
  {
    SameState(g, Pause);
    StateRel(g, Pause);
    NoDead(g);
  }

  /** Once everything has been swept nothing is dead, and nothing is marked but fixed strings. */
  lemma NoDead(g: G)
    requires Inv(g) && (g.state == CallFin || g.state == Pause)
    ensures NoneDead(g) && forall r :: Marked(g, r) ==> r in g.fixed
  {
    forall r | r in g.mark ensures !Dead(g, r) && (Marked(g, r) ==> r in g.fixed) {
      if r in g.allgc {
        var i :| 0 <= i < |g.allgc| && g.allgc[i] == r;
      }
    }
  }

  function Emptied(g: G): G { g.(gray := {}, grayagain := {}, weak := {}, allweak := {}, ephemeron := {}) }

  /** A new cycle starts with empty lists, and everything white. */
  lemma Restarted(g: G, s: Bounds)
    requires Inv(g) && g.state == Pause && KeepStrict(g, s)
    ensures Marking(Emptied(g), {}, Idling(), s)
  {
    hide RefsLive, KeepsIn;
    NoDead(g);
    var g' := Emptied(g);
    assert forall r :: (Allocated(g', r) <==> Allocated(g, r)) && (Dead(g', r) <==> Dead(g, r));
    SameSound(g, g');
    SameUps(g, g');
    forall r | r in g'.heap ensures Ok(g', Idling(), r) {
      if Marked(g, r) { assert g.heap[r] == Str; }
    }
    RestartKeep(g, s);
  }

  lemma RestartKeep(g: G, s: Bounds)
    requires KeepStrict(g, s) && forall r :: Marked(g, r) ==> r in g.fixed
    ensures Bound(Emptied(g), s)
  {
    hide KeepsIn;
    var g0, g' := g.(allweak := {}), Emptied(g);
    forall r | r in s.keep && r in g'.heap ensures KeepsIn(g', s, r, g'.heap[r]) {
      KeepsSame(g0, g', s, r);
    }
  }

  /** Marking does not depend on the state, but for the atomic phase. */
  lemma MarkState(g: G, st: State, ph: Phase, s: Bounds)
    requires Marking(g, {}, ph, s) && g.state != InsideAtomic && st != InsideAtomic
    ensures Marking(g.(state := st), {}, ph, s)
  {
    hide RefsLive, KeepsIn, Ok, Shape, UpsOk, Sound;
    var g' := g.(state := st);
    SameState(g, st);
    assert forall r :: Dead(g', r) <==> Dead(g, r);
    assert forall r :: InList(g', ph, r) <==> InList(g, ph, r);
    forall r | r in g'.heap ensures Ok(g', ph, r) {
      assert Ok(g, ph, r);
      OkState(g, st, ph, r);
    }
    StateKeep(g, st, s);
  }

  lemma StateKeep(g: G, st: State, s: Bounds)
    requires KeepSet(g, s)
    ensures KeepSet(g.(state := st), s)
  {
    hide KeepsIn;
    var g' := g.(state := st);
    forall r | r in s.keep && r in g'.heap ensures KeepsIn(g', s, r, g'.heap[r]) {
      KeepsSame(g, g', s, r);
    }
  }

  lemma OkState(g: G, st: State, ph: Phase, r: Ref)
    requires Ok(g, ph, r) && g.state != InsideAtomic && st != InsideAtomic
    ensures Ok(g.(state := st), ph, r)
  {
    var g' := g.(state := st);
    if g.mark[r] == Black && g.heap[r].Closure? {
      var us := g.heap[r].upvals;
      forall i | 0 <= i < |us| && us[i] < |g'.ups|
        ensures UpCovered(g', g'.ups[us[i]])
      {
        assert UpCovered(g, g.ups[us[i]]);
      }
    }
  }

  function Rank(st: State): nat {
    match st
    case Propagate => 8 case Atomic => 7 case InsideAtomic => 6 case SwpAllGc => 5 case SwpFinObj => 4
    case SwpToBeFnz => 3 case SwpEnd => 2 case CallFin => 1 case Pause => 0
  }

  /** Every step towards the pause gets closer to it. */
  ghost predicate Closer(g0: G, g: G) {
    Rank(g.state) < Rank(g0.state) ||
    (g.state == g0.state == Propagate && (Whites(g) < Whites(g0) || (Whites(g) == Whites(g0) && g.gray < g0.gray))) ||
    (g.state == g0.state == SwpAllGc && g.gray == g0.gray && g.rem < g0.rem)
  }

  /** The heap itself is a set that a collection may keep. */
  lemma HeapKeeps(g: G)
    requires Inv(g)
    ensures Prec(g, Bounds(g.heap.Keys, {}))
  {
    if KeepInvariant(g) {
      KeepAll(g, g.allweak);
    } else if g.state == Pause {
      NoDead(g);
      KeepAll(g, {});
    }
  }

  lemma KeepAll(g: G, l: set<Ref>)
    requires Shape(g) && UpsOk(g, {}) && Sound(g) && NoneDead(g)
    ensures KeepSet(g.(allweak := l), Bounds(g.heap.Keys, {}))
  {
    var g' := g.(allweak := l);
    forall r | r in g'.heap ensures KeepsIn(g', Bounds(g.heap.Keys, {}), r, g'.heap[r]) {
      assert Allocated(g, r) && RefsLive(g, g.heap[r]);
      LiveKeeps(g, g', r);
    }
    forall i | 0 <= i < |g'.ups| && g'.ups[i].Open? ensures g'.ups[i].th in g.heap { assert SlotOf(g, g.ups[i]); }
  }

  lemma LiveKeeps(g: G, g': G, r: Ref)
    requires r in g.heap && RefsLive(g, g.heap[r]) && g'.heap == g.heap && g'.ups == g.ups
    ensures KeepsIn(g', Bounds(g.heap.Keys, {}), r, g.heap[r])
  {
    match g.heap[r]
    case Closure(_, us) =>
      forall i | 0 <= i < |us| && us[i] < |g'.ups| ensures InS(Bounds(g.heap.Keys, {}), UpValue(g', g'.ups[us[i]])) {
        assert UpLive(g, us[i]);
        assert UpValue(g', g'.ups[us[i]]) == UpValue(g, g.ups[us[i]]);
      }
    case Table(mode, _, arr, hash) =>
      forall i | 0 <= i < |hash|
        ensures EntryKeeps(g', Bounds(g.heap.Keys, {}), mode, hash[i])
      {
        assert EntryLive(g, hash[i]);
      }
    case _ =>
  }

  // ---- what the steps need ----

  lemma SweepSize(g: G)
    requires Sweeping(g)
    ensures g.rem <= |g.allgc| && UpsOk(g, {})
  {
  }

  lemma SweepFacts(g: G, c: Ref)
    requires Sweeping(g) && g.rem > 0 && c == g.allgc[|g.allgc| - g.rem]
    ensures c in g.heap && c in g.mark && g.rem <= |g.allgc|
  {
    assert c in g.allgc;
  }

  /** Only threads have open upvalues. */
  lemma NoUpvalues(g0: G, g: G, c: Ref)
    requires UpsOk(g0, {}) && c in g0.heap && !g0.heap[c].Thread? && g.ups == g0.ups
    ensures g.ups == CloseThread(g0, c)
  {
    forall i | 0 <= i < |g0.ups| ensures CloseThread(g0, c)[i] == g0.ups[i] { assert SlotOf(g0, g0.ups[i]); }
  }

  lemma SameFreed(g0: G, g: G, c: Ref)
    requires 0 < g0.rem <= |g0.allgc| && g.ups == CloseThread(g0, c)
    requires g == g0.(heap := g0.heap - {c}, mark := g0.mark - {c}, ups := g.ups,
               allgc := Without(g0.allgc, |g0.allgc| - g0.rem), rem := g0.rem - 1)
    ensures g == Freed(g0, c)
  {
  }

  lemma InvRem(g: G)
    requires Inv(g) && g.rem > 0
    ensures g.state == SwpAllGc
  {
  }

  lemma MainIsWhite(g: G)
    requires Inv(g) && g.state == Pause
    ensures IsWhite(Emptied(g), g.main) && g.main in g.heap && g.heap[g.main].Thread? && g.rem == 0
  {
  }

  lemma MainGray(start: G, g: G)
    requires MarksGrew(start, g) && IsWhite(start, start.main) && start.main in start.heap
    requires start.heap[start.main].Thread?
    ensures g.main == start.main && (Marked(g, g.main) ==> g.main in g.gray)
    ensures g.state == start.state && g.rem == start.rem
  {
  }

  lemma GrewMarked(g0: G, g: G, r: Ref)
    requires MarksGrew(g0, g)
    ensures Marked(g0, r) ==> Marked(g, r)
  {
  }

  lemma RestartDone(g: G, s: Bounds)
    requires Marking(g, {}, Idling(), s) && Marked(g, g.main) && g.gray != {} && g.state == Pause && g.rem == 0
    ensures Inv(g.(state := Propagate)) && Bound(g.(state := Propagate), s)
  {
    MarkState(g, Propagate, Idling(), s);
  }

  lemma InvMarking(g: G, s: Bounds)
    requires Inv(g) && KeepInvariant(g) && Bound(g, s)
    ensures Marking(g, {}, Idling(), s) && Marked(g, g.main) && (g.state == Propagate ==> g.gray != {}) && g.rem == 0
  {
  }

  lemma MarkingInv(g: G, s: Bounds)
    requires Marking(g, {}, Idling(), s) && KeepInvariant(g) && Marked(g, g.main)
    requires (g.state == Propagate ==> g.gray != {}) && g.rem == 0
    ensures Inv(g) && Bound(g, s)
  {
  }

  lemma PropagateDone(g0: G, g: G, s: Bounds)
    requires Trav(g0, g) && Marked(g0, g0.main)
    ensures Marked(g, g.main) && g.state == g0.state && g.rem == g0.rem
  {
  }

  lemma EnteredIn(g: G, s: Bounds)
    requires NonDeadIn(g, s)
    ensures NonDeadIn(g.(state := SwpAllGc, rem := |g.allgc|), s)
  {
    var g' := g.(state := SwpAllGc, rem := |g.allgc|);
    assert forall r :: Dead(g', r) <==> Dead(g, r);
  }

  lemma InvMain(g: G)
    requires Inv(g)
    ensures g.main in g.mark
  {
  }

  lemma InvState(g: G)
    requires Inv(g)
    ensures g.state != InsideAtomic
  {
  }

  lemma StartKeeps(g: G, s: Bounds)
    ensures KeepStrict(g, s) ==> KeepStrict(g.(state := SwpAllGc, rem := |g.allgc|), s)
  {
    if KeepStrict(g, s) {
      hide KeepsIn;
      var g0, g' := g.(allweak := {}), g.(state := SwpAllGc, rem := |g.allgc|, allweak := {});
      forall r | r in s.keep && r in g'.heap ensures KeepsIn(g', s, r, g'.heap[r]) { KeepsSame(g0, g', s, r); }
    }
  }

  lemma CloserMeans(g0: G, g: G)
    requires Closer(g0, g)
    ensures Rank(g.state) <= Rank(g0.state) && (Rank(g.state) == Rank(g0.state) ==> g.state == g0.state)
    ensures g.state == g0.state ==>
      (g.state == Propagate && (Whites(g) < Whites(g0) || (Whites(g) == Whites(g0) && g.gray < g0.gray))) ||
      (g.state == SwpAllGc && g.gray == g0.gray && g.rem < g0.rem)
    ensures !KeepInvariant(g0) && g0.state != InsideAtomic ==> !KeepInvariant(g)
  {
  }

  lemma SweptIn(g: G, s: Bounds)
    requires Inv(g) && g.state == CallFin && Prec(g, s)
    ensures g.heap.Keys <= s.keep
  {
    NoDead(g);
  }

  lemma FinishedIn(g0: G, g: G, s: Bounds)
    requires SweepRel(g0, g) && g0.heap.Keys <= s.keep && g0.state == CallFin && Closer(g0, g)
    ensures g.heap.Keys <= s.keep && g.state == Pause
  {
  }

  lemma RestartUnseen(g0: G, g: G)
    requires MarksGrew(Emptied(g0), g)
    ensures forall st :: AllBuried(g0, g.(state := st))
  {
    forall st ensures AllBuried(g0, g.(state := st)) { BuriedSelf(g0, g.(state := st)); }
  }

  lemma TravBuried(g0: G, g: G)
    requires Trav(g0, g)
    ensures AllBuried(g0, g) && forall st :: AllBuried(g0, g.(state := st))
  {
    hide Buried, Adv;
  }
}
