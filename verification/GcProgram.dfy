/** What the running program does to the heap, and why the barriers keep the collector's invariant. */
module GcProgram {
  import opened GcState
  import opened GcMark
  import opened GcTraverse
  import opened GcAtomic
  import opened GcCycle

  function Everything(g: G): Bounds { Bounds(g.heap.Keys, {}) }

  /** Objects of one kind. */
  predicate SameKind(o: Obj, o': Obj) {
    (o.Udata? && o'.Udata?) || (o.Closure? && o'.Closure?) || (o.Table? && o'.Table?) || (o.Proto? && o'.Proto?)
  }

  /** Everything o' holds was held by o, or is v. */
  predicate OneNew(o: Obj, o': Obj, v: Value) {
    SameKind(o, o') && (o.Closure? ==> o'.upvals == o.upvals) &&
    forall x :: x in Vals(o') ==> x.Gc? ==> x == v || x in Vals(o)
  }

  lemma NewIsLive(g: G, o: Obj, o': Obj, v: Value)
    requires RefsLive(g, o) && OneNew(o, o', v) && Live(g, v)
    ensures RefsLive(g, o')
  {
    ValsLive(g, o);
    ValsLive(g, o');
  }

  lemma ValsClosed(g: G, o: Obj)
    requires o.Udata? || o.Closure? || o.Table? || o.Proto?
    ensures BlackClosed(g, o) <==>
            (forall x :: x in Vals(o) ==> MarkedV(g, x)) && (o.Closure? ==> UpsCovered(g, o.upvals))
  {
    match o
    case Udata(mt, uv) => assert mt in Vals(o) && uv in Vals(o);
    case Table(_, mt, arr, hash) =>
      TableVals(o);
      if forall x :: x in Vals(o) ==> MarkedV(g, x) {
        forall i | 0 <= i < |hash|
          ensures EntryMarked(g, hash[i])
        {
          assert hash[i].key in Vals(o) && hash[i].val in Vals(o);
        }
        forall i | 0 <= i < |arr| ensures MarkedV(g, arr[i]) { assert arr[i] in Vals(o); }
        assert mt in Vals(o);
      } else if BlackClosed(g, o) {
        forall x | x in Vals(o) ensures MarkedV(g, x) {
          if i :| 0 <= i < |hash| && (x == hash[i].key || x == hash[i].val) { assert EntryMarked(g, hash[i]); }
        }
      }
    case Proto(rs, cache) =>
      assert cache in Vals(o);
      assert forall i :: 0 <= i < |rs| ==> rs[i] in Vals(o);
    case Closure(_, _) =>
  }

  /** A black object stays closed under a store of a marked value. */
  lemma NewIsClosed(g: G, o: Obj, o': Obj, v: Value)
    requires BlackClosed(g, o) && OneNew(o, o', v) && MarkedV(g, v)
    ensures BlackClosed(g, o')
  {
    ValsClosed(g, o);
    ValsClosed(g, o');
  }

  // ---- replacing one object ----

  lemma ReplaceValues(g: G, h: Ref, o: Obj)
    requires h in g.heap && !g.heap[h].Thread? && !o.Thread?
    ensures var g' := g.(heap := g.heap[h := o]);
            forall i :: 0 <= i < |g.ups| ==> UpValue(g', g'.ups[i]) == UpValue(g, g.ups[i])
  {
  }

  lemma ReplaceSound(g: G, h: Ref, o: Obj)
    requires Shape(g) && UpsOk(g, {}) && Sound(g) && Allocated(g, h) && SameKind(g.heap[h], o) && RefsLive(g, o)
    requires g.state != InsideAtomic
    ensures var g' := g.(heap := g.heap[h := o]); Shape(g') && UpsOk(g', {}) && Sound(g')
  {
    hide RefsLive;
    var g' := g.(heap := g.heap[h := o]);
    assert forall r :: (Allocated(g', r) <==> Allocated(g, r)) && (Dead(g', r) <==> Dead(g, r));
    assert forall v :: Live(g', v) <==> Live(g, v);
    ReplaceValues(g, h, o);
    forall r | Allocated(g', r) ensures RefsLive(g', g'.heap[r]) {
      RefsSame(g, g', g'.heap[r]);
    }
    forall i | 0 <= i < |g'.ups| ensures SlotOf(g', g'.ups[i]) { assert SlotOf(g, g.ups[i]); }
    forall i | 0 <= i < |g'.ups| && g'.ups[i].Open?
      ensures Waiting(g', {}, g'.ups[i].th)
    {
      assert Waiting(g, {}, g.ups[i].th);
    }
  }

  /** Elsewhere the tri-colour invariant does not notice. */
  lemma ReplaceOk(g: G, h: Ref, o: Obj, r: Ref)
    requires Ok(g, Idling(), r) && r != h && g.state != InsideAtomic
    ensures Ok(g.(heap := g.heap[h := o]), Idling(), r)
  {
    var g' := g.(heap := g.heap[h := o]);
    if g.mark[r] == Black && g.heap[r].Closure? {
      var us := g.heap[r].upvals;
      forall i | 0 <= i < |us| && us[i] < |g'.ups|
        ensures UpCovered(g', g'.ups[us[i]])
      {
        assert UpCovered(g, g.ups[us[i]]);
      }
    } else if g.mark[r] == Black && g.heap[r].Table? {
      var hash := g.heap[r].hash;
      forall i | 0 <= i < |hash| ensures EntryMarked(g', hash[i]) { assert EntryMarked(g, hash[i]); }
    }
  }

  lemma ReplaceLists(g: G, h: Ref, o: Obj)
    requires Lists(g, {}, Idling()) && h in g.heap && SameKind(g.heap[h], o) && !ListedSpecially(g, h)
    ensures Lists(g.(heap := g.heap[h := o]), {}, Idling())
  {
    var g' := g.(heap := g.heap[h := o]);
    assert forall r :: InList(g', Idling(), r) <==> InList(g, Idling(), r);
  }

  predicate ListedSpecially(g: G, h: Ref) { h in g.weak || h in g.ephemeron }

  lemma ReplaceTricolor(g: G, h: Ref, o: Obj, skip: set<Ref>)
    requires Tricolor(g, {}, Idling()) && h in g.heap && g.state != InsideAtomic && skip <= {h}
    requires h in skip || Ok(g.(heap := g.heap[h := o]), Idling(), h)
    ensures Tricolor(g.(heap := g.heap[h := o]), skip, Idling())
  {
    hide Ok;
    var g' := g.(heap := g.heap[h := o]);
    forall r | r in g'.heap && r !in skip ensures Ok(g', Idling(), r) {
      if r != h {
        assert Ok(g, Idling(), r);
        ReplaceOk(g, h, o, r);
      }
    }
  }

  /** With the object itself set aside. */
  lemma ReplaceHeld(g: G, h: Ref, o: Obj)
    requires Inv(g) && KeepInvariant(g) && Allocated(g, h) && SameKind(g.heap[h], o) && RefsLive(g, o) && IsBlack(g, h)
    ensures var g' := g.(heap := g.heap[h := o]); Marking(g', {h}, Idling(), Everything(g'))
  {
    hide RefsLive, Ok, Shape, UpsOk, Sound, Tricolor, Lists, Swept;
    var g' := g.(heap := g.heap[h := o]);
    ReplaceSound(g, h, o);
    assert forall r :: Dead(g', r) <==> Dead(g, r);
    ReplaceLists(g, h, o) by { NoneSpecial(g); }
    BlackUnlisted(g', h);
    ReplaceTricolor(g, h, o, {h});
    HeldUps(g', {h});
    KeepAll(g', g'.allweak);
    MarkedIn(g');
  }

  lemma NoneSpecial(g: G)
    requires Lists(g, {}, Idling())
    ensures g.weak == {} && g.ephemeron == {}
  {
  }

  lemma BlackUnlisted(g: G, h: Ref)
    requires Lists(g, {}, Idling()) && IsBlack(g, h)
    ensures Lists(g, {h}, Idling())
  {
    assert !InList(g, Idling(), h);
  }

  lemma MarkedIn(g: G)
    requires Shape(g)
    ensures Within(g, Everything(g)) && g.mark.Keys == g.heap.Keys
  {
  }

  lemma HeldUps(g: G, skip: set<Ref>)
    requires UpsOk(g, {})
    ensures UpsOk(g, skip)
  {
    forall i | 0 <= i < |g.ups| && g.ups[i].Open?
      ensures Waiting(g, skip, g.ups[i].th)
    {
      assert Waiting(g, {}, g.ups[i].th);
    }
  }

  /** Without need for a barrier. */
  lemma ReplaceInv(g: G, h: Ref, o: Obj)
    requires Inv(g) && Allocated(g, h) && SameKind(g.heap[h], o) && RefsLive(g, o)
    requires KeepInvariant(g) ==> Ok(g.(heap := g.heap[h := o]), Idling(), h)
    ensures Inv(g.(heap := g.heap[h := o]))
  {
    hide RefsLive, Ok, Shape, UpsOk, Sound, Tricolor, Lists;
    var g' := g.(heap := g.heap[h := o]);
    ReplaceSound(g, h, o);
    assert forall r :: Dead(g', r) <==> Dead(g, r);
    if KeepInvariant(g) {
      ReplaceLists(g, h, o) by { NoneSpecial(g); }
      ReplaceTricolor(g, h, o, {});
    }
  }

  /** Objects set aside come back once the invariant holds at them. */
  lemma Unskip(g: G, skip: set<Ref>, s: Bounds)
    requires Marking(g, skip, Idling(), s) && g.state != InsideAtomic
    requires forall r :: r in skip && r in g.heap ==> Ok(g, Idling(), r)
    ensures Marking(g, {}, Idling(), s)
  {
    hide Sound, KeepSet, Within, Shape, NoneDead, Ok;
    Parts(g, skip, Idling(), s);
    assert UpsOk(g, {}) by {
      forall i | 0 <= i < |g.ups| && g.ups[i].Open?
        ensures Waiting(g, {}, g.ups[i].th)
      {
        assert Waiting(g, skip, g.ups[i].th);
      }
    }
    forall r | r in g.heap ensures Ok(g, Idling(), r) {
      if r !in skip { assert Ok(g, Idling(), r); }
    }
  }

  /** Back to the program. */
  lemma BackToInv(g: G, s: Bounds)
    requires Marking(g, {}, Idling(), s) && KeepInvariant(g) && Marked(g, g.main)
    requires (g.state == Propagate ==> g.gray != {}) && g.rem == 0
    ensures Inv(g)
  {
  }

  /** Outside of marking only fixed strings are black, or the sweep is on. */
  lemma BlackSweeps(g: G, h: Ref)
    requires Inv(g) && !KeepInvariant(g) && IsBlack(g, h) && h in g.heap && !g.heap[h].Str?
    ensures IsSweepPhase(g)
  {
    if g.state == CallFin || g.state == Pause {
      NoDead(g);
    }
  }

  /** In the sweep an object may take any colour but a white of its own. */
  lemma SweepColor(g: G, h: Ref, c: Color, l: set<Ref>)
    requires Inv(g) && IsSweepPhase(g) && IsBlack(g, h) && h in g.heap && c != White(!g.white) && !g.heap[h].Str?
    ensures Inv(g.(mark := g.mark[h := c], grayagain := l))
  {
    hide RefsLive, Shape, UpsOk, Sound;
    var g' := g.(mark := g.mark[h := c], grayagain := l);
    assert forall r :: (Allocated(g', r) <==> Allocated(g, r)) && (Dead(g', r) <==> Dead(g, r));
    SameSound(g, g');
    SameUps(g, g');
    SweepShape(g, h, c, l);
  }

  lemma SweepShape(g: G, h: Ref, c: Color, l: set<Ref>)
    requires Shape(g) && Swept(g) && IsSweepPhase(g) && IsBlack(g, h) && h in g.heap && !g.heap[h].Str?
    ensures Shape(g.(mark := g.mark[h := c], grayagain := l)) && Swept(g.(mark := g.mark[h := c], grayagain := l))
  {
    var g' := g.(mark := g.mark[h := c], grayagain := l);
    forall i | 0 <= i < |g.allgc| - g.rem ensures g'.mark[g'.allgc[i]] == White(g'.white) {
      assert g.allgc[i] in g.mark && g.mark[g.allgc[i]] == White(g.white);
    }
  }

  // ---- stores ----

  /** A store into h that the barrier has to know about: everything in o but v was there before. */
  predicate MayStore(g: G, h: Ref, o: Obj, v: Value) { Allocated(g, h) && OneNew(g.heap[h], o, v) && Live(g, v) }

  /** A metatable that the collector will not look at: the table is not black, so the barrier does nothing, but it
      waits in `allweak`, so it will not be traversed again. */
  predicate Loses(g: G, t: Ref, mt: Value) {
    KeepInvariant(g) && t in g.allweak && mt.Gc? && IsWhite(g, mt.r)
  }

  lemma StoreLive(g: G, h: Ref, o: Obj, v: Value)
    requires Inv(g) && MayStore(g, h, o, v)
    ensures RefsLive(g, o) && SameKind(g.heap[h], o)
  {
    assert RefsLive(g, g.heap[h]);
    NewIsLive(g, g.heap[h], o, v);
  }

  /** No barrier is needed unless a black object gets a white value. */
  lemma StoreOk(g: G, h: Ref, o: Obj, v: Value)
    requires Inv(g) && KeepInvariant(g) && MayStore(g, h, o, v)
    requires !(v.Gc? && IsBlack(g, h) && IsWhite(g, v.r))
    requires h in g.allweak ==> o.Table? && MarkedV(g, o.tmt)
    ensures Ok(g.(heap := g.heap[h := o]), Idling(), h)
  {
    var g' := g.(heap := g.heap[h := o]);
    assert Ok(g, Idling(), h);
    if IsBlack(g, h) {
      NewIsClosed(g, g.heap[h], o, v);
      ClosedElse(g, g', o);
    }
  }

  lemma ClosedElse(g: G, g': G, o: Obj)
    requires BlackClosed(g, o) && g'.mark == g.mark && g'.ups == g.ups && g'.twups == g.twups && g'.state == g.state
    requires g.state != InsideAtomic
    ensures BlackClosed(g', o)
  {
    match o
    case Closure(_, us) =>
      forall i | 0 <= i < |us| && us[i] < |g'.ups|
        ensures UpCovered(g', g'.ups[us[i]])
      {
        assert UpCovered(g, g.ups[us[i]]);
      }
    case Table(_, _, _, hash) =>
      forall i | 0 <= i < |hash| ensures EntryMarked(g', hash[i]) { assert EntryMarked(g, hash[i]); }
    case _ =>
  }

  /** After the forward barrier the object is closed again. */
  lemma StoreClosed(g0: G, g: G, h: Ref, o: Obj, v: Value)
    requires Inv(g0) && KeepInvariant(g0) && MayStore(g0, h, o, v) && IsBlack(g0, h)
    requires MarksGrew(g0.(heap := g0.heap[h := o]), g) && MarkedV(g, v)
    ensures Ok(g, Idling(), h)
  {
    var g1 := g.(heap := g0.heap);
    assert MarksGrew(g0, g1) by { GrewElse(g0, g, h, o); }
    assert Ok(g0, Idling(), h);
    GrewAdv(g0, g1);
    ClosedGrows(g0, g1, h);
    NewIsClosed(g1, g0.heap[h], o, v);
    ClosedElse(g1, g, o);
  }

  lemma GrewElse(g0: G, g: G, h: Ref, o: Obj)
    requires h in g0.heap && SameKind(g0.heap[h], o) && MarksGrew(g0.(heap := g0.heap[h := o]), g)
    ensures MarksGrew(g0, g.(heap := g0.heap))
  {
  }

  /** The table is linked into `grayagain` to be traversed once more. */
  lemma BackLinked(g: G, h: Ref)
    requires Marking(g, {h}, Idling(), Everything(g)) && h in g.heap && IsBlack(g, h) && g.heap[h].Table?
    requires g.state != InsideAtomic
    ensures var g' := g.(mark := g.mark[h := Gray], grayagain := g.grayagain + {h});
            Marking(g', {}, Idling(), Everything(g)) && Marked(g', h) && forall r :: Marked(g, r) ==> Marked(g', r)
  {
    hide Marking;
    Recolor(g, h, Gray, {h}, Idling(), Everything(g));
    var g1 := g.(mark := g.mark[h := Gray]);
    AgainOk(g1, h);
    Release(g1, h, ToAgain, {h}, Idling(), Everything(g));
    assert {h} - {h} == {};
  }

  lemma AgainOk(g: G, h: Ref)
    requires h in g.heap && IsGray(g, h) && g.state != InsideAtomic
    ensures Ok(Linked(g, h, ToAgain), Idling(), h)
  {
  }

  lemma MarkIsIn(g: G, v: Value)
    requires Live(g, v) && v.Gc?
    ensures v.r in Everything(g).keep
  {
  }

  lemma InvFacts(g: G)
    requires Inv(g)
    ensures g.mark.Keys == g.heap.Keys && g.rem <= |g.allgc| && Shape(g) && UpsOk(g, {}) && Sound(g)
    ensures g.state != InsideAtomic
    ensures KeepInvariant(g) ==> Marked(g, g.main) && (g.state == Propagate ==> g.gray != {}) && g.rem == 0
    ensures KeepInvariant(g) ==> NoneDead(g)
  {
  }

  lemma MainStays(g0: G, g: G)
    requires MarksGrew(g0, g)
    ensures g.main == g0.main && g.state == g0.state && g.rem == g0.rem && (Marked(g0, g0.main) ==> Marked(g, g.main))
    ensures g0.gray != {} ==> g.gray != {}
    ensures g.heap == g0.heap && g.ups == g0.ups && g == g0.(mark := g.mark, gray := g.gray)
  {
  }

  // ---- metatables ----

  lemma AllWeakGray(g: G, t: Ref)
    requires Inv(g) && KeepInvariant(g) && t in g.allweak
    ensures IsGray(g, t) && t !in g.gray && t !in g.grayagain && t in g.heap && Ok(g, Idling(), t)
    ensures MarkedV(g, g.heap[t].tmt)
  {
    assert InList(g, Idling(), t);
    assert Ok(g, Idling(), t);
  }

  lemma AllWeakMeta(g: G, t: Ref)
    requires Inv(g) && t in g.heap && g.heap[t].Table?
    ensures KeepInvariant(g) && t in g.allweak ==> MarkedV(g, g.heap[t].tmt)
  {
    if KeepInvariant(g) && t in g.allweak { AllWeakGray(g, t); }
  }

  lemma MetaStore(g: G, t: Ref, mt: Value, mode: Mode)
    requires Inv(g) && Allocated(g, t) && g.heap[t].Table? && Live(g, mt)
    ensures MayStore(g, t, g.heap[t].(tmt := mt, mode := mode), mt)
  {
    var o, o' := g.heap[t], g.heap[t].(tmt := mt, mode := mode);
    TableVals(o);
    TableVals(o');
  }

  lemma KeptMeta(g: G, t: Ref, mt: Value)
    requires Inv(g) && !Loses(g, t, mt) && Live(g, mt)
    ensures KeepInvariant(g) && t in g.allweak ==> MarkedV(g, mt)
  {
    InvFacts(g);
  }

  /** The invariant but for a lost metatable. */
  ghost predicate LostInv(g: G, t: Ref) {
    KeepInvariant(g) && MarkInv(g, {}, Phase({}, false, {t})) && Marked(g, g.main) &&
    (g.state == Propagate ==> g.gray != {}) && g.rem == 0
  }

  /** A lost metatable breaks the invariant, and nothing else does. */
  lemma LoseInv(g: G, t: Ref, o: Obj)
    requires o.Table? && Inv(g) && Loses(g, t, o.tmt) && Allocated(g, t) && g.heap[t].Table? && MayStore(g, t, o, o.tmt)
    requires IsGray(g, t) && t !in g.gray && t !in g.grayagain
    ensures var g' := g.(heap := g.heap[t := o]); LostInv(g', t) && !Inv(g')
  {
    hide RefsLive, Ok, OneNew;
    var g' := g.(heap := g.heap[t := o]);
    StoreLive(g, t, o, o.tmt);
    hide MayStore;
    InvFacts(g);
    ReplaceSound(g, t, o);
    assert forall r :: Dead(g', r) <==> Dead(g, r);
    LostLists(g, t, o);
    LostOk(g', t);
    forall r | r in g'.heap ensures Ok(g', Phase({}, false, {t}), r) {
      if r != t {
        assert Ok(g, Idling(), r);
        ReplaceOk(g, t, o, r);
        LostElse(g', r, t);
      }
    }
  }

  lemma LostLists(g: G, t: Ref, o: Obj)
    requires Inv(g) && KeepInvariant(g) && t in g.heap && g.heap[t].Table? && o.Table?
    ensures Lists(g.(heap := g.heap[t := o]), {}, Phase({}, false, {t}))
  {
    hide Shape, UpsOk, Sound, NoneDead, Tricolor, Lists;
    NoneSpecial(g);
    ReplaceLists(g, t, o);
    ListsLost(g.(heap := g.heap[t := o]), t);
  }

  lemma ListsLost(g: G, t: Ref)
    requires Lists(g, {}, Idling())
    ensures Lists(g, {}, Phase({}, false, {t}))
  {
    assert forall r :: InList(g, Phase({}, false, {t}), r) <==> InList(g, Idling(), r);
  }

  lemma LostElse(g: G, r: Ref, t: Ref)
    requires Ok(g, Idling(), r) && g.state != InsideAtomic
    ensures Ok(g, Phase({}, false, {t}), r)
  {
  }

  lemma LostOk(g: G, t: Ref)
    requires t in g.heap && g.heap[t].Table? && Loses(g, t, g.heap[t].tmt) && IsGray(g, t) && t !in g.gray
    requires t !in g.grayagain && g.state != InsideAtomic
    ensures Ok(g, Phase({}, false, {t}), t) && !Ok(g, Idling(), t)
  {
    assert Settled(g, Phase({}, false, {t}), t, g.heap[t]);
    assert !Settled(g, Idling(), t, g.heap[t]);
  }

  // ---- allocation, stacks and roots ----

  /** `luaC_newobj` links at the head of `allgc`; if the sweep has not passed the head, the new object is ahead of
      it. */
  function Created(g: G, r: Ref, o: Obj): G {
    g.(heap := g.heap[r := o], mark := g.mark[r := White(g.white)], allgc := [r] + g.allgc,
       rem := if g.rem > 0 && g.rem == |g.allgc| then g.rem + 1 else g.rem)
  }

  lemma RefsUps(g: G, g': G, o: Obj)
    requires RefsLive(g, o)
    requires forall v :: Live(g, v) ==> Live(g', v)
    requires forall i: nat :: UpLive(g, i) ==> UpLive(g', i)
    ensures RefsLive(g', o)
  {
    match o
    case Closure(_, us) =>
      forall i | 0 <= i < |us| ensures UpLive(g', us[i]) { assert UpLive(g, us[i]); }
    case Table(_, _, _, hash) =>
      forall i | 0 <= i < |hash| ensures EntryLive(g', hash[i]) { assert EntryLive(g, hash[i]); }
    case _ =>
  }

  lemma CreatedSound(g: G, r: Ref, o: Obj)
    requires Shape(g) && UpsOk(g, {}) && Sound(g) && r !in g.heap && RefsLive(g, o) && g.state != InsideAtomic
    ensures UpsOk(Created(g, r, o), {}) && Sound(Created(g, r, o))
  {
    hide RefsLive;
    var g' := Created(g, r, o);
    assert forall v :: Live(g, v) ==> Live(g', v);
    forall i: nat | UpLive(g, i) ensures UpLive(g', i) { assert SlotOf(g, g.ups[i]); }
    forall q | Allocated(g', q) ensures RefsLive(g', g'.heap[q]) {
      if q != r { assert Allocated(g, q); }
      RefsUps(g, g', g'.heap[q]);
    }
    forall i | 0 <= i < |g'.ups| ensures SlotOf(g', g'.ups[i]) { assert SlotOf(g, g.ups[i]); }
    forall i | 0 <= i < |g'.ups| && g'.ups[i].Open? ensures Waiting(g', {}, g'.ups[i].th) {
      assert SlotOf(g, g.ups[i]) && Waiting(g, {}, g.ups[i].th);
    }
    forall q | q in g'.twups ensures Allocated(g', q) && g'.heap[q].Thread? { assert Allocated(g, q); }
  }

  lemma CreatedShape(g: G, r: Ref, o: Obj)
    requires Shape(g) && r !in g.heap
    ensures Shape(Created(g, r, o)) && (Swept(g) ==> Swept(Created(g, r, o)))
  {
    var g' := Created(g, r, o);
    if Swept(g) {
      forall i | 0 <= i < |g'.allgc| - g'.rem
        ensures g'.allgc[i] in g'.mark && g'.mark[g'.allgc[i]] == White(g'.white)
      {
        if i > 0 { assert g'.allgc[i] == g.allgc[i - 1]; }
      }
    }
  }

  /** New objects are white, so that nothing changes for the others. */
  lemma CreatedInv(g: G, r: Ref, o: Obj)
    requires Inv(g) && r !in g.heap && RefsLive(g, o)
    ensures Inv(Created(g, r, o)) && Allocated(Created(g, r, o), r)
  {
    hide RefsLive, Ok, Shape, UpsOk, Sound, Swept;
    var g' := Created(g, r, o);
    InvFacts(g);
    CreatedShape(g, r, o);
    CreatedSound(g, r, o);
    if KeepInvariant(g) {
      CreatedLists(g, r, o);
      forall q | q in g'.heap ensures Ok(g', Idling(), q) {
        if q != r { assert Ok(g, Idling(), q); }
        CreatedOk(g, r, o, q);
      }
    }
  }

  lemma CreatedLists(g: G, r: Ref, o: Obj)
    requires Lists(g, {}, Idling()) && r !in g.heap && NoneDead(g) && g.mark.Keys == g.heap.Keys
    ensures Lists(Created(g, r, o), {}, Idling()) && NoneDead(Created(g, r, o))
  {
    var g' := Created(g, r, o);
    assert forall q :: InList(g', Idling(), q) <==> InList(g, Idling(), q);
    assert forall q :: InList(g, Idling(), q) ==> IsGray(g, q);
  }

  lemma CreatedOk(g: G, r: Ref, o: Obj, q: Ref)
    requires r !in g.heap && (q == r || Ok(g, Idling(), q)) && g.state != InsideAtomic && g.mark.Keys == g.heap.Keys
    ensures Ok(Created(g, r, o), Idling(), q)
  {
    var g' := Created(g, r, o);
    assert forall v :: MarkedV(g, v) ==> MarkedV(g', v);
    if q != r && g.mark[q] == Black && g.heap[q].Closure? {
      var us := g.heap[q].upvals;
      forall i | 0 <= i < |us| && us[i] < |g'.ups|
        ensures UpCovered(g', g'.ups[us[i]])
      {
        assert UpCovered(g, g.ups[us[i]]);
      }
    } else if q != r && g.mark[q] == Black && g.heap[q].Table? {
      var hash := g.heap[q].hash;
      forall i | 0 <= i < |hash| ensures EntryMarked(g', hash[i]) { assert EntryMarked(g, hash[i]); }
    }
  }

  /** A stack may take any values that the program holds, as long as open upvalues keep their slots. */
  predicate MayPush(g: G, th: Ref, st: seq<Value>) {
    th in g.heap && g.heap[th].Thread? &&
    (forall j :: 0 <= j < |st| ==> Live(g, st[j]) || (j < |g.heap[th].stack| && st[j] == g.heap[th].stack[j])) &&
    (forall i :: 0 <= i < |g.ups| && g.ups[i].Open? && g.ups[i].th == th ==> g.ups[i].slot < |st|)
  }

  lemma StackSound(g: G, th: Ref, st: seq<Value>)
    requires Shape(g) && UpsOk(g, {}) && Sound(g) && MayPush(g, th, st) && g.state != InsideAtomic
    ensures var g' := g.(heap := g.heap[th := Thread(st)]); Shape(g') && UpsOk(g', {}) && Sound(g')
  {
    hide RefsLive;
    var g' := g.(heap := g.heap[th := Thread(st)]);
    assert forall r :: (Allocated(g', r) <==> Allocated(g, r)) && (Dead(g', r) <==> Dead(g, r));
    assert forall v :: Live(g', v) <==> Live(g, v);
    forall i: nat | UpLive(g, i) ensures UpLive(g', i) { assert SlotOf(g, g.ups[i]); }
    forall r | Allocated(g', r) ensures RefsLive(g', g'.heap[r]) {
      if r == th {
        StackLive(g, g', th, st);
      } else {
        RefsUps(g, g', g.heap[r]);
      }
    }
    forall i | 0 <= i < |g'.ups| ensures SlotOf(g', g'.ups[i]) { assert SlotOf(g, g.ups[i]); }
    forall i | 0 <= i < |g'.ups| && g'.ups[i].Open?
      ensures Waiting(g', {}, g'.ups[i].th)
    {
      assert Waiting(g, {}, g.ups[i].th);
    }
  }

  lemma StackLive(g: G, g': G, th: Ref, st: seq<Value>)
    requires MayPush(g, th, st) && RefsLive(g, g.heap[th]) && forall v :: Live(g', v) <==> Live(g, v)
    ensures RefsLive(g', Thread(st))
  {
    forall j | 0 <= j < |st| ensures Live(g', st[j]) { assert Live(g, st[j]); }
  }

  /** No barrier: threads are never black, and an open upvalue is covered by its thread, whatever its value. */
  lemma StackInv(g: G, th: Ref, st: seq<Value>)
    requires Inv(g) && MayPush(g, th, st)
    ensures Inv(g.(heap := g.heap[th := Thread(st)]))
  {
    hide RefsLive, Ok, Shape, UpsOk, Sound, Swept;
    var g' := g.(heap := g.heap[th := Thread(st)]);
    InvFacts(g);
    StackSound(g, th, st);
    assert forall r :: Dead(g', r) <==> Dead(g, r);
    if KeepInvariant(g) {
      StackLists(g, th, st);
      forall r | r in g'.heap ensures Ok(g', Idling(), r) {
        assert Ok(g, Idling(), r);
        if r == th { StackOk(g, th, st); } else { ReplaceOk(g, th, Thread(st), r); }
      }
    } else {
      assert Swept(g') by { StackSwept(g, th, st); }
    }
  }

  lemma StackSwept(g: G, th: Ref, st: seq<Value>)
    requires Swept(g)
    ensures Swept(g.(heap := g.heap[th := Thread(st)]))
  {
  }

  lemma StackLists(g: G, th: Ref, st: seq<Value>)
    requires Lists(g, {}, Idling()) && th in g.heap && g.heap[th].Thread?
    ensures Lists(g.(heap := g.heap[th := Thread(st)]), {}, Idling())
  {
    var g' := g.(heap := g.heap[th := Thread(st)]);
    assert forall r :: InList(g', Idling(), r) <==> InList(g, Idling(), r);
  }

  lemma StackOk(g: G, th: Ref, st: seq<Value>)
    requires Ok(g, Idling(), th) && g.heap[th].Thread? && g.state != InsideAtomic
    ensures Ok(g.(heap := g.heap[th := Thread(st)]), Idling(), th)
  {
  }

  /** The registry, the metatables of basic types and the running thread are looked at in the atomic phase. */
  lemma RootsInv(g: G, running: Ref, registry: Value, mts: seq<Value>)
    requires Inv(g) && Allocated(g, running) && g.heap[running].Thread? && Live(g, registry) && AllLive(g, mts)
    ensures Inv(g.(running := running, registry := registry, mts := mts))
  {
    hide RefsLive, Ok, Shape, UpsOk, Sound, Lists, Swept;
    var g' := g.(running := running, registry := registry, mts := mts);
    InvFacts(g);
    assert forall r :: (Allocated(g', r) <==> Allocated(g, r)) && (Dead(g', r) <==> Dead(g, r));
    RootsSound(g, g');
    SameUps(g, g');
    RootsShape(g, g');
    if KeepInvariant(g) {
      ListsRoots(g, g');
      forall r | r in g'.heap ensures Ok(g', Idling(), r) {
        assert Ok(g, Idling(), r);
        RootsOk(g, g', r);
      }
    }
  }

  lemma RootsShape(g: G, g': G)
    requires Shape(g) && g' == g.(running := g'.running, registry := g'.registry, mts := g'.mts)
    requires g'.running in g.heap && g.heap[g'.running].Thread?
    ensures Shape(g') && (Swept(g) ==> Swept(g'))
  {
  }

  lemma RootsSound(g: G, g': G)
    requires Sound(g) && g' == g.(running := g'.running, registry := g'.registry, mts := g'.mts)
    requires Allocated(g, g'.running) && Live(g, g'.registry) && AllLive(g, g'.mts)
    ensures Sound(g')
  {
    hide RefsLive;
    assert forall v :: Live(g', v) <==> Live(g, v);
    forall r | Allocated(g', r) ensures RefsLive(g', g'.heap[r]) {
      assert Allocated(g, r);
      RefsSame(g, g', g.heap[r]) by { assert forall i :: 0 <= i < |g.ups| ==>
              UpValue(g', g.ups[i]) == UpValue(g, g.ups[i]); }
    }
  }

  lemma ListsRoots(g: G, g': G)
    requires Lists(g, {}, Idling()) && g' == g.(running := g'.running, registry := g'.registry, mts := g'.mts)
    ensures Lists(g', {}, Idling())
  {
    assert forall r :: InList(g', Idling(), r) <==> InList(g, Idling(), r);
  }

  lemma RootsOk(g: G, g': G, r: Ref)
    requires Ok(g, Idling(), r) && g.state != InsideAtomic
    requires g' == g.(running := g'.running, registry := g'.registry, mts := g'.mts)
    ensures Ok(g', Idling(), r)
  {
    if g.mark[r] == Black { ClosedElse(g, g', g.heap[r]); }
  }

  // ---- upvalues ----

  /** Black closures that share an upvalue. */
  ghost function Sharers(g: G, u: nat): set<Ref> {
    set r | r in g.heap && IsBlack(g, r) && g.heap[r].Closure? && u in g.heap[r].upvals
  }

  function WithUp(g: G, u: nat, x: UpVal): G
    requires u < |g.ups|
  {
    g.(ups := g.ups[u := x])
  }

  lemma UpSound(g: G, u: nat, v: Value)
    requires Shape(g) && UpsOk(g, {}) && Sound(g) && u < |g.ups| && Live(g, v) && g.state != InsideAtomic
    ensures var g' := WithUp(g, u, Closed(v)); Shape(g') && UpsOk(g', {}) && Sound(g')
  {
    hide RefsLive;
    var g' := WithUp(g, u, Closed(v));
    assert forall x :: Live(g', x) <==> Live(g, x);
    forall i: nat | UpLive(g, i) ensures UpLive(g', i) {
      if i != u { assert UpValue(g', g'.ups[i]) == UpValue(g, g.ups[i]); }
    }
    forall r | Allocated(g', r) ensures RefsLive(g', g'.heap[r]) {
      assert Allocated(g, r);
      RefsUps(g, g', g.heap[r]);
    }
    forall i | 0 <= i < |g'.ups| ensures SlotOf(g', g'.ups[i]) { assert SlotOf(g, g.ups[i]); }
    forall i | 0 <= i < |g'.ups| && g'.ups[i].Open?
      ensures Waiting(g', {}, g'.ups[i].th)
    {
      assert Waiting(g, {}, g.ups[i].th);
    }
    forall r | r in g'.twups ensures Allocated(g', r) && g'.heap[r].Thread? { assert Allocated(g, r); }
  }

  lemma UpElse(g: G, u: nat, x: UpVal, r: Ref)
    requires u < |g.ups| && Ok(g, Idling(), r) && r !in Sharers(g, u) && g.state != InsideAtomic
    ensures Ok(WithUp(g, u, x), Idling(), r)
  {
    var g' := WithUp(g, u, x);
    if g.mark[r] == Black && g.heap[r].Closure? {
      var us := g.heap[r].upvals;
      forall i | 0 <= i < |us| && us[i] < |g'.ups|
        ensures UpCovered(g', g'.ups[us[i]])
      {
        assert UpCovered(g, g.ups[us[i]]) && us[i] in us;
      }
    } else if g.mark[r] == Black && g.heap[r].Table? {
      var hash := g.heap[r].hash;
      forall i | 0 <= i < |hash| ensures EntryMarked(g', hash[i]) { assert EntryMarked(g, hash[i]); }
    }
  }

  /** A closed upvalue has got a value: its sharers are set aside until the barrier has run. */
  lemma UpHeld(g: G, u: nat, v: Value)
    requires Inv(g) && KeepInvariant(g) && u < |g.ups| && Live(g, v)
    ensures var g' := WithUp(g, u, Closed(v)); Marking(g', Sharers(g, u), Idling(), Everything(g'))
  {
    hide RefsLive, Ok, Shape, UpsOk, Sound, Lists;
    var g' := WithUp(g, u, Closed(v));
    InvFacts(g);
    UpSound(g, u, v);
    assert forall r :: Dead(g', r) <==> Dead(g, r);
    UpLists(g, u, Closed(v), Sharers(g, u));
    forall r | r in g'.heap && r !in Sharers(g, u) ensures Ok(g', Idling(), r) {
      assert Ok(g, Idling(), r);
      UpElse(g, u, Closed(v), r);
    }
    HeldUps(g', Sharers(g, u));
    KeepAll(g', g'.allweak);
    MarkedIn(g');
  }

  lemma UpLists(g: G, u: nat, x: UpVal, skip: set<Ref>)
    requires Lists(g, {}, Idling()) && u < |g.ups| && forall r :: r in skip ==> IsBlack(g, r)
    ensures Lists(WithUp(g, u, x), skip, Idling())
  {
    var g' := WithUp(g, u, x);
    assert forall r :: InList(g', Idling(), r) <==> InList(g, Idling(), r);
    forall r | r in skip ensures !InList(g', Idling(), r) { assert !IsGray(g, r); }
  }

  /** With the value marked the sharers are closed again. */
  lemma SharerOk(g: G, g': G, u: nat, v: Value, r: Ref)
    requires u < |g.ups| && Ok(g, Idling(), r) && r in Sharers(g, u) && g.state != InsideAtomic
    requires MarksGrew(WithUp(g, u, Closed(v)), g') && MarkedV(g', v)
    ensures Ok(g', Idling(), r)
  {
    var us := g.heap[r].upvals;
    assert forall x :: MarkedV(g, x) ==> MarkedV(g', x);
    forall i | 0 <= i < |us| && us[i] < |g'.ups|
      ensures UpCovered(g', g'.ups[us[i]])
    {
      assert UpCovered(g, g.ups[us[i]]);
    }
    assert forall x :: x in g.heap[r].fields ==> MarkedV(g', x);
  }

  lemma SharersOk(g: G, g': G, u: nat, v: Value)
    requires Inv(g) && KeepInvariant(g) && u < |g.ups| && MarksGrew(WithUp(g, u, Closed(v)), g') && MarkedV(g', v)
    ensures forall r :: r in Sharers(g, u) ==> Ok(g', Idling(), r)
  {
    hide Ok, MarksGrew, Shape, UpsOk, Sound, Lists;
    InvFacts(g);
    forall r | r in Sharers(g, u) ensures Ok(g', Idling(), r) {
      assert Ok(g, Idling(), r);
      SharerOk(g, g', u, v, r);
    }
  }

  lemma UpInv(g: G, u: nat, v: Value)
    requires Inv(g) && !KeepInvariant(g) && u < |g.ups| && Live(g, v)
    ensures Inv(WithUp(g, u, Closed(v)))
  {
    hide RefsLive, Shape, UpsOk, Sound;
    InvFacts(g);
    UpSound(g, u, v);
  }

  /** A new open upvalue, with its thread in the list of threads with upvalues. */
  function Opened(g: G, th: Ref, slot: nat): G {
    g.(ups := g.ups + [Open(th, slot, true)], twups := g.twups + {th})
  }

  lemma OpenedSound(g: G, th: Ref, slot: nat)
    requires Shape(g) && UpsOk(g, {}) && Sound(g) && Allocated(g, th) && g.heap[th].Thread? && slot < |g.heap[th].stack|
    requires g.state != InsideAtomic
    ensures var g' := Opened(g, th, slot); Shape(g') && UpsOk(g', {}) && Sound(g')
  {
    hide RefsLive;
    var g' := Opened(g, th, slot);
    assert forall x :: Live(g', x) <==> Live(g, x);
    forall i: nat | UpLive(g, i)
      ensures UpLive(g', i)
    {
      assert g'.ups[i] == g.ups[i] && UpValue(g', g.ups[i]) == UpValue(g, g.ups[i]);
    }
    forall r | Allocated(g', r) ensures RefsLive(g', g'.heap[r]) {
      assert Allocated(g, r);
      RefsUps(g, g', g.heap[r]);
    }
    forall i | 0 <= i < |g'.ups| ensures SlotOf(g', g'.ups[i]) { if i < |g.ups| { assert SlotOf(g, g.ups[i]); } }
    forall i | 0 <= i < |g'.ups| && g'.ups[i].Open?
      ensures Waiting(g', {}, g'.ups[i].th)
    {
      if i < |g.ups| { assert Waiting(g, {}, g.ups[i].th); }
    }
    forall r | r in g'.twups
      ensures Allocated(g', r) && g'.heap[r].Thread?
    {
      if r in g.twups { assert Allocated(g, r); }
    }
  }

  lemma OpenedOk(g: G, th: Ref, slot: nat, r: Ref)
    requires Ok(g, Idling(), r) && RefsLive(g, g.heap[r]) && g.state != InsideAtomic
    ensures Ok(Opened(g, th, slot), Idling(), r)
  {
    var g' := Opened(g, th, slot);
    if g.mark[r] == Black && g.heap[r].Closure? {
      var us := g.heap[r].upvals;
      forall i | 0 <= i < |us| && us[i] < |g'.ups| ensures UpCovered(g', g'.ups[us[i]]) {
        assert UpLive(g, us[i]);
        assert UpCovered(g, g.ups[us[i]]);
      }
    } else if g.mark[r] == Black && g.heap[r].Table? {
      var hash := g.heap[r].hash;
      forall i | 0 <= i < |hash| ensures EntryMarked(g', hash[i]) { assert EntryMarked(g, hash[i]); }
    }
  }

  lemma OpenedInv(g: G, th: Ref, slot: nat)
    requires Inv(g) && Allocated(g, th) && g.heap[th].Thread? && slot < |g.heap[th].stack|
    ensures Inv(Opened(g, th, slot))
  {
    hide RefsLive, Ok, Shape, UpsOk;
    InvFacts(g);
    var g' := Opened(g, th, slot);
    OpenedSound(g, th, slot);
    if KeepInvariant(g) {
      assert forall r :: Dead(g', r) <==> Dead(g, r);
      assert forall r :: InList(g', Idling(), r) <==> InList(g, Idling(), r);
      forall r | r in g'.heap ensures Ok(g', Idling(), r) {
        assert Ok(g, Idling(), r) && Allocated(g, r);
        OpenedOk(g, th, slot, r);
      }
    }
  }

  // ---- joining upvalues ----

  /** `lua_upvaluejoin`: closure c refers to upvalue u at place n, and an open u is touched. */
  function Joined(g: G, c: Ref, n: nat, u: nat): G
    requires c in g.heap && g.heap[c].Closure? && n < |g.heap[c].upvals| && u < |g.ups|
  {
    g.(heap := g.heap[c := g.heap[c].(upvals := g.heap[c].upvals[n := u])],
       ups := if g.ups[u].Open? then g.ups[u := g.ups[u].(touched := true)] else g.ups)
  }

  predicate MayJoin(g: G, c: Ref, n: nat, u: nat) {
    c in g.heap && !Dead(g, c) && g.heap[c].Closure? && n < |g.heap[c].upvals| && u < |g.ups| &&
    Live(g, UpValue(g, g.ups[u]))
  }

  lemma JoinedSound(g: G, c: Ref, n: nat, u: nat)
    requires Shape(g) && UpsOk(g, {}) && Sound(g) && MayJoin(g, c, n, u) && g.state != InsideAtomic
    ensures var g' := Joined(g, c, n, u); Shape(g') && UpsOk(g', {}) && Sound(g')
  {
    hide RefsLive, UpsOk, Sound;
    JoinedRefs(g, c, n, u);
    JoinedUps(g, c, n, u);
  }

  lemma JoinedRefs(g: G, c: Ref, n: nat, u: nat)
    requires Shape(g) && Sound(g) && MayJoin(g, c, n, u)
    ensures Sound(Joined(g, c, n, u))
  {
    hide RefsLive;
    var g' := Joined(g, c, n, u);
    assert forall r :: Allocated(g', r) <==> Allocated(g, r);
    assert forall x :: Live(g', x) <==> Live(g, x);
    forall i: nat | UpLive(g, i) ensures UpLive(g', i) { assert UpValue(g', g'.ups[i]) == UpValue(g, g.ups[i]); }
    forall r | Allocated(g', r) ensures RefsLive(g', g'.heap[r]) {
      if r == c {
        JoinLive(g, g', c, n, u);
      } else {
        RefsUps(g, g', g.heap[r]);
      }
    }
  }

  lemma JoinedUps(g: G, c: Ref, n: nat, u: nat)
    requires UpsOk(g, {}) && MayJoin(g, c, n, u) && g.state != InsideAtomic
    ensures UpsOk(Joined(g, c, n, u), {})
  {
    var g' := Joined(g, c, n, u);
    assert forall r :: (Allocated(g', r) <==> Allocated(g, r)) && (Dead(g', r) <==> Dead(g, r));
    forall i | 0 <= i < |g'.ups| ensures SlotOf(g', g'.ups[i]) { assert SlotOf(g, g.ups[i]); }
    forall i | 0 <= i < |g'.ups| && g'.ups[i].Open?
      ensures Waiting(g', {}, g'.ups[i].th)
    {
      assert Waiting(g, {}, g.ups[i].th);
    }
  }

  lemma JoinLive(g: G, g': G, c: Ref, n: nat, u: nat)
    requires MayJoin(g, c, n, u) && RefsLive(g, g.heap[c]) && UpLive(g', u)
    requires forall x :: Live(g', x) <==> Live(g, x)
    requires forall i: nat :: UpLive(g, i) ==> UpLive(g', i)
    ensures RefsLive(g', g.heap[c].(upvals := g.heap[c].upvals[n := u]))
  {
    var us := g.heap[c].upvals;
    var us' := us[n := u];
    forall i | 0 <= i < |us'| ensures UpLive(g', us'[i]) { assert UpLive(g, us[i]); }
  }

  lemma JoinedElse(g: G, c: Ref, n: nat, u: nat, r: Ref)
    requires MayJoin(g, c, n, u) && Ok(g, Idling(), r) && r != c && g.state != InsideAtomic
    ensures Ok(Joined(g, c, n, u), Idling(), r)
  {
    var g' := Joined(g, c, n, u);
    if g.mark[r] == Black && g.heap[r].Closure? {
      var us := g.heap[r].upvals;
      forall i | 0 <= i < |us| && us[i] < |g'.ups|
        ensures UpCovered(g', g'.ups[us[i]])
      {
        assert UpCovered(g, g.ups[us[i]]);
      }
    } else if g.mark[r] == Black && g.heap[r].Table? {
      var hash := g.heap[r].hash;
      forall i | 0 <= i < |hash| ensures EntryMarked(g', hash[i]) { assert EntryMarked(g, hash[i]); }
    }
  }

  lemma JoinedHeld(g: G, c: Ref, n: nat, u: nat)
    requires Inv(g) && KeepInvariant(g) && MayJoin(g, c, n, u)
    ensures var g' := Joined(g, c, n, u); Marking(g', if IsBlack(g, c) then {c} else {}, Idling(), Everything(g'))
  {
    hide RefsLive, Ok, Shape, UpsOk, Sound, Lists;
    InvFacts(g);
    var g' := Joined(g, c, n, u);
    var skip := if IsBlack(g, c) then {c} else {};
    JoinedSound(g, c, n, u);
    assert forall r :: Dead(g', r) <==> Dead(g, r);
    JoinedLists(g, c, n, u, skip);
    forall r | r in g'.heap && r !in skip ensures Ok(g', Idling(), r) {
      assert Ok(g, Idling(), r);
      if r != c { JoinedElse(g, c, n, u, r); } else { JoinedOpen(g, c, n, u); }
    }
    HeldUps(g', skip);
    KeepAll(g', g'.allweak);
    MarkedIn(g');
  }

  lemma JoinedLists(g: G, c: Ref, n: nat, u: nat, skip: set<Ref>)
    requires Lists(g, {}, Idling()) && MayJoin(g, c, n, u) && forall r :: r in skip ==> IsBlack(g, r)
    ensures Lists(Joined(g, c, n, u), skip, Idling())
  {
    var g' := Joined(g, c, n, u);
    assert forall r :: InList(g', Idling(), r) <==> InList(g, Idling(), r);
    forall r | r in skip ensures !InList(g', Idling(), r) { assert !IsGray(g, r); }
  }

  lemma JoinedOpen(g: G, c: Ref, n: nat, u: nat)
    requires MayJoin(g, c, n, u) && Ok(g, Idling(), c) && !IsBlack(g, c)
    ensures Ok(Joined(g, c, n, u), Idling(), c)
  {
  }

  /** With a closed value marked, a black closure that has been joined is closed again. */
  lemma JoinedOk(g: G, g': G, c: Ref, n: nat, u: nat)
    requires MayJoin(g, c, n, u) && Ok(g, Idling(), c) && IsBlack(g, c) && g.state != InsideAtomic
    requires MarksGrew(Joined(g, c, n, u), g') && (g.ups[u].Closed? ==> MarkedV(g', g.ups[u].v))
    requires g.ups[u].Open? ==> g.ups[u].th in g.twups
    ensures Ok(g', Idling(), c)
  {
    var us := g.heap[c].upvals;
    assert forall x :: MarkedV(g, x) ==> MarkedV(g', x);
    var us' := us[n := u];
    forall i | 0 <= i < |us'| && us'[i] < |g'.ups| ensures UpCovered(g', g'.ups[us'[i]]) {
      if i != n { assert UpCovered(g, g.ups[us[i]]); }
    }
    assert forall x :: x in g.heap[c].fields ==> MarkedV(g', x);
  }

  lemma JoinedInv(g: G, c: Ref, n: nat, u: nat)
    requires Inv(g) && !KeepInvariant(g) && MayJoin(g, c, n, u)
    ensures Inv(Joined(g, c, n, u))
  {
    hide RefsLive, Shape, UpsOk, Sound;
    InvFacts(g);
    JoinedSound(g, c, n, u);
  }

  lemma OpenListed(g: G, u: nat)
    requires Inv(g) && KeepInvariant(g) && u < |g.ups| && g.ups[u].Open?
    ensures g.ups[u].th in g.twups
  {
    assert SlotOf(g, g.ups[u]) && Waiting(g, {}, g.ups[u].th);
  }

  lemma OkOf(g: G, r: Ref)
    requires Inv(g) && KeepInvariant(g) && r in g.heap
    ensures Ok(g, Idling(), r)
  {
  }

  // ---- runs ----

  /** One action of the program, or one step of the collector. */
  datatype Op =
    | Step
    | FullCollect
    | Create(r: Ref, o: Obj)
    | Put(h: Ref, o: Obj, v: Value)
    | PutTable(h: Ref, o: Obj, v: Value)
    | PutMeta(h: Ref, mt: Value, mode: Mode)
    | PutCache(h: Ref, c: Value)
    | PutStack(h: Ref, st: seq<Value>)
    | PutRoots(h: Ref, v: Value, vs: seq<Value>)
    | PutUp(h: Ref, n: nat, v: Value)
    | FindUp(h: Ref, slot: nat)
    | CloseUps(h: Ref, level: nat)
    | Join(h: Ref, n: nat, u: nat)

  /** The program can do this: it only uses objects and values that it can get hold of, and a new object has a new
      address. */
  predicate Enabled(g: G, op: Op) {
    match op
    case Step => true
    case FullCollect => true
    case Create(r, o) => r !in g.heap && RefsLive(g, o)
    case Put(h, o, v) => MayStore(g, h, o, v) && !o.Table?
    case PutTable(h, o, v) => MayStore(g, h, o, v) && o.Table? && o.tmt == g.heap[h].tmt
    case PutMeta(h, mt, _) => Allocated(g, h) && g.heap[h].Table? && Live(g, mt)
    case PutCache(h, c) => Allocated(g, h) && g.heap[h].Proto? && Live(g, c)
    case PutStack(h, st) => Allocated(g, h) && MayPush(g, h, st)
    case PutRoots(h, v, vs) => Allocated(g, h) && g.heap[h].Thread? && Live(g, v) && AllLive(g, vs)
    case PutUp(h, n, v) => Allocated(g, h) && g.heap[h].Closure? && n < |g.heap[h].upvals| && Live(g, v)
    case FindUp(h, slot) => Allocated(g, h) && g.heap[h].Thread? && slot < |g.heap[h].stack|
    case CloseUps(h, _) => Allocated(g, h) && g.heap[h].Thread?
    case Join(h, n, u) => MayJoin(g, h, n, u)
  }

  /** The one store that the barriers do not cover. */
  predicate Careless(g: G, op: Op) { op.PutMeta? && Loses(g, op.h, op.mt) }

  lemma CacheStore(g: G, h: Ref, c: Value)
    requires Inv(g) && Allocated(g, h) && g.heap[h].Proto? && Live(g, c)
    ensures MayStore(g, h, g.heap[h].(cache := c), c)
  {
  }

  lemma UpOf(g: G, h: Ref, n: nat)
    requires Inv(g) && Allocated(g, h) && g.heap[h].Closure? && n < |g.heap[h].upvals|
    ensures g.heap[h].upvals[n] < |g.ups| && UpLive(g, g.heap[h].upvals[n]) && SlotOf(g, g.ups[g.heap[h].upvals[n]])
  {
    assert RefsLive(g, g.heap[h]);
    assert UpLive(g, g.heap[h].upvals[n]);
  }

  lemma SlotStore(g: G, u: nat, v: Value)
    requires Inv(g) && u < |g.ups| && g.ups[u].Open? && Live(g, v) && SlotOf(g, g.ups[u])
    ensures MayPush(g, g.ups[u].th, g.heap[g.ups[u].th].stack[g.ups[u].slot := v])
  {
    forall i | 0 <= i < |g.ups| && g.ups[i].Open? && g.ups[i].th == g.ups[u].th
      ensures g.ups[i].slot < |g.heap[g.ups[u].th].stack|
    {
      assert SlotOf(g, g.ups[i]);
    }
  }

  lemma StackValue(g: G, i: nat, th: Ref)
    requires Inv(g) && i < |g.ups| && g.ups[i].Open? && g.ups[i].th == th && Allocated(g, th)
    ensures Live(g, UpValue(g, g.ups[i]))
  {
    assert SlotOf(g, g.ups[i]);
    assert RefsLive(g, g.heap[th]);
  }

  predicate IsSlot(u: UpVal, th: Ref, slot: nat) { u.Open? && u.th == th && u.slot == slot }

  predicate Closes(u: UpVal, th: Ref, level: nat) { u.Open? && u.th == th && u.slot >= level }

  lemma NotAllWeak(g: G, h: Ref)
    requires Inv(g) && KeepInvariant(g) && h in g.heap && !g.heap[h].Table?
    ensures h !in g.allweak
  {
  }

  lemma NotTable(g: G, h: Ref, o: Obj, v: Value)
    requires Inv(g) && MayStore(g, h, o, v) && !o.Table?
    ensures !(KeepInvariant(g) && h in g.allweak)
  {
    if KeepInvariant(g) { NotAllWeak(g, h); }
  }

  lemma LiveMarked(g0: G, g: G, v: Value)
    requires Live(g0, v) && g0.mark.Keys == g0.heap.Keys && g.mark == g0.mark && !(v.Gc? && IsWhite(g, v.r))
    ensures MarkedV(g, v)
  {
  }

  lemma StillAllocated(g0: G, g: G, r: Ref)
    requires Inv(g0) && Inv(g) && Allocated(g0, r) && g.heap == g0.heap && g.white == g0.white
    requires g == g0.(ups := g.ups, mark := g.mark, gray := g.gray)
    requires KeepInvariant(g0) || g.mark == g0.mark
    ensures Allocated(g, r)
  {
  }

  // ---- the first state ----

  function Initial(main: Ref): G {
    G(map[main := Thread([])], map[main := White(false)], [], false, Pause, [], 0, {}, main, main, Nil, [], {}, {}, {},
        {}, {}, {})
  }

  lemma InitialInv(main: Ref)
    ensures Inv(Initial(main))
  {
  }

  // ---- a run that goes wrong ----

  const MAINTHREAD := Ref(0)
  const WEAKTABLE := Ref(1)
  const OLDMETA := Ref(2)
  const NEWMETA := Ref(3)
  const MODEKEY := Ref(4)
  const MODEVALUE := Ref(5)
  const CLOSURE := Ref(6)
  const CACHE := Ref(7)
  const VALUEMETA := Ref(8)
  const VALUEMODE := Ref(9)

  /** `{__mode = "kv"}` */
  function WeakMeta(): Obj { Table(Strong, Nil, [], [Entry(Gc(MODEKEY), Gc(MODEVALUE))]) }

  function FirstHeap(): map<Ref, Obj> {
    map[MAINTHREAD := Thread([]), MODEKEY := Str, MODEVALUE := Str, OLDMETA := WeakMeta(),
        WEAKTABLE := Table(Strong, Nil, [], [])]
  }

  /** An all-weak table that is the metatable of a basic type, with its own metatable. */
  ghost predicate Scene(g: G, meta: Ref) {
    g.main == MAINTHREAD && g.running == MAINTHREAD && g.registry == Nil && g.mts == [Gc(WEAKTABLE)] &&
    g.fixed == {} && g.ups == [] &&
    {MAINTHREAD, WEAKTABLE, OLDMETA, MODEKEY, MODEVALUE} <= g.heap.Keys <= {MAINTHREAD, WEAKTABLE, OLDMETA, NEWMETA,
        MODEKEY, MODEVALUE} &&
    g.heap[MAINTHREAD] == Thread([]) && g.heap[WEAKTABLE] == Table(AllWeak, Gc(meta), [], []) &&
    g.heap[OLDMETA] == WeakMeta() &&
    g.heap[MODEKEY] == Str && g.heap[MODEVALUE] == Str
  }

  lemma SceneStays(g0: G, g: G, meta: Ref)
    requires Scene(g0, meta) && AllBuried(g0, g) && g.main == g0.main && g.running == g0.running
    requires g.registry == g0.registry
    requires g.mts == g0.mts && g.fixed == g0.fixed && |g.ups| == |g0.ups|
    ensures Scene(g, meta) && g.heap.Keys == g0.heap.Keys
  {
    assert Buried(g0.heap[MAINTHREAD], g.heap[MAINTHREAD]) && Buried(g0.heap[WEAKTABLE], g.heap[WEAKTABLE]);
    assert Buried(g0.heap[MODEKEY], g.heap[MODEKEY]) && Buried(g0.heap[MODEVALUE], g.heap[MODEVALUE]);
    assert Buried(g0.heap[OLDMETA], g.heap[OLDMETA]);
    assert EntryBuried(g0.heap[OLDMETA].hash[0], g.heap[OLDMETA].hash[0]);
  }

  lemma NoDeadHere(g: G)
    requires Inv(g) && KeepInvariant(g)
    ensures forall r :: r in g.heap ==> Allocated(g, r)
  {
  }

  /** Without the new metatable, what is left is all that a collection keeps, as far as the collector can tell. */
  function Rest(): Bounds { Bounds({MAINTHREAD, WEAKTABLE, OLDMETA, MODEKEY, MODEVALUE}, {WEAKTABLE}) }

  lemma RestMarking(g: G)
    requires Scene(g, NEWMETA) && LostInv(g, WEAKTABLE) && WEAKTABLE in g.allweak && IsWhite(g, NEWMETA)
    ensures Marking(g, {}, Phase({}, false, {WEAKTABLE}), Rest()) && Marked(g, g.main)
  {
    hide Sound, UpsOk, NoneDead, Lists, Tricolor;
    forall r | r in Rest().keep && r in g.heap ensures KeepsIn(g, Rest(), r, g.heap[r]) {
      assert r == MAINTHREAD || r == WEAKTABLE || r == OLDMETA || r == MODEKEY || r == MODEVALUE;
    }
    assert KeepSet(g, Rest());
    assert Within(g, Rest());
  }

  /** The table belongs to a root, and the new metatable to it. */
  ghost predicate Holding(g: G) {
    Gc(WEAKTABLE) in g.mts && WEAKTABLE in g.heap && g.heap[WEAKTABLE].Table? &&
    g.heap[WEAKTABLE].tmt == Gc(NEWMETA) && NEWMETA in g.heap
  }

  lemma TravHolds(g0: G, g: G)
    requires Trav(g0, g) && Holding(g0) && Marked(g0, g0.main)
    ensures Holding(g) && Marked(g, g.main) && g.state == g0.state
  {
    assert Buried(g0.heap[WEAKTABLE], g.heap[WEAKTABLE]);
  }

  lemma StillHeld(g0: G, g: G, s: Bounds, a: set<Ref>)
    requires Holding(g0) && Forgets(g0, g, a) && Flipped(g, s) && NEWMETA !in s.keep
    ensures Accessible(g, Gc(NEWMETA)) && Dead(g, NEWMETA)
  {
    hide Shape, UpsOk, Sound, LostMarked, KeysKept;
    assert ObjFaded(g, Treated(g0.heap[WEAKTABLE], WEAKTABLE in a), g0.heap[WEAKTABLE], g.heap[WEAKTABLE]);
    HoldingPath(g);
  }

  lemma HoldingPath(g: G)
    requires Holding(g)
    ensures Accessible(g, Gc(NEWMETA))
  {
    var p := [Gc(WEAKTABLE), Gc(NEWMETA)];
    TableVals(g.heap[WEAKTABLE]);
    assert HeldBefore(g, p, 1);
    assert Path(g, p) && p[|p| - 1] == Gc(NEWMETA);
  }

  // ---- a run that breaks an assertion ----

  /** `{__mode = "v"}` */
  function ValueMeta(): Obj { Table(Strong, Nil, [], [Entry(Gc(MODEKEY), Gc(VALUEMODE))]) }

  /** The first slot of the main thread's stack has an open upvalue. */
  ghost predicate CaptureScene(g: G) {
    g.main == MAINTHREAD && g.ups == [Open(MAINTHREAD, 0, true)] && MODEKEY in g.heap &&
    CLOSURE !in g.heap && CACHE !in g.heap && VALUEMETA !in g.heap && VALUEMODE !in g.heap &&
    MAINTHREAD in g.heap && g.heap[MAINTHREAD] == Thread([Nil, Nil])
  }

  lemma SceneFacts(g: G)
    requires Scene(g, OLDMETA)
    ensures g.main == MAINTHREAD && g.ups == [] && MODEKEY in g.heap && MAINTHREAD in g.heap
    ensures g.heap[MAINTHREAD] == Thread([])
    ensures CLOSURE !in g.heap && CACHE !in g.heap && VALUEMETA !in g.heap && VALUEMODE !in g.heap
  {
  }

  lemma MayClear(g: G)
    requires g.ups == [] && Allocated(g, MAINTHREAD) && g.heap[MAINTHREAD] == Thread([])
    ensures MayPush(g, MAINTHREAD, [Nil, Nil])
  {
  }

  lemma CaptureFacts(g: G)
    requires CaptureScene(g)
    ensures CLOSURE !in g.heap && RefsLive(g, Closure([], [0])) && MAINTHREAD in g.heap
    ensures g.heap[MAINTHREAD] == Thread([Nil, Nil]) && g.ups == [Open(MAINTHREAD, 0, true)]
    ensures g.main == MAINTHREAD && MODEKEY in g.heap
    ensures CACHE !in g.heap && VALUEMETA !in g.heap && VALUEMODE !in g.heap
  {
    assert UpValue(g, g.ups[0]) == Nil;
    assert UpLive(g, 0);
  }

  lemma MayHold(g: G)
    requires Allocated(g, CLOSURE) && Allocated(g, MAINTHREAD) && g.heap[MAINTHREAD] == Thread([Nil, Nil])
    requires g.ups == [Open(MAINTHREAD, 0, true)]
    ensures MayPush(g, MAINTHREAD, [Nil, Gc(CLOSURE)])
  {
  }

  lemma EmptyRefs(g: G)
    ensures RefsLive(g, Str) && RefsLive(g, Table(Strong, Nil, [Nil], []))
  {
  }

  lemma MetaRefs(g: G)
    requires Allocated(g, MODEKEY) && Allocated(g, VALUEMODE)
    ensures RefsLive(g, ValueMeta())
  {
  }

  /** The closure, and a table that is new. */
  ghost predicate TableScene(g: G) {
    g.main == MAINTHREAD && g.ups == [Closed(Nil)] && VALUEMETA in g.heap &&
    MAINTHREAD in g.heap && g.heap[MAINTHREAD] == Thread([Nil, Gc(CLOSURE)]) &&
    CLOSURE in g.heap && g.heap[CLOSURE] == Closure([], [0]) &&
    CACHE in g.heap && g.heap[CACHE] == Table(Strong, Nil, [Nil], []) && IsWhite(g, CACHE)
  }

  /** A closure on the main thread's stack with one upvalue, closed. */
  ghost predicate ClosureScene(g: G) {
    g.main == MAINTHREAD && g.ups == [Closed(Nil)] && MODEKEY in g.heap &&
    CACHE !in g.heap && VALUEMETA !in g.heap && VALUEMODE !in g.heap &&
    MAINTHREAD in g.heap && g.heap[MAINTHREAD] == Thread([Nil, Gc(CLOSURE)]) &&
    CLOSURE in g.heap && g.heap[CLOSURE] == Closure([], [0])
  }

  /** Its upvalue holds a table with weak values and an array part. */
  ghost predicate CacheScene(g: G) {
    g.main == MAINTHREAD && g.ups == [Closed(Gc(CACHE))] &&
    MAINTHREAD in g.heap && g.heap[MAINTHREAD] == Thread([Nil, Gc(CLOSURE)]) &&
    CLOSURE in g.heap && g.heap[CLOSURE] == Closure([], [0]) &&
    CACHE in g.heap && g.heap[CACHE] == Table(WeakValue, Gc(VALUEMETA), [Nil], [])
  }

  lemma WhiteWaitsNot(g: G, r: Ref)
    requires Inv(g) && KeepInvariant(g) && IsWhite(g, r)
    ensures r !in g.allweak && !IsBlack(g, r)
  {
    assert r in g.allweak ==> InList(g, Idling(), r);
  }

  lemma CacheIsGray(g0: G, g: G)
    requires IsWhite(g0, CACHE) && CACHE in g.heap && g.heap[CACHE].Table? && MarkedV(g, Gc(CACHE))
    requires MarksGrew(g0.(ups := g.ups), g)
    ensures CACHE in g.gray
  {
  }

  lemma CacheLinked(g0: G, g: G, s: Bounds)
    requires CacheScene(g0) && CACHE in g0.gray && g0.state == Atomic && Trav(g0, g) && Linkage(g0, g) && g.gray == {}
    requires Marking(g0, {}, Phase({}, true, {}), s) && Marking(g, {}, Phase({}, true, {}), s)
    ensures CACHE in g.weak && Accessible(g, Gc(CACHE)) && g.state == Atomic
  {
    hide Marking, Linkage, Trav, Accessible, CacheScene;
    CacheStays(g0, g);
    CacheGray(g0, s);
    assert Risky(g, CACHE);
    CacheListed(g0, g);
    EphemeronsAre(g, s);
    CachePath(g);
  }

  lemma CacheStays(g0: G, g: G)
    requires CacheScene(g0) && Trav(g0, g)
    ensures CACHE in g.heap && g.heap[CACHE] == Table(WeakValue, Gc(VALUEMETA), [Nil], [])
    ensures CLOSURE in g.heap && g.heap[CLOSURE] == Closure([], [0]) && g.ups == [Closed(Gc(CACHE))]
    ensures g.main == MAINTHREAD && MAINTHREAD in g.heap && g.heap[MAINTHREAD] == Thread([Nil, Gc(CLOSURE)])
    ensures g.state == g0.state
  {
    TravState(g0, g);
    TravUps(g0, g);
    TravAt(g0, g, CACHE);
    TravAt(g0, g, MAINTHREAD);
    TravAt(g0, g, CLOSURE);
  }

  lemma CacheGray(g: G, s: Bounds)
    requires Marking(g, {}, Phase({}, true, {}), s) && CACHE in g.gray
    ensures IsGray(g, CACHE)
  {
    Parts(g, {}, Phase({}, true, {}), s);
    hide Marking, Shape, UpsOk, Sound, NoneDead, Tricolor, KeepSet, Within;
    assert InList(g, Phase({}, true, {}), CACHE);
  }

  lemma EphemeronsAre(g: G, s: Bounds)
    requires Marking(g, {}, Phase({}, true, {}), s)
    ensures forall r :: r in g.ephemeron ==> r in g.heap && g.heap[r].Table? && g.heap[r].mode == Ephemeron
  {
    Parts(g, {}, Phase({}, true, {}), s);
    hide Marking, Shape, UpsOk, Sound, NoneDead, Tricolor, KeepSet, Within;
  }

  lemma CacheListed(g0: G, g: G)
    requires Trav(g0, g) && Linkage(g0, g) && g.gray == {} && CACHE in g0.gray && IsGray(g0, CACHE)
    requires g0.state == Atomic
    requires Risky(g, CACHE)
    ensures CACHE in Listed(g)
  {
    hide Risky;
  }

  lemma TravUps(g0: G, g: G)
    requires Trav(g0, g) && g0.ups == [Closed(Gc(CACHE))]
    ensures g.ups == g0.ups && g.main == g0.main
  {
    assert SameUp(g0.ups[0], g.ups[0]);
  }

  lemma CachePath(g: G)
    requires CLOSURE in g.heap && g.heap[CLOSURE] == Closure([], [0]) && g.ups == [Closed(Gc(CACHE))]
    requires g.main == MAINTHREAD && MAINTHREAD in g.heap && g.heap[MAINTHREAD] == Thread([Nil, Gc(CLOSURE)])
    ensures Accessible(g, Gc(CACHE))
  {
    var p := [Gc(MAINTHREAD), Gc(CLOSURE), Gc(CACHE)];
    assert Vals(g.heap[MAINTHREAD])[1] == Gc(CLOSURE);
    assert HeldBefore(g, p, 1);
    assert UpValue(g, g.ups[g.heap[CLOSURE].upvals[0]]) == Gc(CACHE);
    assert HeldBefore(g, p, 2);
    assert Path(g, p) && p[|p| - 1] == Gc(CACHE);
  }
}
