/** What a collection leaves: the contents of what survives, and everything that has to be left. */
module GcSurvive {
  import opened GcState
  import opened GcMark
  import opened GcTraverse
  import opened GcAtomic
  import opened GcCycle

  /** A reference to an object, but not a string, that has been freed since g0, or will be. */
  predicate Lost(g0: G, g: G, v: Value) { v.Gc? && !IsString(g0, v) && (v.r !in g.heap || Dead(g, v.r)) }

  /** An entry loses its value only by the rule of its table's mode. */
  predicate EntryWorn(g0: G, g: G, m: Mode, e: Entry, e': Entry) {
    e' == e || (e'.val == Nil && (e'.key == e.key || e'.key == DeadKey) &&
        (e.val == Nil || Lapses(m, Lost(g0, g, e.key), Lost(g0, g, e.val))))
  }

  ghost predicate Worn(g0: G, g: G, m: Mode, o: Obj, o': Obj) {
    match o
    case Table(mode, mt, arr, hash) =>
      o'.Table? && o'.mode == mode && o'.tmt == mt && |o'.arr| == |arr| && |o'.hash| == |hash| &&
      (forall i :: 0 <= i < |arr| ==>
         o'.arr[i] == arr[i] || (o'.arr[i] == Nil && SlotLapses(m, Lost(g0, g, arr[i])))) &&
      (forall i :: 0 <= i < |hash| ==> EntryWorn(g0, g, m, hash[i], o'.hash[i]))
    case _ => Shrunk(o, o')
  }

  /** Everything in g was in g0, and has lost only what its mode allows; tables of a are treated as all-weak. */
  ghost predicate AllWorn(g0: G, g: G, a: set<Ref>) {
    forall r :: r in g.heap ==> r in g0.heap && Worn(g0, g, Treated(g0.heap[r], r in a), g0.heap[r], g.heap[r])
  }

  ghost predicate SameRoots(g0: G, g: G) {
    g.main == g0.main && g.running == g0.running && g.registry == g0.registry && g.mts == g0.mts && g.fixed == g0.fixed
  }

  ghost predicate SameUpValues(g0: G, g: G) {
    |g.ups| == |g0.ups| && forall i :: 0 <= i < |g.ups| ==> UpValue(g, g.ups[i]) == UpValue(g0, g0.ups[i])
  }

  /** Dead objects only wait to be freed. */
  ghost predicate DeadStay(g0: G, g: G) {
    forall r :: r in g.heap && Dead(g0, r) ==> Dead(g, r) && r in g0.heap && Buried(g0.heap[r], g.heap[r])
  }

  /** What the collector may do to the heap: objects disappear, weak tables lose entries as their modes say, and
      otherwise everything that a program can see stays as it is. */
  ghost predicate Survives(g0: G, g: G, a: set<Ref>) {
    SameRoots(g0, g) && SameUpValues(g0, g) && AllWorn(g0, g, a) && DeadStay(g0, g)
  }

  /** What is left has lost nothing that a program can see. */
  ghost predicate Untouched(g0: G, g: G) {
    forall r :: r in g.heap ==> r in g0.heap && Buried(g0.heap[r], g.heap[r])
  }

  /** What is no weak table has lost nothing that a program can see, unless it had to wait as one. */
  lemma StrongUntouched(g0: G, g: G, a: set<Ref>, r: Ref)
    requires Survives(g0, g, a) && r in g.heap && r !in a && r in g0.heap
    requires g0.heap[r].Table? ==> g0.heap[r].mode == Strong
    ensures Buried(g0.heap[r], g.heap[r])
  {
    assert Worn(g0, g, Treated(g0.heap[r], r in a), g0.heap[r], g.heap[r]);
    hide Lost;
    if g0.heap[r].Table? {
      var hash := g0.heap[r].hash;
      forall i | 0 <= i < |hash| ensures EntryBuried(hash[i], g.heap[r].hash[i]) {
        assert EntryWorn(g0, g, Strong, hash[i], g.heap[r].hash[i]);
      }
    }
  }

  // ---- several steps ----

  lemma WornSame(g0: G, g: G, m: Mode, o0: Obj, o1: Obj, o2: Obj)
    requires Worn(g0, g, m, o0, o1) && Worn(g0, g, m, o1, o2)
    ensures Worn(g0, g, m, o0, o2)
  {
    hide Lost;
    if o0.Table? {
      forall i | 0 <= i < |o0.hash| ensures EntryWorn(g0, g, m, o0.hash[i], o2.hash[i]) {
        assert EntryWorn(g0, g, m, o0.hash[i], o1.hash[i]) && EntryWorn(g0, g, m, o1.hash[i], o2.hash[i]);
      }
    }
  }

  lemma WornLater(g0: G, g1: G, g2: G, m: Mode, o: Obj, o': Obj)
    requires Worn(g0, g1, m, o, o') && forall v :: Lost(g0, g1, v) ==> Lost(g0, g2, v)
    ensures Worn(g0, g2, m, o, o')
  {
    hide Lost;
    if o.Table? {
      forall i | 0 <= i < |o.hash| ensures EntryWorn(g0, g2, m, o.hash[i], o'.hash[i]) {
        assert EntryWorn(g0, g1, m, o.hash[i], o'.hash[i]);
      }
    }
  }

  /** What has been lost of o since g1 was no string before either. */
  lemma WornEarlier(g0: G, g1: G, g2: G, m: Mode, o: Obj, o': Obj)
    requires Worn(g1, g2, m, o, o') && RefsLive(g1, o)
    requires forall v :: Live(g1, v) && Lost(g1, g2, v) ==> Lost(g0, g2, v)
    ensures Worn(g0, g2, m, o, o')
  {
    hide Lost, Live;
    if o.Table? {
      forall i | 0 <= i < |o.hash| ensures EntryWorn(g0, g2, m, o.hash[i], o'.hash[i]) {
        assert EntryWorn(g1, g2, m, o.hash[i], o'.hash[i]) && EntryLive(g1, o.hash[i]);
      }
    }
  }

  lemma BuriedWorn(g0: G, g: G, m: Mode, o: Obj, o': Obj)
    requires Buried(o, o')
    ensures Worn(g0, g, m, o, o')
  {
    if o.Table? {
      forall i | 0 <= i < |o.hash| ensures EntryWorn(g0, g, m, o.hash[i], o'.hash[i]) {
        assert EntryBuried(o.hash[i], o'.hash[i]);
      }
    }
  }

  lemma WornTreated(g0: G, g: G, m: Mode, o: Obj, o': Obj, waits: bool)
    requires Worn(g0, g, m, o, o')
    ensures Treated(o', waits) == Treated(o, waits) && (o'.Str? <==> o.Str?)
  {
  }

  lemma LostLater(g0: G, g1: G, g2: G)
    requires Survives(g1, g2, {})
    ensures forall v :: Lost(g0, g1, v) ==> Lost(g0, g2, v)
  {
    hide Worn, Buried, SameUpValues, SameRoots;
    forall v | Lost(g0, g1, v) ensures Lost(g0, g2, v) {
      if v.r in g2.heap { assert v.r in g1.heap && Dead(g1, v.r); }
    }
  }

  lemma LostEarlier(g0: G, g1: G, g2: G)
    requires Survives(g0, g1, {})
    ensures forall v :: Live(g1, v) && Lost(g1, g2, v) ==> Lost(g0, g2, v)
  {
    hide Worn, Buried, SameUpValues, SameRoots;
    forall v | Live(g1, v) && Lost(g1, g2, v) ensures Lost(g0, g2, v) {
      WornTreated(g0, g1, Treated(g0.heap[v.r], false), g0.heap[v.r], g1.heap[v.r], false);
    }
  }

  /** Survival composes over steps, if nothing dangles in between. */
  lemma SurvivesTrans(g0: G, g1: G, g2: G)
    requires Survives(g0, g1, {}) && Sound(g1) && Survives(g1, g2, {})
    ensures Survives(g0, g2, {})
  {
    LostLater(g0, g1, g2);
    LostEarlier(g0, g1, g2);
    hide Worn, Buried, UpValue, Lost, Treated, RefsLive, Live;
    forall r | r in g2.heap
      ensures r in g0.heap && Worn(g0, g2, Treated(g0.heap[r], false), g0.heap[r], g2.heap[r])
    {
      var m := Treated(g0.heap[r], false);
      WornTreated(g0, g1, m, g0.heap[r], g1.heap[r], false);
      WornLater(g0, g1, g2, m, g0.heap[r], g1.heap[r]);
      if Dead(g1, r) {
        BuriedWorn(g0, g2, m, g1.heap[r], g2.heap[r]);
      } else {
        assert Allocated(g1, r);
        WornEarlier(g0, g1, g2, m, g1.heap[r], g2.heap[r]);
      }
      WornSame(g0, g2, m, g0.heap[r], g1.heap[r], g2.heap[r]);
    }
    DeadStayTrans(g0, g1, g2);
  }

  lemma DeadStayTrans(g0: G, g1: G, g2: G)
    requires DeadStay(g0, g1) && DeadStay(g1, g2) && forall r :: r in g2.heap ==> r in g1.heap
    ensures DeadStay(g0, g2)
  {
    hide Buried;
    forall r | r in g2.heap && Dead(g0, r) ensures Dead(g2, r) && r in g0.heap && Buried(g0.heap[r], g2.heap[r]) {
      BuriedOne(g0.heap[r], g1.heap[r], g2.heap[r]);
    }
  }

  lemma BuriedOne(o0: Obj, o1: Obj, o2: Obj)
    requires Buried(o0, o1) && Buried(o1, o2)
    ensures Buried(o0, o2)
  {
    if o0.Table? {
      forall i | 0 <= i < |o0.hash| ensures EntryBuried(o0.hash[i], o2.hash[i]) {
        assert EntryBuried(o0.hash[i], o1.hash[i]) && EntryBuried(o1.hash[i], o2.hash[i]);
      }
    }
  }

  lemma UntouchedTrans(g0: G, g1: G, g2: G)
    requires Untouched(g0, g1) && Untouched(g1, g2)
    ensures Untouched(g0, g2)
  {
    hide Buried;
    forall r | r in g2.heap ensures r in g0.heap && Buried(g0.heap[r], g2.heap[r]) {
      BuriedOne(g0.heap[r], g1.heap[r], g2.heap[r]);
    }
  }

  lemma UntouchedWorn(g0: G, g: G, a: set<Ref>)
    requires Untouched(g0, g)
    ensures AllWorn(g0, g, a)
  {
    hide Worn, Buried;
    forall r | r in g.heap ensures Worn(g0, g, Treated(g0.heap[r], r in a), g0.heap[r], g.heap[r]) {
      BuriedWorn(g0, g, Treated(g0.heap[r], r in a), g0.heap[r], g.heap[r]);
    }
  }

  /** Marking. */
  lemma BuriedSurvives(g0: G, g: G)
    requires AllBuried(g0, g) && SameRoots(g0, g) && SameUpValues(g0, g) && NoneDead(g0) && g0.mark.Keys == g0.heap.Keys
    ensures Survives(g0, g, {}) && Untouched(g0, g)
  {
    hide Worn, Buried, UpValue;
    UntouchedWorn(g0, g, {});
  }

  /** Sweeping. */
  lemma SweepSurvives(g0: G, g: G)
    requires SweepRel(g0, g)
    ensures Survives(g0, g, {}) && Untouched(g0, g)
  {
    hide Worn, Buried, UpValue;
    BuriedSelf(g, g);
    UntouchedWorn(g0, g, {});
  }

  /** `atomic` and the beginning of the sweep. */
  lemma AtomicSurvives(g0: G, g1: G, g2: G, g: G, a: set<Ref>)
    requires AllBuried(g0, g1) && Forgets(g1, g2, a) && SweepRel(g2.(state := SwpAllGc, rem := |g2.allgc|), g)
    requires SameRoots(g0, g1) && SameUpValues(g0, g1) && NoneDead(g0) && g0.mark.Keys == g0.heap.Keys
    requires g1.mark.Keys == g1.heap.Keys
    ensures Survives(g0, g, a)
  {
    hide Worn, Buried, UpValue, AllFaded, AllBuried, ObjFaded, KeysKept, AllWorn;
    var gs := g2.(state := SwpAllGc, rem := |g2.allgc|);
    ForgetsUps(g1, g2, a);
    StateUps(g2, gs);
    assert SameUpValues(g0, g);
    FadedWorn(g0, g1, g2, gs, g, a);
  }

  lemma StateUps(g: G, g': G)
    requires g' == g.(state := g'.state, rem := g'.rem)
    ensures SameUpValues(g, g')
  {
  }

  lemma ForgetsUps(g0: G, g: G, a: set<Ref>)
    requires Forgets(g0, g, a)
    ensures SameUpValues(g0, g) && SameRoots(g0, g)
  {
    hide KeysKept, Treated;
    forall i | 0 <= i < |g.ups| ensures UpValue(g, g.ups[i]) == UpValue(g0, g0.ups[i]) {
      assert SameUp(g0.ups[i], g.ups[i]);
      var u := g0.ups[i];
      if u.Open? && u.th in g0.heap {
        assert ObjFaded(g, Treated(g0.heap[u.th], u.th in a), g0.heap[u.th], g.heap[u.th]);
      }
    }
  }

  lemma FadedWorn(g0: G, g1: G, g2: G, gs: G, g: G, a: set<Ref>)
    requires AllBuried(g0, g1) && Forgets(g1, g2, a) && gs == g2.(state := SwpAllGc, rem := |g2.allgc|)
    requires SweepRel(gs, g) && g1.mark.Keys == g1.heap.Keys
    ensures AllWorn(g0, g, a)
  {
    hide Worn, Buried, UpValue, ObjFaded, Cleared, Lost, KeysKept, Treated;
    forall v | Cleared(g2, v) ensures Lost(g0, g, v) { ClearedLost(g0, g1, g2, gs, g, v, a); }
    forall r | r in g.heap ensures r in g0.heap && Worn(g0, g, Treated(g0.heap[r], r in a), g0.heap[r], g.heap[r]) {
      var m := Treated(g0.heap[r], r in a);
      BuriedWorn(g0, g, m, g0.heap[r], g1.heap[r]);
      WornTreated(g0, g, m, g0.heap[r], g1.heap[r], r in a);
      WornFaded(g0, g2, g, m, g1.heap[r], g2.heap[r]);
      WornSame(g0, g, m, g0.heap[r], g1.heap[r], g.heap[r]);
    }
  }

  lemma ClearedLost(g0: G, g1: G, g2: G, gs: G, g: G, v: Value, a: set<Ref>)
    requires AllBuried(g0, g1) && Forgets(g1, g2, a) && gs == g2.(state := SwpAllGc, rem := |g2.allgc|)
    requires SweepRel(gs, g) && Cleared(g2, v) && g1.mark.Keys == g1.heap.Keys
    ensures Lost(g0, g, v)
  {
    hide UpValue, KeysKept;
    assert Dead(g2, v.r) && Dead(gs, v.r);
    assert Buried(g0.heap[v.r], g1.heap[v.r]);
    assert ObjFaded(g2, Treated(g1.heap[v.r], v.r in a), g1.heap[v.r], g2.heap[v.r]);
  }

  lemma WornFaded(g0: G, g2: G, g: G, m: Mode, o: Obj, o': Obj)
    requires ObjFaded(g2, m, o, o') && forall v :: Cleared(g2, v) ==> Lost(g0, g, v)
    ensures Worn(g0, g, m, o, o')
  {
    hide Cleared, Lost;
    if o.Table? {
      forall i | 0 <= i < |o.hash| ensures EntryWorn(g0, g, m, o.hash[i], o'.hash[i]) {
        assert EntryFaded(g2, m, o.hash[i], o'.hash[i]);
      }
    }
  }

  // ---- what must survive ----

  predicate InK(k: set<Ref>, v: Value) { v.Gc? ==> v.r in k }

  ghost predicate AllInK(k: set<Ref>, vs: seq<Value>) { forall i :: 0 <= i < |vs| ==> InK(k, vs[i]) }

  /** A reference to an object outside k that may be taken out of a weak table: strings may not. */
  predicate Outside(g: G, k: set<Ref>, v: Value) { v.Gc? && v.r !in k && !IsString(g, v) }

  /** An entry that its table's mode keeps is in k, key and value; and so is the key of a weak value. */
  predicate EntryHeld(g: G, k: set<Ref>, m: Mode, e: Entry) {
    e.val != Nil ==>
      (!Lapses(m, Outside(g, k, e.key), Outside(g, k, e.val)) ==> InK(k, e.key) && InK(k, e.val)) &&
      (m == WeakValue ==> InK(k, e.key))
  }

  /** What an object holds is in k: strongly, or as the key of an ephemeron lets it. */
  ghost predicate HoldsIn(g: G, k: set<Ref>, m: Mode, o: Obj) {
    match o
    case Str => true
    case Udata(mt, uv) => InK(k, mt) && InK(k, uv)
    case Closure(fs, us) => AllInK(k, fs) &&
      forall i :: 0 <= i < |us| && us[i] < |g.ups| ==> InK(k, UpValue(g, g.ups[us[i]]))
    case Table(_, mt, arr, hash) => InK(k, mt) &&
      (forall i :: 0 <= i < |arr| ==> SlotLapses(m, Outside(g, k, arr[i])) || InK(k, arr[i])) &&
      forall i :: 0 <= i < |hash| ==> EntryHeld(g, k, m, hash[i])
    case Thread(st) => AllInK(k, st)
    case Proto(rs, _) => AllInK(k, rs)
  }

  /** k has the roots, and all that its objects hold; tables of a are treated as all-weak. */
  ghost predicate Complete(g: G, k: set<Ref>, a: set<Ref>) {
    k <= g.heap.Keys && g.main in k && g.running in k && InK(k, g.registry) && AllInK(k, g.mts) && g.fixed <= k &&
    forall r :: r in k ==> HoldsIn(g, k, Treated(g.heap[r], r in a), g.heap[r])
  }

  /** The objects that will outlive the sweep. */
  function Kept(g: G): set<Ref> { set r | r in g.heap && !Dead(g, r) }

  /** What the atomic phase leaves to the sweep is complete in the heap as it was before. */
  lemma AtomicCompletes(g0: G, g1: G, g2: G, g: G, a: set<Ref>)
    requires AllBuried(g0, g1) && Forgets(g1, g2, a) && SweepRel(g2.(state := SwpAllGc, rem := |g2.allgc|), g)
    requires g1.mark.Keys == g1.heap.Keys && Survives(g0, g, a) && Shape(g) && Sound(g)
    ensures Complete(g0, Kept(g), a)
  {
    hide Worn, Buried, UpValue, RefsLive, Forgets, SweepRel, DeadStay;
    var k := Kept(g);
    assert forall v :: Live(g, v) ==> InK(k, v);
    forall r | r in k ensures HoldsIn(g0, k, Treated(g0.heap[r], r in a), g0.heap[r]) {
      assert Allocated(g, r);
      KeysHeld(g0, g1, g2, g, r, a);
      SurvivorHolds(g0, g, r, Treated(g0.heap[r], r in a));
    }
    assert g.fixed <= k by { forall r | r in g.fixed ensures r in k { assert Marked(g, r) && !Dead(g, r); } }
  }

  /** The keys of weak values. */
  lemma KeysHeld(g0: G, g1: G, g2: G, g: G, r: Ref, a: set<Ref>)
    requires AllBuried(g0, g1) && Forgets(g1, g2, a) && SweepRel(g2.(state := SwpAllGc, rem := |g2.allgc|), g)
    requires g1.mark.Keys == g1.heap.Keys && r in Kept(g) && r in g0.heap
    ensures g0.heap[r].Table? && Treated(g0.heap[r], r in a) == WeakValue ==>
              forall i :: 0 <= i < |g0.heap[r].hash| && g0.heap[r].hash[i].val != Nil ==>
                InK(Kept(g), g0.heap[r].hash[i].key)
  {
    hide AllFaded, UpValue;
    if g0.heap[r].Table? && Treated(g0.heap[r], r in a) == WeakValue {
      forall i: nat | i < |g0.heap[r].hash| && g0.heap[r].hash[i].val != Nil
        ensures InK(Kept(g), g0.heap[r].hash[i].key)
      {
        assert Buried(g0.heap[r], g1.heap[r]) && EntryBuried(g0.heap[r].hash[i], g1.heap[r].hash[i]);
        assert WeakValueAt(g1, r, a, i);
        KeyHeld(g1, g2, g, r, a, g0.heap[r].hash[i].key);
      }
    }
  }

  lemma KeyHeld(g1: G, g2: G, g: G, r: Ref, a: set<Ref>, v: Value)
    requires Forgets(g1, g2, a) && SweepRel(g2.(state := SwpAllGc, rem := |g2.allgc|), g)
    requires g1.mark.Keys == g1.heap.Keys && r in Kept(g)
    ensures Marked(g2, r) && (MarkedV(g2, v) ==> InK(Kept(g), v))
  {
    hide AllFaded, UpValue, KeysKept;
    var gs := g2.(state := SwpAllGc, rem := |g2.allgc|);
    assert forall q :: Dead(gs, q) <==> Dead(g2, q);
    assert !Dead(gs, r) && r in g2.heap && !IsWhite(g2, r);
    if v.Gc? && Marked(g2, v.r) {
      assert v.r in g2.heap && !Dead(gs, v.r);
    }
  }

  lemma SurvivorHolds(g0: G, g: G, r: Ref, m: Mode)
    requires r in g.heap && r in g0.heap && RefsLive(g, g.heap[r]) && Worn(g0, g, m, g0.heap[r], g.heap[r])
    requires SameUpValues(g0, g) && forall v :: Live(g, v) ==> InK(Kept(g), v)
    requires g0.heap[r].Table? && m == WeakValue ==>
               forall i :: 0 <= i < |g0.heap[r].hash| && g0.heap[r].hash[i].val != Nil ==>
                 InK(Kept(g), g0.heap[r].hash[i].key)
    ensures HoldsIn(g0, Kept(g), m, g0.heap[r])
  {
    assert forall v :: Lost(g0, g, v) ==> Outside(g0, Kept(g), v);
    hide UpValue, Live, InK, Lost, Outside, Kept;
    match g0.heap[r]
    case Closure(_, us) =>
      forall i | 0 <= i < |us| && us[i] < |g0.ups| ensures InK(Kept(g), UpValue(g0, g0.ups[us[i]])) {
        assert UpLive(g, us[i]);
      }
    case Table(_, _, _, hash) =>
      forall i | 0 <= i < |hash| ensures EntryHeld(g0, Kept(g), m, hash[i]) {
        assert EntryWorn(g0, g, m, hash[i], g.heap[r].hash[i]) && EntryLive(g, g.heap[r].hash[i]);
      }
    case _ =>
  }

  /** Marking and sweeping before do not matter. */
  lemma CompleteBefore(g0: G, g1: G, k: set<Ref>)
    requires Untouched(g0, g1) && SameRoots(g0, g1) && SameUpValues(g0, g1) && Sound(g1) && Complete(g1, k, {})
    requires forall r :: r in k ==> Allocated(g1, r)
    ensures Complete(g0, k, {})
  {
    hide Buried, UpValue, RefsLive, Allocated;
    forall v | Live(g1, v) ensures IsString(g0, v) == IsString(g1, v) { SameString(g0, g1, v); }
    forall r | r in k ensures r in g0.heap && HoldsIn(g0, k, Treated(g0.heap[r], false), g0.heap[r]) {
      HoldsBefore(g0, g1, k, r);
    }
  }

  lemma SameString(g0: G, g1: G, v: Value)
    requires Untouched(g0, g1) && Live(g1, v)
    ensures IsString(g0, v) == IsString(g1, v)
  {
  }

  lemma HoldsBefore(g0: G, g1: G, k: set<Ref>, r: Ref)
    requires r in g0.heap && r in g1.heap && Buried(g0.heap[r], g1.heap[r]) && SameUpValues(g0, g1)
    requires RefsLive(g1, g1.heap[r]) && HoldsIn(g1, k, Treated(g1.heap[r], false), g1.heap[r])
    requires forall v :: Live(g1, v) ==> IsString(g0, v) == IsString(g1, v)
    ensures HoldsIn(g0, k, Treated(g0.heap[r], false), g0.heap[r])
  {
    hide UpValue, Live, IsString;
    match g0.heap[r]
    case Closure(_, us) =>
      forall i | 0 <= i < |us| && us[i] < |g0.ups| ensures InK(k, UpValue(g0, g0.ups[us[i]])) {}
    case Table(m, _, arr, hash) =>
      forall i | 0 <= i < |hash| ensures EntryHeld(g0, k, m, hash[i]) {
        assert EntryBuried(hash[i], g1.heap[r].hash[i]) && EntryHeld(g1, k, m, g1.heap[r].hash[i]);
        assert EntryLive(g1, g1.heap[r].hash[i]);
      }
      forall i | 0 <= i < |arr| ensures SlotLapses(m, Outside(g0, k, arr[i])) || InK(k, arr[i]) {
        assert Live(g1, arr[i]);
      }
    case _ =>
  }

  lemma CompleteTreated(g: G, k: set<Ref>, a: set<Ref>)
    requires Complete(g, k, a) && forall r :: r in a ==> r in g.heap && g.heap[r].Table? && g.heap[r].mode == AllWeak
    ensures Complete(g, k, {})
  {
    hide HoldsIn;
  }

  lemma KeptSwept(g0: G, g: G)
    requires SweepRel(g0, g)
    ensures Kept(g) == Kept(g0)
  {
    hide UpValue;
  }

  // ---- tables that wait to be cleared ----

  /** Only all-weak tables wait to be cleared. */
  ghost predicate WeakOnly(g: G) {
    forall r :: r in g.allweak ==> r in g.heap && g.heap[r].Table? && g.heap[r].mode == AllWeak
  }

  lemma WeakOnlyAfter(g0: G, g: G)
    requires WeakOnly(g0) && Trav(g0, g) && g0.state == Propagate
    ensures WeakOnly(g)
  {
    hide Adv;
    TravState(g0, g);
    forall r | r in g.allweak ensures r in g.heap && g.heap[r].Table? && g.heap[r].mode == AllWeak {
      if r in g0.allweak { assert Buried(g0.heap[r], g.heap[r]); }
    }
  }

  lemma TreatedAlike(g0: G, g: G, a: set<Ref>)
    requires Survives(g0, g, a)
    requires forall r :: r in a ==> r in g0.heap && g0.heap[r].Table? && g0.heap[r].mode == AllWeak
    ensures Survives(g0, g, {})
  {
    hide Worn, Buried, UpValue, Lost;
  }

  lemma SurvivesSelf(g: G)
    ensures Survives(g, g, {}) && Untouched(g, g)
  {
    hide UpValue, Worn, Buried;
    BuriedSelf(g, g);
    UntouchedWorn(g, g, {});
  }

  /** One step of the collector, seen by the program. Only the atomic step takes anything out of tables, and what is
      left then is complete; tables that waited in `allweak` before it are treated as all-weak whatever their modes. */
  ghost predicate StepKeeps(g0: G, g: G) {
    (if g0.state == Atomic then Survives(g0, g, g0.allweak) && Complete(g0, Kept(g), g0.allweak)
     else Survives(g0, g, {}) && Untouched(g0, g)) &&
    (g0.state == Pause || WeakOnly(g0) ==> WeakOnly(g) || !KeepInvariant(g))
  }

  lemma RestartKeeps(g0: G, g: G)
    requires Inv(g0) && g0.state == Pause && MarksGrew(Emptied(g0), g)
    ensures StepKeeps(g0, g.(state := Propagate))
  {
    hide Buried, UpValue, RefsLive, Survives;
    var g' := g.(state := Propagate);
    NoDead(g0);
    BuriedSelf(g0, g');
    HeapUps(g0, g');
    BuriedSurvives(g0, g');
  }

  lemma HeapUps(g: G, g': G)
    requires g'.heap == g.heap && g'.ups == g.ups
    ensures SameUpValues(g, g')
  {
    forall i | 0 <= i < |g.ups| ensures UpValue(g', g'.ups[i]) == UpValue(g, g.ups[i]) {}
  }

  lemma PropagateKeeps(g0: G, g1: G, g: G)
    requires Inv(g0) && KeepInvariant(g0) && Trav(g0, g1) && g == g1.(state := g.state)
    ensures AllBuried(g0, g) && SameUpValues(g0, g) && SameRoots(g0, g) && NoneDead(g0) && g0.mark.Keys == g0.heap.Keys
    ensures g.mark.Keys == g.heap.Keys
    ensures Survives(g0, g, {}) && Untouched(g0, g)
  {
    hide Buried, Shrunk, RefsLive, Swept, SameUpValues, UpValue, Survives, Lists, Tricolor, UpsOk, Sound, Untouched;
    PropagateUps(g0, g1, g);
    BuriedSurvives(g0, g);
  }

  lemma PropagateUps(g0: G, g1: G, g: G)
    requires Inv(g0) && KeepInvariant(g0) && Trav(g0, g1) && g == g1.(state := g.state)
    ensures SameUpValues(g0, g)
  {
    hide Buried, Shrunk, RefsLive, Swept, Ok, Lists;
    forall i | 0 <= i < |g.ups| ensures UpValue(g, g.ups[i]) == UpValue(g0, g0.ups[i]) {
      UpValueSame(g0, g1, i);
      assert UpValue(g, g.ups[i]) == UpValue(g1, g1.ups[i]);
    }
  }

  lemma AtomicKeeps(g0: G, g1: G, g2: G, g: G)
    requires Inv(g0) && g0.state == Atomic && Trav(g0, g1) && Forgets(g1, g2, g0.allweak)
    requires SweepRel(g2.(state := SwpAllGc, rem := |g2.allgc|), g)
    requires !KeepInvariant(g) && Inv(g)
    ensures StepKeeps(g0, g)
  {
    hide Buried, Shrunk, RefsLive, Swept, Forgets, SweepRel, Trav, Survives, UpValue, Complete, Kept, Untouched;
    PropagateKeeps(g0, g1, g1);
    AtomicSurvives(g0, g1, g2, g, g0.allweak);
    AtomicCompletes(g0, g1, g2, g, g0.allweak);
  }

  /** What waits besides the tables that waited before. */
  lemma NewlyFit(g0: G, g1: G)
    requires Trav(g0, g1)
    ensures AllFit(g1, g0.allweak)
  {
    hide Adv, AllBuried, FitsAllWeak;
  }

  lemma MarkKeeps(g0: G, g1: G, g: G)
    requires Inv(g0) && g0.state == Propagate && Trav(g0, g1) && g == g1.(state := g.state)
    ensures StepKeeps(g0, g)
  {
    hide Inv, Survives, Trav, Untouched;
    PropagateKeeps(g0, g1, g);
    if WeakOnly(g0) { WeakOnlyAfter(g0, g1); }
  }

  lemma SweepKeeps(g0: G, g: G)
    requires SweepRel(g0, g) && !KeepInvariant(g0) && g0.state != Pause && !KeepInvariant(g)
    ensures StepKeeps(g0, g)
  {
    hide SweepRel, Survives, Untouched;
    SweepSurvives(g0, g);
  }

  /** `entersweep` in the middle of marking. */
  lemma EnterSurvives(g0: G, g1: G, g: G)
    requires g1 == g0.(state := SwpAllGc, rem := |g0.allgc|) && SweepRel(g1, g)
    ensures Survives(g0, g, {}) && Untouched(g0, g)
  {
    hide Worn, Buried, UpValue, Lost;
    StateUps(g0, g1);
    BuriedSelf(g, g);
    UntouchedWorn(g0, g, {});
    assert forall r :: Dead(g1, r) <==> Dead(g0, r);
  }

  // ---- a full collection ----

  /** Where a full collection stands since g0: marking, or, after the atomic phase, sweeping. */
  ghost predicate Course(g0: G, g: G) {
    Survives(g0, g, {}) &&
    if KeepInvariant(g) then Untouched(g0, g) && WeakOnly(g) else Complete(g0, Kept(g), {})
  }

  lemma CourseBegins(g0: G, g1: G, g: G)
    requires Survives(g0, g1, {}) && Untouched(g0, g1) && Inv(g1) && g1.state == Pause && StepKeeps(g1, g)
    requires g.state == Propagate
    ensures Course(g0, g)
  {
    hide Survives, Untouched;
    assert Sound(g1);
    hide Inv;
    SurvivesTrans(g0, g1, g);
    UntouchedTrans(g0, g1, g);
  }

  lemma SurvivesRoots(g0: G, g: G)
    requires Survives(g0, g, {})
    ensures SameRoots(g0, g) && SameUpValues(g0, g)
  {
  }

  lemma CourseMarks(g0: G, g1: G, g: G)
    requires Course(g0, g1) && Inv(g1) && g1.state == Propagate && StepKeeps(g1, g) && KeepInvariant(g)
    ensures Course(g0, g)
  {
    hide Survives, Untouched;
    assert Sound(g1);
    hide Inv;
    SurvivesTrans(g0, g1, g);
    UntouchedTrans(g0, g1, g);
  }

  lemma CourseClears(g0: G, g1: G, g: G)
    requires Course(g0, g1) && Inv(g1) && g1.state == Atomic && StepKeeps(g1, g) && !KeepInvariant(g)
    ensures Course(g0, g)
  {
    hide Survives, Untouched, Complete;
    assert Sound(g1) && NoneDead(g1);
    hide Inv;
    TreatedAlike(g1, g, g1.allweak);
    SurvivesTrans(g0, g1, g);
    CompleteTreated(g1, Kept(g), g1.allweak);
    SurvivesRoots(g0, g1);
    forall r | r in Kept(g) ensures Allocated(g1, r) { CompleteIn(g1, Kept(g), r); }
    CompleteBefore(g0, g1, Kept(g));
  }

  lemma CompleteIn(g: G, k: set<Ref>, r: Ref)
    requires Complete(g, k, {}) && r in k && NoneDead(g)
    ensures Allocated(g, r)
  {
  }

  lemma CourseSweeps(g0: G, g1: G, g: G)
    requires Course(g0, g1) && Inv(g1) && !KeepInvariant(g1) && SweepRel(g1, g) && !KeepInvariant(g)
    ensures Course(g0, g)
  {
    hide Survives, SweepRel, Complete, Kept;
    assert Sound(g1);
    hide Inv;
    SweepSurvives(g1, g);
    SurvivesTrans(g0, g1, g);
    KeptSwept(g1, g);
  }

  lemma InvIsSound(g: G)
    requires Inv(g)
    ensures Sound(g)
  {
  }

  /** Every step goes on with it. */
  lemma CourseGoes(g0: G, g1: G, g: G)
    requires Course(g0, g1) && Inv(g1) && g1.state != Pause && StepKeeps(g1, g) && Inv(g) && Closer(g1, g)
    requires !KeepInvariant(g1) ==> SweepRel(g1, g)
    requires g1.state == Propagate ==> KeepInvariant(g)
    ensures Course(g0, g)
  {
    hide Course, StepKeeps, SweepRel;
    CloserMeans(g1, g);
    assert g1.state != InsideAtomic && g.state != InsideAtomic;
    hide Inv;
    if g1.state == Propagate {
      CourseMarks(g0, g1, g);
    } else if g1.state == Atomic {
      CourseClears(g0, g1, g);
    } else {
      CourseSweeps(g0, g1, g);
    }
  }

  /** The end of it: what is left is all that the roots hold in the heap as it was. */
  lemma CourseEnds(g0: G, g: G)
    requires Course(g0, g) && Inv(g) && g.state == Pause
    ensures Survives(g0, g, {}) && Complete(g0, g.heap.Keys, {})
  {
    hide Survives, Complete;
    NoDead(g);
    assert Kept(g) == g.heap.Keys;
  }

  // ---- the least set that may be kept ----

  /** A set that a collection may keep: it has the roots, and is closed by the rules of marking. */
  ghost predicate Keepable(g: G, k: set<Ref>) { KeepStrict(g, Bounds(k, {})) }

  /** The same, with some objects that have to be in it. */
  ghost predicate FitSet(g: G, w: set<Ref>, k: set<Ref>) { KeepSet(g, Bounds(k, {})) && w <= k }

  /** The objects that all such sets have in common. */
  ghost function Least(g: G, w: set<Ref>): (k: set<Ref>)
    ensures forall keep :: FitSet(g, w, keep) ==> k <= keep
    ensures forall keep, r :: FitSet(g, w, keep) && InAll(g, w, r) ==> r in k
  {
    if keep0: set<Ref> :| FitSet(g, w, keep0) then set r | r in keep0 && InAll(g, w, r) else {}
  }

  ghost predicate InAll(g: G, w: set<Ref>, r: Ref) { forall keep: set<Ref> :: FitSet(g, w, keep) ==> r in keep }

  /** Together they are such a set again, if there is one at all. */
  lemma LeastIsKept(g: G, w: set<Ref>, keep: set<Ref>)
    requires FitSet(g, w, keep)
    ensures FitSet(g, w, Least(g, w))
  {
    hide KeepsIn, FitSet, Least, InAll;
    var s := Bounds(Least(g, w), {});
    LeastRoots(g, w, keep);
    forall r | r in s.keep && r in g.heap ensures KeepsIn(g, s, r, g.heap[r]) { LeastObject(g, w, keep, r); }
    assert KeepSet(g, s);
    SetFits(g, w, Least(g, w));
  }

  lemma SetFits(g: G, w: set<Ref>, k: set<Ref>)
    requires KeepSet(g, Bounds(k, {})) && w <= k
    ensures FitSet(g, w, k)
  {
  }

  /** What is in all of them is in the least. */
  lemma LeastValue(g: G, w: set<Ref>, keep: set<Ref>, v: Value)
    requires FitSet(g, w, keep) && forall k: set<Ref> :: FitSet(g, w, k) ==> InS(Bounds(k, {}), v)
    ensures InS(Bounds(Least(g, w), {}), v)
  {
    hide FitSet, Least;
    if v.Gc? { assert InAll(g, w, v.r); }
  }

  lemma LeastRoots(g: G, w: set<Ref>, keep: set<Ref>)
    requires FitSet(g, w, keep)
    ensures var s := Bounds(Least(g, w), {});
            g.main in s.keep && g.running in s.keep && InS(s, g.registry) && AllInS(s, g.mts) && g.fixed <= s.keep &&
            w <= s.keep && forall i :: 0 <= i < |g.ups| && g.ups[i].Open? ==> g.ups[i].th in s.keep
  {
    hide KeepsIn, Least;
    LeastValue(g, w, keep, Gc(g.main));
    LeastValue(g, w, keep, Gc(g.running));
    LeastValue(g, w, keep, g.registry);
    forall i | 0 <= i < |g.mts| ensures InS(Bounds(Least(g, w), {}), g.mts[i]) { LeastValue(g, w, keep, g.mts[i]); }
    forall r | r in g.fixed ensures r in Least(g, w) { LeastValue(g, w, keep, Gc(r)); }
    forall r | r in w ensures r in Least(g, w) { LeastValue(g, w, keep, Gc(r)); }
    forall i | 0 <= i < |g.ups| && g.ups[i].Open? ensures g.ups[i].th in Least(g, w) {
      LeastValue(g, w, keep, Gc(g.ups[i].th));
    }
  }

  lemma FitObject(g: G, w: set<Ref>, k: set<Ref>, r: Ref)
    requires FitSet(g, w, k) && r in k && r in g.heap
    ensures KeepsIn(g, Bounds(k, {}), r, g.heap[r])
  {
  }

  lemma LeastObject(g: G, w: set<Ref>, keep: set<Ref>, r: Ref)
    requires FitSet(g, w, keep) && r in Least(g, w) && r in g.heap
    ensures KeepsIn(g, Bounds(Least(g, w), {}), r, g.heap[r])
  {
    hide FitSet, UpValue, Least, InS, IsString;
    var s := Bounds(Least(g, w), {});
    forall k: set<Ref> | FitSet(g, w, k) ensures KeepsIn(g, Bounds(k, {}), r, g.heap[r]) {
      assert Least(g, w) <= k;
      FitObject(g, w, k, r);
    }
    match g.heap[r]
    case Str =>
    case Udata(mt, uv) =>
      LeastValue(g, w, keep, mt);
      LeastValue(g, w, keep, uv);
    case Closure(fs, us) =>
      forall i | 0 <= i < |fs| ensures InS(s, fs[i]) { LeastValue(g, w, keep, fs[i]); }
      forall i | 0 <= i < |us| && us[i] < |g.ups| ensures InS(s, UpValue(g, g.ups[us[i]])) {
        LeastValue(g, w, keep, UpValue(g, g.ups[us[i]]));
      }
    case Table(mode, mt, arr, hash) =>
      if r !in g.allweak { LeastValue(g, w, keep, mt); }
      forall i | 0 <= i < |arr| ensures StrongOrString(g, s, mode == WeakValue || mode == AllWeak, arr[i]) {
        LeastSlot(g, w, keep, mode == WeakValue || mode == AllWeak, arr[i]);
      }
      forall i | 0 <= i < |hash| ensures EntryKeeps(g, s, mode, hash[i]) { LeastEntry(g, w, keep, mode, hash[i]); }
    case Thread(st) =>
      forall i | 0 <= i < |st| ensures InS(s, st[i]) { LeastValue(g, w, keep, st[i]); }
    case Proto(rs, _) =>
      forall i | 0 <= i < |rs| ensures InS(s, rs[i]) { LeastValue(g, w, keep, rs[i]); }
  }

  lemma LeastSlot(g: G, w: set<Ref>, keep: set<Ref>, weak: bool, v: Value)
    requires FitSet(g, w, keep)
    requires forall k: set<Ref> :: FitSet(g, w, k) ==> StrongOrString(g, Bounds(k, {}), weak, v)
    ensures StrongOrString(g, Bounds(Least(g, w), {}), weak, v)
  {
    hide FitSet, Least, InS, IsString;
    if !weak || IsString(g, v) { LeastValue(g, w, keep, v); }
  }

  lemma LeastEntry(g: G, w: set<Ref>, keep: set<Ref>, mode: Mode, e: Entry)
    requires FitSet(g, w, keep) && forall k: set<Ref> :: FitSet(g, w, k) ==> EntryKeeps(g, Bounds(k, {}), mode, e)
    ensures EntryKeeps(g, Bounds(Least(g, w), {}), mode, e)
  {
    hide FitSet, Least, IsString;
    if e.val != Nil {
      LeastSlot(g, w, keep, mode == Ephemeron || mode == AllWeak, e.key);
      LeastSlot(g, w, keep, mode != Strong, e.val);
      if mode == Ephemeron && InS(Bounds(Least(g, w), {}), e.key) {
        forall k: set<Ref> | FitSet(g, w, k) ensures InS(Bounds(k, {}), e.val) {
          assert Least(g, w) <= k && InS(Bounds(k, {}), e.key);
        }
        LeastValue(g, w, keep, e.val);
      }
    }
  }

  /** What this cycle may still keep: after the atomic phase, what is not dead. */
  ghost function Allowed(g: G): set<Ref> {
    if KeepInvariant(g) then Least(g, MarkedSet(g))
    else if g.state == Pause then Least(g.(allweak := {}), {})
    else Kept(g)
  }

  function MarkedSet(g: G): set<Ref> { set r | r in g.mark && Marked(g, r) }

  /** It is a bound for the collector, and the least one. */
  lemma AllowedBounds(g: G)
    requires Inv(g)
    ensures Prec(g, Bounds(Allowed(g), {}))
  {
    HeapKeeps(g);
    hide Inv, KeepSet;
    var keep := g.heap.Keys;
    if KeepInvariant(g) {
      assert FitSet(g, MarkedSet(g), keep);
      LeastIsKept(g, MarkedSet(g), keep);
    } else if g.state == Pause {
      assert FitSet(g.(allweak := {}), {}, keep);
      LeastIsKept(g.(allweak := {}), {}, keep);
    }
  }

  lemma AllowedLeast(g: G, keep: set<Ref>)
    requires Prec(g, Bounds(keep, {}))
    ensures Allowed(g) <= keep
  {
    hide KeepSet, Least;
    if KeepInvariant(g) {
      assert FitSet(g, MarkedSet(g), keep);
    } else if g.state == Pause {
      assert FitSet(g.(allweak := {}), {}, keep);
    }
  }

  lemma LeastStrict(g: G)
    ensures (exists keep :: Keepable(g, keep)) ==> KeepStrict(g, Bounds(Least(g.(allweak := {}), {}), {}))
    ensures forall keep :: Keepable(g, keep) ==> Least(g.(allweak := {}), {}) <= keep
  {
    hide Least, KeepSet;
    forall keep | Keepable(g, keep) ensures FitSet(g.(allweak := {}), {}, keep) {}
    if keep :| Keepable(g, keep) { LeastIsKept(g.(allweak := {}), {}, keep); }
  }

  /** An all-weak table that waits for its traversal, or for being cleared. */
  predicate Due(g: G, t: Ref) {
    t in g.heap && g.heap[t].Table? && g.heap[t].mode == AllWeak && (t in g.gray || t in g.allweak)
  }

  lemma DueStays(g0: G, g: G, o: Ref)
    requires Trav(g0, g) && g0.gray - {o} <= g.gray
    requires o in g0.heap && g0.heap[o].Table? && g0.heap[o].mode == AllWeak ==> o in g.allweak
    ensures forall t :: Due(g0, t) ==> Due(g, t)
  {
    forall t | Due(g0, t) ensures Due(g, t) { assert Buried(g0.heap[t], g.heap[t]); }
  }

  lemma DueState(g: G, g': G)
    requires g' == g.(state := g'.state)
    ensures forall t :: Due(g, t) ==> Due(g', t)
  {
  }

  predicate Waits(g: G, v: Value) { v.Gc? && v.r in g.heap && g.heap[v.r].Table? && g.heap[v.r].mode == AllWeak }

  /** A new cycle begins with the roots in the gray list. */
  lemma RestartDue(g0: G, g: G)
    requires Inv(g0) && g0.state == Pause && MarksGrew(Emptied(g0), g) && AllMarked(g, g.mts)
    ensures forall i, st :: 0 <= i < |g0.mts| && Waits(g0, g0.mts[i]) ==> Due(g.(state := st), g0.mts[i].r)
  {
    hide RefsLive, UpsOk, Swept;
    NoDead(g0);
    forall i, st | 0 <= i < |g0.mts| && Waits(g0, g0.mts[i]) ensures Due(g.(state := st), g0.mts[i].r) {
      var r := g0.mts[i].r;
      assert !Marked(g0, r);
      assert MarkedV(g, g.mts[i]);
    }
  }
}
