/** What the collector's notions mean for each kind of object and each kind of weak table, and a collection at work. */
module GcMeaning {
  import opened GcState
  import opened GcMark
  import opened GcAtomic
  import opened GcCycle
  import opened GcSurvive
  import opened GcProgram
  import opened LuaGc

  // ---- what a program can get hold of ----

  lemma StepFurther(g: G, r: Ref, v: Value)
    requires Accessible(g, Gc(r)) && r in g.heap && Holds(g, g.heap[r], v)
    ensures Accessible(g, v)
  {
    hide Root, Holds;
    var p :| Path(g, p) && p[|p| - 1] == Gc(r);
    var q := p + [v];
    forall i | 0 < i < |q| ensures HeldBefore(g, q, i) {
      if i < |p| { assert HeldBefore(g, p, i); }
    }
    assert Path(g, q) && q[|q| - 1] == v;
  }

  lemma RootAccessible(g: G, v: Value)
    requires Root(g, v)
    ensures Accessible(g, v)
  {
    hide Root;
    assert Path(g, [v]);
  }

  /** The main thread, the running one, the registry and the metatables of the basic types are accessible. */
  lemma RootsMean(g: G)
    ensures Accessible(g, Gc(g.main)) && Accessible(g, Gc(g.running)) && Accessible(g, g.registry)
    ensures forall i :: 0 <= i < |g.mts| ==> Accessible(g, g.mts[i])
  {
    hide Accessible;
    RootAccessible(g, Gc(g.main));
    RootAccessible(g, Gc(g.running));
    RootAccessible(g, g.registry);
    forall i | 0 <= i < |g.mts| ensures Accessible(g, g.mts[i]) { RootAccessible(g, g.mts[i]); }
  }

  /** Through a userdata one gets its metatable and its value, through a closure its fields and the values of its
      upvalues, through a table its metatable, array, keys and values, weak or not, through a thread its stack, and
      through a prototype its constants, inner prototypes and cached closure. */
  lemma ObjectsMean(g: G, r: Ref)
    requires Accessible(g, Gc(r)) && r in g.heap
    ensures match g.heap[r]
            case Str => true
            case Udata(mt, uv) => Accessible(g, mt) && Accessible(g, uv)
            case Closure(fs, us) =>
              (forall i :: 0 <= i < |fs| ==> Accessible(g, fs[i])) &&
              forall i :: 0 <= i < |us| && us[i] < |g.ups| ==> Accessible(g, UpValue(g, g.ups[us[i]]))
            case Table(_, mt, arr, hash) =>
              Accessible(g, mt) && (forall i :: 0 <= i < |arr| ==> Accessible(g, arr[i])) &&
              forall i :: 0 <= i < |hash| ==> Accessible(g, hash[i].key) && Accessible(g, hash[i].val)
            case Thread(st) => forall i :: 0 <= i < |st| ==> Accessible(g, st[i])
            case Proto(rs, cache) => Accessible(g, cache) && forall i :: 0 <= i < |rs| ==> Accessible(g, rs[i])
  {
    hide Accessible, UpValue;
    var o := g.heap[r];
    if o.Table? { TableVals(o); }
    forall v | Holds(g, o, v) ensures Accessible(g, v) { StepFurther(g, r, v); }
    if o.Closure? {
      forall i | 0 <= i < |o.upvals| && o.upvals[i] < |g.ups| ensures Holds(g, o, UpValue(g, g.ups[o.upvals[i]])) {}
      forall i | 0 <= i < |o.fields| ensures Holds(g, o, o.fields[i]) {}
    } else {
      forall v | v in Vals(o) ensures Holds(g, o, v) {}
    }
  }

  // ---- weak tables ----

  /** Whether a reference leads to an object that a collection has freed. */
  predicate Freed(g: G, v: Value) { v.Gc? && v.r !in g.heap }

  /** What a collection does to an entry with a value, when it is over. A strong table keeps key and value; weak values
      keep their keys; an ephemeron keeps a value as long as the key is there. The entry stays as it is if neither has
      been freed, and otherwise has no value any more. */
  lemma EntriesMean(g0: G, g: G, r: Ref, i: nat)
    requires Inv(g0) && Inv(g) && g.state == Pause && Survives(g0, g, {}) && Complete(g0, g.heap.Keys, {})
    requires r in g.heap && r in g0.heap && g0.heap[r].Table? && i < |g0.heap[r].hash| && g0.heap[r].hash[i].val != Nil
    ensures g.heap[r].Table? && |g.heap[r].hash| == |g0.heap[r].hash|
    ensures var e, e' := g0.heap[r].hash[i], g.heap[r].hash[i];
            (g0.heap[r].mode == Strong ==> !Freed(g, e.key) && !Freed(g, e.val)) &&
            (g0.heap[r].mode == WeakValue ==> !Freed(g, e.key)) &&
            (g0.heap[r].mode == Ephemeron ==> Freed(g, e.val) ==> Freed(g, e.key)) &&
            (e' == e <==> !Freed(g, e.key) && !Freed(g, e.val)) && (e' != e ==> e'.val == Nil)
  {
    hide Survives, Complete, Inv, Lost, Outside, InK, Lapses;
    EntryFacts(g0, g, r, i);
    EntryRule(g0, g, g0.heap[r].mode, g0.heap[r].hash[i], g.heap[r].hash[i]);
  }

  lemma EntryFacts(g0: G, g: G, r: Ref, i: nat)
    requires Inv(g) && g.state == Pause && Survives(g0, g, {}) && Complete(g0, g.heap.Keys, {})
    requires r in g.heap && r in g0.heap && g0.heap[r].Table? && i < |g0.heap[r].hash|
    ensures g.heap[r].Table? && |g.heap[r].hash| == |g0.heap[r].hash| && NoneDead(g)
    ensures g.mark.Keys == g.heap.Keys
    ensures EntryHeld(g0, g.heap.Keys, g0.heap[r].mode, g0.heap[r].hash[i])
    ensures EntryWorn(g0, g, g0.heap[r].mode, g0.heap[r].hash[i], g.heap[r].hash[i])
    ensures EntryLive(g, g.heap[r].hash[i])
  {
    hide Inv, SameUpValues, SameRoots, DeadStay, EntryHeld, EntryWorn, EntryLive;
    NothingDead(g);
    var o := g0.heap[r];
    assert HoldsIn(g0, g.heap.Keys, o.mode, o);
    assert Worn(g0, g, o.mode, o, g.heap[r]);
    assert RefsLive(g, g.heap[r]);
  }

  lemma EntryRule(g0: G, g: G, m: Mode, e: Entry, e': Entry)
    requires EntryHeld(g0, g.heap.Keys, m, e) && EntryWorn(g0, g, m, e, e') && EntryLive(g, e') && NoneDead(g)
    requires g.mark.Keys == g.heap.Keys && e.val != Nil
    ensures m == Strong ==> !Freed(g, e.key) && !Freed(g, e.val)
    ensures m == WeakValue ==> !Freed(g, e.key)
    ensures m == Ephemeron ==> Freed(g, e.val) ==> Freed(g, e.key)
    ensures (e' == e <==> !Freed(g, e.key) && !Freed(g, e.val)) && (e' != e ==> e'.val == Nil)
  {
  }

  lemma NothingDead(g: G)
    requires Inv(g) && g.state == Pause
    ensures Sound(g) && NoneDead(g) && g.mark.Keys == g.heap.Keys && forall r :: r in g.heap ==> Allocated(g, r)
  {
    NoDead(g);
  }

  // ---- a collection at work ----

  const MAIN := Ref(0)
  const CACHED := Ref(1)
  const KEY := Ref(2)
  const VALUES := Ref(3)
  const KEYS := Ref(4)

  function Scenery(held: seq<Value>): map<Ref, Obj> {
    map[MAIN := Thread(held), CACHED := Udata(Nil, Nil), KEY := Udata(Nil, Nil),
        VALUES := Table(WeakValue, Nil, [], [Entry(Plain(1), Gc(CACHED))]),
        KEYS := Table(Ephemeron, Nil, [], [Entry(Gc(KEY), Gc(KEY))])]
  }

  /** A paused collector with this heap, and no roots but the main thread. */
  ghost predicate Started(g: G, heap: map<Ref, Obj>) {
    Inv(g) && g.state == Pause && g.heap == heap && g.ups == [] && g.main == g.running == MAIN && g.registry == Nil &&
    g.mts == [] && g.fixed == {}
  }

  /** A heap with a table of weak values, and an ephemeron whose value is its own key. */
  ghost predicate Prepared(g: G, held: seq<Value>) { Started(g, Scenery(held)) }

  method TwoObjects() returns (c: Collector)
    ensures fresh(c) && Started(c.g, map[MAIN := Thread([]), CACHED := Udata(Nil, Nil), KEY := Udata(Nil, Nil)])
  {
    hide Inv;
    c := new Collector(MAIN);
    c.New(CACHED, Udata(Nil, Nil));
    c.New(KEY, Udata(Nil, Nil));
  }

  method TwoTables() returns (c: Collector)
    ensures fresh(c) && Started(c.g, Scenery([]))
  {
    hide Inv;
    c := TwoObjects();
    NothingDead(c.g);
    c.New(VALUES, Table(WeakValue, Nil, [], [Entry(Plain(1), Gc(CACHED))]));
    NothingDead(c.g);
    c.New(KEYS, Table(Ephemeron, Nil, [], [Entry(Gc(KEY), Gc(KEY))]));
  }

  lemma MayFill(g: G, held: seq<Value>)
    requires Prepared(g, []) && forall i :: 0 <= i < |held| ==> held[i] in {Gc(CACHED), Gc(KEY), Gc(VALUES), Gc(KEYS)}
    ensures MayPush(g, MAIN, held)
  {
    NothingDead(g);
    hide Inv;
    forall i | 0 <= i < |held| ensures Live(g, held[i]) {
      assert held[i].Gc? && held[i].r in g.heap;
    }
  }

  lemma Filled(held: seq<Value>)
    ensures Scenery([])[MAIN := Thread(held)] == Scenery(held)
  {
  }

  method Prepare(held: seq<Value>) returns (c: Collector)
    requires forall i :: 0 <= i < |held| ==> held[i] in {Gc(CACHED), Gc(KEY), Gc(VALUES), Gc(KEYS)}
    ensures fresh(c) && Prepared(c.g, held)
  {
    hide Inv, Scenery, MayPush;
    c := TwoTables();
    MayFill(c.g, held);
    c.SetStack(MAIN, held);
    Filled(held);
  }

  /** What a full collection promises. */
  ghost predicate Collection(g0: G, g: G) {
    Inv(g) && g.state == Pause && Survives(g0, g, {}) && Complete(g0, g.heap.Keys, {}) &&
    forall keep :: Keepable(g0, keep) ==> g.heap.Keys <= keep
  }

  lemma HeldStay(g0: G, g: G, held: seq<Value>)
    requires Prepared(g0, held) && Collection(g0, g)
    ensures MAIN in g.heap && forall i :: 0 <= i < |held| && held[i].Gc? ==> held[i].r in g.heap
  {
    hide Inv, Survives, HoldsIn, Keepable;
    assert g0.heap[MAIN] == Thread(held) && HoldsIn(g0, g.heap.Keys, Strong, g0.heap[MAIN]);
    ThreadHolds(g0, g.heap.Keys, held);
    assert forall i :: 0 <= i < |held| ==> InK(g.heap.Keys, held[i]);
  }

  lemma ThreadHolds(g: G, k: set<Ref>, held: seq<Value>)
    requires HoldsIn(g, k, Strong, Thread(held))
    ensures AllInK(k, held)
  {
  }

  lemma UnheldKeepable(g: G)
    requires Prepared(g, [Gc(VALUES), Gc(KEYS)])
    ensures Keepable(g, {MAIN, VALUES, KEYS})
  {
    hide Inv;
  }

  lemma UnheldFreed(g0: G, g: G)
    requires Prepared(g0, [Gc(VALUES), Gc(KEYS)]) && Inv(g0) && Collection(g0, g)
    ensures g.heap.Keys == {MAIN, VALUES, KEYS}
    ensures g.heap[VALUES].Table? && |g.heap[VALUES].hash| == 1 && g.heap[VALUES].hash[0].val == Nil
    ensures g.heap[KEYS].Table? && |g.heap[KEYS].hash| == 1 && g.heap[KEYS].hash[0].val == Nil
  {
    hide Inv, Survives, Complete, Keepable;
    var held := [Gc(VALUES), Gc(KEYS)];
    HeldStay(g0, g, held);
    assert held[0].r in g.heap && held[1].r in g.heap;
    UnheldKeepable(g0);
    EntriesMean(g0, g, VALUES, 0);
    EntriesMean(g0, g, KEYS, 0);
  }

  /** Nothing else leads to the object in the table of weak values, nor to the key of the ephemeron: both are freed, and
      the entries have lost their values. */
  method CollectUnheld() returns (c: Collector)
    ensures fresh(c) && Inv(c.g) && c.g.heap.Keys == {MAIN, VALUES, KEYS}
    ensures c.g.heap[VALUES].Table? && |c.g.heap[VALUES].hash| == 1 && c.g.heap[VALUES].hash[0].val == Nil
    ensures c.g.heap[KEYS].Table? && |c.g.heap[KEYS].hash| == 1 && c.g.heap[KEYS].hash[0].val == Nil
  {
    hide Inv, Survives, Complete, Keepable;
    c := Prepare([Gc(VALUES), Gc(KEYS)]);
    ghost var g0 := c.g;
    c.FullGc();
    UnheldFreed(g0, c.g);
  }

  lemma HeapSurvives(g0: G, g: G)
    requires Survives(g0, g, {})
    ensures g.heap.Keys <= g0.heap.Keys
  {
    hide Worn, DeadStay, SameUpValues;
  }

  lemma HeldUntouched(g0: G, g: G, held: seq<Value>)
    requires Prepared(g0, held) && held == [Gc(VALUES), Gc(KEYS), Gc(CACHED), Gc(KEY)] && Collection(g0, g)
    ensures g.heap.Keys == g0.heap.Keys
    ensures g.heap[VALUES].Table? && g.heap[VALUES].hash == [Entry(Plain(1), Gc(CACHED))]
    ensures g.heap[KEYS].Table? && g.heap[KEYS].hash == [Entry(Gc(KEY), Gc(KEY))]
  {
    hide Inv, Complete, Keepable, Survives;
    HeldStay(g0, g, held);
    assert held[0].r in g.heap && held[1].r in g.heap && held[2].r in g.heap && held[3].r in g.heap;
    assert g.heap.Keys <= g0.heap.Keys by { HeapSurvives(g0, g); }
    EntriesMean(g0, g, VALUES, 0);
    EntriesMean(g0, g, KEYS, 0);
  }

  /** With the object and the key in the stack as well, everything stays. */
  method CollectHeld() returns (c: Collector)
    ensures fresh(c) && Inv(c.g) && c.g.heap.Keys == {MAIN, CACHED, KEY, VALUES, KEYS}
    ensures c.g.heap[VALUES].Table? && c.g.heap[VALUES].hash == [Entry(Plain(1), Gc(CACHED))]
    ensures c.g.heap[KEYS].Table? && c.g.heap[KEYS].hash == [Entry(Gc(KEY), Gc(KEY))]
  {
    hide Inv, Survives, Complete, Keepable;
    c := Prepare([Gc(VALUES), Gc(KEYS), Gc(CACHED), Gc(KEY)]);
    ghost var g0 := c.g;
    c.FullGc();
    HeldUntouched(g0, c.g, [Gc(VALUES), Gc(KEYS), Gc(CACHED), Gc(KEY)]);
  }
}
