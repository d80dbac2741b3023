/** The state that Lua's incremental collector works on, and what its invariants say. */
module GcState {

  /** Identity of a collectable object. */
  datatype Ref = Ref(id: nat)

  datatype Value = Nil | Plain(n: int) | Gc(r: Ref) | DeadKey

  datatype Entry = Entry(key: Value, val: Value)

  datatype Mode = Strong | WeakValue | Ephemeron | AllWeak

  /** Collectable objects. A Lua closure has its prototype as field and shares upvalues by number;
      a C closure has only fields. A prototype refers weakly to its last closure in `cache`.
      Only the live part of a stack is kept. */
  datatype Obj =
    | Str
    | Udata(mt: Value, uv: Value)
    | Closure(fields: seq<Value>, upvals: seq<nat>)
    | Table(mode: Mode, tmt: Value, arr: seq<Value>, hash: seq<Entry>)
    | Thread(stack: seq<Value>)
    | Proto(refs: seq<Value>, cache: Value)

  /** Upvalues are not collectable: an open one lives in a stack slot, a closed one has its own value. */
  datatype UpVal = Open(th: Ref, slot: nat, touched: bool) | Closed(v: Value)

  datatype Color = White(flag: bool) | Gray | Black

  datatype State = Propagate | Atomic | InsideAtomic | SwpAllGc | SwpFinObj | SwpToBeFnz | SwpEnd | CallFin | Pause

  /** `global_State`. The gray lists are sets: an object is linked into at most one of them, and nothing
      depends on their order. `rem` is the number of objects of `allgc` that `sweepgc` still has ahead. */
  datatype G = G(
    heap: map<Ref, Obj>, mark: map<Ref, Color>, ups: seq<UpVal>,
    white: bool, state: State, allgc: seq<Ref>, rem: nat, fixed: set<Ref>,
    main: Ref, running: Ref, registry: Value, mts: seq<Value>,
    gray: set<Ref>, grayagain: set<Ref>, weak: set<Ref>, allweak: set<Ref>, ephemeron: set<Ref>,
    twups: set<Ref>)

  /** Where a collection stands: what `atomic` has saved from `grayagain`, and whether the program is
      held off until the sweep, so that traversed objects are settled; `lost` as below. */
  datatype Phase = Phase(saved: set<Ref>, settling: bool, lost: set<Ref>)

  /** What a collection is measured against: objects outside keep need not stay; lost are the tables whose new
      metatable the collector will not look at. */
  datatype Bounds = Bounds(keep: set<Ref>, lost: set<Ref>)

  predicate IsWhite(g: G, r: Ref) { r in g.mark && g.mark[r].White? }

  predicate IsGray(g: G, r: Ref) { r in g.mark && g.mark[r] == Gray }

  predicate IsBlack(g: G, r: Ref) { r in g.mark && g.mark[r] == Black }

  /** Neither white: gray or black. */
  predicate Marked(g: G, r: Ref) { r in g.mark && !g.mark[r].White? }

  /** `isdead`: white of the other kind. */
  predicate Dead(g: G, r: Ref) { r in g.mark && g.mark[r] == White(!g.white) }

  /** `keepinvariant`. */
  predicate KeepInvariant(g: G) { g.state == Propagate || g.state == Atomic }

  predicate IsSweepPhase(g: G) {
    g.state == SwpAllGc || g.state == SwpFinObj || g.state == SwpToBeFnz || g.state == SwpEnd
  }

  predicate Allocated(g: G, r: Ref) { r in g.heap && !Dead(g, r) }

  /** A value that a program may hold. */
  predicate Live(g: G, v: Value) { v.Gc? ==> Allocated(g, v.r) }

  predicate MarkedV(g: G, v: Value) { v.Gc? ==> Marked(g, v.r) }

  predicate IsString(g: G, v: Value) { v.Gc? && v.r in g.heap && g.heap[v.r].Str? }

  // ---- references of an object ----

  predicate SlotOf(g: G, u: UpVal) {
    u.Open? ==> u.th in g.heap && g.heap[u.th].Thread? && u.slot < |g.heap[u.th].stack|
  }

  /** The value of an upvalue, wherever it lives. */
  function UpValue(g: G, u: UpVal): Value {
    match u
    case Closed(v) => v
    case Open(th, slot, _) =>
      if th in g.heap && g.heap[th].Thread? && slot < |g.heap[th].stack| then g.heap[th].stack[slot] else Nil
  }

  predicate AllLive(g: G, vs: seq<Value>) { forall i :: 0 <= i < |vs| ==> Live(g, vs[i]) }

  ghost predicate AllMarked(g: G, vs: seq<Value>) { forall i :: 0 <= i < |vs| ==> MarkedV(g, vs[i]) }

  predicate EntryLive(g: G, e: Entry) { Live(g, e.key) && Live(g, e.val) }

  ghost predicate EntryMarked(g: G, e: Entry) { MarkedV(g, e.key) && MarkedV(g, e.val) }

  predicate UpLive(g: G, u: nat) { u < |g.ups| && Live(g, UpValue(g, g.ups[u])) }

  /** Everything the object refers to, weakly or strongly, may be held by a program. */
  predicate RefsLive(g: G, o: Obj) {
    match o
    case Str => true
    case Udata(mt, uv) => Live(g, mt) && Live(g, uv)
    case Closure(fs, us) => AllLive(g, fs) && forall i :: 0 <= i < |us| ==> UpLive(g, us[i])
    case Table(_, mt, arr, hash) => Live(g, mt) && AllLive(g, arr) &&
      forall i :: 0 <= i < |hash| ==> EntryLive(g, hash[i])
    case Thread(st) => AllLive(g, st)
    case Proto(rs, cache) => AllLive(g, rs) && Live(g, cache)
  }

  // ---- basic shape ----

  ghost predicate Distinct(s: seq<Ref>) { forall i, j :: 0 <= i < j < |s| ==> s[i] != s[j] }

  /** Objects are in `allgc`, fixed, or the main thread; fixed ones are strings and never white. */
  ghost predicate Shape(g: G) {
    g.mark.Keys == g.heap.Keys && Distinct(g.allgc) && g.rem <= |g.allgc| &&
    (forall r :: r in g.heap <==> r in g.allgc || r in g.fixed || r == g.main) &&
    (forall r :: r in g.fixed ==> r !in g.allgc && r != g.main && r in g.heap && g.heap[r] == Str && Marked(g, r)) &&
    g.main !in g.allgc && g.main in g.heap && g.heap[g.main].Thread? &&
    g.running in g.heap && g.heap[g.running].Thread?
  }

  /** Where a thread with open upvalues is known from. */
  predicate Waiting(g: G, skip: set<Ref>, th: Ref) {
    th in g.twups || Dead(g, th) || (g.state == InsideAtomic && (IsWhite(g, th) || th in g.gray || th in skip))
  }

  /** Open upvalues live in stacks; a thread with open upvalues is in `twups`, unless it is dying. */
  ghost predicate UpsOk(g: G, skip: set<Ref>) {
    (forall i :: 0 <= i < |g.ups| ==> SlotOf(g, g.ups[i])) &&
    (forall i :: 0 <= i < |g.ups| && g.ups[i].Open? ==> Waiting(g, skip, g.ups[i].th)) &&
    (forall r :: r in g.twups ==> Allocated(g, r) && g.heap[r].Thread?)
  }

  /** No object that may be held refers to one that may not: nothing dangles. */
  ghost predicate Sound(g: G) {
    (forall r :: Allocated(g, r) ==> RefsLive(g, g.heap[r])) &&
    Allocated(g, g.main) && Allocated(g, g.running) && Live(g, g.registry) && AllLive(g, g.mts)
  }

  ghost predicate NoneDead(g: G) { forall r :: r in g.mark ==> !Dead(g, r) }

  // ---- the marking invariant ----

  /** What an open upvalue of a traversed closure needs: its thread will be traversed again, or
      `remarkupvals` will look at it, or (in the atomic phase) its value is marked. */
  predicate UpCovered(g: G, u: UpVal) {
    match u
    case Closed(v) => MarkedV(g, v)
    case Open(th, _, touched) =>
      Marked(g, th) || (touched && th in g.twups) || (g.state == InsideAtomic && MarkedV(g, UpValue(g, u)))
  }

  ghost predicate UpsCovered(g: G, us: seq<nat>) {
    forall i :: 0 <= i < |us| && us[i] < |g.ups| ==> UpCovered(g, g.ups[us[i]])
  }

  /** A black object points to no white one. Threads and weak tables are never black. */
  ghost predicate BlackClosed(g: G, o: Obj) {
    match o
    case Str => true
    case Udata(mt, uv) => MarkedV(g, mt) && MarkedV(g, uv)
    case Closure(fs, us) => AllMarked(g, fs) && UpsCovered(g, us)
    case Table(_, mt, arr, hash) =>
      MarkedV(g, mt) && AllMarked(g, arr) && forall i :: 0 <= i < |hash| ==> EntryMarked(g, hash[i])
    case Thread(st) => false
    case Proto(rs, cache) => AllMarked(g, rs) && MarkedV(g, cache)
  }

  /** What is known of a gray object that waits for no other visit, by the list that it was put into.
      A table in `allweak` is owed nothing but its metatable: its entries will be cleared. */
  ghost predicate Settled(g: G, ph: Phase, r: Ref, o: Obj) {
    match o
    case Str => true
    case Thread(st) => g.state == InsideAtomic && AllMarked(g, st)
    case Table(_, mt, arr, hash) =>
      (MarkedV(g, mt) || (r in ph.lost && r in g.allweak)) &&
      (r !in g.allweak ==>
         ph.settling &&
         (r !in g.weak ==> AllMarked(g, arr)) &&
         (r !in g.ephemeron ==> forall i :: 0 <= i < |hash| ==> MarkedV(g, hash[i].key)) &&
         (r !in g.weak && r !in g.ephemeron ==> forall i :: 0 <= i < |hash| ==> MarkedV(g, hash[i].val)))
    case _ => false
  }

  /** Gray objects that will be visited again: in the atomic phase those saved from `grayagain`. */
  function Todo(g: G, ph: Phase): set<Ref> { if g.state == InsideAtomic then ph.saved else g.grayagain }

  /** The tri-colour invariant at one object. */
  ghost predicate Ok(g: G, ph: Phase, r: Ref) {
    r in g.heap && r in g.mark &&
    (g.mark[r] == Black ==> BlackClosed(g, g.heap[r])) &&
    (g.mark[r] == Gray ==> r in g.gray || r in Todo(g, ph) || Settled(g, ph, r, g.heap[r]))
  }

  /** skip stands for the objects that are being traversed. */
  ghost predicate Tricolor(g: G, skip: set<Ref>, ph: Phase) {
    forall r :: r in g.heap && r !in skip ==> Ok(g, ph, r)
  }

  predicate InList(g: G, ph: Phase, r: Ref) {
    r in g.gray || r in Todo(g, ph) || r in g.weak || r in g.allweak || r in g.ephemeron
  }

  /** Every listed object is gray and in one list only, since it has only one link. */
  ghost predicate Lists(g: G, skip: set<Ref>, ph: Phase) {
    (forall r :: InList(g, ph, r) ==> IsGray(g, r)) && (forall r :: r in skip ==> Marked(g, r)) &&
    (forall r :: r in g.gray || r in Todo(g, ph) ==> r in g.heap && !g.heap[r].Str? && !g.heap[r].Udata?) &&
    (forall r :: r in g.ephemeron || r in g.weak || r in g.allweak ==> r in g.heap && g.heap[r].Table?) &&
    (forall r :: r in g.ephemeron ==> g.heap[r].mode == Ephemeron) &&
    (forall r :: r in g.weak ==> g.heap[r].mode == WeakValue) &&
    (g.gray !! Todo(g, ph) !! g.weak !! g.allweak !! g.ephemeron !! skip) &&
    (!ph.settling ==> g.weak == {} && g.ephemeron == {}) && (g.state == InsideAtomic ==> ph.settling)
  }

  /** The invariant while marking. */
  ghost predicate MarkInv(g: G, skip: set<Ref>, ph: Phase) {
    Shape(g) && UpsOk(g, skip) && Sound(g) && NoneDead(g) && Lists(g, skip, ph) && Tricolor(g, skip, ph)
  }

  // ---- what a collection may keep ----

  predicate InS(s: Bounds, v: Value) { v.Gc? ==> v.r in s.keep }

  ghost predicate AllInS(s: Bounds, vs: seq<Value>) { forall i :: 0 <= i < |vs| ==> InS(s, vs[i]) }

  predicate StrongOrString(g: G, s: Bounds, weak: bool, v: Value) { !weak || IsString(g, v) ==> InS(s, v) }

  /** An entry with a value keeps its strings, a strong key or value, and an ephemeron's value under a kept key. */
  predicate EntryKeeps(g: G, s: Bounds, mode: Mode, e: Entry) {
    e.val != Nil ==>
      StrongOrString(g, s, mode == Ephemeron || mode == AllWeak, e.key) &&
      StrongOrString(g, s, mode != Strong, e.val) &&
      (mode == Ephemeron && InS(s, e.key) ==> InS(s, e.val))
  }

  ghost predicate TableKeeps(g: G, s: Bounds, mode: Mode, arr: seq<Value>, hash: seq<Entry>) {
    (forall i :: 0 <= i < |arr| ==> StrongOrString(g, s, mode == WeakValue || mode == AllWeak, arr[i])) &&
    (forall i :: 0 <= i < |hash| ==> EntryKeeps(g, s, mode, hash[i]))
  }

  ghost predicate UpsKeep(g: G, s: Bounds, us: seq<nat>) {
    forall i :: 0 <= i < |us| && us[i] < |g.ups| ==> InS(s, UpValue(g, g.ups[us[i]]))
  }

  /** What s must hold because it holds this object; the metatable of a table that waits in `allweak` is exempt. */
  ghost predicate KeepsIn(g: G, s: Bounds, r: Ref, o: Obj) {
    match o
    case Str => true
    case Udata(mt, uv) => InS(s, mt) && InS(s, uv)
    case Closure(fs, us) => AllInS(s, fs) && UpsKeep(g, s, us)
    case Table(mode, mt, arr, hash) => (r !in g.allweak ==> InS(s, mt)) && TableKeeps(g, s, mode, arr, hash)
    case Thread(st) => AllInS(s, st)
    case Proto(rs, _) => AllInS(s, rs)
  }

  /** s holds the roots, is closed, and holds the threads that open upvalues live in. */
  ghost predicate KeepSet(g: G, s: Bounds) {
    g.main in s.keep && g.running in s.keep && InS(s, g.registry) && AllInS(s, g.mts) && g.fixed <= s.keep &&
    (forall r :: r in s.keep && r in g.heap ==> KeepsIn(g, s, r, g.heap[r])) &&
    (forall i :: 0 <= i < |g.ups| && g.ups[i].Open? ==> g.ups[i].th in s.keep)
  }

  ghost predicate Within(g: G, s: Bounds) { forall r :: Marked(g, r) ==> r in s.keep }

  ghost predicate Bound(g: G, s: Bounds) { KeepSet(g, s) && Within(g, s) }

  // ---- progress of marking ----

  function Whites(g: G): set<Ref> { set r | r in g.mark && g.mark[r].White? }

  /** An entry that keeps its value keeps its key; otherwise it may lose the value, and then the key may die. */
  predicate EntryShrunk(e: Entry, e': Entry) { e' == e || (e'.val == Nil && (e'.key == e.key || e'.key == DeadKey)) }

  /** The collector only ever removes: values of weak tables, keys of empty entries, cached closures. */
  ghost predicate Shrunk(o: Obj, o': Obj) {
    match o
    case Table(mode, mt, arr, hash) =>
      o'.Table? && o'.mode == mode && o'.tmt == mt && |o'.arr| == |arr| && |o'.hash| == |hash| &&
      (forall i :: 0 <= i < |arr| ==> o'.arr[i] == arr[i] || o'.arr[i] == Nil) &&
      (forall i :: 0 <= i < |hash| ==> EntryShrunk(hash[i], o'.hash[i]))
    case Proto(rs, cache) => o'.Proto? && o'.refs == rs && (o'.cache == cache || o'.cache == Nil)
    case _ => o' == o
  }

  predicate SameUp(u: UpVal, u': UpVal) { u' == u || (u.Open? && u'.Open? && u'.th == u.th && u'.slot == u.slot) }

  /** What any piece of marking or clearing may do to the state. */
  ghost predicate Adv(g0: G, g: G) {
    g == g0.(heap := g.heap, mark := g.mark, ups := g.ups, gray := g.gray, grayagain := g.grayagain,
             weak := g.weak, allweak := g.allweak, ephemeron := g.ephemeron, twups := g.twups) &&
    g.mark.Keys == g0.mark.Keys && g.heap.Keys == g0.heap.Keys && |g.ups| == |g0.ups| &&
    (forall r :: Marked(g0, r) ==> Marked(g, r)) &&
    (forall r :: IsWhite(g, r) ==> g.mark[r] == g0.mark[r]) &&
    (forall r :: r in g0.heap ==> Shrunk(g0.heap[r], g.heap[r])) &&
    (forall i :: 0 <= i < |g.ups| ==> SameUp(g0.ups[i], g.ups[i])) &&
    g0.allweak <= g.allweak && (forall r :: r in g.twups ==> r in g0.twups || Marked(g, r))
  }

  lemma ShrunkTrans(o0: Obj, o1: Obj, o2: Obj)
    requires Shrunk(o0, o1) && Shrunk(o1, o2)
    ensures Shrunk(o0, o2)
  {
  }

  lemma AdvTrans(g0: G, g1: G, g2: G)
    requires Adv(g0, g1) && Adv(g1, g2)
    ensures Adv(g0, g2)
  {
    hide Shrunk;
    forall r | r in g0.heap ensures Shrunk(g0.heap[r], g2.heap[r]) {
      ShrunkTrans(g0.heap[r], g1.heap[r], g2.heap[r]);
    }
  }

  /** Nothing coverable is lost on the way from g to g'. */
  ghost predicate CoversKept(g: G, g': G) {
    |g'.ups| == |g.ups| && forall i :: 0 <= i < |g.ups| && UpCovered(g, g.ups[i]) ==> UpCovered(g', g'.ups[i])
  }

  /** An open upvalue reads the same value, since stacks do not change. */
  lemma UpValueSame(g: G, g': G, i: nat)
    requires Adv(g, g') && i < |g.ups|
    ensures UpValue(g', g'.ups[i]) == UpValue(g, g.ups[i])
  {
    assert SameUp(g.ups[i], g'.ups[i]);
    var u := g.ups[i];
    if u.Open? && u.th in g.heap {
      assert Shrunk(g.heap[u.th], g'.heap[u.th]);
    }
  }

  lemma CoversSimple(g: G, g': G)
    requires Adv(g, g') && g.twups <= g'.twups
    requires forall i :: 0 <= i < |g.ups| && g.ups[i].Open? && g.ups[i].touched ==> g'.ups[i].Open? && g'.ups[i].touched
    ensures CoversKept(g, g')
  {
    hide Shrunk;
    forall i | 0 <= i < |g.ups| && UpCovered(g, g.ups[i]) ensures UpCovered(g', g'.ups[i]) {
      UpValueSame(g, g', i);
      assert SameUp(g.ups[i], g'.ups[i]);
    }
  }

  lemma ClosedGrows(g: G, g': G, r: Ref)
    requires Adv(g, g') && CoversKept(g, g') && r in g.heap && BlackClosed(g, g.heap[r])
    ensures BlackClosed(g', g'.heap[r])
  {
    hide UpCovered, UpValue, SameUp;
    assert Shrunk(g.heap[r], g'.heap[r]);
    match g.heap[r]
    case Closure(fs, us) =>
      forall i | 0 <= i < |us| && us[i] < |g'.ups| ensures UpCovered(g', g'.ups[us[i]]) {
        assert UpCovered(g, g.ups[us[i]]);
      }
    case Table(_, _, _, hash) =>
      forall i | 0 <= i < |hash| ensures EntryMarked(g', g'.heap[r].hash[i]) {
        assert EntryMarked(g, hash[i]) && EntryShrunk(hash[i], g'.heap[r].hash[i]);
      }
    case _ =>
  }

  lemma SettledGrows(g: G, g': G, ph: Phase, ph': Phase, r: Ref)
    requires Adv(g, g') && r in g.heap && Settled(g, ph, r, g.heap[r])
    requires (r in g.weak ==> r in g'.weak) && (ph.settling ==> ph'.settling) && ph.lost <= ph'.lost
    requires r in g.ephemeron ==> r in g'.ephemeron
    ensures Settled(g', ph', r, g'.heap[r])
  {
    hide UpCovered, UpValue, SameUp;
    assert Shrunk(g.heap[r], g'.heap[r]);
    if g.heap[r].Table? {
      var hash := g.heap[r].hash;
      assert forall i :: 0 <= i < |hash| ==> EntryShrunk(hash[i], g'.heap[r].hash[i]);
    }
  }

  lemma RefsLiveGrow(g: G, g': G, r: Ref)
    requires Adv(g, g') && r in g.heap && RefsLive(g, g.heap[r]) && g.mark.Keys == g.heap.Keys
    ensures RefsLive(g', g'.heap[r])
  {
    hide UpValue, SameUp;
    assert Shrunk(g.heap[r], g'.heap[r]);
    assert forall v :: Live(g, v) ==> Live(g', v);
    match g.heap[r]
    case Closure(_, us) =>
      forall i | 0 <= i < |us| ensures UpLive(g', us[i]) {
        assert UpLive(g, us[i]);
        UpValueSame(g, g', us[i]);
      }
    case Table(_, _, _, hash) =>
      forall i | 0 <= i < |hash| ensures EntryLive(g', g'.heap[r].hash[i]) {
        assert EntryLive(g, hash[i]) && EntryShrunk(hash[i], g'.heap[r].hash[i]);
      }
    case _ =>
  }

  /** What a program may hold, and that nothing dangles, survives every piece of marking. */
  lemma SoundGrows(g: G, g': G)
    requires Adv(g, g') && Shape(g) && Sound(g) && NoneDead(g)
    ensures Shape(g') && Sound(g') && NoneDead(g')
  {
    hide RefsLive;
    assert Shape(g') by {
      assert Shrunk(g.heap[g.main], g'.heap[g.main]) && Shrunk(g.heap[g.running], g'.heap[g.running]);
      forall r | r in g'.fixed ensures g'.heap[r] == Str { assert Shrunk(g.heap[r], g'.heap[r]); }
    }
    hide Shrunk;
    assert NoneDead(g');
    assert forall v :: Live(g, v) ==> Live(g', v);
    forall r | Allocated(g', r) ensures RefsLive(g', g'.heap[r]) {
      assert Allocated(g, r);
      RefsLiveGrow(g, g', r);
    }
  }

  lemma KeepsGrow(g: G, g': G, s: Bounds, r: Ref)
    requires Adv(g, g') && r in g.heap && KeepsIn(g, s, r, g.heap[r])
    ensures KeepsIn(g', s, r, g'.heap[r])
  {
    hide UpValue, SameUp;
    assert Shrunk(g.heap[r], g'.heap[r]);
    match g.heap[r]
    case Closure(_, us) =>
      forall i | 0 <= i < |us| && us[i] < |g'.ups| ensures InS(s, UpValue(g', g'.ups[us[i]])) {
        UpValueSame(g, g', us[i]);
      }
    case Table(mode, _, arr, hash) =>
      assert forall v :: IsString(g', v) ==> IsString(g, v) by {
        forall v | IsString(g', v) ensures IsString(g, v) { assert Shrunk(g.heap[v.r], g'.heap[v.r]); }
      }
      forall i | 0 <= i < |hash| ensures EntryKeeps(g', s, mode, g'.heap[r].hash[i]) {
        assert EntryKeeps(g, s, mode, hash[i]) && EntryShrunk(hash[i], g'.heap[r].hash[i]);
      }
    case _ =>
  }

  /** A set that a collection may keep stays one. */
  lemma KeepSetGrows(g: G, g': G, s: Bounds)
    requires Adv(g, g') && KeepSet(g, s)
    ensures KeepSet(g', s)
  {
    hide KeepsIn, Shrunk;
    forall r | r in s.keep && r in g'.heap ensures KeepsIn(g', s, r, g'.heap[r]) {
      KeepsGrow(g, g', s, r);
    }
    forall i | 0 <= i < |g'.ups| && g'.ups[i].Open? ensures g'.ups[i].th in s.keep {
      assert SameUp(g.ups[i], g'.ups[i]);
    }
  }

  /** The tri-colour invariant at an object that a step does not handle itself. */
  lemma OkGrows(g: G, g': G, ph: Phase, ph': Phase, r: Ref)
    requires Adv(g, g') && CoversKept(g, g') && Ok(g, ph, r) && g'.mark[r] == g.mark[r]
    requires r in g.gray || r in Todo(g, ph) ==> r in g'.gray || r in Todo(g', ph')
    requires (r in g.weak ==> r in g'.weak) && (ph.settling ==> ph'.settling) && ph.lost <= ph'.lost
    requires r in g.ephemeron ==> r in g'.ephemeron
    ensures Ok(g', ph', r)
  {
    hide BlackClosed, Settled, Shrunk;
    if g.mark[r] == Black {
      ClosedGrows(g, g', r);
    } else if g.mark[r] == Gray && Settled(g, ph, r, g.heap[r]) {
      SettledGrows(g, g', ph, ph', r);
    }
  }

  /** A step keeps the invariant if it answers for the objects it touches: those that change colour
      or stop being skipped. */
  lemma TricolorGrows(g: G, g': G, skip: set<Ref>, skip': set<Ref>, ph: Phase, ph': Phase)
    requires Adv(g, g') && CoversKept(g, g') && Tricolor(g, skip, ph)
    requires g.gray + Todo(g, ph) <= g'.gray + Todo(g', ph') + skip' && g.weak <= g'.weak
    requires g.ephemeron <= g'.ephemeron + skip'
    requires g.mark.Keys == g.heap.Keys && (ph.settling ==> ph'.settling) && ph.lost <= ph'.lost
    requires forall r :: r in g.heap && r !in skip' && (r in skip || g'.mark[r] != g.mark[r]) ==> Ok(g', ph', r)
    ensures Tricolor(g', skip', ph')
  {
    hide Ok, Shrunk;
    forall r | r in g'.heap && r !in skip' ensures Ok(g', ph', r) {
      if r !in skip && g'.mark[r] == g.mark[r] {
        assert Ok(g, ph, r);
        OkGrows(g, g', ph, ph', r);
      }
    }
  }

  /** The invariant of a collection that holds skip and may keep no more than s. */
  ghost predicate Marking(g: G, skip: set<Ref>, ph: Phase, s: Bounds) { MarkInv(g, skip, ph) && Bound(g, s) }

  lemma Parts(g: G, skip: set<Ref>, ph: Phase, s: Bounds)
    requires Marking(g, skip, ph, s)
    ensures Shape(g) && UpsOk(g, skip) && Sound(g) && NoneDead(g) && Lists(g, skip, ph) && Tricolor(g, skip, ph)
    ensures KeepSet(g, s) && Within(g, s)
    ensures g.mark.Keys == g.heap.Keys
  {
  }

  /** A step keeps the whole invariant if it answers for the objects it touches, for its lists and for the upvalues. */
  lemma Advance(g: G, g': G, skip: set<Ref>, skip': set<Ref>, ph: Phase, ph': Phase, s: Bounds)
    requires Marking(g, skip, ph, s) && Adv(g, g') && CoversKept(g, g') && UpsOk(g', skip') && Lists(g', skip', ph')
    requires g.gray + Todo(g, ph) <= g'.gray + Todo(g', ph') + skip' && g.weak <= g'.weak
    requires g.ephemeron <= g'.ephemeron + skip'
    requires (ph.settling ==> ph'.settling) && ph.lost <= ph'.lost
    requires forall r :: r in g.heap && r !in skip' && (r in skip || g'.mark[r] != g.mark[r]) ==> Ok(g', ph', r)
    requires forall r :: IsWhite(g, r) && Marked(g', r) ==> r in s.keep
    ensures Marking(g', skip', ph', s)
  {
    hide Sound, Tricolor, KeepSet, Shrunk, Ok, UpsOk, Lists, CoversKept;
    SoundGrows(g, g');
    KeepSetGrows(g, g', s);
    TricolorGrows(g, g', skip, skip', ph, ph');
  }

  /** Upvalues stay in order where no thread, upvalue or list of threads changes. */
  lemma UpsGrow(g: G, g': G, skip: set<Ref>, skip': set<Ref>)
    requires UpsOk(g, skip) && Adv(g, g') && NoneDead(g) && g'.ups == g.ups && g.twups <= g'.twups
    requires forall r :: r in g'.twups ==> r in g.twups || (Allocated(g', r) && g'.heap[r].Thread?)
    requires g.state == InsideAtomic ==>
               (forall r :: r in skip && r !in skip' && r in g.heap && g.heap[r].Thread? ==> InTwups(g', r)) &&
               (forall r :: r in g.gray ==> r in g'.gray || r in skip') &&
               (forall r :: IsWhite(g, r) && Marked(g', r) && r in g.heap && g.heap[r].Thread? ==> r in g'.gray)
    ensures UpsOk(g', skip')
  {
    ThreadsSame(g, g');
    hide Shrunk;
    forall i | 0 <= i < |g'.ups| ensures SlotOf(g', g'.ups[i]) {
      assert SlotOf(g, g.ups[i]);
    }
    forall i | 0 <= i < |g'.ups| && g'.ups[i].Open? ensures Waiting(g', skip', g'.ups[i].th) {
      assert SlotOf(g, g.ups[i]) && Waiting(g, skip, g.ups[i].th);
    }
  }

  /** The thread is in `twups`, or has no open upvalue. */
  ghost predicate InTwups(g: G, h: Ref) {
    h in g.twups || forall i :: 0 <= i < |g.ups| && g.ups[i].Open? ==> g.ups[i].th != h
  }

  lemma ThreadsSame(g: G, g': G)
    requires Adv(g, g')
    ensures forall r :: r in g.heap && g.heap[r].Thread? ==> g'.heap[r] == g.heap[r]
  {
    forall r | r in g.heap && g.heap[r].Thread? ensures g'.heap[r] == g.heap[r] {
      assert Shrunk(g.heap[r], g'.heap[r]);
    }
  }
}
