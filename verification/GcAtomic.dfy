/** The atomic phase: upvalues of unmarked threads, convergence of ephemerons, clearing of weak tables,
    and why nothing that is marked points to anything that is not when the whites are exchanged. */
module GcAtomic {
  import opened GcState
  import opened GcMark
  import opened GcTraverse

  // ---- entering ----

  /** From here on the program does not run until the sweep. */
  lemma HoldProgram(g: G, ph: Phase, s: Bounds)
    requires Marking(g, {}, ph, s) && !ph.settling && ph.lost == s.lost && g.state != InsideAtomic
    ensures Marking(g, {}, Phase({}, true, s.lost), s)
  {
    hide Bound, Shape, UpsOk, Sound;
    var ph' := Phase({}, true, s.lost);
    assert Lists(g, {}, ph') by {
      assert Todo(g, ph') == Todo(g, ph) && forall r :: InList(g, ph', r) <==> InList(g, ph, r);
    }
    forall r | r in g.heap ensures Ok(g, ph', r) {
      assert Ok(g, ph, r);
    }
  }

  /** `atomic` saves `grayagain` and enters its own state. */
  lemma EnterAtomic(g: G, s: Bounds)
    requires Marking(g, {}, Phase({}, true, s.lost), s) && g.state == Atomic
    ensures Marking(g.(state := InsideAtomic), {}, Phase(g.grayagain, true, s.lost), s)
  {
    hide KeepsIn, RefsLive;
    var g' := g.(state := InsideAtomic);
    var ph, ph' := Phase({}, true, s.lost), Phase(g.grayagain, true, s.lost);
    assert Todo(g', ph') == Todo(g, ph);
    EnterSound(g);
    assert UpsOk(g', {}) by { UpsEnter(g); }
    assert Lists(g', {}, ph') by {
      assert forall r :: InList(g', ph', r) <==> InList(g, ph, r);
    }
    forall r | r in g'.heap ensures Ok(g', ph', r) {
      assert Ok(g, ph, r);
      OkEnter(g, r, s);
    }
    KeepEnter(g, s);
  }

  lemma UpsEnter(g: G)
    requires UpsOk(g, {}) && g.state == Atomic
    ensures UpsOk(g.(state := InsideAtomic), {})
  {
    var g' := g.(state := InsideAtomic);
    forall i | 0 <= i < |g'.ups| ensures SlotOf(g', g'.ups[i]) { assert SlotOf(g, g.ups[i]); }
    forall i | 0 <= i < |g'.ups| && g'.ups[i].Open?
      ensures Waiting(g', {}, g'.ups[i].th)
    {
      assert Waiting(g, {}, g.ups[i].th);
    }
    forall r | r in g'.twups ensures Allocated(g', r) && g'.heap[r].Thread? { assert Allocated(g, r); }
  }

  lemma OkEnter(g: G, r: Ref, s: Bounds)
    requires Ok(g, Phase({}, true, s.lost), r) && g.state == Atomic
    ensures Ok(g.(state := InsideAtomic), Phase(g.grayagain, true, s.lost), r)
  {
    var g' := g.(state := InsideAtomic);
    if g.mark[r] == Black && g.heap[r].Closure? {
      var us := g.heap[r].upvals;
      forall i | 0 <= i < |us| && us[i] < |g'.ups|
        ensures UpCovered(g', g'.ups[us[i]])
      {
        assert UpCovered(g, g.ups[us[i]]);
      }
    }
  }

  lemma EnterSound(g: G)
    requires Shape(g) && Sound(g) && NoneDead(g)
    ensures var g' := g.(state := InsideAtomic); Shape(g') && Sound(g') && NoneDead(g')
  {
    var g' := g.(state := InsideAtomic);
    forall r | Allocated(g', r) ensures RefsLive(g', g'.heap[r]) {
      assert Allocated(g, r);
      SameRefs(g, g', g.heap[r]);
    }
  }

  lemma SameRefs(g: G, g': G, o: Obj)
    requires RefsLive(g, o) && g' == g.(state := g'.state, white := g'.white)
    requires forall v :: Live(g, v) ==> Live(g', v)
    ensures RefsLive(g', o)
  {
    match o
    case Closure(_, us) =>
      forall i | 0 <= i < |us| ensures UpLive(g', us[i]) {
        assert UpLive(g, us[i]);
        assert UpValue(g', g'.ups[us[i]]) == UpValue(g, g.ups[us[i]]);
      }
    case Table(_, _, _, hash) =>
      forall i | 0 <= i < |hash| ensures EntryLive(g', hash[i]) { assert EntryLive(g, hash[i]); }
    case _ =>
  }

  lemma KeepEnter(g: G, s: Bounds)
    requires Bound(g, s)
    ensures Bound(g.(state := InsideAtomic), s)
  {
    var g' := g.(state := InsideAtomic);
    forall r | r in s.keep && r in g'.heap ensures KeepsIn(g', s, r, g'.heap[r]) {
      assert KeepsIn(g, s, r, g.heap[r]);
      KeepsSame(g, g', s, r);
    }
  }

  lemma KeepsSame(g: G, g': G, s: Bounds, r: Ref)
    requires r in g.heap && KeepsIn(g, s, r, g.heap[r]) && g'.heap == g.heap && g'.ups == g.ups
    requires g.allweak <= g'.allweak
    ensures KeepsIn(g', s, r, g.heap[r])
  {
    match g.heap[r]
    case Closure(_, us) =>
      forall i | 0 <= i < |us| && us[i] < |g'.ups| ensures InS(s, UpValue(g', g'.ups[us[i]])) {
        assert UpValue(g', g'.ups[us[i]]) == UpValue(g, g.ups[us[i]]);
      }
    case Table(mode, _, arr, hash) =>
      assert forall v :: IsString(g', v) == IsString(g, v);
      forall i | 0 <= i < |hash| ensures EntryKeeps(g', s, mode, hash[i]) { assert EntryKeeps(g, s, mode, hash[i]); }
      forall i | 0 <= i < |arr| ensures StrongOrString(g', s, mode == WeakValue || mode == AllWeak, arr[i]) {
        assert StrongOrString(g, s, mode == WeakValue || mode == AllWeak, arr[i]);
      }
    case _ =>
  }

  /** The saved list becomes the gray list. */
  lemma TakeSaved(g: G, saved: set<Ref>, s: Bounds)
    requires Marking(g, {}, Phase(saved, true, s.lost), s) && g.gray == {} && g.state == InsideAtomic
    ensures Marking(g.(gray := saved), {}, Phase({}, true, s.lost), s)
  {
    hide Marking, Sound, Tricolor, KeepSet, Within, Shape, Lists, Ok, NoneDead, Shrunk, UpsOk;
    Parts(g, {}, Phase(saved, true, s.lost), s);
    var g' := g.(gray := saved);
    ShrunkSelf(g);
    assert Adv(g, g');
    CoversSimple(g, g');
    TwupsSame(g, g', {});
    UpsGrow(g, g', {}, {});
    assert Lists(g', {}, Phase({}, true, s.lost)) by { SavedLists(g, saved, s); }
    Advance(g, g', {}, {}, Phase(saved, true, s.lost), Phase({}, true, s.lost), s);
  }

  lemma SavedLists(g: G, saved: set<Ref>, s: Bounds)
    requires Lists(g, {}, Phase(saved, true, s.lost)) && g.gray == {} && g.state == InsideAtomic
    ensures Lists(g.(gray := saved), {}, Phase({}, true, s.lost))
  {
    var g' := g.(gray := saved);
    assert forall r :: InList(g', Phase({}, true, s.lost), r) ==> InList(g, Phase(saved, true, s.lost), r);
  }

  // ---- upvalues of unmarked threads ----

  ghost predicate NoTouched(g: G, th: Ref, n: nat) {
    n <= |g.ups| && forall i :: 0 <= i < n && g.ups[i].Open? && g.ups[i].th == th ==> !g.ups[i].touched
  }

  /** What `remarkupvals` does: it marks, and clears the touched flags of upvalues. */
  ghost predicate Remarks(g0: G, g: G) {
    |g.ups| == |g0.ups| && (forall i :: 0 <= i < |g0.ups| ==> SameUp(g0.ups[i], g.ups[i])) && g.twups <= g0.twups &&
    MarksGrew(g0.(ups := g.ups, twups := g.twups), g)
  }

  lemma RemarksTrans(g0: G, g1: G, g2: G)
    requires Remarks(g0, g1) && Remarks(g1, g2)
    ensures Remarks(g0, g2)
  {
    hide MarksGrew;
    forall i | 0 <= i < |g0.ups| ensures SameUp(g0.ups[i], g2.ups[i]) {
      assert SameUp(g0.ups[i], g1.ups[i]) && SameUp(g1.ups[i], g2.ups[i]);
    }
    GrewAcross(g0, g1, g2);
  }

  lemma GrewAcross(g0: G, g1: G, g2: G)
    requires MarksGrew(g0.(ups := g1.ups, twups := g1.twups), g1)
    requires MarksGrew(g1.(ups := g2.ups, twups := g2.twups), g2)
    ensures MarksGrew(g0.(ups := g2.ups, twups := g2.twups), g2)
  {
  }

  lemma RemarksMark(g0: G, g: G)
    requires MarksGrew(g0, g)
    ensures Remarks(g0, g)
  {
  }

  /** The touched flag goes once the value is marked. */
  lemma Untouch(g: G, u: nat, skip: set<Ref>, ph: Phase, s: Bounds)
    requires Marking(g, skip, ph, s) && u < |g.ups| && g.ups[u].Open? && g.state == InsideAtomic
    requires MarkedV(g, UpValue(g, g.ups[u]))
    ensures var g' := g.(ups := g.ups[u := g.ups[u].(touched := false)]);
            Marking(g', skip, ph, s) && Remarks(g, g')
  {
    hide Marking, Sound, Tricolor, KeepSet, Within, Shape, Lists, Ok, NoneDead, Shrunk, UpsOk;
    Parts(g, skip, ph, s);
    var g' := g.(ups := g.ups[u := g.ups[u].(touched := false)]);
    ShrunkSelf(g);
    assert Adv(g, g');
    forall i | 0 <= i < |g.ups| && UpCovered(g, g.ups[i]) ensures UpCovered(g', g'.ups[i]) {
      UpValueSame(g, g', i);
    }
    UntouchedUps(g, u, skip);
    assert Lists(g', skip, ph) by { ListsTouched(g, g', skip, ph); }
    hide Adv;
    Advance(g, g', skip, skip, ph, ph, s);
    assert MarksGrew(g', g') by { SelfGrew(g'); }
    assert g.(ups := g'.ups, twups := g'.twups) == g';
  }

  lemma UntouchedUps(g: G, u: nat, skip: set<Ref>)
    requires UpsOk(g, skip) && u < |g.ups| && g.ups[u].Open?
    ensures UpsOk(g.(ups := g.ups[u := g.ups[u].(touched := false)]), skip)
  {
    var g' := g.(ups := g.ups[u := g.ups[u].(touched := false)]);
    forall i | 0 <= i < |g'.ups| ensures SlotOf(g', g'.ups[i]) { assert SlotOf(g, g.ups[i]); }
    forall i | 0 <= i < |g'.ups| && g'.ups[i].Open? ensures Waiting(g', skip, g'.ups[i].th) {
      assert Waiting(g, skip, g.ups[i].th);
    }
    assert forall r :: Allocated(g, r) ==> Allocated(g', r);
  }

  /** A thread without touched upvalues may leave the list if it is not marked, or waits to be traversed. */
  lemma Unlink(g: G, th: Ref, ph: Phase, s: Bounds)
    requires Marking(g, {}, ph, s) && g.state == InsideAtomic && NoTouched(g, th, |g.ups|)
    requires IsWhite(g, th) || th in g.gray || !HasOpen(g, th)
    ensures var g' := g.(twups := g.twups - {th}); Marking(g', {}, ph, s) && Remarks(g, g')
  {
    hide Marking, Sound, Tricolor, KeepSet, Within, Shape, Lists, Ok, NoneDead, Shrunk, UpsOk;
    Parts(g, {}, ph, s);
    var g' := g.(twups := g.twups - {th});
    ShrunkSelf(g);
    assert Adv(g, g');
    forall i | 0 <= i < |g.ups| && UpCovered(g, g.ups[i]) ensures UpCovered(g', g'.ups[i]) {
      UpValueSame(g, g', i);
    }
    UnlinkedUps(g, th);
    assert Lists(g', {}, ph) by { ListsTwups(g, g', {}, ph); }
    hide Adv;
    Advance(g, g', {}, {}, ph, ph, s);
    assert MarksGrew(g', g') by { SelfGrew(g'); }
    assert g.(ups := g'.ups, twups := g'.twups) == g';
  }

  predicate HasOpen(g: G, th: Ref) { exists i :: 0 <= i < |g.ups| && g.ups[i].Open? && g.ups[i].th == th }

  lemma UnlinkedUps(g: G, th: Ref)
    requires UpsOk(g, {}) && g.state == InsideAtomic && (IsWhite(g, th) || th in g.gray || !HasOpen(g, th))
    ensures UpsOk(g.(twups := g.twups - {th}), {})
  {
    var g' := g.(twups := g.twups - {th});
    forall i | 0 <= i < |g'.ups| ensures SlotOf(g', g'.ups[i]) { assert SlotOf(g, g.ups[i]); }
    forall i | 0 <= i < |g'.ups| && g'.ups[i].Open? ensures Waiting(g', {}, g'.ups[i].th) {
      assert Waiting(g, {}, g.ups[i].th);
    }
    assert forall r :: Allocated(g, r) ==> Allocated(g', r);
  }

  /** Facts about an upvalue of a thread that is not marked. */
  lemma ThreadUp(g: G, i: nat, ph: Phase, s: Bounds)
    requires Marking(g, {}, ph, s) && i < |g.ups| && g.ups[i].Open?
    ensures InS(s, UpValue(g, g.ups[i])) && Live(g, UpValue(g, g.ups[i]))
  {
    Parts(g, {}, ph, s);
    hide Marking;
    var th := g.ups[i].th;
    assert SlotOf(g, g.ups[i]) && th in s.keep;
    assert Allocated(g, th) && RefsLive(g, g.heap[th]);
    assert KeepsIn(g, s, th, g.heap[th]);
  }

  lemma RemarksFacts(g0: G, g: G, th: Ref)
    requires Remarks(g0, g)
    ensures g.state == g0.state && g.heap == g0.heap && (HasOpen(g, th) ==> HasOpen(g0, th)) && Whites(g) <= Whites(g0)
    ensures IsWhite(g0, th) ==> th in g0.heap && !g0.heap[th].Str? && !g0.heap[th].Udata? ==>
              IsWhite(g, th) || th in g.gray
    ensures th in g0.gray ==> th in g.gray
    ensures forall v :: MarkedV(g0, v) ==> MarkedV(g, v)
  {
    GrewWhites(g0.(ups := g.ups, twups := g.twups), g);
    if HasOpen(g, th) {
      var i :| 0 <= i < |g.ups| && g.ups[i].Open? && g.ups[i].th == th;
      assert SameUp(g0.ups[i], g.ups[i]);
    }
  }

  /** A listed thread is a thread, and never black. */
  lemma ListedThread(g: G, th: Ref, ph: Phase, s: Bounds)
    requires Marking(g, {}, ph, s) && th in g.twups
    ensures th in g.heap && g.heap[th].Thread? && th in g.mark && (IsGray(g, th) || IsWhite(g, th))
  {
    assert Allocated(g, th);
    assert Ok(g, ph, th);
  }

  lemma RemarksAdv(g0: G, g: G)
    requires Remarks(g0, g)
    ensures Adv(g0, g)
  {
    ShrunkSelf(g0);
  }

  lemma RemarksSelf(g: G)
    ensures Remarks(g, g)
  {
    SelfGrew(g);
    assert g.(ups := g.ups, twups := g.twups) == g;
  }

  // ---- convergence ----

  /** `convergeephemerons` takes the list of ephemeron tables to traverse them once more. */
  lemma TakeEphemerons(g: G, ph: Phase, s: Bounds)
    requires Marking(g, {}, ph, s)
    ensures Marking(g.(ephemeron := {}), g.ephemeron, ph, s) && AllPending(g, g.ephemeron)
  {
    hide Marking, Sound, KeepSet, Within, Shape, NoneDead, Shrunk, UpsOk, Ok, Lists, Tricolor, Adv, Pending, CoversKept;
    Parts(g, {}, ph, s);
    var g' := g.(ephemeron := {});
    EphemeronsPending(g, ph);
    TakenAdv(g);
    TwupsSame(g, g', {});
    UpsGrow(g, g', {}, g.ephemeron);
    TakenLists(g, ph);
    Advance(g, g', {}, g.ephemeron, ph, ph, s);
  }

  lemma TakenAdv(g: G)
    ensures Adv(g, g.(ephemeron := {})) && CoversKept(g, g.(ephemeron := {}))
  {
    ShrunkSelf(g);
    CoversSimple(g, g.(ephemeron := {}));
  }

  lemma TakenLists(g: G, ph: Phase)
    requires Lists(g, {}, ph)
    ensures Lists(g.(ephemeron := {}), g.ephemeron, ph)
  {
    assert forall r :: InList(g.(ephemeron := {}), ph, r) ==> InList(g, ph, r);
    assert forall r :: r in g.ephemeron ==> InList(g, ph, r);
  }

  lemma EphemeronsPending(g: G, ph: Phase)
    requires Lists(g, {}, ph) && Tricolor(g, {}, ph)
    ensures forall h :: h in g.ephemeron ==> Pending(g, h)
  {
    forall h | h in g.ephemeron ensures Pending(g, h) {
      assert InList(g, ph, h);
      assert Ok(g, ph, h);
      assert h !in g.gray && h !in Todo(g, ph) && h !in g.allweak;
    }
  }

  /** An ephemeron table to be traversed in this pass. */
  ghost predicate Pending(g: G, h: Ref) {
    h in g.heap && IsGray(g, h) && h !in g.gray && g.heap[h].Table? && g.heap[h].mode == Ephemeron &&
    MarkedV(g, g.heap[h].tmt)
  }

  lemma StillPending(g0: G, g: G, h: Ref)
    requires Trav(g0, g) && Pending(g0, h)
    ensures Pending(g, h)
  {
    assert Buried(g0.heap[h], g.heap[h]);
  }

  /** Marking strings does not undo convergence. */
  lemma ConvergedStays(g0: G, g: G, h: Ref)
    requires Adv(g0, g) && OnlyStrings(g0, g) && Converged(g0, h) && g0.mark.Keys == g0.heap.Keys
    ensures Converged(g, h)
  {
    assert Shrunk(g0.heap[h], g.heap[h]);
    assert forall v :: MarkedV(g0, v) ==> MarkedV(g, v);
    forall i: nat | i < |g.heap[h].hash| ensures !ToMark(g, h, i) {
      assert !ToMark(g0, h, i) && EntryShrunk(g0.heap[h].hash[i], g.heap[h].hash[i]);
      StringsCleared(g0, g, g0.heap[h].hash[i].key);
    }
  }

  lemma StringsCleared(g0: G, g: G, v: Value)
    requires Adv(g0, g) && OnlyStrings(g0, g) && g0.mark.Keys == g0.heap.Keys
    ensures Cleared(g, v) == Cleared(g0, v)
  {
    if v.Gc? && v.r in g0.heap {
      assert Shrunk(g0.heap[v.r], g.heap[v.r]);
    }
  }

  lemma StringsAcross(g0: G, g1: G, g2: G)
    requires OnlyStrings(g0, g1) && OnlyStrings(g1, g2) && Adv(g0, g1)
    ensures OnlyStrings(g0, g2)
  {
    forall r | IsWhite(g0, r) && Marked(g2, r) ensures r in g0.heap && g0.heap[r].Str? {
      if IsWhite(g1, r) && r in g0.heap {
        assert Shrunk(g0.heap[r], g1.heap[r]);
      }
    }
  }

  /** A traversal that has marked nothing but strings has left the gray list alone. */
  lemma StringsNotGray(g0: G, g: G, skip: set<Ref>, ph: Phase, s: Bounds)
    requires Trav(g0, g) && OnlyStrings(g0, g) && g0.gray == {} && Marking(g, skip, ph, s)
    ensures g.gray == {}
  {
    Parts(g, skip, ph, s);
    hide Marking;
    forall r ensures r in g.gray ==> r in g.heap && g.heap[r].Str? {
      NewGray(g0, g, r);
    }
    assert forall r :: r !in g.gray;
  }

  lemma NewGray(g0: G, g: G, r: Ref)
    requires Trav(g0, g) && OnlyStrings(g0, g) && g0.gray == {}
    ensures r in g.gray ==> r in g.heap && g.heap[r].Str?
  {
    if r in g.gray {
      assert Buried(g0.heap[r], g.heap[r]);
    }
  }

  ghost predicate AllConverged(g: G, l: set<Ref>) { forall h :: h in l ==> Converged(g, h) }

  ghost predicate AllPending(g: G, l: set<Ref>) { forall h :: h in l ==> Pending(g, h) }

  /** All ephemeron tables have converged. */
  ghost predicate Idle(g: G) { AllConverged(g, g.ephemeron) }

  /** One pass of `convergeephemerons`. */
  ghost predicate Pass(g0: G, g: G, next: set<Ref>, changed: bool, w0: set<Ref>, ph: Phase, s: Bounds) {
    Marking(g, next, ph, s) && Trav(g0, g) && g.gray == {} && AllPending(g, next) &&
    Whites(g) <= w0 && (changed ==> Whites(g) < w0) && (!changed ==> Idle(g)) &&
    (Idle(g0) ==> OnlyStrings(g0, g) && !changed && AllConverged(g, next))
  }

  /** A table of the pass that marked nothing (but strings). */
  lemma PassQuiet(g0: G, g1: G, g: G, w: Ref, next: set<Ref>, changed: bool, w0: set<Ref>, ph: Phase, s: Bounds)
    requires Pass(g0, g1, next, changed, w0, ph, s) && w in next && Trav(g1, g) && Marking(g, next - {w}, ph, s)
    requires OnlyStrings(g1, g) && Converged(g, w) && g.ephemeron <= g1.ephemeron + {w} && Whites(g) <= Whites(g1)
    ensures Pass(g0, g, next - {w}, changed, w0, ph, s)
  {
    PassKeys(g0, g1, next, changed, w0, ph, s);
    hide Marking, Whites, Idle, Converged, OnlyStrings, Trav, AllPending, AllConverged, Adv;
    TravTrans(g0, g1, g);
    StringsNotGray(g1, g, next - {w}, ph, s);
    QuietPending(g1, g, next, next - {w});
    QuietIdle(g1, g, w, next);
    QuietStrings(g0, g1, g);
  }

  lemma QuietIdle(g1: G, g: G, w: Ref, next: set<Ref>)
    requires Trav(g1, g) && OnlyStrings(g1, g) && g1.mark.Keys == g1.heap.Keys && Converged(g, w)
    requires g.ephemeron <= g1.ephemeron + {w}
    ensures (Idle(g1) ==> Idle(g)) && (AllConverged(g1, next) ==> AllConverged(g, next - {w}))
  {
    hide AllConverged, Converged, Trav, OnlyStrings;
    QuietConverged(g1, g, g1.ephemeron, g.ephemeron, w);
    QuietConverged(g1, g, next, next - {w}, w);
  }

  lemma QuietStrings(g0: G, g1: G, g: G)
    requires Trav(g0, g1) && OnlyStrings(g1, g)
    ensures OnlyStrings(g0, g1) ==> OnlyStrings(g0, g)
  {
    hide OnlyStrings, Adv, Trav;
    TravAdv(g0, g1);
    if OnlyStrings(g0, g1) { StringsAcross(g0, g1, g); }
  }

  lemma QuietPending(g1: G, g: G, next: set<Ref>, next': set<Ref>)
    requires Trav(g1, g) && AllPending(g1, next) && next' <= next
    ensures AllPending(g, next')
  {
    hide Pending, Trav;
    forall h | h in next' ensures Pending(g, h) { StillPending(g1, g, h); }
  }

  lemma QuietConverged(g1: G, g: G, l: set<Ref>, l': set<Ref>, w: Ref)
    requires Trav(g1, g) && OnlyStrings(g1, g) && g1.mark.Keys == g1.heap.Keys && l' <= l + {w} && Converged(g, w)
    ensures AllConverged(g1, l) ==> AllConverged(g, l')
  {
    hide Converged, Trav, OnlyStrings, Adv;
    TravAdv(g1, g);
    forall h ensures Converged(g1, h) ==> Converged(g, h) {
      if Converged(g1, h) { ConvergedStays(g1, g, h); }
    }
  }

  lemma PassKeys(g0: G, g: G, next: set<Ref>, changed: bool, w0: set<Ref>, ph: Phase, s: Bounds)
    requires Pass(g0, g, next, changed, w0, ph, s)
    ensures g.mark.Keys == g.heap.Keys
  {
    Parts(g, next, ph, s);
  }

  lemma TravAdv(g0: G, g: G)
    requires Trav(g0, g)
    ensures Adv(g0, g)
  {
  }

  /** A table that marked something: everything is propagated, and there will be another pass. */
  lemma PassChanged(g0: G, g1: G, g2: G, g: G, w: Ref, next: set<Ref>, changed: bool, w0: set<Ref>, ph: Phase,
                    s: Bounds)
    requires Pass(g0, g1, next, changed, w0, ph, s) && w in next && Trav(g1, g2) && Trav(g2, g)
    requires Marking(g, next - {w}, ph, s)
    requires !Converged(g1, w) && Whites(g2) < Whites(g1) && Whites(g) <= Whites(g2) && g.gray == {}
    ensures Pass(g0, g, next - {w}, true, w0, ph, s)
  {
    hide Marking, Whites, Converged, OnlyStrings, Trav, AllPending;
    TravTrans(g1, g2, g);
    TravTrans(g0, g1, g);
    QuietPending(g1, g, next, next - {w});
  }

  lemma NoneTouched(g: G, th: Ref)
    ensures NoTouched(g, th, 0)
  {
  }

  lemma ValueStays(g0: G, g: G, i: nat)
    requires MarksGrew(g0, g) && i < |g0.ups|
    ensures i < |g.ups| && g.ups == g0.ups && UpValue(g, g.ups[i]) == UpValue(g0, g0.ups[i]) && g.state == g0.state
    ensures g.twups == g0.twups
  {
  }

  lemma NextTouched(g0: G, g: G, th: Ref, i: nat)
    requires NoTouched(g0, th, i) && i < |g0.ups| && |g.ups| == |g0.ups|
    requires forall j :: 0 <= j < |g.ups| && j != i ==> g.ups[j] == g0.ups[j]
    requires g.ups[i].Open? && g.ups[i].th == th ==> !g.ups[i].touched
    ensures NoTouched(g, th, i + 1)
  {
  }

  lemma RemarksSize(g0: G, g: G)
    requires Remarks(g0, g)
    ensures |g.ups| == |g0.ups|
  {
  }

  lemma RemarksMarked(g0: G, g: G)
    requires Remarks(g0, g)
    ensures forall r :: Marked(g0, r) ==> Marked(g, r)
  {
  }

  lemma PassStart(g: G, ph: Phase, s: Bounds)
    requires Marking(g, {}, ph, s)
    ensures Trav(g, g) && OnlyStrings(g, g)
  {
    TravSelf(g);
  }

  lemma PassBegin(g0: G, g: G, ph: Phase, s: Bounds)
    requires Marking(g, {}, ph, s) && Trav(g0, g) && g.gray == {} && (Idle(g0) ==> OnlyStrings(g0, g) && Idle(g))
    requires Marking(g.(ephemeron := {}), g.ephemeron, ph, s) && AllPending(g, g.ephemeron)
    ensures Pass(g0, g.(ephemeron := {}), g.ephemeron, false, Whites(g), ph, s)
  {
    hide Marking;
    var g' := g.(ephemeron := {});
    assert Whites(g') == Whites(g);
    forall h | h in g.ephemeron ensures Pending(g', h) && (Converged(g, h) ==> Converged(g', h)) {
      assert Pending(g, h);
      if Converged(g, h) { SameConverged(g, g', h); }
    }
    BeginTrav(g);
    TravTrans(g0, g, g');
  }

  lemma BeginTrav(g: G)
    ensures Trav(g, g.(ephemeron := {}))
  {
    ShrunkSelf(g);
    BuriedSelf(g, g.(ephemeron := {}));
  }

  lemma SameConverged(g: G, g': G, h: Ref)
    requires g'.heap == g.heap && g'.mark == g.mark && Converged(g, h)
    ensures Converged(g', h)
  {
    forall i: nat | i < |g'.heap[h].hash| ensures !ToMark(g', h, i) {
      assert !ToMark(g, h, i);
      assert Cleared(g', g.heap[h].hash[i].key) == Cleared(g, g.heap[h].hash[i].key);
    }
  }

  lemma PendingFacts(g0: G, g: G, w: Ref, next: set<Ref>, changed: bool, w0: set<Ref>, ph: Phase, s: Bounds)
    requires Pass(g0, g, next, changed, w0, ph, s) && w in next
    ensures Marking(g, next, ph, s) && w in g.heap && IsGray(g, w) && g.heap[w].Table? && g.heap[w].mode == Ephemeron
    ensures MarkedV(g, g.heap[w].tmt)
  {
    assert Pending(g, w);
  }

  lemma TravWhites(g0: G, g: G)
    requires Trav(g0, g)
    ensures Whites(g) <= Whites(g0)
  {
    assert forall r :: r in Whites(g) ==> IsWhite(g, r) && r in Whites(g0);
  }

  lemma PassEnd(g0: G, g: G, changed: bool, w0: set<Ref>, ph: Phase, s: Bounds)
    requires Pass(g0, g, {}, changed, w0, ph, s)
    ensures Marking(g, {}, ph, s) && Trav(g0, g) && g.gray == {} && (!changed ==> Idle(g)) && Whites(g) <= w0
    ensures changed ==> Whites(g) < w0
    ensures Idle(g0) ==> OnlyStrings(g0, g) && !changed
  {
  }

  // ---- clearing weak tables ----

  /** Whether an entry of a table of this mode may lose its value, by what is gone of it. */
  predicate Lapses(m: Mode, key: bool, val: bool) {
    match m
    case Strong => false
    case WeakValue => val
    case Ephemeron => key
    case AllWeak => key || val
  }

  predicate SlotLapses(m: Mode, val: bool) { (m == WeakValue || m == AllWeak) && val }

  /** The mode by which an object is cleared: tables that had to wait in `allweak` count as all-weak. */
  function Treated(o: Obj, waits: bool): Mode { if waits then AllWeak else if o.Table? then o.mode else Strong }

  /** An entry may lose its value only by the rule of its table's mode. */
  predicate EntryFaded(g: G, m: Mode, e: Entry, e': Entry) {
    e' == e || (e'.val == Nil && (e'.key == e.key || e'.key == DeadKey) &&
        (e.val == Nil || Lapses(m, Cleared(g, e.key), Cleared(g, e.val))))
  }

  ghost predicate ObjFaded(g: G, m: Mode, o: Obj, o': Obj) {
    match o
    case Table(mode, mt, arr, hash) =>
      o'.Table? && o'.mode == mode && o'.tmt == mt && |o'.arr| == |arr| && |o'.hash| == |hash| &&
      (forall i :: 0 <= i < |arr| ==>
         o'.arr[i] == arr[i] || (o'.arr[i] == Nil && SlotLapses(m, Cleared(g, arr[i])))) &&
      (forall i :: 0 <= i < |hash| ==> EntryFaded(g, m, hash[i], o'.hash[i]))
    case _ => Shrunk(o, o')
  }

  /** Every object has lost only what its mode allows; a are the tables that had to wait. */
  ghost predicate AllFaded(g0: G, g: G, a: set<Ref>) {
    g.heap.Keys == g0.heap.Keys &&
    forall r :: r in g0.heap ==> ObjFaded(g, Treated(g0.heap[r], r in a), g0.heap[r], g.heap[r])
  }

  /** What clearing does: it marks strings, and removes what is cleared. */
  ghost predicate ClearStep(g0: G, g: G, a: set<Ref>) {
    g == g0.(heap := g.heap, mark := g.mark) && Adv(g0, g) && OnlyStrings(g0, g) && AllFaded(g0, g, a) &&
    g0.mark.Keys == g0.heap.Keys &&
    forall r :: Marked(g0, r) ==> g.mark[r] == g0.mark[r]
  }

  lemma ObjFadedTrans(g1: G, g2: G, m: Mode, o0: Obj, o1: Obj, o2: Obj)
    requires ObjFaded(g1, m, o0, o1) && ObjFaded(g2, m, o1, o2) && forall v :: Cleared(g1, v) ==> Cleared(g2, v)
    ensures ObjFaded(g2, m, o0, o2)
  {
    hide Cleared;
    if o0.Table? {
      forall i | 0 <= i < |o0.hash| ensures EntryFaded(g2, m, o0.hash[i], o2.hash[i]) {
        assert EntryFaded(g1, m, o0.hash[i], o1.hash[i]) && EntryFaded(g2, m, o1.hash[i], o2.hash[i]);
      }
    }
  }

  lemma FadedTreated(g: G, m: Mode, o: Obj, o': Obj, waits: bool)
    requires ObjFaded(g, m, o, o')
    ensures Treated(o', waits) == Treated(o, waits)
  {
  }

  lemma AllFadedTrans(g0: G, g1: G, g2: G, a: set<Ref>)
    requires AllFaded(g0, g1, a) && AllFaded(g1, g2, a) && Adv(g1, g2) && OnlyStrings(g1, g2)
    requires g1.mark.Keys == g1.heap.Keys
    ensures AllFaded(g0, g2, a)
  {
    hide ObjFaded, Cleared, Adv, OnlyStrings, Treated;
    forall v ensures Cleared(g1, v) ==> Cleared(g2, v) { StringsCleared(g1, g2, v); }
    forall r | r in g0.heap ensures ObjFaded(g2, Treated(g0.heap[r], r in a), g0.heap[r], g2.heap[r]) {
      var m := Treated(g0.heap[r], r in a);
      FadedTreated(g1, m, g0.heap[r], g1.heap[r], r in a);
      ObjFadedTrans(g1, g2, m, g0.heap[r], g1.heap[r], g2.heap[r]);
    }
  }

  lemma ClearTrans(g0: G, g1: G, g2: G, a: set<Ref>)
    requires ClearStep(g0, g1, a) && ClearStep(g1, g2, a)
    ensures ClearStep(g0, g2, a)
  {
    hide Adv, OnlyStrings, AllFaded;
    AdvTrans(g0, g1, g2);
    StringsAcross(g0, g1, g2);
    AdvKeys(g0, g1);
    AllFadedTrans(g0, g1, g2, a);
  }

  lemma AdvKeys(g0: G, g: G)
    requires Adv(g0, g)
    ensures g.mark.Keys == g0.mark.Keys && g.heap.Keys == g0.heap.Keys
  {
  }

  ghost predicate AllKeysMarked(g: G, h: Ref) { h in g.heap && g.heap[h].Table? && KeysMarked(g, h, |g.heap[h].hash|) }

  predicate KeptTable(g0: G, g: G, h: Ref) {
    h in g0.heap && g0.heap[h].Table? && h in g.heap && g.heap[h].Table? && Marked(g, h) &&
    |g.heap[h].arr| == |g0.heap[h].arr| && |g.heap[h].hash| == |g0.heap[h].hash|
  }

  function WithEntry(t: Obj, i: nat, e: Entry): Obj
    requires t.Table? && i < |t.hash|
  {
    t.(hash := t.hash[i := e])
  }

  lemma ObjSelf(g: G, m: Mode, o: Obj)
    ensures ObjFaded(g, m, o, o)
  {
  }

  lemma SelfFaded(g: G, g': G, a: set<Ref>)
    requires g'.heap == g.heap
    ensures AllFaded(g, g', a)
  {
    hide ObjFaded;
    forall r | r in g.heap ensures ObjFaded(g', Treated(g.heap[r], r in a), g.heap[r], g'.heap[r]) {
      ObjSelf(g', Treated(g.heap[r], r in a), g.heap[r]);
    }
  }

  lemma ClearSelf(g: G, h: Ref, a: set<Ref>)
    requires h in g.heap && Marked(g, h) && g.heap[h].Table?
    ensures g.mark.Keys == g.heap.Keys ==> ClearStep(g, g, a)
    ensures KeptTable(g, g, h) && AllMarked(g, g.heap[h].arr[..0])
  {
    ShrunkSelf(g);
    SelfFaded(g, g, a);
  }

  /** Marks of strings alone are a step of clearing. */
  lemma ClearMarks(g0: G, g: G, a: set<Ref>)
    requires MarksGrew(g0, g) && OnlyStrings(g0, g) && g == g0.(mark := g.mark) && g0.mark.Keys == g0.heap.Keys
    ensures ClearStep(g0, g, a)
  {
    GrewAdv(g0, g);
    SelfFaded(g0, g, a);
  }

  /** So is replacing one object by a faded one. */
  lemma ClearObject(g: G, h: Ref, o: Obj, a: set<Ref>)
    requires h in g.heap && ObjFaded(g, Treated(g.heap[h], h in a), g.heap[h], o) && Shrunk(g.heap[h], o)
    requires g.mark.Keys == g.heap.Keys
    ensures ClearStep(g, g.(heap := g.heap[h := o]), a)
  {
    var g' := g.(heap := g.heap[h := o]);
    ShrinkAdv(g, h, o);
    ShrinkKind(g, g');
    hide Adv;
    forall v ensures Cleared(g, v) == Cleared(g', v) {}
    forall r | r in g.heap ensures ObjFaded(g', Treated(g.heap[r], r in a), g.heap[r], g'.heap[r]) {
      var m := Treated(g.heap[r], r in a);
      ObjSelf(g, m, g.heap[r]);
      ObjSelf(g', m, g'.heap[r]);
      ObjFadedTrans(g, g', m, g.heap[r], g'.heap[r], g'.heap[r]);
    }
  }

  lemma FadeSlot(g: G, m: Mode, o: Obj, i: nat)
    requires o.Table? && i < |o.arr| && SlotLapses(m, Cleared(g, o.arr[i]))
    ensures Shrunk(o, o.(arr := o.arr[i := Nil])) && ObjFaded(g, m, o, o.(arr := o.arr[i := Nil]))
  {
  }

  lemma FadeEntry(g: G, m: Mode, o: Obj, i: nat)
    requires o.Table? && i < |o.hash| && Lapses(m, Cleared(g, o.hash[i].key), Cleared(g, o.hash[i].val))
    ensures var o' := WithEntry(o, i, Entry(o.hash[i].key, Nil)); Shrunk(o, o') && ObjFaded(g, m, o, o')
  {
  }

  lemma ClearSlot(g: G, h: Ref, i: nat, a: set<Ref>, ph: Phase, s: Bounds)
    requires Marking(g, {}, ph, s) && h in g.heap && g.heap[h].Table? && i < |g.heap[h].arr|
    requires SlotLapses(Treated(g.heap[h], h in a), Cleared(g, g.heap[h].arr[i]))
    ensures var g' := g.(heap := g.heap[h := g.heap[h].(arr := g.heap[h].arr[i := Nil])]);
            Marking(g', {}, ph, s) && ClearStep(g, g', a)
  {
    hide Marking, Cleared, ClearStep, Shrunk, ObjFaded, NoneDead, SlotLapses, Treated;
    KeysSame(g, {}, ph, s);
    var o := g.heap[h].(arr := g.heap[h].arr[i := Nil]);
    FadeSlot(g, Treated(g.heap[h], h in a), g.heap[h], i);
    ShrinkOne(g, h, o, {}, ph, s);
    ClearObject(g, h, o, a);
  }

  lemma ClearEntry(g: G, h: Ref, i: nat, a: set<Ref>, ph: Phase, s: Bounds)
    requires Marking(g, {}, ph, s) && h in g.heap && g.heap[h].Table? && i < |g.heap[h].hash|
    requires var e := g.heap[h].hash[i]; Lapses(Treated(g.heap[h], h in a), Cleared(g, e.key), Cleared(g, e.val))
    ensures var g' := g.(heap := g.heap[h := WithEntry(g.heap[h], i, Entry(g.heap[h].hash[i].key, Nil))]);
            Marking(g', {}, ph, s) && ClearStep(g, g', a)
  {
    hide Marking, Cleared, ClearStep, Shrunk, ObjFaded, NoneDead, Lapses, Treated;
    KeysSame(g, {}, ph, s);
    FadeEntry(g, Treated(g.heap[h], h in a), g.heap[h], i);
    var o := WithEntry(g.heap[h], i, Entry(g.heap[h].hash[i].key, Nil));
    ShrinkOne(g, h, o, {}, ph, s);
    ClearObject(g, h, o, a);
  }

  /** Burying keys is a step of clearing as well. */
  lemma ClearBuried(g0: G, g: G, a: set<Ref>)
    requires Digs(g0, g) && g == g0.(heap := g.heap) && g0.mark.Keys == g0.heap.Keys
    ensures ClearStep(g0, g, a)
  {
    DigsAdv(g0, g);
    BuriedAllFaded(g0, g, a);
  }

  lemma BuriedAllFaded(g0: G, g: G, a: set<Ref>)
    requires AllBuried(g0, g)
    ensures AllFaded(g0, g, a)
  {
    hide ObjFaded, Buried;
    forall r | r in g0.heap ensures ObjFaded(g, Treated(g0.heap[r], r in a), g0.heap[r], g.heap[r]) {
      BuriedFaded(g, Treated(g0.heap[r], r in a), g0.heap[r], g.heap[r]);
    }
  }

  lemma BuriedFaded(g: G, m: Mode, o: Obj, o': Obj)
    requires Buried(o, o')
    ensures ObjFaded(g, m, o, o')
  {
    if o.Table? {
      forall i | 0 <= i < |o.hash| ensures EntryFaded(g, m, o.hash[i], o'.hash[i]) {
        assert EntryBuried(o.hash[i], o'.hash[i]);
      }
    }
  }

  lemma ClearKept(g0: G, g1: G, g: G, h: Ref, a: set<Ref>)
    requires ClearStep(g0, g1, a) && ClearStep(g1, g, a) && KeptTable(g0, g1, h)
    ensures ClearStep(g0, g, a) && KeptTable(g0, g, h)
  {
    ClearTrans(g0, g1, g, a);
    ClearAt(g1, g, a, h);
  }

  lemma ClearAt(g1: G, g: G, a: set<Ref>, h: Ref)
    requires ClearStep(g1, g, a) && h in g1.heap
    ensures h in g.heap && ObjFaded(g, Treated(g1.heap[h], h in a), g1.heap[h], g.heap[h])
    ensures forall v :: MarkedV(g1, v) ==> MarkedV(g, v)
    ensures forall v :: Cleared(g, v) == Cleared(g1, v)
  {
    hide ObjFaded;
    forall v ensures Cleared(g, v) == Cleared(g1, v) { StringsCleared(g1, g, v); }
  }

  lemma NextSlot(g1: G, g: G, h: Ref, i: nat, a: set<Ref>)
    requires ClearStep(g1, g, a) && h in g1.heap && g1.heap[h].Table? && h in g.heap && g.heap[h].Table?
    requires i < |g1.heap[h].arr| == |g.heap[h].arr|
    requires AllMarked(g1, g1.heap[h].arr[..i]) && MarkedV(g, g.heap[h].arr[i])
    ensures AllMarked(g, g.heap[h].arr[..i + 1])
  {
    ClearAt(g1, g, a, h);
    hide ClearStep;
    var n := i + 1;
    var done := g.heap[h].arr[..n];
    forall j | 0 <= j < n ensures MarkedV(g, done[j]) {
      if j < i { assert g1.heap[h].arr[..i][j] == g1.heap[h].arr[j]; }
    }
  }

  lemma AllSlots(g: G, h: Ref)
    requires h in g.heap && g.heap[h].Table? && AllMarked(g, g.heap[h].arr[..|g.heap[h].arr|])
    ensures AllMarked(g, g.heap[h].arr) && ValsMarked(g, h, 0)
  {
    assert g.heap[h].arr[..|g.heap[h].arr|] == g.heap[h].arr;
  }

  lemma SlotsStay(g1: G, g: G, h: Ref, a: set<Ref>)
    requires ClearStep(g1, g, a) && h in g1.heap && g1.heap[h].Table? && h in g.heap && g.heap[h].Table?
    ensures AllMarked(g1, g1.heap[h].arr) ==> AllMarked(g, g.heap[h].arr)
  {
    ClearAt(g1, g, a, h);
    hide ClearStep;
  }

  lemma NextClear(g1: G, g: G, h: Ref, i: nat, a: set<Ref>)
    requires ClearStep(g1, g, a) && h in g1.heap && g1.heap[h].Table? && h in g.heap && g.heap[h].Table?
    requires i < |g1.heap[h].hash| == |g.heap[h].hash|
    ensures ValsMarked(g1, h, i) && MarkedV(g, g.heap[h].hash[i].val) ==> ValsMarked(g, h, i + 1)
    ensures KeysMarked(g1, h, i) && MarkedV(g, g.heap[h].hash[i].key) ==> KeysMarked(g, h, i + 1)
  {
    ClearAt(g1, g, a, h);
    hide ClearStep;
    assert forall j :: 0 <= j < i ==>
          EntryFaded(g, Treated(g1.heap[h], h in a), g1.heap[h].hash[j], g.heap[h].hash[j]);
  }

  // ---- what exactly is cleared ----

  /** `clearkeys` at one entry: it goes if and only if its key is cleared. */
  predicate KeyCut(g: G, e: Entry, e': Entry) {
    if e.val == Nil then EntryBuried(e, e') else e' == if Cleared(g, e.key) then Entry(DeadKey, Nil) else e
  }

  /** `clearvalues` at one entry: it goes if and only if its value is cleared. */
  predicate ValueCut(g: G, e: Entry, e': Entry) {
    if Cleared(g, e.val) then e'.val == Nil && (e'.key == e.key || e'.key == DeadKey) else e' == e
  }

  /** The first n entries. */
  ghost predicate KeysCut(g: G, o: Obj, o': Obj, n: nat) {
    o.Table? && o'.Table? && o' == o.(hash := o'.hash) && n <= |o'.hash| == |o.hash| &&
    (forall i :: 0 <= i < n ==> KeyCut(g, o.hash[i], o'.hash[i])) &&
    forall i :: n <= i < |o.hash| ==> o'.hash[i] == o.hash[i]
  }

  /** The first n slots of the array part and the first k entries. */
  ghost predicate ValuesCut(g: G, o: Obj, o': Obj, n: nat, k: nat) {
    o.Table? && o'.Table? && o' == o.(arr := o'.arr, hash := o'.hash) && n <= |o'.arr| == |o.arr| &&
    k <= |o'.hash| == |o.hash| &&
    (forall i :: 0 <= i < |o.arr| ==> o'.arr[i] == if i < n && Cleared(g, o.arr[i]) then Nil else o.arr[i]) &&
    (forall i :: 0 <= i < k ==> ValueCut(g, o.hash[i], o'.hash[i])) &&
    forall i :: k <= i < |o.hash| ==> o'.hash[i] == o.hash[i]
  }

  /** The tables of l have lost exactly the entries with cleared keys, and nothing else has changed. */
  ghost predicate KeysCutIn(g0: G, g: G, l: set<Ref>) {
    g.heap.Keys == g0.heap.Keys &&
    forall r :: r in g.heap ==>
          if r in l then g0.heap[r].Table? && KeysCut(g0, g0.heap[r], g.heap[r], |g0.heap[r].hash|)
          else g.heap[r] == g0.heap[r]
  }

  /** The tables of l have lost exactly their cleared values, and nothing else has changed. */
  ghost predicate ValuesCutIn(g0: G, g: G, l: set<Ref>) {
    g.heap.Keys == g0.heap.Keys &&
    forall r :: r in g.heap ==>
          if r in l then
            g0.heap[r].Table? &&
            ValuesCut(g0, g0.heap[r], g.heap[r], |g0.heap[r].arr|, |g0.heap[r].hash|)
          else g.heap[r] == g0.heap[r]
  }

  lemma NextKeyCut(g0: G, g1: G, g: G, o0: Obj, o1: Obj, o: Obj, i: nat)
    requires KeysCut(g0, o0, o1, i) && i < |o1.hash| && o.Table? && |o.hash| == |o1.hash|
    requires o == o1.(hash := o1.hash[i := o.hash[i]])
    requires KeyCut(g1, o1.hash[i], o.hash[i]) && forall v :: Cleared(g1, v) == Cleared(g0, v)
    ensures KeysCut(g0, o0, o, i + 1)
  {
    hide Cleared;
  }

  lemma NextValueCut(g0: G, g1: G, g: G, o0: Obj, o1: Obj, o: Obj, i: nat)
    requires o0.Table? && ValuesCut(g0, o0, o1, |o0.arr|, i) && i < |o1.hash| && o.Table?
    requires |o.hash| == |o1.hash| && o == o1.(hash := o1.hash[i := o.hash[i]])
    requires ValueCut(g1, o1.hash[i], o.hash[i]) && forall v :: Cleared(g1, v) == Cleared(g0, v)
    ensures ValuesCut(g0, o0, o, |o0.arr|, i + 1)
  {
    hide Cleared;
  }

  lemma NextSlotCut(g0: G, g1: G, g: G, o0: Obj, o1: Obj, o: Obj, i: nat)
    requires ValuesCut(g0, o0, o1, i, 0) && i < |o1.arr| && o.Table?
    requires o == o1.(arr := o1.arr[i := if Cleared(g1, o1.arr[i]) then Nil else o1.arr[i]])
    requires forall v :: Cleared(g1, v) == Cleared(g0, v)
    ensures ValuesCut(g0, o0, o, i + 1, 0)
  {
    hide Cleared;
  }

  /** What may be cleared at an entry or a slot, after strings have been marked. */
  lemma SlotMayGo(g0: G, g: G, h: Ref, i: nat, a: set<Ref>)
    requires MayClearValues(g0, h, a) && g.heap == g0.heap && g0.heap[h].Table? && i < |g0.heap[h].arr|
    requires Cleared(g0, g0.heap[h].arr[i]) && Cleared(g, g0.heap[h].arr[i])
    ensures SlotLapses(Treated(g.heap[h], h in a), Cleared(g, g.heap[h].arr[i]))
  {
    assert !MarkedV(g0, g0.heap[h].arr[i]);
  }

  lemma ValueMayGo(g0: G, g: G, h: Ref, i: nat, a: set<Ref>)
    requires MayClearValues(g0, h, a) && g.heap == g0.heap && g0.heap[h].Table? && i < |g0.heap[h].hash|
    requires Cleared(g0, g0.heap[h].hash[i].val) && Cleared(g, g0.heap[h].hash[i].val)
    ensures var e := g.heap[h].hash[i]; Lapses(Treated(g.heap[h], h in a), Cleared(g, e.key), Cleared(g, e.val))
  {
    assert !MarkedV(g0, g0.heap[h].hash[i].val);
  }

  lemma KeyMayGo(g0: G, g: G, h: Ref, i: nat, a: set<Ref>)
    requires MayClearKeys(g0, h, a) && g.heap == g0.heap && g0.heap[h].Table? && i < |g0.heap[h].hash|
    requires Cleared(g, g0.heap[h].hash[i].key)
    ensures var e := g.heap[h].hash[i]; Lapses(Treated(g.heap[h], h in a), Cleared(g, e.key), Cleared(g, e.val))
  {
  }

  lemma NilStays(g: G)
    ensures !Cleared(g, Nil) && MarkedV(g, Nil)
  {
  }

  lemma EntryGone(g0: G, g: G, h: Ref, i: nat)
    requires Digs(g0, g) && h in g0.heap && g0.heap[h].Table? && i < |g0.heap[h].hash|
    requires g0.heap[h].hash[i].val == Nil
    ensures h in g.heap && g.heap[h].Table? && |g.heap[h].hash| == |g0.heap[h].hash|
    ensures EntryBuried(g0.heap[h].hash[i], g.heap[h].hash[i])
    ensures forall r :: r in g0.mark && Marked(g, r) && g.mark == g0.mark ==> Marked(g0, r)
  {
    assert Buried(g0.heap[h], g.heap[h]);
  }

  lemma KeyIsCut(g0: G, g: G, e: Entry, e': Entry)
    requires if e.val == Nil then EntryBuried(e, e')
             else if Cleared(g0, e.key) then EntryBuried(Entry(e.key, Nil), e') else e' == e
    requires MarkedV(g, e'.key) && forall v :: Cleared(g, v) == Cleared(g0, v)
    ensures KeyCut(g0, e, e')
  {
  }

  /** The first i slots of a table have been cleared. */
  ghost predicate SlotsDone(g0: G, g: G, h: Ref, i: nat, a: set<Ref>) {
    ClearStep(g0, g, a) && KeptTable(g0, g, h) && MayClearValues(g, h, a) && i <= |g.heap[h].arr| &&
    AllMarked(g, g.heap[h].arr[..i]) && ValuesCut(g0, g0.heap[h], g.heap[h], i, 0)
  }

  /** All its slots, and the first i values of its entries. */
  ghost predicate ValuesDone(g0: G, g: G, h: Ref, i: nat, a: set<Ref>) {
    ClearStep(g0, g, a) && KeptTable(g0, g, h) && MayClearValues(g, h, a) && i <= |g.heap[h].hash| &&
    AllMarked(g, g.heap[h].arr) && ValsMarked(g, h, i) && ValuesCut(g0, g0.heap[h], g.heap[h], |g0.heap[h].arr|, i)
  }

  /** The first i keys. */
  ghost predicate KeysDone(g0: G, g: G, h: Ref, i: nat, a: set<Ref>) {
    ClearStep(g0, g, a) && KeptTable(g0, g, h) && MayClearKeys(g, h, a) && i <= |g.heap[h].hash| &&
    KeysMarked(g, h, i) && KeysCut(g0, g0.heap[h], g.heap[h], i)
  }

  lemma DoneFacts(g0: G, g: G, h: Ref, i: nat, a: set<Ref>)
    requires SlotsDone(g0, g, h, i, a) || ValuesDone(g0, g, h, i, a) || KeysDone(g0, g, h, i, a)
    ensures ClearStep(g0, g, a) && KeptTable(g0, g, h)
    ensures SlotsDone(g0, g, h, i, a) || ValuesDone(g0, g, h, i, a) ==> MayClearValues(g, h, a)
    ensures KeysDone(g0, g, h, i, a) ==> MayClearKeys(g, h, a)
  {
    hide ClearStep;
  }

  lemma FirstDone(g: G, h: Ref, a: set<Ref>)
    requires h in g.heap && Marked(g, h) && g.heap[h].Table? && g.mark.Keys == g.heap.Keys
    ensures MayClearValues(g, h, a) ==> SlotsDone(g, g, h, 0, a)
    ensures MayClearKeys(g, h, a) ==> KeysDone(g, g, h, 0, a)
  {
    hide ClearStep, MayClearKeys, MayClearValues, KeysCut, ValuesCut;
    ClearSelf(g, h, a);
    CutSelf(g, g.heap[h]);
    NoEntries(g, h);
  }

  lemma NextSlotDone(g0: G, g1: G, g: G, h: Ref, i: nat, a: set<Ref>)
    requires SlotsDone(g0, g1, h, i, a) && ClearStep(g1, g, a) && KeptTable(g1, g, h) && i < |g1.heap[h].arr|
    requires var arr := g1.heap[h].arr;
             g.heap[h] == g1.heap[h].(arr := arr[i := if Cleared(g1, arr[i]) then Nil else arr[i]])
    requires MarkedV(g, g.heap[h].arr[i])
    ensures SlotsDone(g0, g, h, i + 1, a)
  {
    hide ClearStep, MayClearValues, ValuesCut, AllMarked, Cleared, MarkedV;
    ClearAt(g0, g1, a, h);
    NextSlotCut(g0, g1, g, g0.heap[h], g1.heap[h], g.heap[h], i);
    ClearKept(g0, g1, g, h, a);
    ClearAdv(g1, g, a);
    ClearableStays(g1, g, a);
    NextSlot(g1, g, h, i, a);
  }

  lemma SlotsAreDone(g0: G, g: G, h: Ref, a: set<Ref>)
    requires h in g.heap && g.heap[h].Table? && SlotsDone(g0, g, h, |g.heap[h].arr|, a)
    ensures ValuesDone(g0, g, h, 0, a)
  {
    hide ClearStep, MayClearValues, AllMarked, Cleared;
    AllSlots(g, h);
  }

  lemma NextValueDone(g0: G, g1: G, g: G, h: Ref, i: nat, a: set<Ref>)
    requires ValuesDone(g0, g1, h, i, a) && ClearStep(g1, g, a) && KeptTable(g1, g, h) && i < |g1.heap[h].hash|
    requires g.heap[h] == g1.heap[h].(hash := g1.heap[h].hash[i := g.heap[h].hash[i]])
    requires ValueCut(g1, g1.heap[h].hash[i], g.heap[h].hash[i]) && MarkedV(g, g.heap[h].hash[i].val)
    ensures ValuesDone(g0, g, h, i + 1, a)
  {
    hide ClearStep, MayClearValues, ValuesCut, AllMarked, Cleared, MarkedV, ValueCut, ValsMarked;
    ClearAt(g0, g1, a, h);
    NextValueCut(g0, g1, g, g0.heap[h], g1.heap[h], g.heap[h], i);
    ClearKept(g0, g1, g, h, a);
    ClearAdv(g1, g, a);
    ClearableStays(g1, g, a);
    SlotsStay(g1, g, h, a);
    NextClear(g1, g, h, i, a);
  }

  lemma NextKeyDone(g0: G, g1: G, g: G, h: Ref, i: nat, a: set<Ref>)
    requires KeysDone(g0, g1, h, i, a) && ClearStep(g1, g, a) && KeptTable(g1, g, h) && i < |g1.heap[h].hash|
    requires g.heap[h] == g1.heap[h].(hash := g1.heap[h].hash[i := g.heap[h].hash[i]])
    requires KeyCut(g1, g1.heap[h].hash[i], g.heap[h].hash[i]) && MarkedV(g, g.heap[h].hash[i].key)
    ensures KeysDone(g0, g, h, i + 1, a)
  {
    hide ClearStep, MayClearKeys, KeysCut, Cleared, MarkedV, KeyCut, KeysMarked;
    ClearAt(g0, g1, a, h);
    NextKeyCut(g0, g1, g, g0.heap[h], g1.heap[h], g.heap[h], i);
    ClearKept(g0, g1, g, h, a);
    ClearAdv(g1, g, a);
    ClearableStays(g1, g, a);
    NextClear(g1, g, h, i, a);
  }

  lemma KeysAreDone(g0: G, g: G, h: Ref, a: set<Ref>)
    requires KeptTable(g0, g, h) && KeysDone(g0, g, h, |g.heap[h].hash|, a)
    ensures ClearStep(g0, g, a) && AllKeysMarked(g, h) && KeysCut(g0, g0.heap[h], g.heap[h], |g0.heap[h].hash|)
  {
    hide ClearStep, MayClearKeys;
  }

  lemma CutSelf(g: G, o: Obj)
    requires o.Table?
    ensures KeysCut(g, o, o, 0) && ValuesCut(g, o, o, 0, 0)
  {
  }

  lemma CutNone(g: G)
    ensures KeysCutIn(g, g, {}) && ValuesCutIn(g, g, {})
  {
  }

  lemma MoreKeysCut(g0: G, g1: G, g: G, l: set<Ref>, h: Ref)
    requires KeysCutIn(g0, g1, l) && h in g1.heap && h !in l && h in g.heap && g.heap == g1.heap[h := g.heap[h]]
    requires forall v :: Cleared(g1, v) == Cleared(g0, v)
    requires g1.heap[h].Table? && KeysCut(g1, g1.heap[h], g.heap[h], |g1.heap[h].hash|)
    ensures KeysCutIn(g0, g, l + {h})
  {
    hide Cleared;
    assert KeysCut(g0, g0.heap[h], g.heap[h], |g0.heap[h].hash|);
    hide KeysCut;
  }

  lemma MoreValuesCut(g0: G, g1: G, g: G, l: set<Ref>, h: Ref)
    requires ValuesCutIn(g0, g1, l) && h in g1.heap && h !in l && h in g.heap && g.heap == g1.heap[h := g.heap[h]]
    requires forall v :: Cleared(g1, v) == Cleared(g0, v)
    requires g1.heap[h].Table? && ValuesCut(g1, g1.heap[h], g.heap[h], |g1.heap[h].arr|, |g1.heap[h].hash|)
    ensures ValuesCutIn(g0, g, l + {h})
  {
    hide Cleared;
    assert ValuesCut(g0, g0.heap[h], g.heap[h], |g0.heap[h].arr|, |g0.heap[h].hash|);
    hide ValuesCut;
  }

  // ---- the end of the atomic phase ----

  /** What the tables of the lists have been given. */
  ghost predicate AllValues(g: G, l: set<Ref>) { forall h :: h in l ==> ValuesMarked(g, h) }

  ghost predicate AllKeys(g: G, l: set<Ref>) { forall h :: h in l ==> AllKeysMarked(g, h) }

  lemma ListFacts(g: G, ph: Phase, s: Bounds, h: Ref)
    requires Marking(g, {}, ph, s) && (h in g.weak || h in g.allweak || h in g.ephemeron)
    ensures h in g.heap && g.heap[h].Table? && Marked(g, h)
  {
    Parts(g, {}, ph, s);
    hide Marking;
    assert InList(g, ph, h);
  }

  lemma KeysStay(g: G, g': G, h: Ref)
    requires Adv(g, g') && AllKeysMarked(g, h)
    ensures AllKeysMarked(g', h)
  {
    assert Shrunk(g.heap[h], g'.heap[h]);
    var hash := g.heap[h].hash;
    assert forall i :: 0 <= i < |hash| ==> EntryShrunk(hash[i], g'.heap[h].hash[i]);
  }

  lemma ListsStay(g: G, g': G, l: set<Ref>)
    requires Adv(g, g')
    ensures AllValues(g, l) ==> AllValues(g', l)
    ensures AllKeys(g, l) ==> AllKeys(g', l)
  {
    hide Adv, ValuesMarked, AllKeysMarked;
    forall h ensures (ValuesMarked(g, h) ==> ValuesMarked(g', h)) && (AllKeysMarked(g, h) ==> AllKeysMarked(g', h)) {
      if ValuesMarked(g, h) { ValuesStay(g, g', h); }
      if AllKeysMarked(g, h) { KeysStay(g, g', h); }
    }
  }

  lemma ClearAdv(g0: G, g: G, a: set<Ref>)
    requires ClearStep(g0, g, a)
    ensures Adv(g0, g) && OnlyStrings(g0, g) && g0.mark.Keys == g0.heap.Keys
    ensures g.gray == g0.gray && g.weak == g0.weak && g.allweak == g0.allweak && g.ephemeron == g0.ephemeron
    ensures g.twups == g0.twups
    ensures g.state == g0.state && forall r :: Marked(g0, r) ==> g.mark[r] == g0.mark[r]
  {
  }

  lemma IdleStays(g: G, g': G, a: set<Ref>)
    requires ClearStep(g, g', a) && Idle(g)
    ensures Idle(g')
  {
    hide ClearStep, Converged, Adv;
    ClearAdv(g, g', a);
    forall h | h in g'.ephemeron ensures Converged(g', h) { ConvergedStays(g, g', h); }
  }

  /** Everything a marked object refers to is marked. */
  ghost predicate RefsMarked(g: G, o: Obj) {
    match o
    case Str => true
    case Udata(mt, uv) => MarkedV(g, mt) && MarkedV(g, uv)
    case Closure(fs, us) => AllMarked(g, fs) &&
      forall i :: 0 <= i < |us| && us[i] < |g.ups| ==> MarkedV(g, UpValue(g, g.ups[us[i]]))
    case Table(_, mt, arr, hash) => MarkedV(g, mt) && AllMarked(g, arr) &&
      forall i :: 0 <= i < |hash| ==> EntryMarked(g, hash[i])
    case Thread(st) => AllMarked(g, st)
    case Proto(rs, cache) => AllMarked(g, rs) && MarkedV(g, cache)
  }

  /** The lists are as the atomic phase leaves them: nothing is gray by list, weak tables have been cleared. */
  ghost predicate AllClear(g: G) {
    g.gray == {} && g.state == InsideAtomic && AllValues(g, g.weak) && AllValues(g, g.allweak) &&
    AllKeys(g, g.allweak) &&
    AllKeys(g, g.ephemeron) && Idle(g) && forall r :: r in g.twups ==> Marked(g, r)
  }

  lemma StackMarked(g: G, s: Bounds, th: Ref)
    requires Marking(g, {}, Phase({}, true, s.lost), s) && AllClear(g) && th in g.heap && g.heap[th].Thread?
    requires Marked(g, th)
    ensures AllMarked(g, g.heap[th].stack)
  {
    assert Ok(g, Phase({}, true, s.lost), th);
  }

  lemma UpMarked(g: G, s: Bounds, i: nat)
    requires Marking(g, {}, Phase({}, true, s.lost), s) && AllClear(g) && i < |g.ups| && UpCovered(g, g.ups[i])
    ensures MarkedV(g, UpValue(g, g.ups[i]))
  {
    Parts(g, {}, Phase({}, true, s.lost), s);
    assert SlotOf(g, g.ups[i]);
    if g.ups[i].Open? && Marked(g, g.ups[i].th) {
      StackMarked(g, s, g.ups[i].th);
    }
  }

  /** The metatables that the collector did not look at have been marked all the same. */
  ghost predicate LostMarked(g: G, s: Bounds) {
    forall r :: r in s.lost && r in g.allweak && r in g.heap && g.heap[r].Table? ==> MarkedV(g, g.heap[r].tmt)
  }

  lemma TableMarked(g: G, s: Bounds, h: Ref)
    requires Marking(g, {}, Phase({}, true, s.lost), s) && AllClear(g) && LostMarked(g, s) && h in g.heap
    requires g.heap[h].Table? && IsGray(g, h)
    ensures RefsMarked(g, g.heap[h])
  {
    Parts(g, {}, Phase({}, true, s.lost), s);
    hide Marking;
    assert Ok(g, Phase({}, true, s.lost), h) && Settled(g, Phase({}, true, s.lost), h, g.heap[h]);
    var hash := g.heap[h].hash;
    forall i: nat | i < |hash| ensures EntryMarked(g, hash[i]) {
      if h in g.ephemeron && h !in g.allweak {
        assert AllKeysMarked(g, h) && Converged(g, h) && !ToMark(g, h, i);
        assert !Cleared(g, hash[i].key);
      } else if h in g.allweak {
        assert AllKeysMarked(g, h) && ValuesMarked(g, h);
      } else if h in g.weak {
        assert ValuesMarked(g, h);
      }
    }
    assert h in g.weak || h in g.allweak ==> ValuesMarked(g, h);
  }

  /** After the atomic phase no marked object refers to an unmarked one. */
  lemma AtomicClosed(g: G, s: Bounds, r: Ref)
    requires Marking(g, {}, Phase({}, true, s.lost), s) && AllClear(g) && LostMarked(g, s) && r in g.heap
    requires Marked(g, r)
    ensures RefsMarked(g, g.heap[r])
  {
    Parts(g, {}, Phase({}, true, s.lost), s);
    assert Ok(g, Phase({}, true, s.lost), r);
    hide Marking;
    if g.heap[r].Table? {
      if IsGray(g, r) {
        TableMarked(g, s, r);
      }
    } else if g.heap[r].Thread? {
      StackMarked(g, s, r);
    } else if g.heap[r].Closure? {
      var us := g.heap[r].upvals;
      forall i | 0 <= i < |us| && us[i] < |g.ups| ensures MarkedV(g, UpValue(g, g.ups[us[i]])) {
        UpMarked(g, s, us[i]);
      }
    }
  }

  /** What the sweep starts from: what is not dead is marked, and within the bound; and nothing dangles
      exactly if no metatable has been lost. */
  ghost predicate Flipped(g: G, s: Bounds) {
    Shape(g) && UpsOk(g, {}) && (Sound(g) <==> LostMarked(g, s)) && g.gray == {} &&
    forall r :: r in g.heap && !Dead(g, r) ==> Marked(g, r) && r in s.keep
  }

  /** Exchanging the whites turns the unmarked into the dead, and keeps everything sound unless a metatable has been
      lost. */
  lemma Flip(g: G, s: Bounds)
    requires Marking(g, {}, Phase({}, true, s.lost), s) && AllClear(g)
    requires Marked(g, g.main) && Marked(g, g.running) && MarkedV(g, g.registry) && AllMarked(g, g.mts)
    ensures Flipped(g.(white := !g.white), s)
    ensures forall r :: r in g.heap ==> (Dead(g.(white := !g.white), r) <==> IsWhite(g, r))
  {
    Parts(g, {}, Phase({}, true, s.lost), s);
    hide Marking, KeepSet, Tricolor, AllClear, Ok;
    var g' := g.(white := !g.white);
    forall r | r in g.heap ensures Dead(g', r) <==> IsWhite(g, r) {
      assert !Dead(g, r);
    }
    if LostMarked(g, s) {
      FlipSound(g, s);
    } else {
      FlipLost(g, s);
    }
    assert LostMarked(g', s) <==> LostMarked(g, s);
    FlipUps(g, s);
    GrayClear(g);
  }

  lemma FlipSound(g: G, s: Bounds)
    requires Marking(g, {}, Phase({}, true, s.lost), s) && AllClear(g) && LostMarked(g, s)
    requires Marked(g, g.main) && Marked(g, g.running) && MarkedV(g, g.registry) && AllMarked(g, g.mts)
    requires forall r :: r in g.heap ==> (Dead(g.(white := !g.white), r) <==> IsWhite(g, r))
    ensures Sound(g.(white := !g.white))
  {
    Parts(g, {}, Phase({}, true, s.lost), s);
    hide Marking, KeepSet, Tricolor, Lists, AllClear, Ok, LostMarked, RefsLive, RefsMarked;
    var g' := g.(white := !g.white);
    forall r | Allocated(g', r) ensures RefsLive(g', g'.heap[r]) {
      AtomicClosed(g, s, r);
      assert RefsLive(g, g.heap[r]) by { assert Allocated(g, r); }
      MarkedLive(g, g', g.heap[r]);
    }
  }

  lemma FlipLost(g: G, s: Bounds)
    requires Shape(g) && Lists(g, {}, Phase({}, true, s.lost)) && !LostMarked(g, s)
    requires forall r :: r in g.heap ==> (Dead(g.(white := !g.white), r) <==> IsWhite(g, r))
    ensures !Sound(g.(white := !g.white))
  {
    var g' := g.(white := !g.white);
    var r :| r in s.lost && r in g.allweak && r in g.heap && g.heap[r].Table? && !MarkedV(g, g.heap[r].tmt);
    assert InList(g, Phase({}, true, s.lost), r);
    assert Allocated(g', r);
    assert !Live(g', g.heap[r].tmt);
  }

  lemma GrayClear(g: G)
    requires AllClear(g)
    ensures g.gray == {} && g.state == InsideAtomic && forall r :: r in g.twups ==> Marked(g, r)
  {
  }

  lemma MarkedLive(g: G, g': G, o: Obj)
    requires RefsLive(g, o) && RefsMarked(g, o) && g' == g.(white := g'.white) && g.mark.Keys == g.heap.Keys
    ensures RefsLive(g', o)
  {
    assert forall v :: Live(g, v) && MarkedV(g, v) ==> Live(g', v);
    match o
    case Closure(_, us) =>
      forall i | 0 <= i < |us| ensures UpLive(g', us[i]) {
        assert UpLive(g, us[i]);
        assert UpValue(g', g'.ups[us[i]]) == UpValue(g, g.ups[us[i]]);
      }
    case Table(_, _, _, hash) =>
      forall i | 0 <= i < |hash|
        ensures EntryLive(g', hash[i])
      {
        assert EntryLive(g, hash[i]) && EntryMarked(g, hash[i]);
      }
    case _ =>
  }

  lemma FlipUps(g: G, s: Bounds)
    requires UpsOk(g, {}) && NoneDead(g) && AllClear(g)
    requires forall r :: r in g.heap ==> (Dead(g.(white := !g.white), r) <==> IsWhite(g, r))
    ensures UpsOk(g.(white := !g.white), {})
  {
    var g' := g.(white := !g.white);
    forall i | 0 <= i < |g'.ups| ensures SlotOf(g', g'.ups[i]) { assert SlotOf(g, g.ups[i]); }
    forall i | 0 <= i < |g'.ups| && g'.ups[i].Open? ensures Waiting(g', {}, g'.ups[i].th) {
      assert SlotOf(g, g.ups[i]) && Waiting(g, {}, g.ups[i].th);
    }
    forall r | r in g'.twups ensures Allocated(g', r) && g'.heap[r].Thread? {
      assert Allocated(g, r) && Marked(g, r);
    }
  }

  // ---- what the atomic phase does as a whole ----

  ghost predicate RootsMarked(g: G) {
    Marked(g, g.main) && Marked(g, g.running) && MarkedV(g, g.registry) && AllMarked(g, g.mts)
  }

  ghost predicate TwupsMarked(g: G) { forall r :: r in g.twups ==> Marked(g, r) }

  lemma RootFacts(g: G, ph: Phase, s: Bounds)
    requires Marking(g, {}, ph, s)
    ensures InS(s, Gc(g.running)) && InS(s, Gc(g.main)) && InS(s, g.registry) && AllInS(s, g.mts)
    ensures Live(g, Gc(g.running)) && Live(g, Gc(g.main)) && Live(g, g.registry) && AllLive(g, g.mts)
  {
  }

  lemma RootsStay(g: G, g': G)
    requires Adv(g, g')
    ensures RootsMarked(g) ==> RootsMarked(g')
    ensures TwupsMarked(g) ==> TwupsMarked(g')
    ensures forall v :: MarkedV(g, v) ==> MarkedV(g', v)
    ensures forall vs :: AllMarked(g, vs) ==> AllMarked(g', vs)
    ensures g'.state == g.state && g'.registry == g.registry && g'.mts == g.mts && g'.running == g.running
    ensures g'.main == g.main
  {
    hide Shrunk, SameUp;
  }

  /** Marking that a program cannot see. */
  ghost predicate Unseen(g0: G, g: G) {
    Adv(g0, g) && AllBuried(g0, g) && forall r :: r in g.allweak && r !in g0.allweak ==> FitsAllWeak(g, r)
  }

  lemma UnseenTrans(g0: G, g1: G, g2: G)
    requires Unseen(g0, g1) && Unseen(g1, g2)
    ensures Unseen(g0, g2)
  {
    hide Adv, AllBuried, FitsAllWeak;
    AdvTrans(g0, g1, g2);
    BuriedTrans(g0, g1, g2);
    FitsStay(g1, g2);
  }

  lemma TravUnseen(g0: G, g: G)
    requires Trav(g0, g)
    ensures Unseen(g0, g)
  {
  }

  lemma MarksUnseen(g0: G, g: G)
    requires MarksGrew(g0, g) && g0.mark.Keys == g0.heap.Keys
    ensures Unseen(g0, g)
  {
    GrewAdv(g0, g);
    BuriedSelf(g0, g);
  }

  lemma RemarksUnseen(g0: G, g: G)
    requires Remarks(g0, g)
    ensures Unseen(g0, g) && g.gray >= g0.gray
  {
    RemarksAdv(g0, g);
    BuriedSelf(g0, g);
  }

  lemma SavedUnseen(g: G, saved: set<Ref>)
    ensures Unseen(g, g.(gray := saved))
  {
    ShrunkSelf(g);
    BuriedSelf(g, g.(gray := saved));
  }

  /** Clearing. Every object loses only what its mode allows. */
  ghost predicate Fades(g0: G, g: G, a: set<Ref>) {
    Adv(g0, g) && OnlyStrings(g0, g) && AllFaded(g0, g, a) && g0.mark.Keys == g0.heap.Keys
  }

  /** The values of this table may be cleared, or need not be. */
  ghost predicate MayClearValues(g: G, h: Ref, a: set<Ref>) {
    h in g.heap && (SlotLapses(Treated(g.heap[h], h in a), true) || ValuesMarked(g, h))
  }

  /** The entries of this table may be cleared by their keys. */
  predicate MayClearKeys(g: G, h: Ref, a: set<Ref>) {
    h in g.heap && Lapses(Treated(g.heap[h], h in a), true, false)
  }

  ghost predicate ValuesClearable(g: G, l: set<Ref>, a: set<Ref>) { forall h :: h in l ==> MayClearValues(g, h, a) }

  ghost predicate KeysClearable(g: G, l: set<Ref>, a: set<Ref>) { forall h :: h in l ==> MayClearKeys(g, h, a) }

  /** The tables that may be in `allweak`. */
  ghost predicate AllFit(g: G, a: set<Ref>) { forall r :: r in g.allweak ==> r in a || FitsAllWeak(g, r) }

  lemma ClearableStays(g: G, g': G, a: set<Ref>)
    requires Adv(g, g')
    ensures forall h :: MayClearValues(g, h, a) ==> MayClearValues(g', h, a)
    ensures forall h :: MayClearKeys(g, h, a) ==> MayClearKeys(g', h, a)
  {
    hide Adv, ValuesMarked;
    forall h | h in g.heap
      ensures h in g'.heap && Treated(g'.heap[h], h in a) == Treated(g.heap[h], h in a)
      ensures ValuesMarked(g, h) ==> ValuesMarked(g', h)
    {
      AdvTreated(g, g', h, h in a);
      if ValuesMarked(g, h) { ValuesStay(g, g', h); }
    }
  }

  lemma AdvTreated(g: G, g': G, h: Ref, waits: bool)
    requires Adv(g, g') && h in g.heap
    ensures h in g'.heap && Treated(g'.heap[h], waits) == Treated(g.heap[h], waits)
  {
    assert Shrunk(g.heap[h], g'.heap[h]);
  }

  /** The lists that are going to be cleared may be. */
  lemma ListsClearable(g: G, ph: Phase, s: Bounds, a: set<Ref>)
    requires Marking(g, {}, ph, s) && AllFit(g, a)
    ensures ValuesClearable(g, g.weak, a) && ValuesClearable(g, g.allweak, a)
    ensures KeysClearable(g, g.ephemeron, a) && KeysClearable(g, g.allweak, a)
  {
    Parts(g, {}, ph, s);
    hide Marking, Shape, UpsOk, Sound, NoneDead, Tricolor, KeepSet, Within, ValuesMarked;
    assert forall r :: r in g.weak || r in g.ephemeron || r in g.allweak ==> InList(g, ph, r);
  }

  lemma FadesTrans(g0: G, g1: G, g2: G, a: set<Ref>)
    requires Fades(g0, g1, a) && Fades(g1, g2, a)
    ensures Fades(g0, g2, a)
  {
    hide Adv, OnlyStrings, AllFaded;
    AdvTrans(g0, g1, g2);
    StringsAcross(g0, g1, g2);
    AllFadedTrans(g0, g1, g2, a);
  }

  lemma FadesSelf(g: G, a: set<Ref>)
    requires g.mark.Keys == g.heap.Keys
    ensures Fades(g, g, a)
  {
    ShrunkSelf(g);
    SelfFaded(g, g, a);
  }

  /** Clearing one table is such a step. */
  lemma ClearFades(g: G, g': G, a: set<Ref>)
    requires ClearStep(g, g', a)
    ensures Fades(g, g', a)
  {
  }

  /** So is a second convergence, which marks only strings. */
  lemma TravFades(g: G, g': G, a: set<Ref>)
    requires Trav(g, g') && OnlyStrings(g, g') && g.mark.Keys == g.heap.Keys
    ensures Fades(g, g', a)
  {
    hide Adv, OnlyStrings, AllBuried;
    BuriedAllFaded(g, g', a);
  }

  /** The keys of weak-value tables are marked, even where the values are not. */
  ghost predicate KeysKept(g0: G, g: G, a: set<Ref>) {
    forall r, i: nat :: WeakValueAt(g0, r, a, i) && Marked(g, r) ==> MarkedV(g, g0.heap[r].hash[i].key)
  }

  predicate WeakValueAt(g: G, r: Ref, a: set<Ref>, i: nat) {
    r in g.heap && r !in a && g.heap[r].Table? && g.heap[r].mode == WeakValue && i < |g.heap[r].hash| &&
    g.heap[r].hash[i].val != Nil
  }

  lemma KeysAreMarked(g: G, s: Bounds, a: set<Ref>)
    requires Marking(g, {}, Phase({}, true, s.lost), s) && g.gray == {} && g.state == InsideAtomic && AllFit(g, a)
    ensures KeysKept(g, g, a)
  {
    var ph := Phase({}, true, s.lost);
    Parts(g, {}, ph, s);
    hide Marking, Shape, UpsOk, Sound, NoneDead, KeepSet, Within;
    forall r, i: nat | WeakValueAt(g, r, a, i) && Marked(g, r) ensures MarkedV(g, g.heap[r].hash[i].key) {
      assert Ok(g, ph, r);
      if IsBlack(g, r) { assert EntryMarked(g, g.heap[r].hash[i]); }
    }
  }

  lemma KeysStillKept(g0: G, g1: G, g2: G, a: set<Ref>)
    requires AllBuried(g0, g1) && KeysKept(g1, g1, a) && Adv(g1, g2) && OnlyStrings(g1, g2)
    requires g1.mark.Keys == g1.heap.Keys
    ensures KeysKept(g0, g2.(white := !g2.white), a)
  {
    hide Adv, OnlyStrings;
    forall r, i: nat | WeakValueAt(g0, r, a, i) && Marked(g2, r) ensures MarkedV(g2, g0.heap[r].hash[i].key) {
      assert Buried(g0.heap[r], g1.heap[r]) && EntryBuried(g0.heap[r].hash[i], g1.heap[r].hash[i]);
      assert WeakValueAt(g1, r, a, i);
      TableWasMarked(g1, g2, r);
    }
  }

  lemma TableWasMarked(g1: G, g2: G, r: Ref)
    requires Adv(g1, g2) && OnlyStrings(g1, g2) && r in g1.heap && !g1.heap[r].Str? && g1.mark.Keys == g1.heap.Keys
    requires Marked(g2, r)
    ensures Marked(g1, r) && forall v :: MarkedV(g1, v) ==> MarkedV(g2, v)
  {
  }

  /** What `atomic` does to the heap, from its start to the exchange of the whites: a value disappears from a table
      only if the mode of the table lets it, because it or its key is dead; a are the tables that had to wait. */
  ghost predicate Forgets(g0: G, g: G, a: set<Ref>) {
    g.heap.Keys == g0.heap.Keys && g.mark.Keys == g0.mark.Keys && g.white == !g0.white && |g.ups| == |g0.ups| &&
    g.allgc == g0.allgc && g.rem == g0.rem && g.fixed == g0.fixed && g.main == g0.main && g.running == g0.running &&
    g.registry == g0.registry && g.mts == g0.mts &&
    (forall i :: 0 <= i < |g.ups| ==> SameUp(g0.ups[i], g.ups[i])) &&
    (forall r :: r in g.heap ==> (Dead(g, r) <==> IsWhite(g, r)) && (Marked(g0, r) ==> Marked(g, r))) &&
    AllFaded(g0, g, a) && KeysKept(g0, g, a)
  }

  lemma AtomicForgets(g0: G, g1: G, g2: G, a: set<Ref>)
    requires g0.state == Atomic && Unseen(g0.(state := InsideAtomic), g1) && Fades(g1, g2, a) && KeysKept(g1, g1, a)
    requires forall r :: r in g2.heap ==> (Dead(g2.(white := !g2.white), r) <==> IsWhite(g2, r))
    ensures Forgets(g0, g2.(white := !g2.white), a)
  {
    hide AllBuried, AllFaded, OnlyStrings, Shrunk, SameUp, UpTouched, KeysKept;
    var g' := g2.(white := !g2.white);
    var gs := g0.(state := InsideAtomic);
    UnseenAll(gs, g1, g2, a);
    AdvTrans(gs, g1, g2);
    AtomicKeysKept(g0, g1, g2, a);
    hide Unseen, Fades;
    FadedFlip(g0, g2, a);
  }

  lemma AtomicKeysKept(g0: G, g1: G, g2: G, a: set<Ref>)
    requires Unseen(g0.(state := InsideAtomic), g1) && Fades(g1, g2, a) && KeysKept(g1, g1, a)
    ensures KeysKept(g0, g2.(white := !g2.white), a)
  {
    hide Adv, OnlyStrings, Buried, KeysKept, AllFaded;
    assert AllBuried(g0, g1);
    KeysStillKept(g0, g1, g2, a);
  }

  lemma FadedFlip(g0: G, g2: G, a: set<Ref>)
    requires AllFaded(g0.(state := InsideAtomic), g2, a)
    ensures AllFaded(g0, g2.(white := !g2.white), a)
  {
    hide ObjFaded, Treated;
    var g' := g2.(white := !g2.white);
    forall v ensures Cleared(g', v) == Cleared(g2, v) {}
    forall r | r in g0.heap ensures ObjFaded(g', Treated(g0.heap[r], r in a), g0.heap[r], g'.heap[r]) {
      SameFaded(g2, g', Treated(g0.heap[r], r in a), g0.heap[r], g'.heap[r]);
    }
  }

  lemma SameFaded(g: G, g': G, m: Mode, o: Obj, o': Obj)
    requires ObjFaded(g, m, o, o') && forall v :: Cleared(g', v) == Cleared(g, v)
    ensures ObjFaded(g', m, o, o')
  {
    hide Cleared;
    if o.Table? {
      forall i | 0 <= i < |o.hash| ensures EntryFaded(g', m, o.hash[i], o'.hash[i]) {
        assert EntryFaded(g, m, o.hash[i], o'.hash[i]);
      }
    }
  }

  lemma UnseenAll(g0: G, g1: G, g2: G, a: set<Ref>)
    requires Unseen(g0, g1) && Fades(g1, g2, a)
    ensures AllFaded(g0, g2, a)
  {
    hide Buried, ObjFaded, Adv, OnlyStrings, Treated;
    forall r | r in g0.heap ensures ObjFaded(g2, Treated(g0.heap[r], r in a), g0.heap[r], g2.heap[r]) {
      var m := Treated(g0.heap[r], r in a);
      BuriedFaded(g2, m, g0.heap[r], g1.heap[r]);
      FadedTreated(g2, m, g0.heap[r], g1.heap[r], r in a);
      ObjFadedTrans(g2, g2, m, g0.heap[r], g1.heap[r], g2.heap[r]);
    }
  }

  // ---- the course of clearing ----

  /** Two rounds of clearing: what holds between the calls. */
  ghost predicate Clearing(g0: G, g: G, s: Bounds, a: set<Ref>) {
    Marking(g, {}, Phase({}, true, s.lost), s) && g.gray == {} && g.state == InsideAtomic && Fades(g0, g, a) &&
    Idle(g) &&
    RootsMarked(g) && TwupsMarked(g) && AllFit(g, a)
  }

  /** Clearing goes on: lists stay, marks and clearings stay. */
  ghost predicate ClearMore(g0: G, g: G) {
    Adv(g0, g) && g.weak == g0.weak && g.allweak == g0.allweak && g.ephemeron == g0.ephemeron && g.state == g0.state
  }

  lemma MoreSelf(g: G)
    ensures ClearMore(g, g)
  {
    ShrunkSelf(g);
  }

  lemma MoreTrans(g0: G, g1: G, g2: G)
    requires ClearMore(g0, g1) && ClearMore(g1, g2)
    ensures ClearMore(g0, g2)
  {
    hide Adv;
    AdvTrans(g0, g1, g2);
  }

  lemma MoreLists(g0: G, g: G)
    requires ClearMore(g0, g)
    ensures g.weak == g0.weak && g.allweak == g0.allweak && g.ephemeron == g0.ephemeron
  {
  }

  lemma ClearFacts(g0: G, g: G, s: Bounds, a: set<Ref>, h: Ref)
    requires Clearing(g0, g, s, a) && (h in g.weak || h in g.allweak || h in g.ephemeron)
    ensures Marking(g, {}, Phase({}, true, s.lost), s) && h in g.heap && Marked(g, h) && g.heap[h].Table?
  {
    hide Marking;
    ListFacts(g, Phase({}, true, s.lost), s, h);
  }

  lemma ClearNext(g0: G, g1: G, g: G, s: Bounds, a: set<Ref>)
    requires Clearing(g0, g1, s, a) && ClearStep(g1, g, a) && Marking(g, {}, Phase({}, true, s.lost), s)
    ensures Clearing(g0, g, s, a) && ClearMore(g1, g)
  {
    hide Marking, ClearStep, Fades, Idle, RootsMarked, TwupsMarked, FitsAllWeak, Adv;
    ClearAdv(g1, g, a);
    ClearFades(g1, g, a);
    FadesTrans(g0, g1, g, a);
    IdleStays(g1, g, a);
    RootsStay(g1, g);
    FitsStay(g1, g);
  }

  lemma ListsKeep(g1: G, g: G, l: set<Ref>)
    requires ClearMore(g1, g)
    ensures (AllValues(g1, l) ==> AllValues(g, l)) && (AllKeys(g1, l) ==> AllKeys(g, l))
  {
    hide Adv;
    ListsStay(g1, g, l);
  }

  lemma OneDone(g: G, l: set<Ref>, h: Ref)
    ensures AllValues(g, l) && ValuesMarked(g, h) ==> AllValues(g, l + {h})
    ensures AllKeys(g, l) && AllKeysMarked(g, h) ==> AllKeys(g, l + {h})
  {
  }

  /** The tables of l outside todo have been cleared. */
  ghost predicate ValuesLoop(start: G, g0: G, g: G, s: Bounds, a: set<Ref>, l: set<Ref>, todo: set<Ref>) {
    todo <= l && l <= start.weak + start.allweak && Clearing(g0, g, s, a) && ClearMore(start, g) &&
    AllValues(g, l - todo) && ValuesClearable(g, l, a) && OnlyStrings(start, g) && start.mark.Keys == start.heap.Keys &&
    ValuesCutIn(start, g, l - todo)
  }

  lemma StartValues(g0: G, g: G, s: Bounds, a: set<Ref>, l: set<Ref>)
    requires Clearing(g0, g, s, a) && l <= g.weak + g.allweak && ValuesClearable(g, l, a)
    ensures ValuesLoop(g, g0, g, s, a, l, l)
  {
    hide Marking;
    KeysSame(g, {}, Phase({}, true, s.lost), s);
    hide Clearing, ValuesClearable, ValuesCutIn, ClearMore, NoneDead, ValuesMarked;
    MoreSelf(g);
    CutNone(g);
    assert l - l == {};
  }

  lemma ValuesLoopFacts(start: G, g0: G, g: G, s: Bounds, a: set<Ref>, l: set<Ref>, todo: set<Ref>, h: Ref)
    requires ValuesLoop(start, g0, g, s, a, l, todo) && h in todo
    ensures Marking(g, {}, Phase({}, true, s.lost), s) && h in g.heap && Marked(g, h) && g.heap[h].Table?
    ensures MayClearValues(g, h, a)
  {
    hide Clearing, MayClearValues, ClearMore, ValuesCutIn;
    MoreLists(start, g);
    ClearFacts(g0, g, s, a, h);
  }

  lemma NextValues(start: G, g0: G, g1: G, g: G, s: Bounds, a: set<Ref>, l: set<Ref>, todo: set<Ref>, h: Ref)
    requires ValuesLoop(start, g0, g1, s, a, l, todo) && h in todo && ClearStep(g1, g, a)
    requires Marking(g, {}, Phase({}, true, s.lost), s)
    requires h in g1.heap && g.heap == g1.heap[h := g.heap[h]] && ValuesMarked(g, h)
    requires g1.heap[h].Table? && ValuesCut(g1, g1.heap[h], g.heap[h], |g1.heap[h].arr|, |g1.heap[h].hash|)
    ensures ValuesLoop(start, g0, g, s, a, l, todo - {h})
  {
    hide Clearing, MayClearValues, ClearMore, AllValues, ValuesMarked, ClearStep, Marking, ValuesCutIn, ValuesCut,
      OnlyStrings, Adv;
    MoreLists(start, g1);
    ClearNext(g0, g1, g, s, a);
    MoreTrans(start, g1, g);
    MoreAdv(start, g1);
    ClearAdv(g1, g, a);
    StringsAcross(start, g1, g);
    ClearableStays(g1, g, a);
    ListsKeep(g1, g, l - todo);
    OneDone(g, l - todo, h);
    forall v ensures Cleared(g1, v) == Cleared(start, v) { StringsCleared(start, g1, v); }
    MoreValuesCut(start, g1, g, l - todo, h);
    assert l - (todo - {h}) == l - todo + {h};
  }

  lemma MoreAdv(g0: G, g: G)
    requires ClearMore(g0, g)
    ensures Adv(g0, g)
  {
  }

  lemma EndValues(start: G, g0: G, g: G, s: Bounds, a: set<Ref>, l: set<Ref>)
    requires ValuesLoop(start, g0, g, s, a, l, {})
    ensures Clearing(g0, g, s, a) && ClearMore(start, g) && AllValues(g, l) && ValuesCutIn(start, g, l)
  {
    hide Clearing, ClearMore, AllValues, ValuesClearable, ValuesCutIn, OnlyStrings;
    assert l - {} == l;
  }

  /** The tables of l outside todo have been cleared. */
  ghost predicate KeysLoop(start: G, g0: G, g: G, s: Bounds, a: set<Ref>, l: set<Ref>, todo: set<Ref>) {
    todo <= l && l <= start.ephemeron + start.allweak && Clearing(g0, g, s, a) && ClearMore(start, g) &&
    AllKeys(g, l - todo) && KeysClearable(g, l, a) && OnlyStrings(start, g) && start.mark.Keys == start.heap.Keys &&
    KeysCutIn(start, g, l - todo)
  }

  lemma StartKeys(g0: G, g: G, s: Bounds, a: set<Ref>, l: set<Ref>)
    requires Clearing(g0, g, s, a) && l <= g.ephemeron + g.allweak && KeysClearable(g, l, a)
    ensures KeysLoop(g, g0, g, s, a, l, l)
  {
    hide Marking;
    KeysSame(g, {}, Phase({}, true, s.lost), s);
    hide Clearing, KeysClearable, KeysCutIn, ClearMore, NoneDead, AllKeysMarked, IsWhite, Marked;
    MoreSelf(g);
    CutNone(g);
    assert l - l == {};
  }

  lemma KeysLoopFacts(start: G, g0: G, g: G, s: Bounds, a: set<Ref>, l: set<Ref>, todo: set<Ref>, h: Ref)
    requires KeysLoop(start, g0, g, s, a, l, todo) && h in todo
    ensures Marking(g, {}, Phase({}, true, s.lost), s) && h in g.heap && Marked(g, h) && g.heap[h].Table?
    ensures MayClearKeys(g, h, a)
  {
    hide Clearing, MayClearKeys, ClearMore, KeysCutIn;
    MoreLists(start, g);
    ClearFacts(g0, g, s, a, h);
  }

  lemma NextKeys(start: G, g0: G, g1: G, g: G, s: Bounds, a: set<Ref>, l: set<Ref>, todo: set<Ref>, h: Ref)
    requires KeysLoop(start, g0, g1, s, a, l, todo) && h in todo && ClearStep(g1, g, a)
    requires Marking(g, {}, Phase({}, true, s.lost), s)
    requires h in g1.heap && g.heap == g1.heap[h := g.heap[h]] && AllKeysMarked(g, h)
    requires g1.heap[h].Table? && KeysCut(g1, g1.heap[h], g.heap[h], |g1.heap[h].hash|)
    ensures KeysLoop(start, g0, g, s, a, l, todo - {h})
  {
    hide Clearing, MayClearKeys, ClearMore, AllKeys, AllKeysMarked, ClearStep, Marking, KeysCutIn, KeysCut,
      OnlyStrings, Adv;
    MoreLists(start, g1);
    ClearNext(g0, g1, g, s, a);
    MoreTrans(start, g1, g);
    MoreAdv(start, g1);
    ClearAdv(g1, g, a);
    StringsAcross(start, g1, g);
    ClearableStays(g1, g, a);
    ListsKeep(g1, g, l - todo);
    OneDone(g, l - todo, h);
    forall v ensures Cleared(g1, v) == Cleared(start, v) { StringsCleared(start, g1, v); }
    MoreKeysCut(start, g1, g, l - todo, h);
    assert l - (todo - {h}) == l - todo + {h};
  }

  lemma EndKeys(start: G, g0: G, g: G, s: Bounds, a: set<Ref>, l: set<Ref>)
    requires KeysLoop(start, g0, g, s, a, l, {})
    ensures Clearing(g0, g, s, a) && ClearMore(start, g) && AllKeys(g, l) && KeysCutIn(start, g, l)
  {
    hide Clearing, ClearMore, AllKeys, KeysClearable, KeysCutIn, OnlyStrings;
    assert l - {} == l;
  }

  /** The first half of `atomic`: between its calls. */
  ghost predicate Gathering(start: G, g: G, ph: Phase, s: Bounds) {
    Marking(g, {}, ph, s) && Unseen(start, g) && ph.settling && g.state == InsideAtomic
  }

  lemma GatherMarks(start: G, g0: G, g: G, ph: Phase, s: Bounds)
    requires Gathering(start, g0, ph, s) && MarksGrew(g0, g) && Marking(g, {}, ph, s)
    ensures Gathering(start, g, ph, s) && Adv(g0, g)
  {
    KeysSame(g0, {}, ph, s);
    hide Marking, Unseen, MarksGrew, Adv, NoneDead;
    MarksUnseen(g0, g);
    UnseenTrans(start, g0, g);
    GrewAdv(g0, g);
    RootsStay(g0, g);
  }

  lemma GatherRemarks(start: G, g0: G, g: G, ph: Phase, s: Bounds)
    requires Gathering(start, g0, ph, s) && Remarks(g0, g) && Marking(g, {}, ph, s)
    ensures Gathering(start, g, ph, s) && Adv(g0, g)
  {
    hide Marking, Unseen, Remarks, Adv;
    RemarksUnseen(g0, g);
    UnseenTrans(start, g0, g);
    RemarksAdv(g0, g);
    RootsStay(g0, g);
  }

  lemma GatherTrav(start: G, g0: G, g: G, ph: Phase, s: Bounds)
    requires Gathering(start, g0, ph, s) && Trav(g0, g) && Marking(g, {}, ph, s)
    ensures Gathering(start, g, ph, s) && Adv(g0, g)
  {
    hide Marking, Unseen, Trav, Adv;
    TravUnseen(g0, g);
    UnseenTrans(start, g0, g);
    TravAdv(g0, g);
    RootsStay(g0, g);
  }

  lemma GatherSaved(start: G, g: G, saved: set<Ref>, s: Bounds)
    requires Gathering(start, g, Phase(saved, true, s.lost), s) && g.gray == {}
    ensures Gathering(start, g.(gray := saved), Phase({}, true, s.lost), s) && Adv(g, g.(gray := saved))
  {
    hide Marking, Unseen, Adv;
    TakeSaved(g, saved, s);
    SavedUnseen(g, saved);
    UnseenTrans(start, g, g.(gray := saved));
    ShrunkSelf(g);
    UnseenAdv(g, g.(gray := saved));
  }

  lemma UnseenAdv(g0: G, g: G)
    requires Unseen(g0, g)
    ensures Adv(g0, g)
  {
  }

  lemma GatherStart(g: G, s: Bounds)
    requires Marking(g, {}, Phase({}, true, s.lost), s) && g.state == Atomic
    ensures var g' := g.(state := InsideAtomic); Gathering(g', g', Phase(g.grayagain, true, s.lost), s)
  {
    hide Marking;
    EnterAtomic(g, s);
    ShrunkSelf(g.(state := InsideAtomic));
    BuriedSelf(g.(state := InsideAtomic), g.(state := InsideAtomic));
  }

  /** The second half begins: a are the tables that had to wait in `allweak` since before. */
  lemma ClearStart(start: G, g: G, s: Bounds, a: set<Ref>)
    requires Gathering(start, g, Phase({}, true, s.lost), s) && g.gray == {} && Idle(g) && RootsMarked(g)
    requires TwupsMarked(g) && AllFit(start, a)
    ensures Clearing(g, g, s, a)
  {
    KeysSame(g, {}, Phase({}, true, s.lost), s);
    hide Marking, Idle, RootsMarked, TwupsMarked, Adv, AllBuried, FitsAllWeak;
    FadesSelf(g, a);
    UnseenAdv(start, g);
    FitsStay(start, g);
  }

  /** Nothing has to wait but what had to before `atomic`. */
  lemma FitInside(g: G, a: set<Ref>)
    requires g.state == Atomic && AllFit(g, a)
    ensures AllFit(g.(state := InsideAtomic), a)
  {
    var g' := g.(state := InsideAtomic);
    assert forall v :: MarkedV(g, v) ==> MarkedV(g', v);
    forall r | r in g'.allweak && r !in a ensures FitsAllWeak(g', r) {
      assert FitsAllWeak(g, r);
      assert ValuesMarked(g, r) ==> ValuesMarked(g', r);
    }
  }

  lemma ClearFacts2(g0: G, g: G, s: Bounds, a: set<Ref>)
    requires Clearing(g0, g, s, a)
    ensures Marking(g, {}, Phase({}, true, s.lost), s) && g.gray == {} && g.state == InsideAtomic && Idle(g)
    ensures RootsMarked(g)
    ensures ValuesClearable(g, g.weak, a) && ValuesClearable(g, g.allweak, a)
    ensures KeysClearable(g, g.ephemeron, a) && KeysClearable(g, g.allweak, a)
  {
    ListsClearable(g, Phase({}, true, s.lost), s, a);
  }

  /** The second convergence marks nothing but strings. */
  lemma ClearConverge(g0: G, g1: G, g: G, s: Bounds, a: set<Ref>)
    requires Clearing(g0, g1, s, a) && Trav(g1, g) && OnlyStrings(g1, g) && Marking(g, {}, Phase({}, true, s.lost), s)
    requires g.gray == {} && Idle(g)
    ensures Clearing(g0, g, s, a) && Adv(g1, g)
  {
    KeysSame(g1, {}, Phase({}, true, s.lost), s);
    hide Marking, Idle, Fades, RootsMarked, TwupsMarked, Adv, OnlyStrings, NoneDead, AllFit;
    TravFades(g1, g, a);
    FadesTrans(g0, g1, g, a);
    TravAdv(g1, g);
    RootsStay(g1, g);
    FitMore(g1, g, a);
  }

  lemma FitMore(g1: G, g: G, a: set<Ref>)
    requires Trav(g1, g) && AllFit(g1, a)
    ensures AllFit(g, a)
  {
    hide Adv, AllBuried, FitsAllWeak;
    FitsStay(g1, g);
  }

  /** Old and new members of the lists have been cleared. */
  lemma AllIsClear(g0: G, g: G, s: Bounds, a: set<Ref>, w: set<Ref>, l: set<Ref>)
    requires Clearing(g0, g, s, a) && AllValues(g, w) && AllValues(g, g.weak - w) && AllValues(g, l)
    requires AllValues(g, g.allweak - l)
    requires AllKeys(g, g.allweak) && AllKeys(g, g.ephemeron)
    ensures AllClear(g)
  {
    hide Marking, Fades, ValuesMarked, AllKeysMarked;
  }

  lemma GatherFacts(start: G, g: G, ph: Phase, s: Bounds)
    requires Gathering(start, g, ph, s)
    ensures Marking(g, {}, ph, s) && ph.settling && g.state == InsideAtomic
    ensures Live(g, Gc(g.running)) && InS(s, Gc(g.running)) && Live(g, g.registry) && InS(s, g.registry)
    ensures AllLive(g, g.mts) && AllInS(s, g.mts)
  {
    RootFacts(g, ph, s);
  }

  lemma ClearablePart(g: G, l: set<Ref>, w: set<Ref>, a: set<Ref>)
    requires ValuesClearable(g, l, a)
    ensures ValuesClearable(g, l - w, a)
  {
    hide MayClearValues;
  }

  lemma AtomicEnd(g0: G, g1: G, g2: G, s: Bounds, a: set<Ref>)
    requires g0.state == Atomic && Gathering(g0.(state := InsideAtomic), g1, Phase({}, true, s.lost), s)
    requires g1.gray == {} && Clearing(g1, g1, s, a) && Clearing(g1, g2, s, a) && AllClear(g2)
    ensures var g := g2.(white := !g2.white); Flipped(g, s) && g.state == InsideAtomic && Forgets(g0, g, a)
  {
    hide Marking, Unseen, Fades, AllClear, Forgets, KeysKept, AllFit;
    Flip(g2, s);
    KeysAreMarked(g1, s, a);
    AtomicForgets(g0, g1, g2, a);
  }
}
