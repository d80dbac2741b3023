/** The collector's steps of marking in detail: what each loop knows, and what each visit answers for. */
module GcTraverse {
  import opened GcState
  import opened GcMark

  /** Between two objects of `reallymarkobject`. */
  ghost predicate MarkHead(g0: G, g: G, o0: Ref, o: Ref, from: set<Ref>, skip: set<Ref>, ph: Phase, s: Bounds) {
    from !! skip && MarkInv(g, skip + from, ph) && Bound(g, s) && MarksGrew(g0, g) &&
    IsWhite(g, o) && o in s.keep && (o == o0 || Marked(g, o0)) && Await(g, from, o) &&
    Whites(g) <= Whites(g0) && (o == o0 || Whites(g) < Whites(g0))
  }

  /** After it. */
  ghost predicate MarkTail(g0: G, g: G, o0: Ref, skip: set<Ref>, ph: Phase, s: Bounds) {
    MarkInv(g, skip, ph) && Bound(g, s) && MarksGrew(g0, g) && Marked(g, o0) && Whites(g) < Whites(g0)
  }

  lemma Start(g: G, o: Ref, skip: set<Ref>, ph: Phase, s: Bounds)
    requires MarkInv(g, skip, ph) && Bound(g, s) && IsWhite(g, o) && o in s.keep
    ensures MarkHead(g, g, o, o, {}, skip, ph, s)
  {
    hide MarkInv, Bound;
    assert skip + {} == skip;
  }

  lemma HeadFacts(g0: G, g: G, o0: Ref, o: Ref, from: set<Ref>, skip: set<Ref>, ph: Phase, s: Bounds)
    requires MarkHead(g0, g, o0, o, from, skip, ph, s)
    ensures o in g.heap && o in g.mark
  {
    InvHeap(g, skip + from, ph);
  }

  lemma StringStep(g0: G, g: G, o0: Ref, o: Ref, from: set<Ref>, skip: set<Ref>, ph: Phase, s: Bounds)
    requires MarkHead(g0, g, o0, o, from, skip, ph, s) && o in g.heap && g.heap[o].Str?
    ensures MarkTail(g0, g.(mark := g.mark[o := Black]), o0, skip, ph, s)
  {
    hide MarkInv, Bound, MarksGrew, Adv, Whites, Await;
    InvHeap(g, skip + from, ph);
    StringMarked(g, o, from, skip, ph);
    MarkBound(g, o, Black, {}, s);
    var g' := g.(mark := g.mark[o := Black]);
    assert g' == g.(mark := g.mark[o := Black], gray := g.gray + {});
    GrewTrans(g0, g, g');
  }

  lemma OtherStep(g0: G, g: G, o0: Ref, o: Ref, from: set<Ref>, skip: set<Ref>, ph: Phase, s: Bounds)
    requires MarkHead(g0, g, o0, o, from, skip, ph, s) && o in g.heap && !g.heap[o].Str? && !g.heap[o].Udata?
    ensures MarkTail(g0, g.(mark := g.mark[o := Gray], gray := g.gray + {o}), o0, skip, ph, s)
  {
    hide MarkInv, Bound, MarksGrew, Adv, Whites, Await;
    InvHeap(g, skip + from, ph);
    ObjectListed(g, o, from, skip, ph);
    MarkBound(g, o, Gray, {o}, s);
    GrewTrans(g0, g, g.(mark := g.mark[o := Gray], gray := g.gray + {o}));
  }

  /** The metatable of the userdata may now be marked. */
  lemma UdataStep(g0: G, g: G, o0: Ref, o: Ref, from: set<Ref>, skip: set<Ref>, ph: Phase, s: Bounds)
    requires MarkHead(g0, g, o0, o, from, skip, ph, s) && o in g.heap && g.heap[o].Udata?
    ensures var g' := g.(mark := g.mark[o := Gray]);
            MarkInv(g', skip + {o}, ph) && Bound(g', s) && Whites(g') < Whites(g) && Whites(g') < Whites(g0) &&
            InS(s, g.heap[o].mt) && InS(s, g.heap[o].uv)
  {
    hide MarkInv, Bound, MarksGrew, Adv, Whites, Await;
    InvHeap(g, skip + from, ph);
    UdataHeld(g, o, from, skip, ph);
    MarkBound(g, o, Gray, {}, s);
    KeepsUdata(g, o, s);
    var g' := g.(mark := g.mark[o := Gray]);
    assert g' == g.(mark := g.mark[o := Gray], gray := g.gray + {});
  }

  lemma UdataDone(g0: G, g1: G, g2: G, g: G, o0: Ref, o: Ref, from: set<Ref>, skip: set<Ref>, ph: Phase, s: Bounds)
    requires MarkHead(g0, g1, o0, o, from, skip, ph, s) && o in g1.heap && g1.heap[o].Udata?
    requires g2 == g1.(mark := g1.mark[o := Gray]) && MarksGrew(g2, g) && MarkInv(g, skip + {o}, ph) && Bound(g, s)
    requires g1.heap[o].mt.Gc? ==> Marked(g, g1.heap[o].mt.r) || !IsWhite(g2, g1.heap[o].mt.r)
    requires InS(s, g1.heap[o].uv)
    ensures var g' := g.(mark := g.mark[o := Black]); var uv := g1.heap[o].uv;
            g.heap == g1.heap && Whites(g') < Whites(g1) &&
            if uv.Gc? && IsWhite(g', uv.r) then MarkHead(g0, g', o0, uv.r, {o}, skip, ph, s)
              else MarkTail(g0, g', o0, skip, ph, s)
  {
    hide Bound, Adv, Await, MarkInv, Whites, MarksGrew;
    WhiteUnskipped(g1, skip + from, ph, o);
    InvHeap(g1, skip + from, ph);
    InvHeap(g, skip + {o}, ph);
    UdataRefs(g1, g2, g, skip + from, ph, o);
    WhitesUdata(g0, g1, g2, g, o);
    UdataGrew(g1, g, o);
    var g' := g.(mark := g.mark[o := Black]);
    GrewTrans(g0, g1, g');
    UdataEnd(g, o, skip, ph, s);
    MarkedNow(g1, g', o0, o);
  }

  lemma UdataEnd(g: G, o: Ref, skip: set<Ref>, ph: Phase, s: Bounds)
    requires MarkInv(g, skip + {o}, ph) && Bound(g, s) && o !in skip && o in s.keep && o in g.heap && Marked(g, o)
    requires g.heap[o].Udata?
    requires MarkedV(g, g.heap[o].mt)
    ensures var g' := g.(mark := g.mark[o := Black]); var uv := g.heap[o].uv;
            MarkInv(g', skip + {o}, ph) && Bound(g', s) && Whites(g') == Whites(g) &&
            (MarkedV(g', uv) ==> MarkInv(g', skip, ph)) &&
            (uv.Gc? ==> Await(g', {o}, uv.r))
  {
    hide Bound, Adv, Await, MarkInv, Whites;
    InvHeap(g, skip + {o}, ph);
    UdataMarked(g, o, skip, ph);
    MarkBound(g, o, Black, {}, s);
    var g' := g.(mark := g.mark[o := Black]);
    assert g' == g.(mark := g.mark[o := Black], gray := g.gray + {});
    if g.heap[o].uv.Gc? {
      AwaitOne(g', o, g.heap[o].uv.r);
    }
  }

  lemma SelfGrew(g: G)
    ensures MarksGrew(g, g)
  {
  }

  lemma InvHeap(g: G, skip: set<Ref>, ph: Phase)
    requires MarkInv(g, skip, ph)
    ensures g.mark.Keys == g.heap.Keys
  {
  }

  lemma WhiteUnskipped(g: G, skip: set<Ref>, ph: Phase, o: Ref)
    requires MarkInv(g, skip, ph) && IsWhite(g, o)
    ensures o !in skip
  {
  }

  lemma MarkedNow(g1: G, g: G, o0: Ref, o: Ref)
    requires MarksGrew(g1, g) && (o == o0 || Marked(g1, o0)) && Marked(g, o)
    ensures Marked(g, o0)
  {
  }

  lemma AwaitOne(g: G, p: Ref, o: Ref)
    requires p in g.heap && IsBlack(g, p) && g.heap[p].Udata? && MarkedV(g, g.heap[p].mt) && g.heap[p].uv == Gc(o)
    ensures Await(g, {p}, o)
  {
  }

  lemma WhitesUdata(g0: G, g1: G, g2: G, g: G, o: Ref)
    requires IsWhite(g1, o) && g2 == g1.(mark := g1.mark[o := Gray]) && MarksGrew(g2, g) && Whites(g1) <= Whites(g0)
    ensures Whites(g) < Whites(g1) && Whites(g) < Whites(g0)
  {
    GrewWhites(g2, g);
    assert o in Whites(g1) && o !in Whites(g2);
    assert Whites(g2) <= Whites(g1);
  }

  /** References of a heap object are in the heap. */
  lemma UdataRefs(g1: G, g2: G, g: G, skip: set<Ref>, ph: Phase, o: Ref)
    requires MarkInv(g1, skip, ph) && g2 == g1.(mark := g1.mark[o := Gray]) && MarksGrew(g2, g)
    requires IsWhite(g1, o) && o in g1.heap && g1.heap[o].Udata? && o !in skip
    requires g1.heap[o].mt.Gc? ==> Marked(g, g1.heap[o].mt.r) || !IsWhite(g2, g1.heap[o].mt.r)
    ensures g.heap == g1.heap && Marked(g, o) && MarkedV(g, g1.heap[o].mt) && Live(g1, g1.heap[o].uv)
  {
    assert Allocated(g1, o) && RefsLive(g1, g1.heap[o]);
  }

  /** A new mark inside s stays inside. */
  lemma MarkBound(g: G, o: Ref, c: Color, l: set<Ref>, s: Bounds)
    requires Bound(g, s) && o in s.keep && o in g.heap && o in g.mark && !c.White? && l <= {o}
    requires g.mark.Keys == g.heap.Keys
    ensures Bound(g.(mark := g.mark[o := c], gray := g.gray + l), s)
  {
    hide KeepSet, Shrunk;
    var g' := g.(mark := g.mark[o := c], gray := g.gray + l);
    ShrunkSelf(g);
    assert Adv(g, g');
    BoundGrows(g, g', s);
  }

  lemma KeysSame(g: G, skip: set<Ref>, ph: Phase, s: Bounds)
    requires Marking(g, skip, ph, s)
    ensures g.mark.Keys == g.heap.Keys && NoneDead(g)
  {
  }

  lemma StillLive(g0: G, g: G, v: Value, skip: set<Ref>, ph: Phase, s: Bounds)
    requires MarksGrew(g0, g) && Live(g0, v) && Marking(g, skip, ph, s)
    ensures Live(g, v) && IsString(g, v) == IsString(g0, v)
  {
  }

  lemma StillMarked(g0: G, g: G, vs: seq<Value>)
    requires MarksGrew(g0, g) && AllMarked(g0, vs)
    ensures AllMarked(g, vs)
  {
  }

  lemma EntryShrinks(o: Obj, o': Obj)
    requires o.Table? && o'.Table? && o' == o.(hash := o'.hash) && |o'.hash| == |o.hash|
    requires forall i :: 0 <= i < |o.hash| ==> EntryBuried(o.hash[i], o'.hash[i])
    ensures Buried(o, o') && Shrunk(o, o')
  {
    BuriedShrunk(o, o');
  }

  lemma DigsBury(g: G, h: Ref, o: Obj)
    requires h in g.heap && Buried(g.heap[h], o)
    ensures Digs(g, g.(heap := g.heap[h := o]))
  {
    var g' := g.(heap := g.heap[h := o]);
    BuriedSelf(g, g);
    hide Buried;
    assert AllBuried(g, g');
    SelfGrew(g');
    assert g.(heap := g'.heap, ups := g'.ups) == g';
  }

  /** A string is marked on its own. */
  lemma StringAlone(g: G, o: Ref, skip: set<Ref>, ph: Phase, s: Bounds)
    requires Marking(g, skip, ph, s) && IsWhite(g, o) && o in g.heap && g.heap[o].Str? && o in s.keep
    ensures var g' := g.(mark := g.mark[o := Black]); Marking(g', skip, ph, s) && MarksGrew(g, g') && OnlyStrings(g, g')
  {
    hide MarkInv, Bound, MarksGrew;
    InvHeap(g, skip, ph);
    assert skip + {} == skip;
    StringMarked(g, o, {}, skip, ph);
    MarkBound(g, o, Black, {}, s);
    var g' := g.(mark := g.mark[o := Black]);
    assert g' == g.(mark := g.mark[o := Black], gray := g.gray + {});
  }

  lemma NoEntries(g: G, h: Ref)
    requires h in g.heap && g.heap[h].Table?
    ensures EntriesMarked(g, h, 0) && KeysMarked(g, h, 0)
  {
  }

  lemma EmptyMarked(g: G, vs: seq<Value>)
    requires vs == []
    ensures AllMarked(g, vs)
  {
  }

  lemma AllStay(g0: G, g: G, vs: seq<Value>)
    requires forall v :: MarkedV(g0, v) ==> MarkedV(g, v)
    ensures AllMarked(g0, vs) ==> AllMarked(g, vs)
  {
  }

  /** An entry with a value: what may be marked of it. */
  lemma EntryValues(g: G, h: Ref, i: nat, skip: set<Ref>, ph: Phase, s: Bounds)
    requires Marking(g, skip, ph, s) && h in g.heap && Marked(g, h) && g.heap[h].Table? && i < |g.heap[h].hash|
    requires g.heap[h].hash[i].val != Nil
    ensures var e := g.heap[h].hash[i]; var mode := g.heap[h].mode;
            Live(g, e.key) && Live(g, e.val) && (IsString(g, e.key) ==> InS(s, e.key)) &&
            (IsString(g, e.val) ==> InS(s, e.val)) &&
            (mode == Strong || mode == WeakValue ==> InS(s, e.key)) && (mode == Strong ==> InS(s, e.val)) &&
            (mode == Ephemeron && InS(s, e.key) ==> InS(s, e.val))
  {
    hide Marking;
    EntryFacts(g, h, i, skip, ph, s);
  }

  lemma TwoMarks(g0: G, g1: G, g: G, v: Value)
    requires MarksGrew(g0, g1) && MarksGrew(g1, g) && MarkedV(g1, v)
    ensures Digs(g0, g) && MarkedV(g, v)
  {
    hide Digs;
    GrewTrans(g0, g1, g);
    DigsMarks(g0, g);
  }

  lemma DigsState(g0: G, g: G)
    requires Digs(g0, g)
    ensures g.state == g0.state && g.ephemeron == g0.ephemeron && g0.gray <= g.gray
  {
  }

  // ---- ephemerons ----

  lemma ArrayStart(g: G, h: Ref, skip: set<Ref>, ph: Phase, s: Bounds)
    requires Marking(g, skip, ph, s) && h in g.heap && g.heap[h].Table?
    ensures MarksGrew(g, g) && AllMarked(g, g.heap[h].arr[..0])
  {
    SelfGrew(g);
  }

  lemma ArrayWhite(g: G, h: Ref, i: nat)
    requires h in g.heap && g.heap[h].Table? && i < |g.heap[h].arr| && g.heap[h].arr[i].Gc?
    requires IsWhite(g, g.heap[h].arr[i].r)
    ensures !Converged(g, h)
  {
    assert !MarkedV(g, g.heap[h].arr[i]);
  }

  lemma NextValue(g0: G, g1: G, g: G, h: Ref, i: nat, skip: set<Ref>, ph: Phase, s: Bounds)
    requires MarksGrew(g0, g1) && MarksGrew(g1, g) && h in g1.heap && g1.heap[h].Table? && i < |g1.heap[h].arr|
    requires AllMarked(g1, g1.heap[h].arr[..i]) && MarkedV(g, g1.heap[h].arr[i]) && AllLive(g1, g1.heap[h].arr)
    requires Marking(g, skip, ph, s)
    ensures MarksGrew(g0, g) && g.heap == g1.heap && AllMarked(g, g.heap[h].arr[..i + 1]) && AllLive(g, g.heap[h].arr)
  {
    hide Marking;
    GrewTrans(g0, g1, g);
    var vs := g.heap[h].arr;
    var n := i + 1;
    var done := vs[..n];
    forall j | 0 <= j < n ensures MarkedV(g, done[j]) {
      if j < i { assert vs[..i][j] == vs[j]; }
    }
    forall j | 0 <= j < |vs| ensures Live(g, vs[j]) {
      StillLive(g1, g, vs[j], skip, ph, s);
    }
  }

  lemma HashStart(g0: G, g: G, h: Ref, skip: set<Ref>, ph: Phase, s: Bounds)
    requires MarksGrew(g0, g) && Marking(g, skip, ph, s) && h in g.heap && h in g0.heap && g0.heap[h].Table?
    requires Marked(g0, h)
    requires AllMarked(g, g.heap[h].arr[..|g.heap[h].arr|])
    ensures Digs(g0, g) && SameTable(g0, g, h) && AllMarked(g, g.heap[h].arr) && EntriesMarked(g, h, 0)
    ensures ConvergedTo(g, h, 0) && WhiteDone(g0, g, h, 0, false)
    ensures g == g0 ==> OnlyStrings(g0, g)
  {
    DigsMarks(g0, g);
    DigsSame(g0, g, h);
    assert g.heap[h].arr[..|g.heap[h].arr|] == g.heap[h].arr;
  }

  lemma NoStrings(g0: G, g: G)
    requires g.mark == g0.mark
    ensures OnlyStrings(g0, g) && Whites(g) == Whites(g0)
  {
  }

  lemma WasWhite(g0: G, g: G, r: Ref)
    requires MarksGrew(g0, g) && IsWhite(g, r)
    ensures IsWhite(g0, r)
  {
  }

  lemma TwoSteps(g0: G, g1: G, g: G, v: Value)
    requires MarksGrew(g0, g1) && MarksGrew(g1, g)
    ensures Digs(g0, g) && (MarkedV(g1, v) ==> MarkedV(g, v)) && Whites(g) <= Whites(g1) <= Whites(g0)
    ensures g.heap == g0.heap
    ensures g == g1 && OnlyStrings(g0, g1) ==> OnlyStrings(g0, g)
  {
    GrewTrans(g0, g1, g);
    DigsMarks(g0, g);
    GrewWhites(g0, g1);
    GrewWhites(g1, g);
  }

  /** The first i entries of an ephemeron table have been traversed. */
  ghost predicate EphemeronDone(g0: G, g: G, h: Ref, i: nat, marked: bool, hasClears: bool) {
    Digs(g0, g) && SameTable(g0, g, h) && i <= |g.heap[h].hash| && AllMarked(g, g.heap[h].arr) &&
    (!hasClears ==> EntriesMarked(g, h, i)) &&
    (marked ==> Whites(g) < Whites(g0) && !Converged(g0, h)) &&
    (!marked ==> OnlyStrings(g0, g) && ConvergedTo(g, h, i))
  }

  /** Whether one of them has an unmarked value that waits for its key. */
  ghost predicate WhiteDone(g0: G, g: G, h: Ref, i: nat, hasWW: bool) {
    if hasWW then Risky(g0, h) else ValsMarked(g, h, i)
  }

  lemma NextEphemeron(g0: G, g1: G, g: G, h: Ref, i: nat, marked: bool, hasClears: bool, c: bool, m: bool)
    requires EphemeronDone(g0, g1, h, i, marked, hasClears) && Digs(g1, g) && i < |g1.heap[h].hash|
    requires g0.mark.Keys == g0.heap.Keys && g1.mark.Keys == g1.heap.Keys && SameTable(g1, g, h)
    requires !c ==> EntryMarked(g, g.heap[h].hash[i])
    requires m ==> Whites(g) < Whites(g1) && ToMark(g1, h, i)
    requires !m ==> OnlyStrings(g1, g) && !ToMark(g, h, i)
    ensures EphemeronDone(g0, g, h, i + 1, marked || m, hasClears || c)
  {
    hide Digs, Whites, OnlyStrings, AllMarked, EntriesMarked, ConvergedTo, Converged;
    DigsTrans(g0, g1, g);
    DigsSame(g0, g, h);
    DigsSame(g1, g, h);
    AllStay(g1, g, g1.heap[h].arr);
    NextEntry(g1, g, h, i);
    DigsAdv(g0, g1);
    DigsAdv(g1, g);
    if m && !marked {
      NotConverged(g0, g1, h, i);
    }
    if !m && !marked {
      StringsTrans(g0, g1, g);
      NextConverged(g1, g, h, i);
    }
  }

  lemma NextWhite(g0: G, g1: G, g: G, h: Ref, i: nat, hasWW: bool, ww: bool)
    requires Digs(g0, g1) && Digs(g1, g) && SameTable(g1, g, h) && i < |g1.heap[h].hash|
    requires g1.heap[h].mode == Ephemeron && WhiteDone(g0, g1, h, i, hasWW)
    requires if ww then WhiteBoth(g1, g1.heap[h].hash[i]) else MarkedV(g, g.heap[h].hash[i].val)
    ensures WhiteDone(g0, g, h, i + 1, hasWW || ww)
  {
    hide Digs, WhiteBoth, Cleared;
    if !hasWW {
      if ww {
        assert Risky(g1, h);
        DigsTrav(g0, g1);
        RiskyBefore(g0, g1, h);
      } else {
        DigsKeeps(g1, g, h);
        assert forall j :: 0 <= j < i ==> EntryBuried(g1.heap[h].hash[j], g.heap[h].hash[j]);
      }
    }
  }

  /** Marking only takes risks away. */
  lemma RiskyBefore(g0: G, g: G, h: Ref)
    requires Trav(g0, g)
    ensures Risky(g, h) ==> Risky(g0, h)
  {
    hide Adv, AllBuried;
    if Risky(g, h) {
      ClearedBefore(g0, g);
      assert h in g0.heap && Buried(g0.heap[h], g.heap[h]) by { TravAt(g0, g, h); }
      var hash0, hash := g0.heap[h].hash, g.heap[h].hash;
      assert forall i :: 0 <= i < |hash| ==> EntryBuried(hash0[i], hash[i]);
      if g.heap[h].mode == WeakValue && g.heap[h].arr == [] {
        var i: nat :| i < |hash| && Cleared(g, hash[i].val);
        assert Cleared(g0, hash0[i].val);
      } else if g.heap[h].mode == Ephemeron {
        var i: nat :| i < |hash| && WhiteBoth(g, hash[i]);
        assert WhiteBoth(g0, hash0[i]);
      }
    }
  }

  lemma TravAt(g0: G, g: G, h: Ref)
    requires Trav(g0, g) && h in g.heap
    ensures h in g0.heap && Buried(g0.heap[h], g.heap[h])
  {
  }

  lemma ClearedBefore(g0: G, g: G)
    requires Trav(g0, g)
    ensures forall v :: Cleared(g, v) ==> Cleared(g0, v)
    ensures forall r :: IsWhite(g, r) ==> IsWhite(g0, r)
  {
    forall v | Cleared(g, v) ensures Cleared(g0, v) {
      if v.r in g0.heap { assert Buried(g0.heap[v.r], g.heap[v.r]); }
    }
  }

  // ---- which list a table goes to ----

  ghost predicate NewAreGray(g0: G, g: G) {
    forall r :: r in g.heap && g.heap[r].Table? && IsWhite(g0, r) && Marked(g, r) ==> r in g.gray
  }

  /** What the traversal of h does to the lists: only h is linked into `weak` or `ephemeron`, only if it was risky,
      and after propagation in any case if it still is. */
  ghost predicate Visited(g0: G, g: G, h: Ref) {
    g0.gray <= g.gray && NewAreGray(g0, g) && g0.weak <= g.weak <= g0.weak + {h} &&
    g0.ephemeron <= g.ephemeron <= g0.ephemeron + {h} &&
    (h in Listed(g) ==> h in Listed(g0) || Risky(g0, h)) && (g0.state != Propagate && Risky(g, h) ==> h in Listed(g))
  }

  lemma DigsNew(g0: G, g: G)
    requires Digs(g0, g)
    ensures g0.gray <= g.gray && NewAreGray(g0, g) && g.weak == g0.weak && g.ephemeron == g0.ephemeron
    ensures g.allweak == g0.allweak && g.grayagain == g0.grayagain && g.state == g0.state
  {
    hide AllBuried, AllTouched;
    var g1 := g0.(heap := g.heap, ups := g.ups);
    assert MarksGrew(g1, g);
  }

  /** A visit that links h to neither list. */
  lemma VisitPlain(g0: G, g1: G, g: G, h: Ref)
    requires Digs(g0, g1) && !Risky(g1, h)
    requires g == g1.(grayagain := g.grayagain, allweak := g.allweak, twups := g.twups)
    ensures Visited(g0, g, h)
  {
    hide Digs, Cleared;
    DigsNew(g0, g1);
    RiskySame(g1, g, h);
    assert h in Listed(g) ==> h in Listed(g0);
  }

  lemma RiskySame(g: G, g': G, h: Ref)
    requires g'.heap == g.heap && g'.mark == g.mark
    ensures Risky(g', h) == Risky(g, h)
  {
    assert forall v :: Cleared(g', v) == Cleared(g, v);
    assert forall e :: WhiteBoth(g', e) == WhiteBoth(g, e);
  }

  /** A visit that links h to one of them. */
  lemma VisitLinked(g0: G, g1: G, g: G, h: Ref)
    requires Digs(g0, g1) && Risky(g0, h) && g == g1.(weak := g.weak, ephemeron := g.ephemeron)
    requires (g.weak == g1.weak + {h} && g.ephemeron == g1.ephemeron) ||
             (g.weak == g1.weak && g.ephemeron == g1.ephemeron + {h})
    ensures Visited(g0, g, h)
  {
    hide Digs, Risky;
    DigsNew(g0, g1);
  }

  /** While propagating, a weak table is only kept to be traversed again. */
  lemma VisitAgain(g0: G, g1: G, g: G, h: Ref)
    requires Digs(g0, g1) && g0.state == Propagate && g == g1.(grayagain := g1.grayagain + {h})
    ensures Visited(g0, g, h)
  {
    hide Digs, Risky;
    DigsNew(g0, g1);
    assert h in Listed(g) ==> h in Listed(g0);
  }

  lemma VisitedGray(g0: G, g: G, h: Ref)
    requires Visited(g0, g, h)
    ensures g0.gray <= g.gray
  {
  }

  lemma DigsSelf(g: G)
    ensures Digs(g, g)
  {
    SelfGrew(g);
    DigsMarks(g, g);
  }

  /** No value of h is white. */
  lemma NoRisk(g: G, h: Ref)
    requires h in g.heap && g.heap[h].Table? && g.heap[h].mode == WeakValue && g.heap[h].arr == []
    requires EntriesMarked(g, h, |g.heap[h].hash|)
    ensures !Risky(g, h)
  {
    assert forall i: nat :: i < |g.heap[h].hash| ==> EntryMarked(g, g.heap[h].hash[i]);
  }

  lemma OnlyKeys(g: G, h: Ref)
    requires h in g.heap && g.heap[h].Table? && g.heap[h].mode == Ephemeron && AllMarked(g, g.heap[h].arr)
    requires ValsMarked(g, h, |g.heap[h].hash|)
    ensures !Risky(g, h) && ValuesMarked(g, h)
  {
  }

  lemma ArrayRisky(g: G, h: Ref)
    requires h in g.heap && g.heap[h].Table? && g.heap[h].mode == WeakValue && g.heap[h].arr != []
    ensures Risky(g, h)
  {
  }

  /** A value that may have to be cleared shows that the table was risky. */
  lemma ValueCleared(g0: G, g1: G, g2: G, h: Ref, i: nat)
    requires Digs(g0, g1) && MarksGrew(g1, g2) && SameTable(g0, g1, h) && g1.heap[h].mode == WeakValue
    requires i < |g1.heap[h].hash| && Cleared(g2, g1.heap[h].hash[i].val)
    ensures Risky(g0, h)
  {
    DigsMarks(g1, g2);
    DigsTrav(g1, g2);
    RiskyBefore(g1, g2, h) by { assert g2.heap == g1.heap; }
    DigsTrav(g0, g1);
    RiskyBefore(g0, g1, h);
  }

  /** Marking the metatable, and taking back the colour, do not matter. */
  lemma VisitLater(g0: G, g1: G, g2: G, g: G, h: Ref)
    requires Digs(g0, g1) && h in g1.heap && Marked(g0, h) && Marked(g1, h) && g2 == g1.(mark := g1.mark[h := Gray])
    requires Visited(g2, g, h) && Trav(g2, g)
    ensures Visited(g0, g, h)
  {
    hide Digs, Risky, Trav;
    DigsNew(g0, g1);
    DigsTrav(g0, g1);
    RecolorTrav(g1, h, Gray);
    RiskyBefore(g1, g2, h);
    RiskyBefore(g0, g1, h);
    forall r | r in g.heap && g.heap[r].Table? && IsWhite(g0, r) && Marked(g, r) ensures r in g.gray {
      TravAt(g2, g, r);
      assert g2.heap[r].Table?;
      if IsWhite(g1, r) {
        assert IsWhite(g2, r);
      } else {
        DigsTrav(g0, g1);
        TravMarks(g0, g1, r);
      }
    }
  }

  lemma TravMarks(g0: G, g: G, r: Ref)
    requires Trav(g0, g) && IsWhite(g0, r) && !IsWhite(g, r)
    ensures Marked(g, r)
  {
  }

  /** What has been linked after propagation, and what must have been. */
  ghost predicate Linkage(g0: G, g: G) {
    g0.weak <= g.weak && g0.ephemeron <= g.ephemeron &&
    (forall t :: t in Listed(g) ==> t in Listed(g0) || (ToVisit(g0, t) && Risky(g0, t))) &&
    (g0.state != Propagate ==>
       forall t :: ToVisit(g0, t) && Marked(g, t) && Risky(g, t) ==> t in g.gray || t in Listed(g))
  }

  predicate ToVisit(g: G, t: Ref) { t in g.gray || IsWhite(g, t) }

  /** Whether `weak` and `ephemeron` are empty when the atomic phase begins, as it asserts: they are if no table that
      has been visited was risky before, and are not if one is risky still. In between the order of the gray list
      decides. */
  lemma ListsAtAtomic(g0: G, g: G, ph: Phase, s: Bounds)
    requires Linkage(g0, g) && Marking(g, {}, ph, s) && Listed(g0) == {} && g.gray == {} && g0.state == Atomic
    ensures (forall t :: ToVisit(g0, t) && Marked(g, t) ==> !Risky(g0, t)) ==> Listed(g) == {}
    ensures Listed(g) == {} ==> forall t :: ToVisit(g0, t) && Marked(g, t) ==> !Risky(g, t)
  {
    Parts(g, {}, ph, s);
    hide Risky, Marking, Shape, UpsOk, Sound, NoneDead, Tricolor, KeepSet, Within;
    forall t | t in Listed(g) ensures ToVisit(g0, t) && Marked(g, t) && Risky(g0, t) { assert InList(g, ph, t); }
    assert Listed(g) == {} || exists t :: t in Listed(g);
  }

  lemma LinkageSelf(g: G)
    ensures Linkage(g, g)
  {
    hide Risky;
  }

  lemma LinkageTrans(g0: G, g1: G, g2: G)
    requires Linkage(g0, g1) && Linkage(g1, g2) && Trav(g0, g1) && Trav(g1, g2)
    ensures Linkage(g0, g2)
  {
    hide Risky, Trav;
    TravState(g0, g1);
    forall t ensures (Risky(g1, t) ==> Risky(g0, t)) && (Risky(g2, t) ==> Risky(g1, t)) {
      RiskyBefore(g0, g1, t);
      RiskyBefore(g1, g2, t);
    }
    forall t | ToVisit(g1, t) ensures ToVisit(g0, t) { StillToVisit(g0, g1, t); }
    forall t | ToVisit(g0, t) && Marked(g2, t) && Risky(g2, t) && g0.state != Propagate
      ensures t in g2.gray || t in Listed(g2)
    {
      VisitSplit(g0, g1, g2, t);
    }
  }

  lemma StillToVisit(g0: G, g: G, t: Ref)
    requires Trav(g0, g) && ToVisit(g, t)
    ensures ToVisit(g0, t)
  {
  }

  lemma VisitSplit(g0: G, g1: G, g2: G, t: Ref)
    requires Linkage(g0, g1) && Linkage(g1, g2) && Trav(g0, g1) && Trav(g1, g2) && g0.state != Propagate
    requires ToVisit(g0, t) && Marked(g2, t) && Risky(g2, t)
    ensures t in g2.gray || t in Listed(g2)
  {
    RiskyBefore(g1, g2, t);
    TravState(g0, g1);
    hide Risky;
    if !Marked(g1, t) { assert IsWhite(g1, t); }
  }

  /** One object has been popped and traversed. */
  lemma LinkOne(g0: G, g1: G, g: G, o: Ref)
    requires o in g0.gray && g1 == g0.(gray := g0.gray - {o}, mark := g0.mark[o := Black]) && IsGray(g0, o)
    requires Trav(g0, g1) && Visited(g1, g, o) && Trav(g1, g)
    ensures Linkage(g0, g)
  {
    hide Risky, Trav;
    forall t
      ensures (Risky(g1, t) ==> Risky(g0, t)) && (Risky(g, t) ==> Risky(g1, t) && t in g.heap && g.heap[t].Table?)
    {
      RiskyBefore(g0, g1, t);
      RiskyBefore(g1, g, t);
      RiskyTable(g, t);
    }
    assert forall t :: IsWhite(g0, t) ==> IsWhite(g1, t);
  }

  lemma RiskyTable(g: G, t: Ref)
    ensures Risky(g, t) ==> t in g.heap && g.heap[t].Table?
  {
  }

  lemma LinkConverged(g0: G, g1: G, g: G, h: Ref, marked: bool)
    requires g.heap == g1.heap && g.mark == g1.mark && h in g.heap && g.heap[h].Table?
    requires marked ==> Whites(g1) < Whites(g0)
    requires !marked ==> OnlyStrings(g0, g1) && AllMarked(g1, g1.heap[h].arr) && ConvergedTo(g1, h, |g1.heap[h].hash|)
    ensures marked ==> Whites(g) < Whites(g0)
    ensures !marked ==> OnlyStrings(g0, g) && Converged(g, h)
  {
    assert Whites(g) == Whites(g1);
    if !marked {
      forall i: nat | i < |g.heap[h].hash| ensures !ToMark(g, h, i) {
        assert !ToMark(g1, h, i);
        assert g.heap[h].hash[i] == g1.heap[h].hash[i];
        assert Cleared(g, g.heap[h].hash[i].key) == Cleared(g1, g.heap[h].hash[i].key);
      }
    }
  }

  // ---- the other traversals ----

  lemma GrewHeap(g0: G, g: G)
    requires MarksGrew(g0, g)
    ensures g.heap == g0.heap && g.ups == g0.ups && g.twups == g0.twups && g.state == g0.state
  {
  }

  lemma TravSelf(g: G)
    ensures Trav(g, g)
  {
    ShrunkSelf(g);
    BuriedSelf(g, g);
  }

  lemma TravState(g0: G, g: G)
    requires Trav(g0, g)
    ensures g.state == g0.state
  {
  }

  lemma RecolorTrav(g: G, h: Ref, c: Color)
    requires h in g.heap && Marked(g, h) && c == Gray
    ensures Trav(g, g.(mark := g.mark[h := c])) && Whites(g.(mark := g.mark[h := c])) == Whites(g)
  {
    ShrunkSelf(g);
    BuriedSelf(g, g.(mark := g.mark[h := c]));
    assert Whites(g.(mark := g.mark[h := c])) == Whites(g);
  }

  lemma AllWeakEarned(g: G, h: Ref, ph: Phase)
    requires h in g.heap && g.heap[h].Table? && g.heap[h].mode == AllWeak && IsGray(g, h) && MarkedV(g, g.heap[h].tmt)
    ensures Earned(g, h, ToAllWeak, ph)
  {
  }

  lemma StrongClosed(g0: G, g: G, h: Ref)
    requires SameTable(g0, g, h) && Digs(g0, g) && MarkedV(g0, g0.heap[h].tmt) && AllMarked(g, g.heap[h].arr)
    requires EntriesMarked(g, h, |g.heap[h].hash|)
    ensures BlackClosed(g, g.heap[h])
  {
    DigsSame(g0, g, h);
  }

  lemma DigsKeeps(g0: G, g: G, h: Ref)
    requires Digs(g0, g) && Marked(g0, h)
    ensures Marked(g, h) && g.mark[h] == g0.mark[h] && g.state == g0.state
    ensures forall v :: MarkedV(g0, v) ==> MarkedV(g, v)
    ensures Whites(g) <= Whites(g0)
  {
    DigsAdv(g0, g);
  }

  lemma NoUps(g: G)
    ensures UpsCovered(g, [])
  {
  }

  lemma ValueCovers(g0: G, g: G, u: nat)
    requires Digs(g0, g) && u < |g0.ups| && (g0.ups[u].Open? ==> g0.state == InsideAtomic)
    requires MarkedV(g, UpValue(g0, g0.ups[u]))
    ensures u < |g.ups| && UpCovered(g, g.ups[u])
  {
    DigsAdv(g0, g);
    UpValueSame(g0, g, u);
    assert UpTouched(g0.ups[u], g.ups[u]);
  }

  lemma NextUp(g0: G, g1: G, g: G, h: Ref, us: seq<nat>, i: nat)
    requires Digs(g0, g1) && Digs(g1, g) && IsBlack(g1, h) && h in g1.heap && g1.heap[h].Closure? && g.heap == g1.heap
    requires i < |us| && UpsCovered(g1, us[..i]) && (us[i] < |g.ups| ==> UpCovered(g, g.ups[us[i]]))
    ensures Digs(g0, g) && IsBlack(g, h) && (AllMarked(g1, g1.heap[h].fields) ==> AllMarked(g, g.heap[h].fields))
    ensures UpsCovered(g, us[..i + 1])
  {
    hide Digs, UpCovered;
    DigsTrans(g0, g1, g);
    DigsKeeps(g1, g, h);
    DigsCovers(g1, g);
    AllStay(g1, g, g.heap[h].fields);
    var n := i + 1;
    var done := us[..n];
    forall j | 0 <= j < n && done[j] < |g.ups| ensures UpCovered(g, g.ups[done[j]]) {
      if j < i { assert us[..i][j] == us[j] && UpCovered(g1, g1.ups[us[j]]); }
    }
  }

  lemma ClosureClosed(g: G, h: Ref)
    requires h in g.heap && g.heap[h].Closure? && AllMarked(g, g.heap[h].fields) && UpsCovered(g, g.heap[h].upvals)
    ensures BlackClosed(g, g.heap[h])
  {
  }

  lemma CacheFacts(g: G, h: Ref, skip: set<Ref>, ph: Phase, s: Bounds)
    requires Marking(g, skip, ph, s) && h in g.heap && Marked(g, h) && g.heap[h].Proto?
    ensures g.mark.Keys == g.heap.Keys && Live(g, g.heap[h].cache)
  {
    hide Marking;
    ObjectFacts(g, h, skip, ph, s);
  }

  lemma ProtoClosed(g0: G, g: G, h: Ref)
    requires h in g0.heap && g0.heap[h].Proto? && Marked(g0, h) && g.heap == g0.heap && AllMarked(g, g.heap[h].refs)
    requires MarkedV(g0, g0.heap[h].cache) && Digs(g0, g)
    ensures BlackClosed(g, g.heap[h])
  {
    DigsKeeps(g0, g, h);
  }

  /** A thread with upvalues goes back to `twups`. */
  lemma Relink(g: G, h: Ref, skip: set<Ref>, ph: Phase, s: Bounds)
    requires Marking(g, skip, ph, s) && h in g.heap && Marked(g, h) && g.heap[h].Thread?
    ensures Marking(g.(twups := g.twups + {h}), skip, ph, s) && Trav(g, g.(twups := g.twups + {h}))
  {
    hide Marking, Sound, Tricolor, KeepSet, Within, Shape, Lists, Ok, Shrunk, UpsOk;
    Parts(g, skip, ph, s);
    var g' := g.(twups := g.twups + {h});
    ShrunkSelf(g);
    BuriedSelf(g, g');
    assert Adv(g, g');
    CoversSimple(g, g');
    TwupsStay(g, h, skip);
    UpsGrow(g, g', skip, skip);
    assert Lists(g', skip, ph) by { ListsTwups(g, g', skip, ph); }
    Advance(g, g', skip, skip, ph, ph, s);
  }

  lemma TwupsStay(g: G, h: Ref, skip: set<Ref>)
    requires UpsOk(g, skip) && h in g.heap && Marked(g, h) && g.heap[h].Thread?
    ensures var g' := g.(twups := g.twups + {h}); forall r :: r in g'.twups ==> Allocated(g', r) && g'.heap[r].Thread?
  {
    assert forall r :: r in g.twups ==> Allocated(g, r);
  }

  lemma ListsTwups(g: G, g': G, skip: set<Ref>, ph: Phase)
    requires Lists(g, skip, ph) && g' == g.(twups := g'.twups)
    ensures Lists(g', skip, ph)
  {
    assert Todo(g', ph) == Todo(g, ph) && forall r :: InList(g', ph, r) <==> InList(g, ph, r);
  }

  lemma AgainTrav(g: G, h: Ref)
    ensures Trav(g, g.(grayagain := g.grayagain + {h}))
  {
    ShrunkSelf(g);
    BuriedSelf(g, g.(grayagain := g.grayagain + {h}));
  }

  lemma PopStep(g: G, o: Ref, skip: set<Ref>, ph: Phase, s: Bounds)
    requires Marking(g, skip, ph, s) && o in g.gray
    ensures o in g.heap && o in g.mark && IsGray(g, o) && !g.heap[o].Str? && !g.heap[o].Udata? && o !in skip
    ensures var g' := g.(gray := g.gray - {o}, mark := g.mark[o := Black]);
            Marking(g', skip + {o}, ph, s) && Trav(g, g')
  {
    Parts(g, skip, ph, s);
    hide Marking, Trav, Adv, Whites, Shape, UpsOk, Sound, NoneDead, Tricolor, KeepSet, Within, Shrunk;
    assert InList(g, ph, o);
    Hold(g, o, skip, ph, s);
    var g1 := g.(gray := g.gray - {o});
    Recolor(g1, o, Black, skip + {o}, ph, s);
    PopTrav(g, o);
  }

  lemma PopTrav(g: G, o: Ref)
    requires o in g.gray && Marked(g, o)
    ensures Trav(g, g.(gray := g.gray - {o}, mark := g.mark[o := Black]))
  {
    ShrunkSelf(g);
    BuriedSelf(g, g.(gray := g.gray - {o}, mark := g.mark[o := Black]));
  }
}
