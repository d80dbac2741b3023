/** Steps of marking, as relations on states, and why each keeps the tri-colour invariant. */
module GcMark {
  import opened GcState

  /** Only marks and the gray list have changed, and marks have only been added: strings and userdata
      are black at once, everything else waits in `gray`. */
  ghost predicate MarksGrew(g0: G, g: G) {
    g == g0.(mark := g.mark, gray := g.gray) && g.mark.Keys == g0.mark.Keys && g0.gray <= g.gray &&
    (forall r :: Marked(g0, r) ==> g.mark[r] == g0.mark[r]) &&
    (forall r :: IsWhite(g, r) ==> g.mark[r] == g0.mark[r]) &&
    (forall r :: r in g.gray && r !in g0.gray ==> IsWhite(g0, r) && IsGray(g, r)) &&
    (forall r :: r in g.heap && IsWhite(g0, r) && Marked(g, r) ==>
       if g.heap[r].Str? || g.heap[r].Udata? then IsBlack(g, r) else r in g.gray)
  }

  lemma GrewTrans(g0: G, g1: G, g2: G)
    requires MarksGrew(g0, g1) && MarksGrew(g1, g2)
    ensures MarksGrew(g0, g2)
  {
  }

  lemma GrewAdv(g0: G, g: G)
    requires MarksGrew(g0, g) && g0.mark.Keys == g0.heap.Keys
    ensures Adv(g0, g) && CoversKept(g0, g)
  {
    hide UpCovered;
    assert forall r :: r in g0.heap ==> Shrunk(g0.heap[r], g.heap[r]);
    assert Adv(g0, g);
    CoversSimple(g0, g);
  }

  lemma GrewWhites(g0: G, g: G)
    requires MarksGrew(g0, g)
    ensures Whites(g) <= Whites(g0)
    ensures g.mark != g0.mark ==> Whites(g) < Whites(g0)
  {
    assert forall r :: r in Whites(g) ==> r in Whites(g0);
    if g.mark != g0.mark {
      var r :| r in g.mark && g.mark[r] != g0.mark[r];
      assert r in Whites(g0) && r !in Whites(g);
    }
  }

  lemma MoreMarksLists(g: G, g': G, skip: set<Ref>, skip': set<Ref>, ph: Phase)
    requires Lists(g, skip, ph) && g.mark.Keys == g.heap.Keys && g'.mark.Keys == g.mark.Keys
    requires g' == g.(mark := g'.mark, gray := g'.gray) && g.gray <= g'.gray
    requires forall r :: Marked(g, r) ==> Marked(g', r)
    requires forall r :: Marked(g, r) && r !in skip ==> g'.mark[r] == g.mark[r]
    requires forall r :: r in g'.gray && r !in g.gray ==>
               IsWhite(g, r) && IsGray(g', r) && r !in skip' && !g.heap[r].Str? && !g.heap[r].Udata?
    requires forall r :: r in skip' && r !in skip ==> IsWhite(g, r) && Marked(g', r)
    ensures Lists(g', skip', ph)
  {
    forall r | InList(g', ph, r) ensures IsGray(g', r) {
      if r in g'.gray && r !in g.gray {
      } else {
        assert InList(g, ph, r) && IsGray(g, r) && r !in skip;
      }
    }
    forall r | r in g'.gray
      ensures r !in Todo(g', ph) && r !in g'.weak && r !in g'.allweak && r !in g'.ephemeron && r !in skip'
    {
      if r !in g.gray { assert !InList(g, ph, r); } else { assert InList(g, ph, r); }
    }
    forall r | r in skip' ensures r !in Todo(g', ph) && r !in g'.weak && r !in g'.allweak && r !in g'.ephemeron {
      if r !in skip { assert !InList(g, ph, r); }
    }
    assert Todo(g', ph) == Todo(g, ph);
  }

  /** A change of marks and of the gray list keeps the invariant if it answers for the objects it touches. */
  lemma MoreMarks(g: G, g': G, skip: set<Ref>, skip': set<Ref>, ph: Phase)
    requires MarkInv(g, skip, ph) && Adv(g, g') && g' == g.(mark := g'.mark, gray := g'.gray) && g.gray <= g'.gray
    requires forall r :: Marked(g, r) && r !in skip ==> g'.mark[r] == g.mark[r]
    requires forall r :: r in g'.gray && r !in g.gray ==>
               IsWhite(g, r) && IsGray(g', r) && r !in skip' && !g.heap[r].Str? && !g.heap[r].Udata?
    requires forall r :: r in skip' && r !in skip ==> IsWhite(g, r) && Marked(g', r) && !g.heap[r].Thread?
    requires forall r :: r in skip && r !in skip' ==> !g.heap[r].Thread?
    requires forall r :: IsWhite(g, r) && Marked(g', r) && g.heap[r].Thread? ==> r in g'.gray
    requires forall r :: r in g.heap && r !in skip' && (r in skip || g'.mark[r] != g.mark[r]) ==> Ok(g', ph, r)
    ensures MarkInv(g', skip', ph)
  {
    hide Ok, Sound, Shrunk;
    SoundGrows(g, g');
    CoversSimple(g, g');
    assert UpsOk(g', skip') by {
      forall i | 0 <= i < |g'.ups| && g'.ups[i].Open? ensures Waiting(g', skip', g'.ups[i].th) {
        assert SlotOf(g, g.ups[i]) && Waiting(g, skip, g.ups[i].th);
      }
    }
    MoreMarksLists(g, g', skip, skip', ph);
    TricolorGrows(g, g', skip, skip', ph, ph);
  }

  /** The userdata that o was reached from, through its value; o is still white. */
  ghost predicate Await(g: G, from: set<Ref>, o: Ref) {
    forall p :: p in from ==>
          p in g.heap && IsBlack(g, p) && g.heap[p].Udata? && MarkedV(g, g.heap[p].mt) && g.heap[p].uv == Gc(o)
  }

  /** One mark changes from white. */
  lemma OneMark(g: G, g': G, o: Ref, c: Color)
    requires IsWhite(g, o) && !c.White? && g' == g.(mark := g.mark[o := c], gray := g'.gray)
    requires g.gray <= g'.gray <= g.gray + {o}
    requires g.mark.Keys == g.heap.Keys
    ensures Adv(g, g') && Whites(g') < Whites(g)
  {
    assert forall r :: r in g.heap ==> Shrunk(g.heap[r], g'.heap[r]);
    assert o in Whites(g) && o !in Whites(g');
  }

  lemma AwaitOk(g: G, g': G, o: Ref, from: set<Ref>, ph: Phase)
    requires o in g'.mark && Await(g, from, o) && IsWhite(g, o) && !IsWhite(g', o)
    requires g' == g.(mark := g.mark[o := g'.mark[o]], gray := g'.gray)
    ensures forall p :: p in from ==> Ok(g', ph, p)
  {
  }

  /** A string turns black. */
  lemma StringMarked(g: G, o: Ref, from: set<Ref>, skip: set<Ref>, ph: Phase)
    requires from !! skip && MarkInv(g, skip + from, ph) && IsWhite(g, o) && g.heap[o].Str? && Await(g, from, o)
    ensures var g' := g.(mark := g.mark[o := Black]);
            MarkInv(g', skip, ph) && MarksGrew(g, g') && Whites(g') < Whites(g)
  {
    hide Sound, UpsOk, Tricolor, Lists;
    var g' := g.(mark := g.mark[o := Black]);
    OneMark(g, g', o, Black);
    AwaitOk(g, g', o, from, ph);
    assert Ok(g', ph, o);
    MoreMarks(g, g', skip + from, skip, ph);
  }

  /** A userdata is gray while its metatable is being marked. */
  lemma UdataHeld(g: G, o: Ref, from: set<Ref>, skip: set<Ref>, ph: Phase)
    requires from !! skip && MarkInv(g, skip + from, ph) && IsWhite(g, o) && g.heap[o].Udata? && Await(g, from, o)
    ensures var g' := g.(mark := g.mark[o := Gray]);
            MarkInv(g', skip + {o}, ph) && Adv(g, g') && Whites(g') < Whites(g) && o !in skip && o !in g.gray
  {
    hide Sound, UpsOk, Tricolor, Ok;
    var g' := g.(mark := g.mark[o := Gray]);
    OneMark(g, g', o, Gray);
    AwaitOk(g, g', o, from, ph);
    assert !InList(g, ph, o);
    MoreMarks(g, g', skip + from, skip + {o}, ph);
  }

  lemma UdataOk(g: G, o: Ref, ph: Phase)
    requires o in g.heap && IsBlack(g, o) && g.heap[o].Udata? && MarkedV(g, g.heap[o].mt) && MarkedV(g, g.heap[o].uv)
    ensures Ok(g, ph, o)
  {
  }

  /** Then it turns black, and stays skipped if its value still has to be marked. */
  lemma UdataMarked(g: G, o: Ref, skip: set<Ref>, ph: Phase)
    requires MarkInv(g, skip + {o}, ph) && o !in skip && o in g.heap && Marked(g, o) && g.heap[o].Udata?
    requires MarkedV(g, g.heap[o].mt)
    ensures var g' := g.(mark := g.mark[o := Black]);
            MarkInv(g', skip + {o}, ph) && Adv(g, g') && Whites(g') == Whites(g) &&
            (MarkedV(g', g.heap[o].uv) ==> MarkInv(g', skip, ph))
  {
    hide Sound, UpsOk, Tricolor, Lists, Ok;
    var g' := g.(mark := g.mark[o := Black]);
    assert forall r :: r in g.heap ==> Shrunk(g.heap[r], g'.heap[r]);
    assert Whites(g') == Whites(g);
    MoreMarks(g, g', skip + {o}, skip + {o}, ph);
    if MarkedV(g', g.heap[o].uv) {
      UdataOk(g', o, ph);
      MoreMarks(g, g', skip + {o}, skip, ph);
    }
  }

  /** Everything else waits in the gray list. */
  lemma ObjectListed(g: G, o: Ref, from: set<Ref>, skip: set<Ref>, ph: Phase)
    requires from !! skip && MarkInv(g, skip + from, ph) && IsWhite(g, o) && Await(g, from, o)
    requires !g.heap[o].Str? && !g.heap[o].Udata?
    ensures var g' := g.(mark := g.mark[o := Gray], gray := g.gray + {o});
            MarkInv(g', skip, ph) && MarksGrew(g, g') && Whites(g') < Whites(g)
  {
    hide Sound, UpsOk, Tricolor, Lists;
    var g' := g.(mark := g.mark[o := Gray], gray := g.gray + {o});
    OneMark(g, g', o, Gray);
    AwaitOk(g, g', o, from, ph);
    WhiteUnlisted(g, o, skip + from, ph);
    assert Ok(g', ph, o);
    MoreMarks(g, g', skip + from, skip, ph);
  }

  lemma WhiteUnlisted(g: G, o: Ref, skip: set<Ref>, ph: Phase)
    requires Lists(g, skip, ph) && IsWhite(g, o)
    ensures !InList(g, ph, o) && o !in skip
  {
  }

  /** Marking a userdata is marking it, then what its metatable leads to, then turning it black. */
  lemma UdataGrew(g0: G, g1: G, o: Ref)
    requires IsWhite(g0, o) && o in g0.heap && g0.heap[o].Udata? && MarksGrew(g0.(mark := g0.mark[o := Gray]), g1)
    ensures MarksGrew(g0, g1.(mark := g1.mark[o := Black]))
  {
  }

  lemma BoundGrows(g: G, g': G, s: Bounds)
    requires Adv(g, g') && Bound(g, s) && forall r :: IsWhite(g, r) && Marked(g', r) ==> r in s.keep
    ensures Bound(g', s)
  {
    hide KeepSet, Shrunk;
    KeepSetGrows(g, g', s);
  }

  lemma KeepsUdata(g: G, o: Ref, s: Bounds)
    requires Bound(g, s) && o in s.keep && o in g.heap && g.heap[o].Udata?
    ensures InS(s, g.heap[o].mt) && InS(s, g.heap[o].uv)
  {
  }

  /** The collector may always remove what Shrunk allows. */
  lemma ShrinkOne(g: G, h: Ref, o: Obj, skip: set<Ref>, ph: Phase, s: Bounds)
    requires Marking(g, skip, ph, s) && h in g.heap && Shrunk(g.heap[h], o)
    ensures var g' := g.(heap := g.heap[h := o]); Marking(g', skip, ph, s) && Adv(g, g')
  {
    hide Marking, Sound, Tricolor, KeepSet, Within, Shape, UpsOk, Lists, Ok, NoneDead;
    Parts(g, skip, ph, s);
    var g' := g.(heap := g.heap[h := o]);
    ShrinkAdv(g, h, o);
    TwupsSame(g, g', skip);
    UpsGrow(g, g', skip, skip);
    ShrinkLists(g, g', skip, ph);
    Advance(g, g', skip, skip, ph, ph, s);
  }

  lemma ShrinkAdv(g: G, h: Ref, o: Obj)
    requires h in g.heap && Shrunk(g.heap[h], o)
    ensures var g' := g.(heap := g.heap[h := o]); Adv(g, g') && CoversKept(g, g')
  {
    var g' := g.(heap := g.heap[h := o]);
    ShrunkSelf(g);
    assert Adv(g, g');
    CoversSimple(g, g');
  }

  lemma ShrinkLists(g: G, g': G, skip: set<Ref>, ph: Phase)
    requires Lists(g, skip, ph) && Adv(g, g') && g' == g.(heap := g'.heap)
    ensures Lists(g', skip, ph)
  {
    ShrinkKind(g, g');
    hide Shrunk;
    assert Todo(g', ph) == Todo(g, ph) && forall r :: InList(g', ph, r) <==> InList(g, ph, r);
  }

  lemma TwupsSame(g: G, g': G, skip: set<Ref>)
    requires UpsOk(g, skip) && Adv(g, g') && NoneDead(g) && g'.twups == g.twups
    ensures forall r :: r in g'.twups ==> Allocated(g', r) && g'.heap[r].Thread?
  {
    ThreadsSame(g, g');
    assert forall r :: r in g'.twups ==> Allocated(g, r) && g.heap[r].Thread?;
  }

  lemma ShrinkKind(g: G, g': G)
    requires Adv(g, g')
    ensures forall r :: r in g.heap ==>
                (g'.heap[r].Table? <==> g.heap[r].Table?) &&
                (g.heap[r].Table? ==> g'.heap[r].mode == g.heap[r].mode) && (g'.heap[r].Str? <==> g.heap[r].Str?)
    ensures forall r :: r in g.heap ==>
                (g'.heap[r].Udata? <==> g.heap[r].Udata?) && (g.heap[r].Thread? ==> g'.heap[r] == g.heap[r])
  {
    forall r | r in g.heap
      ensures (g'.heap[r].Table? <==> g.heap[r].Table?) && (g.heap[r].Table? ==> g'.heap[r].mode == g.heap[r].mode)
      ensures g'.heap[r].Str? <==> g.heap[r].Str?
      ensures (g'.heap[r].Udata? <==> g.heap[r].Udata?) && (g.heap[r].Thread? ==> g'.heap[r] == g.heap[r])
    {
      assert Shrunk(g.heap[r], g'.heap[r]);
    }
  }

  lemma ShrunkSelf(g: G)
    ensures forall r :: r in g.heap ==> Shrunk(g.heap[r], g.heap[r])
  {
  }

  // ---- traversals ----

  /** `removeentry`: the key of an empty entry may be made dead. */
  predicate EntryBuried(e: Entry, e': Entry) { e' == e || (e.val == Nil && e' == Entry(DeadKey, Nil)) }

  /** Marking removes nothing that a program can see: only keys of empty entries and cached closures. */
  ghost predicate Buried(o: Obj, o': Obj) {
    match o
    case Table(mode, mt, arr, hash) =>
      o'.Table? && o'.mode == mode && o'.tmt == mt && o'.arr == arr && |o'.hash| == |hash| &&
      forall i :: 0 <= i < |hash| ==> EntryBuried(hash[i], o'.hash[i])
    case _ => Shrunk(o, o')
  }

  ghost predicate AllBuried(g0: G, g: G) {
    g.heap.Keys == g0.heap.Keys && forall r :: r in g0.heap ==> Buried(g0.heap[r], g.heap[r])
  }

  predicate UpTouched(u: UpVal, u': UpVal) { u' == u || (u.Open? && u' == u.(touched := true)) }

  ghost predicate AllTouched(a: seq<UpVal>, b: seq<UpVal>) {
    |b| == |a| && forall i :: 0 <= i < |a| ==> UpTouched(a[i], b[i])
  }

  /** What a traversal does before it links its object: it marks, buries, and touches open upvalues. */
  ghost predicate Digs(g0: G, g: G) {
    AllBuried(g0, g) && AllTouched(g0.ups, g.ups) && MarksGrew(g0.(heap := g.heap, ups := g.ups), g)
  }

  lemma TouchedTrans(a: seq<UpVal>, b: seq<UpVal>, c: seq<UpVal>)
    requires AllTouched(a, b) && AllTouched(b, c)
    ensures AllTouched(a, c)
  {
    forall i | 0 <= i < |a| ensures UpTouched(a[i], c[i]) {
      assert UpTouched(a[i], b[i]) && UpTouched(b[i], c[i]);
    }
  }

  lemma DigsTrans(g0: G, g1: G, g2: G)
    requires Digs(g0, g1) && Digs(g1, g2)
    ensures Digs(g0, g2)
  {
    BuriedTrans(g0, g1, g2);
    TouchedTrans(g0.ups, g1.ups, g2.ups);
    hide Buried, AllBuried, AllTouched;
    forall r | r in g1.heap ensures Same(g1.heap[r], g2.heap[r]) { BuriedSame(g1, g2, r); }
  }

  predicate Same(o: Obj, o': Obj) { (o'.Str? <==> o.Str?) && (o'.Udata? <==> o.Udata?) }

  lemma BuriedSame(g: G, g': G, r: Ref)
    requires AllBuried(g, g') && r in g.heap
    ensures Same(g.heap[r], g'.heap[r])
  {
  }

  lemma BuriedTrans(g0: G, g1: G, g2: G)
    requires AllBuried(g0, g1) && AllBuried(g1, g2)
    ensures AllBuried(g0, g2)
  {
    forall r | r in g0.heap ensures Buried(g0.heap[r], g2.heap[r]) {
      assert Buried(g0.heap[r], g1.heap[r]) && Buried(g1.heap[r], g2.heap[r]);
      if g0.heap[r].Table? {
        forall i | 0 <= i < |g0.heap[r].hash| ensures EntryBuried(g0.heap[r].hash[i], g2.heap[r].hash[i]) {
          assert EntryBuried(g0.heap[r].hash[i], g1.heap[r].hash[i]) &&
            EntryBuried(g1.heap[r].hash[i], g2.heap[r].hash[i]);
        }
      }
    }
  }

  lemma BuriedSelf(g: G, g': G)
    requires g'.heap == g.heap
    ensures AllBuried(g, g')
  {
  }

  lemma DigsMarks(g0: G, g: G)
    requires MarksGrew(g0, g)
    ensures Digs(g0, g)
  {
    BuriedSelf(g0, g);
  }

  lemma BuriedShrunk(o: Obj, o': Obj)
    requires Buried(o, o')
    ensures Shrunk(o, o')
  {
    if o.Table? {
      forall i | 0 <= i < |o.hash| ensures EntryShrunk(o.hash[i], o'.hash[i]) {
        assert EntryBuried(o.hash[i], o'.hash[i]);
      }
    }
  }

  lemma DigsAdv(g0: G, g: G)
    requires Digs(g0, g)
    ensures Adv(g0, g) && Whites(g) <= Whites(g0) && (g.mark != g0.mark ==> Whites(g) < Whites(g0))
    ensures forall r :: Marked(g0, r) ==> g.mark[r] == g0.mark[r]
  {
    hide Buried, Shrunk;
    forall r | r in g0.heap ensures Shrunk(g0.heap[r], g.heap[r]) {
      assert Buried(g0.heap[r], g.heap[r]);
      BuriedShrunk(g0.heap[r], g.heap[r]);
    }
    forall i | 0 <= i < |g0.ups| ensures SameUp(g0.ups[i], g.ups[i]) {
      assert UpTouched(g0.ups[i], g.ups[i]);
    }
    hide AllTouched;
    GrewWhites(g0.(heap := g.heap, ups := g.ups), g);
  }

  /** What a traversal knows of its object: it is kept, and its references are there and, where they must be, kept. */
  lemma ObjectFacts(g: G, h: Ref, skip: set<Ref>, ph: Phase, s: Bounds)
    requires Marking(g, skip, ph, s) && h in g.heap && Marked(g, h)
    ensures h in s.keep && KeepsIn(g, s, h, g.heap[h]) && RefsLive(g, g.heap[h]) && g.mark.Keys == g.heap.Keys
    ensures NoneDead(g)
  {
    assert Allocated(g, h);
  }

  datatype Link = NoLink | ToAgain | ToWeak | ToAllWeak | ToEphemeron

  /** `linkgclist` of a gray object, or leaving a black one alone. */
  function Linked(g: G, h: Ref, l: Link): G {
    match l
    case NoLink => g
    case ToAgain => g.(grayagain := g.grayagain + {h})
    case ToWeak => g.(weak := g.weak + {h})
    case ToAllWeak => g.(allweak := g.allweak + {h})
    case ToEphemeron => g.(ephemeron := g.ephemeron + {h})
  }

  ghost predicate MayLink(g: G, h: Ref, l: Link, ph: Phase) {
    h in g.heap &&
    match l
    case NoLink => Marked(g, h)
    case ToAgain => IsGray(g, h) && (g.heap[h].Table? || g.heap[h].Thread?)
    case ToAllWeak => IsGray(g, h) && g.heap[h].Table?
    case ToWeak => IsGray(g, h) && g.heap[h].Table? && ph.settling && g.heap[h].mode == WeakValue
    case ToEphemeron => IsGray(g, h) && g.heap[h].Table? && ph.settling && g.heap[h].mode == Ephemeron
  }

  lemma LinkLists(g: G, h: Ref, l: Link, skip: set<Ref>, ph: Phase)
    requires Lists(g, skip, ph) && h in skip && MayLink(g, h, l, ph)
    ensures Lists(Linked(g, h, l), skip - {h}, ph)
  {
    var g' := Linked(g, h, l);
    forall r | InList(g', ph, r) ensures IsGray(g', r) {
      if r != h { assert InList(g, ph, r); } else { assert !InList(g, ph, r); }
    }
    assert !InList(g, ph, h);
  }

  /** A traversed object is let go, once the invariant holds at it. */
  lemma Release(g: G, h: Ref, l: Link, skip: set<Ref>, ph: Phase, s: Bounds)
    requires Marking(g, skip, ph, s) && h in skip && MayLink(g, h, l, ph) && Ok(Linked(g, h, l), ph, h)
    requires g.heap[h].Thread? && g.state == InsideAtomic ==> InTwups(g, h)
    ensures Marking(Linked(g, h, l), skip - {h}, ph, s) && Adv(g, Linked(g, h, l))
  {
    hide Marking, Sound, Tricolor, KeepSet, Within, Shape, UpsOk, Lists, Shrunk, Ok, NoneDead, Adv, CoversKept;
    Parts(g, skip, ph, s);
    var g' := Linked(g, h, l);
    LinkAdv(g, h, l);
    LinkLists(g, h, l, skip, ph);
    TwupsSame(g, g', skip);
    LinkUps(g, h, l, skip);
    Advance(g, g', skip, skip - {h}, ph, ph, s);
  }

  lemma LinkAdv(g: G, h: Ref, l: Link)
    ensures Adv(g, Linked(g, h, l)) && CoversKept(g, Linked(g, h, l))
  {
    ShrunkSelf(g);
    CoversSimple(g, Linked(g, h, l));
  }

  lemma LinkUps(g: G, h: Ref, l: Link, skip: set<Ref>)
    requires UpsOk(g, skip) && NoneDead(g) && h in g.heap
    requires g.heap[h].Thread? && g.state == InsideAtomic ==> InTwups(g, h)
    ensures UpsOk(Linked(g, h, l), skip - {h})
  {
    hide Adv, UpsOk, NoneDead;
    LinkAdv(g, h, l);
    TwupsSame(g, Linked(g, h, l), skip);
    UpsGrow(g, Linked(g, h, l), skip, skip - {h});
  }

  /** Colours of a held object do not matter. */
  lemma Recolor(g: G, h: Ref, c: Color, skip: set<Ref>, ph: Phase, s: Bounds)
    requires Marking(g, skip, ph, s) && h in skip && h in g.heap && !c.White?
    ensures var g' := g.(mark := g.mark[h := c]);
            Marking(g', skip, ph, s) && Adv(g, g') && Whites(g') == Whites(g)
  {
    hide Marking, Sound, Tricolor, KeepSet, Within, Shape, UpsOk, Lists, Shrunk, Ok, NoneDead, CoversKept;
    Parts(g, skip, ph, s);
    HeldMarked(g, h, skip, ph);
    var g' := g.(mark := g.mark[h := c]);
    ShrunkSelf(g);
    assert Adv(g, g') && Whites(g') == Whites(g);
    CoversSimple(g, g');
    TwupsSame(g, g', skip);
    UpsGrow(g, g', skip, skip);
    assert Lists(g', skip, ph) by { RecolorLists(g, h, c, skip, ph); }
    hide Adv;
    Advance(g, g', skip, skip, ph, ph, s);
  }

  lemma HeldMarked(g: G, h: Ref, skip: set<Ref>, ph: Phase)
    requires Lists(g, skip, ph) && h in skip
    ensures Marked(g, h)
  {
  }

  lemma RecolorLists(g: G, h: Ref, c: Color, skip: set<Ref>, ph: Phase)
    requires Lists(g, skip, ph) && h in skip && !c.White?
    ensures Lists(g.(mark := g.mark[h := c]), skip, ph)
  {
    var g' := g.(mark := g.mark[h := c]);
    assert Todo(g', ph) == Todo(g, ph);
    forall r | InList(g', ph, r) ensures IsGray(g', r) { assert InList(g, ph, r) && r != h; }
  }

  /** Taking an object out of the gray list to traverse it. */
  lemma Hold(g: G, h: Ref, skip: set<Ref>, ph: Phase, s: Bounds)
    requires Marking(g, skip, ph, s) && h in g.gray
    ensures var g' := g.(gray := g.gray - {h});
            Marking(g', skip + {h}, ph, s) && Adv(g, g') && h !in skip && h in g.heap && IsGray(g, h)
  {
    hide Marking, Sound, Tricolor, KeepSet, Within, Shape, UpsOk, Shrunk, Ok, NoneDead, Adv, CoversKept, Lists;
    Parts(g, skip, ph, s);
    var g' := g.(gray := g.gray - {h});
    HoldAdv(g, h);
    HoldLists(g, h, skip, ph);
    TwupsSame(g, g', skip);
    UpsGrow(g, g', skip, skip + {h});
    Advance(g, g', skip, skip + {h}, ph, ph, s);
  }

  lemma HoldAdv(g: G, h: Ref)
    ensures Adv(g, g.(gray := g.gray - {h})) && CoversKept(g, g.(gray := g.gray - {h}))
  {
    ShrunkSelf(g);
    CoversSimple(g, g.(gray := g.gray - {h}));
  }

  lemma HoldLists(g: G, h: Ref, skip: set<Ref>, ph: Phase)
    requires Lists(g, skip, ph) && h in g.gray
    ensures Lists(g.(gray := g.gray - {h}), skip + {h}, ph) && h !in skip && h in g.heap && IsGray(g, h)
  {
    assert InList(g, ph, h);
    assert forall r :: InList(g.(gray := g.gray - {h}), ph, r) ==> InList(g, ph, r);
  }

  /** `iscleared` without the marking. */
  predicate Cleared(g: G, v: Value) { v.Gc? && !IsString(g, v) && IsWhite(g, v.r) }

  /** Nothing but strings has been marked. */
  ghost predicate OnlyStrings(g0: G, g: G) {
    forall r :: IsWhite(g0, r) && Marked(g, r) ==> r in g0.heap && g0.heap[r].Str?
  }

  /** A table that a traversal after propagation links into `weak` or `ephemeron`: it has values that may have to be
      cleared, or a value that still waits for its key. */
  ghost predicate Risky(g: G, h: Ref) {
    h in g.heap && g.heap[h].Table? &&
    match g.heap[h].mode
    case WeakValue => g.heap[h].arr != [] || exists i: nat :: i < |g.heap[h].hash| && Cleared(g, g.heap[h].hash[i].val)
    case Ephemeron => exists i: nat :: i < |g.heap[h].hash| && WhiteBoth(g, g.heap[h].hash[i])
    case _ => false
  }

  predicate WhiteBoth(g: G, e: Entry) { Cleared(g, e.key) && e.val.Gc? && IsWhite(g, e.val.r) }

  /** The tables that wait to be cleared, or to be traversed once more, except all-weak ones. */
  function Listed(g: G): set<Ref> { g.weak + g.ephemeron }

  // ---- what a traversal needs to know of its object ----

  lemma ValuesFacts(g: G, h: Ref, vs: seq<Value>, skip: set<Ref>, ph: Phase, s: Bounds)
    requires Marking(g, skip, ph, s) && h in g.heap && Marked(g, h)
    requires match g.heap[h]
             case Closure(fs, _) => vs == fs
             case Thread(st) => vs == st
             case Proto(rs, _) => vs == rs
             case Table(mode, _, arr, _) => vs == arr && (mode == Strong || mode == Ephemeron)
             case _ => false
    ensures AllInS(s, vs) && AllLive(g, vs)
  {
    hide Marking;
    ObjectFacts(g, h, skip, ph, s);
    if g.heap[h].Table? {
      forall i | 0 <= i < |vs| ensures InS(s, vs[i]) {
        assert StrongOrString(g, s, false, vs[i]);
      }
    }
  }

  lemma EntryFacts(g: G, h: Ref, i: nat, skip: set<Ref>, ph: Phase, s: Bounds)
    requires Marking(g, skip, ph, s) && h in g.heap && Marked(g, h) && g.heap[h].Table? && i < |g.heap[h].hash|
    ensures EntryKeeps(g, s, g.heap[h].mode, g.heap[h].hash[i]) && EntryLive(g, g.heap[h].hash[i])
  {
    hide Marking;
    ObjectFacts(g, h, skip, ph, s);
  }

  lemma ArrayFacts(g: G, h: Ref, i: nat, skip: set<Ref>, ph: Phase, s: Bounds)
    requires Marking(g, skip, ph, s) && h in g.heap && Marked(g, h) && g.heap[h].Table? && i < |g.heap[h].arr|
    ensures StrongOrString(g, s, g.heap[h].mode == WeakValue || g.heap[h].mode == AllWeak, g.heap[h].arr[i])
    ensures Live(g, g.heap[h].arr[i])
  {
    hide Marking;
    ObjectFacts(g, h, skip, ph, s);
  }

  lemma UpFacts(g: G, h: Ref, i: nat, skip: set<Ref>, ph: Phase, s: Bounds)
    requires Marking(g, skip, ph, s) && h in g.heap && Marked(g, h) && g.heap[h].Closure? && i < |g.heap[h].upvals|
    ensures g.heap[h].upvals[i] < |g.ups|
    ensures InS(s, UpValue(g, g.ups[g.heap[h].upvals[i]])) && Live(g, UpValue(g, g.ups[g.heap[h].upvals[i]]))
    ensures var u := g.ups[g.heap[h].upvals[i]]; u.Open? && g.state != InsideAtomic ==> u.th in g.twups
  {
    UpIsLive(g, h, i, skip, ph, s);
    var u := g.ups[g.heap[h].upvals[i]];
    if u.Open? {
      assert SlotOf(g, u) && Waiting(g, skip, u.th) && !Dead(g, u.th);
    }
  }

  lemma UpIsLive(g: G, h: Ref, i: nat, skip: set<Ref>, ph: Phase, s: Bounds)
    requires Marking(g, skip, ph, s) && h in g.heap && Marked(g, h) && g.heap[h].Closure? && i < |g.heap[h].upvals|
    ensures g.heap[h].upvals[i] < |g.ups|
    ensures InS(s, UpValue(g, g.ups[g.heap[h].upvals[i]])) && Live(g, UpValue(g, g.ups[g.heap[h].upvals[i]]))
  {
    hide Marking;
    ObjectFacts(g, h, skip, ph, s);
    assert UpLive(g, g.heap[h].upvals[i]);
  }

  // ---- traversing a table ----

  /** A table that only keys of empty entries have gone from. */
  ghost predicate SameTable(g0: G, g: G, h: Ref) {
    h in g0.heap && h in g.heap && g0.heap[h].Table? && g.heap[h].Table? && Buried(g0.heap[h], g.heap[h]) &&
    h in g0.mark && h in g.mark && g.mark[h] == g0.mark[h] && Marked(g, h)
  }

  ghost predicate EntriesMarked(g: G, h: Ref, n: nat) {
    h in g.heap && g.heap[h].Table? && n <= |g.heap[h].hash| &&
    forall i :: 0 <= i < n ==> EntryMarked(g, g.heap[h].hash[i])
  }

  ghost predicate KeysMarked(g: G, h: Ref, n: nat) {
    h in g.heap && g.heap[h].Table? && n <= |g.heap[h].hash| &&
    forall i :: 0 <= i < n ==> MarkedV(g, g.heap[h].hash[i].key)
  }

  lemma DigsSame(g0: G, g: G, h: Ref)
    requires Digs(g0, g) && h in g0.heap && g0.heap[h].Table? && Marked(g0, h)
    ensures SameTable(g0, g, h) && forall v :: MarkedV(g0, v) ==> MarkedV(g, v)
  {
    assert Buried(g0.heap[h], g.heap[h]);
  }

  lemma NextEntry(g1: G, g: G, h: Ref, i: nat)
    requires Digs(g1, g) && SameTable(g1, g, h) && i < |g.heap[h].hash|
    ensures EntriesMarked(g1, h, i) && EntryMarked(g, g.heap[h].hash[i]) ==> EntriesMarked(g, h, i + 1)
    ensures KeysMarked(g1, h, i) && MarkedV(g, g.heap[h].hash[i].key) ==> KeysMarked(g, h, i + 1)
  {
    assert forall j :: 0 <= j < i ==> EntryBuried(g1.heap[h].hash[j], g.heap[h].hash[j]);
  }

  /** What a link promises about the table that gets it. */
  ghost predicate Earned(g: G, h: Ref, l: Link, ph: Phase) {
    h in g.heap && g.heap[h].Table? && IsGray(g, h) && MarkedV(g, g.heap[h].tmt) &&
    match l
    case ToAgain => g.state != InsideAtomic
    case ToAllWeak => FitsAllWeak(g, h)
    case ToWeak => ph.settling && g.heap[h].mode == WeakValue && KeysMarked(g, h, |g.heap[h].hash|)
    case ToEphemeron => ph.settling && AllMarked(g, g.heap[h].arr) && g.heap[h].mode == Ephemeron
    case NoLink => ph.settling && AllMarked(g, g.heap[h].arr) && EntriesMarked(g, h, |g.heap[h].hash|)
  }

  lemma EarnedOk(g: G, h: Ref, l: Link, ph: Phase)
    requires Earned(g, h, l, ph)
    ensures Ok(Linked(g, h, l), ph, h) && MayLink(g, h, l, ph)
  {
    var g' := Linked(g, h, l);
    if l == NoLink {
      assert forall i :: 0 <= i < |g.heap[h].hash| ==> EntryMarked(g, g.heap[h].hash[i]);
    }
    if l != ToAgain {
      assert Settled(g', ph, h, g'.heap[h]);
    }
  }

  lemma ReleaseTable(g: G, h: Ref, l: Link, skip: set<Ref>, ph: Phase, s: Bounds)
    requires Marking(g, skip, ph, s) && h in skip && Earned(g, h, l, ph)
    ensures Marking(Linked(g, h, l), skip - {h}, ph, s) && Trav(g, Linked(g, h, l))
  {
    hide Marking, Ok, MayLink, Adv, Earned;
    EarnedOk(g, h, l, ph);
    EarnedTable(g, h, l, ph);
    Release(g, h, l, skip, ph, s);
    BuriedSelf(g, Linked(g, h, l));
  }

  lemma EarnedTable(g: G, h: Ref, l: Link, ph: Phase)
    requires Earned(g, h, l, ph)
    ensures h in g.heap && g.heap[h].Table? && (l == ToAllWeak ==> FitsAllWeak(g, h))
  {
  }

  /** The first n values of the hash part are marked. */
  ghost predicate ValsMarked(g: G, h: Ref, n: nat) {
    h in g.heap && g.heap[h].Table? && n <= |g.heap[h].hash| &&
    forall i :: 0 <= i < n ==> MarkedV(g, g.heap[h].hash[i].val)
  }

  ghost predicate ValuesMarked(g: G, h: Ref) {
    h in g.heap && g.heap[h].Table? && AllMarked(g, g.heap[h].arr) && ValsMarked(g, h, |g.heap[h].hash|)
  }

  /** A table that may be linked into `allweak`: one with weak keys and values, or an ephemeron table, after
      propagation, that can only lose keys any more. */
  ghost predicate FitsAllWeak(g: G, h: Ref) {
    h in g.heap && g.heap[h].Table? &&
    (g.heap[h].mode == AllWeak || (g.state != Propagate && g.heap[h].mode == Ephemeron && ValuesMarked(g, h)))
  }

  lemma ValuesStay(g: G, g': G, h: Ref)
    requires Adv(g, g') && ValuesMarked(g, h)
    ensures ValuesMarked(g', h)
  {
    assert Shrunk(g.heap[h], g'.heap[h]);
    var hash := g.heap[h].hash;
    assert forall i :: 0 <= i < |hash| ==> EntryShrunk(hash[i], g'.heap[h].hash[i]);
  }

  lemma FitsStay(g: G, g': G)
    requires Adv(g, g')
    ensures forall r :: FitsAllWeak(g, r) ==> FitsAllWeak(g', r)
  {
    hide ValuesMarked;
    forall r | FitsAllWeak(g, r) ensures FitsAllWeak(g', r) {
      assert Shrunk(g.heap[r], g'.heap[r]);
      if ValuesMarked(g, r) { ValuesStay(g, g', r); }
    }
  }

  /** What complete traversals do: they advance the marking and remove nothing that a program can see. */
  ghost predicate Trav(g0: G, g: G) {
    Adv(g0, g) && AllBuried(g0, g) && g0.weak <= g.weak &&
    (forall r :: r in g.gray && r !in g0.gray ==> IsWhite(g0, r) && Marked(g, r)) &&
    (forall r :: IsGray(g0, r) && r !in g0.gray ==> IsGray(g, r)) &&
    (forall r :: r in g.allweak && r !in g0.allweak ==> FitsAllWeak(g, r))
  }

  lemma TravTrans(g0: G, g1: G, g2: G)
    requires Trav(g0, g1) && Trav(g1, g2)
    ensures Trav(g0, g2)
  {
    hide AllBuried, Shrunk, SameUp, FitsAllWeak;
    AdvTrans(g0, g1, g2);
    FitsStay(g1, g2);
    BuriedTrans(g0, g1, g2);
  }

  lemma DigsTrav(g0: G, g: G)
    requires Digs(g0, g)
    ensures Trav(g0, g)
  {
    hide Adv;
    DigsAdv(g0, g);
  }

  /** An entry whose key stays while its value is not marked. */
  predicate ToMark(g: G, h: Ref, i: nat) {
    h in g.heap && g.heap[h].Table? && i < |g.heap[h].hash| && g.heap[h].hash[i].val.Gc? &&
    !Cleared(g, g.heap[h].hash[i].key) && !Marked(g, g.heap[h].hash[i].val.r)
  }

  /** No such entry among the first n. */
  ghost predicate ConvergedTo(g: G, h: Ref, n: nat) {
    h in g.heap && g.heap[h].Table? && n <= |g.heap[h].hash| &&
    forall i :: 0 <= i < n ==> !ToMark(g, h, i)
  }

  /** An ephemeron table that another traversal would mark nothing from (but strings). */
  ghost predicate Converged(g: G, h: Ref) {
    h in g.heap && g.heap[h].Table? && AllMarked(g, g.heap[h].arr) && ConvergedTo(g, h, |g.heap[h].hash|)
  }

  lemma ClearedSame(g0: G, g: G, v: Value)
    requires Digs(g0, g) && OnlyStrings(g0, g) && g0.mark.Keys == g0.heap.Keys
    ensures Cleared(g, v) == Cleared(g0, v)
  {
    if v.Gc? && v.r in g0.heap {
      BuriedSame(g0, g, v.r);
    }
  }

  lemma StringsTrans(g0: G, g1: G, g2: G)
    requires OnlyStrings(g0, g1) && OnlyStrings(g1, g2) && Digs(g0, g1)
    ensures OnlyStrings(g0, g2)
  {
    forall r | IsWhite(g0, r) && Marked(g2, r) ensures r in g0.heap && g0.heap[r].Str? {
      if IsWhite(g1, r) {
        BuriedSame(g0, g1, r);
      }
    }
  }

  lemma NextConverged(g1: G, g: G, h: Ref, i: nat)
    requires Digs(g1, g) && SameTable(g1, g, h) && OnlyStrings(g1, g) && i < |g.heap[h].hash| && ConvergedTo(g1, h, i)
    requires g1.mark.Keys == g1.heap.Keys
    requires !ToMark(g, h, i)
    ensures ConvergedTo(g, h, i + 1)
  {
    forall j | 0 <= j < i ensures !ToMark(g, h, j) {
      assert !ToMark(g1, h, j) && EntryBuried(g1.heap[h].hash[j], g.heap[h].hash[j]);
      ClearedSame(g1, g, g.heap[h].hash[j].key);
    }
  }

  /** A value that an entry makes the traversal mark shows that the table had not converged. */
  lemma NotConverged(g0: G, g: G, h: Ref, i: nat)
    requires Digs(g0, g) && SameTable(g0, g, h) && OnlyStrings(g0, g) && i < |g.heap[h].hash|
    requires g0.mark.Keys == g0.heap.Keys
    requires ToMark(g, h, i)
    ensures !Converged(g0, h)
  {
    assert EntryBuried(g0.heap[h].hash[i], g.heap[h].hash[i]);
    ClearedSame(g0, g, g.heap[h].hash[i].key);
    assert ToMark(g0, h, i);
  }

  lemma InWithin(g: G, v: Value, skip: set<Ref>, ph: Phase, s: Bounds)
    requires Marking(g, skip, ph, s) && MarkedV(g, v)
    ensures InS(s, v)
  {
  }

  // ---- traversing the other objects ----

  lemma DigsCovers(g0: G, g: G)
    requires Digs(g0, g)
    ensures CoversKept(g0, g)
  {
    hide Adv, Buried, AllBuried;
    DigsAdv(g0, g);
    forall i | 0 <= i < |g0.ups| && g0.ups[i].Open? && g0.ups[i].touched ensures g.ups[i].Open? && g.ups[i].touched {
      assert UpTouched(g0.ups[i], g.ups[i]);
    }
    CoversSimple(g0, g);
  }

  /** An open upvalue is touched for `remarkupvals`. */
  lemma Touch(g: G, u: nat, skip: set<Ref>, ph: Phase, s: Bounds)
    requires Marking(g, skip, ph, s) && u < |g.ups| && g.ups[u].Open? && g.ups[u].th in g.twups
    ensures var g' := g.(ups := g.ups[u := g.ups[u].(touched := true)]);
            Marking(g', skip, ph, s) && Digs(g, g') && UpCovered(g', g'.ups[u])
  {
    hide Marking, Sound, Tricolor, KeepSet, Within, Shape, Lists, Ok, NoneDead, Shrunk;
    Parts(g, skip, ph, s);
    var g' := g.(ups := g.ups[u := g.ups[u].(touched := true)]);
    ShrunkSelf(g);
    assert Adv(g, g');
    CoversSimple(g, g');
    BuriedSelf(g, g');
    assert Digs(g, g') by { assert MarksGrew(g', g'); }
    UpsTouched(g, u, skip);
    assert Lists(g', skip, ph) by { ListsTouched(g, g', skip, ph); }
    hide Adv, UpsOk, Digs;
    Advance(g, g', skip, skip, ph, ph, s);
  }

  lemma UpsTouched(g: G, u: nat, skip: set<Ref>)
    requires UpsOk(g, skip) && u < |g.ups| && g.ups[u].Open?
    ensures UpsOk(g.(ups := g.ups[u := g.ups[u].(touched := true)]), skip)
  {
    var g' := g.(ups := g.ups[u := g.ups[u].(touched := true)]);
    forall i | 0 <= i < |g'.ups| ensures SlotOf(g', g'.ups[i]) { assert SlotOf(g, g.ups[i]); }
    forall i | 0 <= i < |g'.ups| && g'.ups[i].Open? ensures Waiting(g', skip, g'.ups[i].th) {
      assert Waiting(g, skip, g.ups[i].th);
    }
    assert forall r :: Allocated(g, r) ==> Allocated(g', r);
  }

  lemma ListsTouched(g: G, g': G, skip: set<Ref>, ph: Phase)
    requires Lists(g, skip, ph) && g' == g.(ups := g'.ups)
    ensures Lists(g', skip, ph)
  {
    assert Todo(g', ph) == Todo(g, ph) && forall r :: InList(g', ph, r) <==> InList(g, ph, r);
  }

  lemma MetaFacts(g: G, h: Ref, skip: set<Ref>, ph: Phase, s: Bounds)
    requires Marking(g, skip, ph, s) && h in g.heap && Marked(g, h) && g.heap[h].Table? && h in skip
    ensures InS(s, g.heap[h].tmt) && Live(g, g.heap[h].tmt)
  {
    Parts(g, skip, ph, s);
    hide Marking;
    ObjectFacts(g, h, skip, ph, s);
  }

  /** A black object may be let go once it points to no white one. */
  lemma ReleaseBlack(g: G, h: Ref, skip: set<Ref>, ph: Phase, s: Bounds)
    requires Marking(g, skip, ph, s) && h in skip && h in g.heap && IsBlack(g, h) && BlackClosed(g, g.heap[h])
    ensures Marking(g, skip - {h}, ph, s)
  {
    hide Marking, BlackClosed, Ok;
    assert Ok(g, ph, h) by { BlackOk(g, h, ph); }
    assert !g.heap[h].Thread? by { NotThread(g, h); }
    Release(g, h, NoLink, skip, ph, s);
  }

  lemma BlackOk(g: G, h: Ref, ph: Phase)
    requires h in g.heap && IsBlack(g, h) && BlackClosed(g, g.heap[h])
    ensures Ok(g, ph, h)
  {
  }

  lemma NotThread(g: G, h: Ref)
    requires h in g.heap && BlackClosed(g, g.heap[h])
    ensures !g.heap[h].Thread?
  {
  }

  /** A thread stays gray, to be traversed once more, or settled for good in the atomic phase. */
  lemma ReleaseThread(g: G, h: Ref, skip: set<Ref>, ph: Phase, s: Bounds)
    requires Marking(g, skip, ph, s) && h in skip && h in g.heap && IsGray(g, h) && g.heap[h].Thread?
    requires g.state == InsideAtomic ==> InTwups(g, h) && AllMarked(g, g.heap[h].stack)
    ensures Marking(g.(grayagain := g.grayagain + {h}), skip - {h}, ph, s) && Adv(g, g.(grayagain := g.grayagain + {h}))
  {
    hide Marking, Adv;
    Release(g, h, ToAgain, skip, ph, s);
  }

  /** The value of PropagateMark's measure. */
  lemma Popped(g0: G, g1: G, g: G, h: Ref)
    requires h in g0.gray && IsGray(g0, h) && g1.gray == g0.gray - {h} && g1.mark == g0.mark[h := Black] && Trav(g1, g)
    ensures Whites(g) <= Whites(g0) && (Whites(g) == Whites(g0) ==> g.gray < g0.gray)
  {
    assert Whites(g1) == Whites(g0);
    assert forall r :: r in Whites(g) ==> r in Whites(g1);
    if Whites(g) == Whites(g0) {
      forall r | r in g.gray ensures r in g1.gray {
        assert r in Whites(g1) <==> r in Whites(g);
      }
    }
  }
}
