/** Lua's incremental mark-and-sweep collector, interleaved with a program that allocates and
    stores through barriers. */
module LuaGc {
  import opened GcState
  import opened GcMark
  import opened GcTraverse
  import opened GcAtomic
  import opened GcCycle
  import opened GcSurvive
  import opened GcRun
  import opened GcProgram

  /** `GCSWEEPMAX` for a `TString` of 24 bytes. */
  const GCSWEEPMAX: nat := 85

  class Collector {
    var g: G

    /** `lua_newstate`: there is nothing but the main thread. */
    constructor (main: Ref)
      ensures Inv(g) && g == Initial(main)
    {
      g := Initial(main);
      new;
      InitialInv(main);
    }

    // ---- marking ----

    /** `reallymarkobject`: strings and userdata turn black here, everything else waits in `gray`. */
    method ReallyMark(o0: Ref, ghost skip: set<Ref>, ghost ph: Phase, ghost s: Bounds)
      requires Marking(g, skip, ph, s) && IsWhite(g, o0) && o0 in s.keep
      modifies this
      ensures Marking(g, skip, ph, s) && MarksGrew(old(g), g)
      ensures Marked(g, o0) && Whites(g) < old(Whites(g))
      decreases Whites(g)
    {
      hide MarkInv, Bound, MarksGrew, Adv, MarkHead, Whites, Await, IsWhite, Marked;
      var o := o0;
      ghost var from: set<Ref> := {};
      Start(g, o, skip, ph, s);
      while true
        invariant MarkHead(old(g), g, o0, o, from, skip, ph, s)
        decreases Whites(g)
      {
        ghost var g0 := g;
        HeadFacts(old(g), g, o0, o, from, skip, ph, s);
        match g.heap[o]
        case Str =>
          StringStep(old(g), g, o0, o, from, skip, ph, s);
          g := g.(mark := g.mark[o := Black]);
          return;
        case Udata(mt, uv) =>
          UdataStep(old(g), g, o0, o, from, skip, ph, s);
          g := g.(mark := g.mark[o := Gray]);
          ghost var g1 := g;
          if mt.Gc? && IsWhite(g, mt.r) {
            ReallyMark(mt.r, skip + {o}, ph, s);
          } else {
            SelfGrew(g);
          }
          UdataDone(old(g), g0, g1, g, o0, o, from, skip, ph, s);
          g := g.(mark := g.mark[o := Black]);
          if uv.Gc? && IsWhite(g, uv.r) {
            from := {o};
            o := uv.r;
          } else {
            return;
          }
        case _ =>
          OtherStep(old(g), g, o0, o, from, skip, ph, s);
          g := g.(mark := g.mark[o := Gray], gray := g.gray + {o});
          return;
      }
    }

    /** `markvalue`. */
    method MarkValue(v: Value, ghost skip: set<Ref>, ghost ph: Phase, ghost s: Bounds)
      requires Marking(g, skip, ph, s) && InS(s, v) && Live(g, v)
      modifies this
      ensures Marking(g, skip, ph, s) && MarksGrew(old(g), g) && MarkedV(g, v)
    {
      hide Marking, MarksGrew;
      if v.Gc? && IsWhite(g, v.r) {
        ReallyMark(v.r, skip, ph, s);
      } else {
        SelfGrew(g);
        KeysSame(g, skip, ph, s);
      }
    }

    /** Marks every value of an object that is being traversed. */
    method MarkAll(vs: seq<Value>, ghost skip: set<Ref>, ghost ph: Phase, ghost s: Bounds)
      requires Marking(g, skip, ph, s) && AllInS(s, vs) && AllLive(g, vs)
      modifies this
      ensures Marking(g, skip, ph, s) && MarksGrew(old(g), g) && AllMarked(g, vs)
    {
      hide Marking, MarksGrew;
      var i := 0;
      SelfGrew(g);
      while i < |vs|
        invariant 0 <= i <= |vs| && Marking(g, skip, ph, s) && MarksGrew(old(g), g) && AllMarked(g, vs[..i])
      {
        ghost var g1 := g;
        StillLive(old(g), g, vs[i], skip, ph, s);
        MarkValue(vs[i], skip, ph, s);
        StillMarked(g1, g, vs[..i]);
        GrewTrans(old(g), g1, g);
        i := i + 1;
      }
    }

    /** `iscleared`: marks strings, which are values and never weak. */
    method IsCleared(v: Value, ghost skip: set<Ref>, ghost ph: Phase, ghost s: Bounds) returns (c: bool)
      requires Marking(g, skip, ph, s) && (IsString(g, v) ==> InS(s, v)) && Live(g, v)
      modifies this
      ensures Marking(g, skip, ph, s) && MarksGrew(old(g), g) && OnlyStrings(old(g), g)
      ensures c == Cleared(old(g), v) == Cleared(g, v) && (!c ==> MarkedV(g, v)) && g == old(g).(mark := g.mark)
    {
      hide Marking, MarksGrew;
      SelfGrew(g);
      KeysSame(g, skip, ph, s);
      if IsString(g, v) {
        if IsWhite(g, v.r) {
          StringAlone(g, v.r, skip, ph, s);
          g := g.(mark := g.mark[v.r := Black]);
        }
        c := false;
      } else {
        c := v.Gc? && IsWhite(g, v.r);
      }
    }

    /** `removeentry`: an empty entry gives up an unmarked key. */
    method RemoveEntry(h: Ref, i: nat, ghost skip: set<Ref>, ghost ph: Phase, ghost s: Bounds)
      requires Marking(g, skip, ph, s) && h in g.heap && Marked(g, h) && g.heap[h].Table? && i < |g.heap[h].hash|
      requires g.heap[h].hash[i].val == Nil
      modifies this
      ensures Marking(g, skip, ph, s) && Digs(old(g), g)
      ensures g == old(g).(heap := old(g).heap[h := g.heap[h]]) && g.heap[h].Table? && EntryMarked(g, g.heap[h].hash[i])
      ensures g.heap[h] == old(g).heap[h].(hash := g.heap[h].hash) && |g.heap[h].hash| == |old(g).heap[h].hash|
      ensures forall j :: 0 <= j < |g.heap[h].hash| && j != i ==> g.heap[h].hash[j] == old(g).heap[h].hash[j]
    {
      hide Marking, Digs;
      var t := g.heap[h];
      var key := t.hash[i].key;
      DigsMarks(g, g) by { SelfGrew(g); }
      EntryFacts(g, h, i, skip, ph, s);
      KeysSame(g, skip, ph, s);
      if key.Gc? && IsWhite(g, key.r) {
        var t' := t.(hash := t.hash[i := Entry(DeadKey, Nil)]);
        EntryShrinks(t, t');
        ShrinkOne(g, h, t', skip, ph, s);
        DigsBury(g, h, t');
        g := g.(heap := g.heap[h := t']);
      }
    }

    /** `traversestrongtable`. */
    method TraverseStrong(h: Ref, ghost skip: set<Ref>, ghost ph: Phase, ghost s: Bounds)
      requires Marking(g, skip, ph, s) && h in g.heap && Marked(g, h) && g.heap[h].Table? && g.heap[h].mode == Strong
      modifies this
      ensures Marking(g, skip, ph, s) && Digs(old(g), g) && SameTable(old(g), g, h)
      ensures AllMarked(g, g.heap[h].arr) && EntriesMarked(g, h, |g.heap[h].hash|)
    {
      hide Marking, Digs, MarksGrew, EntriesMarked, EntryKeeps, KeysMarked, AllMarked;
      ValuesFacts(g, h, g.heap[h].arr, skip, ph, s);
      MarkAll(g.heap[h].arr, skip, ph, s);
      DigsMarks(old(g), g);
      DigsSame(old(g), g, h);
      NoEntries(g, h);
      var i := 0;
      while i < |g.heap[h].hash|
        invariant Marking(g, skip, ph, s) && Digs(old(g), g) && SameTable(old(g), g, h)
        invariant AllMarked(g, g.heap[h].arr) && i <= |g.heap[h].hash| && EntriesMarked(g, h, i)
        decreases |old(g).heap[h].hash| - i
      {
        ghost var g1 := g;
        var e := g.heap[h].hash[i];
        if e.val == Nil {
          RemoveEntry(h, i, skip, ph, s);
        } else {
          EntryValues(g, h, i, skip, ph, s);
          MarkValue(e.key, skip, ph, s);
          ghost var g2 := g;
          StillLive(g1, g2, e.val, skip, ph, s);
          MarkValue(e.val, skip, ph, s);
          TwoMarks(g1, g2, g, e.key);
        }
        DigsSame(g1, g, h);
        AllStay(g1, g, g.heap[h].arr);
        NextEntry(g1, g, h, i);
        DigsTrans(old(g), g1, g);
        DigsSame(old(g), g, h);
        i := i + 1;
      }
    }

    /** `traverseweakvalue`: while propagating the table is kept to be revisited; later it is kept
        for clearing if it may hold unmarked values. */
    method TraverseWeakValue(h: Ref, ghost skip: set<Ref>, ghost ph: Phase, ghost s: Bounds)
      requires Marking(g, skip, ph, s) && h in skip && h in g.heap && IsGray(g, h) && g.heap[h].Table?
      requires g.heap[h].mode == WeakValue
      requires MarkedV(g, g.heap[h].tmt) && (g.state == Propagate || ph.settling)
      modifies this
      ensures Marking(g, skip - {h}, ph, s) && Trav(old(g), g) && Visited(old(g), g, h)
      ensures g.allweak == old(g).allweak && g.ephemeron == old(g).ephemeron
      ensures if g.state == Propagate then g.grayagain == old(g).grayagain + {h} && g.weak == old(g).weak
              else g.grayagain == old(g).grayagain
    {
      hide Marking, Digs, MarksGrew, EntriesMarked, KeysMarked, EntryKeeps, AllMarked, Trav, OnlyStrings, Risky,
        Visited, Cleared;
      var hasClears := |g.heap[h].arr| > 0;
      if hasClears { ArrayRisky(g, h); }
      SelfGrew(g);
      DigsMarks(g, g);
      DigsSame(g, g, h);
      NoEntries(g, h);
      var i := 0;
      while i < |g.heap[h].hash|
        invariant Marking(g, skip, ph, s) && Digs(old(g), g) && SameTable(old(g), g, h)
        invariant i <= |g.heap[h].hash| && KeysMarked(g, h, i) && (!hasClears ==> EntriesMarked(g, h, i))
        invariant if hasClears then Risky(old(g), h) else g.heap[h].arr == []
        decreases |old(g).heap[h].hash| - i
      {
        ghost var g1 := g;
        var e := g.heap[h].hash[i];
        if e.val == Nil {
          RemoveEntry(h, i, skip, ph, s);
        } else {
          EntryValues(g, h, i, skip, ph, s);
          MarkValue(e.key, skip, ph, s);
          ghost var g2 := g;
          StillLive(g1, g2, e.val, skip, ph, s);
          if !hasClears {
            var c := IsCleared(e.val, skip, ph, s);
            if c {
              hasClears := true;
              ValueCleared(old(g), g1, g2, h, i);
            }
          } else {
            SelfGrew(g);
          }
          TwoMarks(g1, g2, g, e.key);
        }
        DigsSame(g1, g, h);
        NextEntry(g1, g, h, i);
        DigsTrans(old(g), g1, g);
        DigsSame(old(g), g, h);
        i := i + 1;
      }
      DigsTrav(old(g), g);
      ghost var g3 := g;
      DigsState(old(g), g);
      DigsSame(old(g), g, h);
      DigsNew(old(g), g);
      if g.state == Propagate {
        ReleaseTable(g, h, ToAgain, skip, ph, s);
        g := g.(grayagain := g.grayagain + {h});
        VisitAgain(old(g), g3, g, h);
      } else if hasClears {
        ReleaseTable(g, h, ToWeak, skip, ph, s);
        g := g.(weak := g.weak + {h});
        VisitLinked(old(g), g3, g, h);
      } else {
        EmptyMarked(g, g.heap[h].arr);
        NoRisk(g, h);
        ReleaseTable(g, h, NoLink, skip, ph, s);
        VisitPlain(old(g), g3, g, h);
      }
      TravTrans(old(g), g3, g);
    }

    /** One entry of `traverseephemeron`: whether its key is unmarked, its value then too, or its value has been
        marked. */
    method EphemeronEntry(h: Ref, i: nat, ghost skip: set<Ref>, ghost ph: Phase, ghost s: Bounds)
      returns (cleared: bool, ww: bool, marked: bool)
      requires Marking(g, skip, ph, s) && h in g.heap && Marked(g, h) && g.heap[h].Table? && g.heap[h].mode == Ephemeron
      requires i < |g.heap[h].hash|
      modifies this
      ensures Marking(g, skip, ph, s) && Digs(old(g), g) && SameTable(old(g), g, h)
      ensures !cleared ==> EntryMarked(g, g.heap[h].hash[i])
      ensures if ww then WhiteBoth(old(g), old(g).heap[h].hash[i]) else MarkedV(g, g.heap[h].hash[i].val)
      ensures marked ==> Whites(g) < old(Whites(g)) && ToMark(old(g), h, i)
      ensures !marked ==> OnlyStrings(old(g), g) && !ToMark(g, h, i)
    {
      hide Marking, Digs, MarksGrew, EntryKeeps, OnlyStrings, Whites, Cleared;
      cleared, ww, marked := false, false, false;
      KeysSame(g, skip, ph, s);
      var e := g.heap[h].hash[i];
      if e.val == Nil {
        RemoveEntry(h, i, skip, ph, s);
        NoStrings(old(g), g);
      } else {
        EntryValues(g, h, i, skip, ph, s);
        cleared := IsCleared(e.key, skip, ph, s);
        ghost var g2 := g;
        StillLive(old(g), g2, e.val, skip, ph, s);
        SelfGrew(g);
        if cleared {
          if e.val.Gc? && IsWhite(g, e.val.r) {
            ww := true;
            WasWhite(old(g), g, e.val.r);
          } else {
            KeysSame(g, skip, ph, s);
          }
        } else if e.val.Gc? && IsWhite(g, e.val.r) {
          InWithin(g, e.key, skip, ph, s);
          WasWhite(old(g), g, e.val.r);
          marked := true;
          ReallyMark(e.val.r, skip, ph, s);
        } else {
          KeysSame(g, skip, ph, s);
        }
        TwoSteps(old(g), g2, g, e.key);
      }
      DigsSame(old(g), g, h);
    }

    /** `traverseephemeron`: marks the values whose keys are marked, and says whether it marked any.
        A table that had converged marks nothing; one that has marked nothing has converged. */
    method TraverseEphemeron(h: Ref, ghost skip: set<Ref>, ghost ph: Phase, ghost s: Bounds) returns (marked: bool)
      requires Marking(g, skip, ph, s) && h in skip && h in g.heap && IsGray(g, h) && g.heap[h].Table?
      requires g.heap[h].mode == Ephemeron
      requires MarkedV(g, g.heap[h].tmt) && (g.state == Propagate || ph.settling)
      modifies this
      ensures Marking(g, skip - {h}, ph, s) && Trav(old(g), g) && Visited(old(g), g, h)
      ensures marked ==> Whites(g) < old(Whites(g)) && !Converged(old(g), h)
      ensures !marked ==> OnlyStrings(old(g), g) && Converged(g, h)
      ensures g.ephemeron <= old(g).ephemeron + {h} && old(g).gray <= g.gray
    {
      hide Marking, Digs, MarksGrew, EntriesMarked, AllMarked, Trav, OnlyStrings, Converged, ConvergedTo, Whites,
        ToMark, Risky, Visited, ValsMarked, ValuesMarked;
      KeysSame(g, skip, ph, s);
      marked := false;
      var i := 0;
      ValuesFacts(g, h, g.heap[h].arr, skip, ph, s);
      ArrayStart(g, h, skip, ph, s);
      while i < |g.heap[h].arr|
        invariant Marking(g, skip, ph, s) && MarksGrew(old(g), g) && g.heap == old(g).heap && i <= |g.heap[h].arr|
        invariant AllLive(g, g.heap[h].arr) && AllInS(s, g.heap[h].arr) && AllMarked(g, g.heap[h].arr[..i])
        invariant if marked then Whites(g) < old(Whites(g)) && !Converged(old(g), h) else g == old(g)
      {
        var v := g.heap[h].arr[i];
        ghost var g1 := g;
        if v.Gc? && IsWhite(g, v.r) {
          if !marked { ArrayWhite(g, h, i); }
          marked := true;
          ReallyMark(v.r, skip, ph, s);
        } else {
          SelfGrew(g);
          KeysSame(g, skip, ph, s);
        }
        NextValue(old(g), g1, g, h, i, skip, ph, s);
        i := i + 1;
      }
      HashStart(old(g), g, h, skip, ph, s);
      var hasClears := false;
      var hasWW := false;
      i := 0;
      while i < |g.heap[h].hash|
        invariant Marking(g, skip, ph, s) && EphemeronDone(old(g), g, h, i, marked, hasClears)
        invariant WhiteDone(old(g), g, h, i, hasWW)
        decreases |old(g).heap[h].hash| - i
      {
        ghost var g1 := g;
        KeysSame(g, skip, ph, s);
        var c, ww, m := EphemeronEntry(h, i, skip, ph, s);
        NextEphemeron(old(g), g1, g, h, i, marked, hasClears, c, m);
        NextWhite(old(g), g1, g, h, i, hasWW, ww);
        hasClears := hasClears || c;
        hasWW := hasWW || ww;
        marked := marked || m;
        i := i + 1;
      }
      DigsTrav(old(g), g);
      ghost var g3 := g;
      DigsState(old(g), g);
      DigsSame(old(g), g, h);
      DigsNew(old(g), g);
      if g.state == Propagate {
        ReleaseTable(g, h, ToAgain, skip, ph, s);
        g := g.(grayagain := g.grayagain + {h});
        VisitAgain(old(g), g3, g, h);
      } else if hasWW {
        ReleaseTable(g, h, ToEphemeron, skip, ph, s);
        g := g.(ephemeron := g.ephemeron + {h});
        VisitLinked(old(g), g3, g, h);
      } else if hasClears {
        OnlyKeys(g, h);
        ReleaseTable(g, h, ToAllWeak, skip, ph, s);
        g := g.(allweak := g.allweak + {h});
        VisitPlain(old(g), g3, g, h);
      } else {
        OnlyKeys(g, h);
        ReleaseTable(g, h, NoLink, skip, ph, s);
        VisitPlain(old(g), g3, g, h);
      }
      LinkConverged(old(g), g3, g, h, marked);
      TravTrans(old(g), g3, g);
    }

    /** `traversetable`: weak tables stay gray. */
    method TraverseTable(h: Ref, ghost skip: set<Ref>, ghost ph: Phase, ghost s: Bounds)
      requires Marking(g, skip, ph, s) && h in skip && h in g.heap && IsBlack(g, h) && g.heap[h].Table?
      requires g.state == Propagate || ph.settling
      modifies this
      ensures Marking(g, skip - {h}, ph, s) && Trav(old(g), g) && Visited(old(g), g, h)
      ensures old(g).heap[h].mode == AllWeak ==> h in g.allweak
    {
      hide Marking, MarksGrew, Digs, Trav, EntriesMarked, AllMarked, Adv, Earned, Visited, ValuesMarked;
      MetaFacts(g, h, skip, ph, s);
      MarkValue(g.heap[h].tmt, skip, ph, s);
      DigsMarks(old(g), g);
      DigsSame(old(g), g, h);
      DigsState(old(g), g);
      DigsTrav(old(g), g);
      ghost var g1 := g;
      if g.heap[h].mode != Strong {
        Recolor(g, h, Gray, skip, ph, s);
        RecolorTrav(g, h, Gray);
        g := g.(mark := g.mark[h := Gray]);
        ghost var g2 := g;
        if g.heap[h].mode == WeakValue {
          TraverseWeakValue(h, skip, ph, s);
        } else if g.heap[h].mode == Ephemeron {
          var _ := TraverseEphemeron(h, skip, ph, s);
        } else {
          AllWeakEarned(g, h, ph);
          ReleaseTable(g, h, ToAllWeak, skip, ph, s);
          g := g.(allweak := g.allweak + {h});
          DigsSelf(g2);
          VisitPlain(g2, g2, g, h);
        }
        VisitLater(old(g), g1, g2, g, h);
        TravTrans(g1, g2, g);
      } else {
        TraverseStrong(h, skip, ph, s);
        StrongClosed(g1, g, h);
        ReleaseBlack(g, h, skip, ph, s);
        DigsTrav(g1, g);
        DigsState(g1, g);
        DigsTrans(old(g), g1, g);
        VisitPlain(old(g), g, g, h);
      }
      TravTrans(old(g), g1, g);
    }

    /** `traverseLclosure` and `traverseCclosure`: the values of open upvalues are left to their threads,
        except in the atomic phase. */
    method TraverseClosure(h: Ref, ghost skip: set<Ref>, ghost ph: Phase, ghost s: Bounds)
      requires Marking(g, skip, ph, s) && h in skip && h in g.heap && IsBlack(g, h) && g.heap[h].Closure?
      modifies this
      ensures Marking(g, skip - {h}, ph, s) && Trav(old(g), g) && Visited(old(g), g, h)
    {
      hide Marking, MarksGrew, Digs, Trav, AllMarked, UpsCovered, Adv, UpValue, AllLive, AllInS, Visited;
      ValuesFacts(g, h, g.heap[h].fields, skip, ph, s);
      MarkAll(g.heap[h].fields, skip, ph, s);
      GrewHeap(old(g), g);
      DigsMarks(old(g), g);
      DigsKeeps(old(g), g, h);
      NoUps(g);
      var us := g.heap[h].upvals;
      var i := 0;
      while i < |us|
        invariant Marking(g, skip, ph, s) && Digs(old(g), g) && g.heap == old(g).heap && IsBlack(g, h)
        invariant i <= |us| && AllMarked(g, g.heap[h].fields) && UpsCovered(g, us[..i])
      {
        ghost var g1 := g;
        UpFacts(g, h, i, skip, ph, s);
        var u := g.ups[us[i]];
        if u.Open? && g.state != InsideAtomic {
          Touch(g, us[i], skip, ph, s);
          g := g.(ups := g.ups[us[i] := u.(touched := true)]);
        } else {
          MarkValue(UpValue(g, u), skip, ph, s);
          GrewHeap(g1, g);
          DigsMarks(g1, g);
          ValueCovers(g1, g, us[i]);
        }
        NextUp(old(g), g1, g, h, us, i);
        i := i + 1;
      }
      assert us[..|us|] == us;
      ClosureClosed(g, h);
      DigsTrav(old(g), g);
      DigsState(old(g), g);
      VisitPlain(old(g), g, g, h);
      ReleaseBlack(g, h, skip, ph, s);
    }

    /** `traverseproto`: an unmarked cached closure is forgotten. */
    method TraverseProto(h: Ref, ghost skip: set<Ref>, ghost ph: Phase, ghost s: Bounds)
      requires Marking(g, skip, ph, s) && h in skip && h in g.heap && IsBlack(g, h) && g.heap[h].Proto?
      modifies this
      ensures Marking(g, skip - {h}, ph, s) && Trav(old(g), g) && Visited(old(g), g, h)
      ensures var cache := old(g).heap[h].cache;
              g.heap == if cache.Gc? && IsWhite(old(g), cache.r) then
                old(g).heap[h := old(g).heap[h].(cache := Nil)] else old(g).heap
    {
      hide Marking, MarksGrew, Digs, Trav, AllMarked, Adv, AllLive, AllInS, Visited;
      var cache := g.heap[h].cache;
      CacheFacts(g, h, skip, ph, s);
      SelfGrew(g);
      DigsMarks(g, g);
      if cache.Gc? && IsWhite(g, cache.r) {
        var o := g.heap[h].(cache := Nil);
        ShrinkOne(g, h, o, skip, ph, s);
        DigsBury(g, h, o);
        g := g.(heap := g.heap[h := o]);
      }
      ghost var g1 := g;
      ValuesFacts(g, h, g.heap[h].refs, skip, ph, s);
      MarkAll(g.heap[h].refs, skip, ph, s);
      GrewHeap(g1, g);
      DigsMarks(g1, g);
      DigsTrans(old(g), g1, g);
      DigsKeeps(g1, g, h);
      DigsTrav(old(g), g);
      DigsState(old(g), g);
      ProtoClosed(g1, g, h);
      VisitPlain(old(g), g, g, h);
      ReleaseBlack(g, h, skip, ph, s);
    }

    /** `traversethread`: a thread is never black. In the atomic phase its traversal is final, and it
        goes back to the list of threads with upvalues. */
    method TraverseThread(h: Ref, ghost skip: set<Ref>, ghost ph: Phase, ghost s: Bounds)
      requires Marking(g, skip, ph, s) && h in skip && h in g.heap && IsGray(g, h) && g.heap[h].Thread?
      modifies this
      ensures Marking(g, skip - {h}, ph, s) && Trav(old(g), g) && Visited(old(g), g, h)
    {
      hide Marking, MarksGrew, Digs, Trav, Adv, AllLive, AllInS, Visited;
      ValuesFacts(g, h, g.heap[h].stack, skip, ph, s);
      MarkAll(g.heap[h].stack, skip, ph, s);
      GrewHeap(old(g), g);
      DigsMarks(old(g), g);
      DigsKeeps(old(g), g, h);
      DigsTrav(old(g), g);
      DigsState(old(g), g);
      ghost var g1 := g;
      if g.state == InsideAtomic && h !in g.twups &&
        exists i :: 0 <= i < |g.ups| && g.ups[i].Open? && g.ups[i].th == h {
        Relink(g, h, skip, ph, s);
        g := g.(twups := g.twups + {h});
      } else {
        TravSelf(g);
      }
      ghost var g2 := g;
      ReleaseThread(g, h, skip, ph, s);
      g := g.(grayagain := g.grayagain + {h});
      VisitPlain(old(g), g1, g, h);
      AgainTrav(g2, h);
      TravTrans(g1, g2, g);
      TravTrans(old(g), g1, g);
    }

    /** `propagatemark`: one object leaves the gray list. */
    method PropagateMark(ghost skip: set<Ref>, ghost ph: Phase, ghost s: Bounds)
      requires Marking(g, skip, ph, s) && g.gray != {} && (g.state == Propagate || ph.settling)
      modifies this
      ensures Marking(g, skip, ph, s) && Trav(old(g), g)
      ensures Whites(g) <= old(Whites(g)) && (Whites(g) == old(Whites(g)) ==> g.gray < old(g.gray))
      ensures forall t :: Due(old(g), t) ==> Due(g, t)
      ensures Linkage(old(g), g)
    {
      hide Marking, Trav, Adv, Whites, Due, Visited, Linkage;
      var o :| o in g.gray;
      PopStep(g, o, skip, ph, s);
      g := g.(gray := g.gray - {o}, mark := g.mark[o := Black]);
      ghost var g1 := g;
      match g.heap[o] {
      case Table(_, _, _, _) =>
        TraverseTable(o, skip + {o}, ph, s);
      case Closure(_, _) =>
        TraverseClosure(o, skip + {o}, ph, s);
      case Proto(_, _) =>
        TraverseProto(o, skip + {o}, ph, s);
      case Thread(_) =>
        Recolor(g, o, Gray, skip + {o}, ph, s);
        RecolorTrav(g, o, Gray);
        g := g.(mark := g.mark[o := Gray]);
        ghost var g2 := g;
        TraverseThread(o, skip + {o}, ph, s);
        DigsSelf(g1);
        VisitLater(g1, g1, g2, g, o);
        TravTrans(g1, g2, g);
      }
      VisitedGray(g1, g, o);
      Popped(old(g), g1, g, o);
      LinkOne(old(g), g1, g, o);
      TravTrans(old(g), g1, g);
      DueStays(old(g), g, o);
      assert skip + {o} - {o} == skip;
    }

    /** `propagateall`. */
    method PropagateAll(ghost skip: set<Ref>, ghost ph: Phase, ghost s: Bounds)
      requires Marking(g, skip, ph, s) && (g.state == Propagate || ph.settling)
      modifies this
      ensures Marking(g, skip, ph, s) && Trav(old(g), g) && g.gray == {} && Whites(g) <= old(Whites(g))
      ensures Linkage(old(g), g) && (old(g).gray == {} ==> g == old(g))
    {
      hide Marking, Trav, Whites, Linkage;
      TravSelf(g);
      LinkageSelf(g);
      while g.gray != {}
        invariant Marking(g, skip, ph, s) && Trav(old(g), g) && (g.state == Propagate || ph.settling)
        invariant Linkage(old(g), g) && (old(g).gray == {} ==> g == old(g))
        invariant Whites(g) <= old(Whites(g))
        decreases Whites(g), g.gray
      {
        ghost var g1 := g;
        PropagateMark(skip, ph, s);
        LinkageTrans(old(g), g1, g);
        TravTrans(old(g), g1, g);
        TravState(g1, g);
      }
    }

    // ---- the atomic phase ----

    /** `remarkupvals`: marks the values of touched upvalues of unmarked threads, and keeps only marked
        threads with upvalues in the list. (A thread leaves the list after its upvalues are done.) */
    method RemarkUpvals(ghost ph: Phase, ghost s: Bounds)
      requires Marking(g, {}, ph, s) && g.state == InsideAtomic
      modifies this
      ensures Marking(g, {}, ph, s) && Remarks(old(g), g) && forall r :: r in g.twups ==> Marked(g, r)
    {
      hide Marking, Remarks, HasOpen, NoTouched, UpValue, Live, InS;
      RemarksSelf(g);
      var todo := g.twups;
      while todo != {}
        invariant Marking(g, {}, ph, s) && Remarks(old(g), g) && g.state == InsideAtomic
        invariant todo <= g.twups && forall r :: r in g.twups && r !in todo ==> Marked(g, r)
        decreases todo
      {
        var th :| th in todo;
        todo := todo - {th};
        ListedThread(g, th, ph, s);
        if IsGray(g, th) && HasOpen(g, th) {
        } else {
          ghost var g1 := g;
          var i := 0;
          NoneTouched(g, th);
          RemarksSelf(g);
          while i < |g.ups|
            invariant Marking(g, {}, ph, s) && Remarks(g1, g) && g.state == InsideAtomic && g.twups == g1.twups
            invariant i <= |g.ups| == |g1.ups| && NoTouched(g, th, i)
          {
            ghost var g2 := g;
            RemarksSelf(g);
            if g.ups[i].Open? && g.ups[i].th == th && g.ups[i].touched {
              ThreadUp(g, i, ph, s);
              MarkValue(UpValue(g, g.ups[i]), {}, ph, s);
              ghost var g3 := g;
              ValueStays(g2, g3, i);
              RemarksMark(g2, g3);
              Untouch(g, i, {}, ph, s);
              g := g.(ups := g.ups[i := g.ups[i].(touched := false)]);
              RemarksTrans(g2, g3, g);
            }
            NextTouched(g2, g, th, i);
            RemarksTrans(g1, g2, g);
            RemarksFacts(g2, g, th);
            RemarksSize(g1, g);
            i := i + 1;
          }
          RemarksFacts(g1, g, th);
          ghost var g4 := g;
          Unlink(g, th, ph, s);
          g := g.(twups := g.twups - {th});
          RemarksTrans(g1, g4, g);
          RemarksTrans(old(g), g1, g);
          RemarksMarked(g1, g);
        }
      }
    }

    /** `convergeephemerons`: repeats until a pass marks nothing; then every ephemeron table has converged. */
    method ConvergeEphemerons(ghost ph: Phase, ghost s: Bounds)
      requires Marking(g, {}, ph, s) && ph.settling && g.gray == {}
      modifies this
      ensures Marking(g, {}, ph, s) && Trav(old(g), g) && g.gray == {} && Idle(g)
      ensures Idle(old(g)) ==> OnlyStrings(old(g), g)
    {
      hide Marking, Trav, Whites, Converged, OnlyStrings, Pending;
      PassStart(g, ph, s);
      var changed := true;
      while changed
        invariant Marking(g, {}, ph, s) && Trav(old(g), g) && g.gray == {} && (!changed ==> Idle(g))
        invariant Idle(old(g)) ==> OnlyStrings(old(g), g) && Idle(g)
        decreases Whites(g), changed
      {
        ghost var w0 := Whites(g);
        TakeEphemerons(g, ph, s);
        var next := g.ephemeron;
        PassBegin(old(g), g, ph, s);
        g := g.(ephemeron := {});
        changed := false;
        while next != {}
          invariant Pass(old(g), g, next, changed, w0, ph, s)
          decreases next
        {
          var w :| w in next;
          ghost var g1 := g;
          ghost var next1 := next;
          PendingFacts(old(g), g, w, next, changed, w0, ph, s);
          var m := TraverseEphemeron(w, next, ph, s);
          next := next - {w};
          if m {
            ghost var g2 := g;
            PropagateAll(next, ph, s);
            PassChanged(old(g), g1, g2, g, w, next1, changed, w0, ph, s);
            changed := true;
          } else {
            TravWhites(g1, g);
            PassQuiet(old(g), g1, g, w, next1, changed, w0, ph, s);
          }
        }
        PassEnd(old(g), g, changed, w0, ph, s);
      }
    }

    /** `removeentry`, as a step of clearing. */
    method BuryEntry(h: Ref, i: nat, ghost a: set<Ref>, ghost ph: Phase, ghost s: Bounds)
      requires Marking(g, {}, ph, s) && h in g.heap && Marked(g, h) && g.heap[h].Table? && i < |g.heap[h].hash|
      requires g.heap[h].hash[i].val == Nil
      modifies this
      ensures Marking(g, {}, ph, s) && ClearStep(old(g), g, a) && KeptTable(old(g), g, h)
      ensures g.heap == old(g).heap[h := g.heap[h]]
      ensures g.heap[h] == old(g).heap[h].(hash := old(g).heap[h].hash[i := g.heap[h].hash[i]])
      ensures EntryBuried(old(g).heap[h].hash[i], g.heap[h].hash[i]) && EntryMarked(g, g.heap[h].hash[i])
    {
      hide Marking, ClearStep, NoneDead, EntryMarked;
      KeysSame(g, {}, ph, s);
      RemoveEntry(h, i, {}, ph, s);
      EntryGone(old(g), g, h, i);
      ClearBuried(old(g), g, a);
      ClearSelf(old(g), h, a);
      ClearKept(old(g), old(g), g, h, a);
    }

    /** `clearvalues` at one slot of the array part. */
    method ClearSlotValue(h: Ref, i: nat, ghost a: set<Ref>, ghost ph: Phase, ghost s: Bounds)
      requires Marking(g, {}, ph, s) && h in g.heap && Marked(g, h) && g.heap[h].Table? && i < |g.heap[h].arr|
      requires MayClearValues(g, h, a)
      modifies this
      ensures Marking(g, {}, ph, s) && ClearStep(old(g), g, a) && KeptTable(old(g), g, h)
      ensures g.heap == old(g).heap[h := g.heap[h]]
      ensures var arr := old(g).heap[h].arr;
              g.heap[h] == old(g).heap[h].(arr := arr[i := if Cleared(old(g), arr[i]) then Nil else arr[i]])
      ensures MarkedV(g, g.heap[h].arr[i])
    {
      hide Marking, ClearStep, MarksGrew, Cleared, OnlyStrings, MayClearValues, SlotLapses, Treated;
      KeysSame(g, {}, ph, s);
      ArrayFacts(g, h, i, {}, ph, s);
      ClearSelf(g, h, a);
      var c := IsCleared(g.heap[h].arr[i], {}, ph, s);
      ghost var g2 := g;
      ClearMarks(old(g), g2, a);
      if c {
        SlotMayGo(old(g), g, h, i, a);
        ClearSlot(g, h, i, a, ph, s);
        g := g.(heap := g.heap[h := g.heap[h].(arr := g.heap[h].arr[i := Nil])]);
        ClearTrans(old(g), g2, g, a);
      }
      ClearKept(old(g), old(g), g, h, a);
    }

    /** `clearvalues` at one entry of the hash part. */
    method ClearEntryValue(h: Ref, i: nat, ghost a: set<Ref>, ghost ph: Phase, ghost s: Bounds)
      requires Marking(g, {}, ph, s) && h in g.heap && Marked(g, h) && g.heap[h].Table? && i < |g.heap[h].hash|
      requires MayClearValues(g, h, a)
      modifies this
      ensures Marking(g, {}, ph, s) && ClearStep(old(g), g, a) && KeptTable(old(g), g, h)
      ensures g.heap == old(g).heap[h := g.heap[h]]
      ensures g.heap[h] == old(g).heap[h].(hash := old(g).heap[h].hash[i := g.heap[h].hash[i]])
      ensures ValueCut(old(g), old(g).heap[h].hash[i], g.heap[h].hash[i])
      ensures MarkedV(g, g.heap[h].hash[i].val)
    {
      hide Marking, ClearStep, MarksGrew, Cleared, OnlyStrings, InS, IsString, Live, MayClearValues, Lapses, Treated,
        NoneDead;
      var e := g.heap[h].hash[i];
      KeysSame(g, {}, ph, s);
      ClearSelf(g, h, a);
      NilStays(g);
      if e.val != Nil {
        EntryValues(g, h, i, {}, ph, s);
        var c := IsCleared(e.val, {}, ph, s);
        ghost var g2 := g;
        ClearMarks(old(g), g2, a);
        if c {
          ValueMayGo(old(g), g, h, i, a);
          ClearEntry(g, h, i, a, ph, s);
          g := g.(heap := g.heap[h := WithEntry(g.heap[h], i, Entry(e.key, Nil))]);
          ghost var g3 := g;
          ClearTrans(old(g), g2, g3, a);
          ClearKept(old(g), old(g), g3, h, a);
          BuryEntry(h, i, a, ph, s);
          ClearTrans(old(g), g3, g, a);
        }
      }
      ClearKept(old(g), old(g), g, h, a);
    }

    /** `clearkeys` at one entry. */
    method ClearEntryKey(h: Ref, i: nat, ghost a: set<Ref>, ghost ph: Phase, ghost s: Bounds)
      requires Marking(g, {}, ph, s) && h in g.heap && Marked(g, h) && g.heap[h].Table? && i < |g.heap[h].hash|
      requires MayClearKeys(g, h, a)
      modifies this
      ensures Marking(g, {}, ph, s) && ClearStep(old(g), g, a) && KeptTable(old(g), g, h)
      ensures g.heap == old(g).heap[h := g.heap[h]]
      ensures g.heap[h] == old(g).heap[h].(hash := old(g).heap[h].hash[i := g.heap[h].hash[i]])
      ensures KeyCut(old(g), old(g).heap[h].hash[i], g.heap[h].hash[i])
      ensures MarkedV(g, g.heap[h].hash[i].key)
    {
      hide Marking, ClearStep, MarksGrew, Cleared, OnlyStrings, MayClearKeys, Lapses, Treated, KeyCut, InS, IsString,
        Live, EntryBuried, NoneDead;
      var e := g.heap[h].hash[i];
      KeysSame(g, {}, ph, s);
      ClearSelf(g, h, a);
      if e.val != Nil {
        EntryValues(g, h, i, {}, ph, s);
        var c := IsCleared(e.key, {}, ph, s);
        ghost var g2 := g;
        ClearMarks(old(g), g2, a);
        if c {
          KeyMayGo(old(g), g, h, i, a);
          ClearEntry(g, h, i, a, ph, s);
          g := g.(heap := g.heap[h := WithEntry(g.heap[h], i, Entry(e.key, Nil))]);
          ClearTrans(old(g), g2, g, a);
        }
      }
      ghost var g3 := g;
      ClearKept(old(g), old(g), g3, h, a);
      if g.heap[h].hash[i].val == Nil {
        BuryEntry(h, i, a, ph, s);
        ClearKept(old(g), g3, g, h, a);
      }
      ClearAt(old(g), g, a, h);
      KeyIsCut(old(g), g, e, g.heap[h].hash[i]);
    }

    /** `clearvalues` of one table: the unmarked values are taken out, and no others. */
    method ClearValuesOf(h: Ref, ghost a: set<Ref>, ghost ph: Phase, ghost s: Bounds)
      requires Marking(g, {}, ph, s) && h in g.heap && Marked(g, h) && g.heap[h].Table? && MayClearValues(g, h, a)
      modifies this
      ensures Marking(g, {}, ph, s) && ClearStep(old(g), g, a) && ValuesMarked(g, h)
      ensures g.heap == old(g).heap[h := g.heap[h]]
      ensures ValuesCut(old(g), old(g).heap[h], g.heap[h], |old(g).heap[h].arr|, |old(g).heap[h].hash|)
    {
      hide Marking, ClearStep, MayClearValues, SlotsDone, KeysDone, ValueCut, Cleared;
      KeysSame(g, {}, ph, s);
      FirstDone(g, h, a);
      var i := 0;
      while i < |g.heap[h].arr|
        invariant Marking(g, {}, ph, s) && SlotsDone(old(g), g, h, i, a) && KeptTable(old(g), g, h)
        invariant g.heap == old(g).heap[h := g.heap[h]] && i <= |g.heap[h].arr|
        decreases |old(g).heap[h].arr| - i
      {
        ghost var g1 := g;
        DoneFacts(old(g), g, h, i, a);
        ClearSlotValue(h, i, a, ph, s);
        NextSlotDone(old(g), g1, g, h, i, a);
        DoneFacts(old(g), g, h, i + 1, a);
        i := i + 1;
      }
      SlotsAreDone(old(g), g, h, a);
      ClearHash(old(g), h, a, ph, s);
    }

    /** The second loop of `clearvalues`. */
    method ClearHash(ghost g0: G, h: Ref, ghost a: set<Ref>, ghost ph: Phase, ghost s: Bounds)
      requires Marking(g, {}, ph, s) && ValuesDone(g0, g, h, 0, a) && KeptTable(g0, g, h)
      requires g.heap == g0.heap[h := g.heap[h]]
      modifies this
      ensures Marking(g, {}, ph, s) && KeptTable(g0, g, h) && ValuesDone(g0, g, h, |g0.heap[h].hash|, a)
      ensures g.heap == g0.heap[h := g.heap[h]]
    {
      hide Marking, ClearStep, MayClearValues, ValuesDone, SlotsDone, KeysDone, ValueCut, Cleared;
      var i := 0;
      while i < |g.heap[h].hash|
        invariant Marking(g, {}, ph, s) && ValuesDone(g0, g, h, i, a) && KeptTable(g0, g, h)
        invariant g.heap == g0.heap[h := g.heap[h]] && i <= |g.heap[h].hash|
        decreases |g0.heap[h].hash| - i
      {
        ghost var g1 := g;
        DoneFacts(g0, g, h, i, a);
        ClearEntryValue(h, i, a, ph, s);
        NextValueDone(g0, g1, g, h, i, a);
        DoneFacts(g0, g, h, i + 1, a);
        i := i + 1;
      }
    }

    /** `clearkeys` of one table: the entries with unmarked keys are taken out, and no others. */
    method ClearKeysOf(h: Ref, ghost a: set<Ref>, ghost ph: Phase, ghost s: Bounds)
      requires Marking(g, {}, ph, s) && h in g.heap && Marked(g, h) && g.heap[h].Table? && MayClearKeys(g, h, a)
      modifies this
      ensures Marking(g, {}, ph, s) && ClearStep(old(g), g, a) && AllKeysMarked(g, h)
      ensures g.heap == old(g).heap[h := g.heap[h]]
      ensures KeysCut(old(g), old(g).heap[h], g.heap[h], |old(g).heap[h].hash|)
    {
      hide Marking, ClearStep, MayClearKeys, KeysDone, SlotsDone, ValuesDone, KeyCut, Cleared;
      KeysSame(g, {}, ph, s);
      FirstDone(g, h, a);
      var i := 0;
      while i < |g.heap[h].hash|
        invariant Marking(g, {}, ph, s) && KeysDone(old(g), g, h, i, a) && KeptTable(old(g), g, h)
        invariant g.heap == old(g).heap[h := g.heap[h]] && i <= |g.heap[h].hash|
        decreases |old(g).heap[h].hash| - i
      {
        ghost var g1 := g;
        DoneFacts(old(g), g, h, i, a);
        ClearEntryKey(h, i, a, ph, s);
        NextKeyDone(old(g), g1, g, h, i, a);
        DoneFacts(old(g), g, h, i + 1, a);
        i := i + 1;
      }
      KeysAreDone(old(g), g, h, a);
    }

    /** `clearvalues` of a list. */
    method ClearValues(l: set<Ref>, ghost g0: G, ghost s: Bounds, ghost a: set<Ref>)
      requires Clearing(g0, g, s, a) && l <= g.weak + g.allweak && ValuesClearable(g, l, a)
      modifies this
      ensures Clearing(g0, g, s, a) && ClearMore(old(g), g) && AllValues(g, l) && ValuesCutIn(old(g), g, l)
    {
      hide Clearing, ClearMore, ValuesClearable, ValuesLoop, ValuesMarked, MayClearValues, ValuesCut, ValuesCutIn;
      ghost var start := g;
      StartValues(g0, g, s, a, l);
      var todo := l;
      while todo != {}
        invariant start == old(g) && ValuesLoop(start, g0, g, s, a, l, todo)
        decreases todo
      {
        var h :| h in todo;
        ghost var g1 := g;
        ValuesLoopFacts(start, g0, g, s, a, l, todo, h);
        ClearValuesOf(h, a, Phase({}, true, s.lost), s);
        NextValues(start, g0, g1, g, s, a, l, todo, h);
        todo := todo - {h};
      }
      EndValues(start, g0, g, s, a, l);
    }

    /** `clearkeys` of a list. */
    method ClearKeys(l: set<Ref>, ghost g0: G, ghost s: Bounds, ghost a: set<Ref>)
      requires Clearing(g0, g, s, a) && l <= g.ephemeron + g.allweak && KeysClearable(g, l, a)
      modifies this
      ensures Clearing(g0, g, s, a) && ClearMore(old(g), g) && AllKeys(g, l) && KeysCutIn(old(g), g, l)
    {
      hide Clearing, ClearMore, KeysClearable, KeysLoop, AllKeysMarked, MayClearKeys, KeysCut, KeysCutIn;
      ghost var start := g;
      StartKeys(g0, g, s, a, l);
      var todo := l;
      while todo != {}
        invariant start == old(g) && KeysLoop(start, g0, g, s, a, l, todo)
        decreases todo
      {
        var h :| h in todo;
        ghost var g1 := g;
        KeysLoopFacts(start, g0, g, s, a, l, todo, h);
        ClearKeysOf(h, a, Phase({}, true, s.lost), s);
        NextKeys(start, g0, g1, g, s, a, l, todo, h);
        todo := todo - {h};
      }
      EndKeys(start, g0, g, s, a, l);
    }

    /** `atomic` up to the point where everything that must stay is marked. */
    method AtomicMark(ghost s: Bounds)
      requires Marking(g, {}, Phase({}, true, s.lost), s) && g.state == State.Atomic && Marked(g, g.main)
      modifies this
      ensures Gathering(old(g).(state := InsideAtomic), g, Phase({}, true, s.lost), s) && g.gray == {} && Idle(g)
      ensures RootsMarked(g) && TwupsMarked(g)
    {
      hide Marking, Gathering, MarksGrew, Remarks, Trav, Adv, Idle, AllMarked, OnlyStrings, InS, AllInS, Live, AllLive;
      var saved := g.grayagain;
      ghost var ph := Phase(saved, true, s.lost);
      GatherStart(g, s);
      g := g.(state := InsideAtomic);
      ghost var start := g;
      GatherFacts(start, g, ph, s);
      assert MarkedV(g, Gc(g.main));
      ghost var g1 := g;
      MarkValue(Gc(g.running), {}, ph, s);
      GatherMarks(start, g1, g, ph, s);
      RootsStay(g1, g);
      GatherFacts(start, g, ph, s);
      ghost var g2 := g;
      MarkValue(g.registry, {}, ph, s);
      GatherMarks(start, g2, g, ph, s);
      RootsStay(g2, g);
      GatherFacts(start, g, ph, s);
      ghost var g3 := g;
      MarkAll(g.mts, {}, ph, s);
      GatherMarks(start, g3, g, ph, s);
      RootsStay(g3, g);
      assert RootsMarked(g) by {
        assert MarkedV(g, Gc(g.running)) && MarkedV(g, g.registry) && MarkedV(g, Gc(g.main));
      }
      GatherFacts(start, g, ph, s);
      ghost var g4 := g;
      RemarkUpvals(ph, s);
      GatherRemarks(start, g4, g, ph, s);
      RootsStay(g4, g);
      GatherFacts(start, g, ph, s);
      ghost var g5 := g;
      PropagateAll({}, ph, s);
      GatherTrav(start, g5, g, ph, s);
      RootsStay(g5, g);
      GatherSaved(start, g, saved, s);
      ghost var g6 := g;
      g := g.(gray := saved);
      RootsStay(g6, g);
      ph := Phase({}, true, s.lost);
      GatherFacts(start, g, ph, s);
      ghost var g7 := g;
      PropagateAll({}, ph, s);
      GatherTrav(start, g7, g, ph, s);
      RootsStay(g7, g);
      GatherFacts(start, g, ph, s);
      ghost var g8 := g;
      ConvergeEphemerons(ph, s);
      GatherTrav(start, g8, g, ph, s);
      RootsStay(g8, g);
    }

    /** `atomic` from there: weak tables are cleared. Without finalizers nothing is marked in between but strings. */
    method AtomicClear(ghost s: Bounds, ghost a: set<Ref>)
      requires Clearing(g, g, s, a)
      modifies this
      ensures Clearing(old(g), g, s, a) && AllClear(g)
    {
      hide Clearing, ClearMore, AllValues, AllKeys, ValuesClearable, KeysClearable, Marking, Trav, Adv, OnlyStrings,
        Idle, AllClear, RootsMarked, ValuesCutIn, KeysCutIn;
      ghost var g0 := g;
      ghost var ph := Phase({}, true, s.lost);
      ClearFacts2(g0, g, s, a);
      ClearValues(g.weak, g0, s, a);
      MoreLists(g0, g);
      ghost var g1 := g;
      ClearFacts2(g0, g, s, a);
      ClearValues(g.allweak, g0, s, a);
      MoreLists(g1, g);
      ListsKeep(g1, g, g.weak);
      var origWeak, origAll := g.weak, g.allweak;
      ghost var g2 := g;
      ClearFacts2(g0, g, s, a);
      ConvergeEphemerons(ph, s);
      ClearConverge(g0, g2, g, s, a);
      ListsStay(g2, g, origWeak);
      ListsStay(g2, g, origAll);
      ghost var g3 := g;
      ClearFacts2(g0, g, s, a);
      ClearKeys(g.ephemeron, g0, s, a);
      MoreLists(g3, g);
      ListsKeep(g3, g, origWeak);
      ListsKeep(g3, g, origAll);
      ghost var g4 := g;
      ClearFacts2(g0, g, s, a);
      ClearKeys(g.allweak, g0, s, a);
      MoreLists(g4, g);
      ListsKeep(g4, g, origWeak);
      ListsKeep(g4, g, origAll);
      ListsKeep(g4, g, g.ephemeron);
      ghost var g5 := g;
      ClearFacts2(g0, g, s, a);
      ClearablePart(g, g.weak, origWeak, a);
      ClearValues(g.weak - origWeak, g0, s, a);
      MoreLists(g5, g);
      ListsKeep(g5, g, origWeak);
      ListsKeep(g5, g, origAll);
      ListsKeep(g5, g, g.ephemeron);
      ListsKeep(g5, g, g.allweak);
      ghost var g6 := g;
      ClearFacts2(g0, g, s, a);
      ClearablePart(g, g.allweak, origAll, a);
      ClearValues(g.allweak - origAll, g0, s, a);
      MoreLists(g6, g);
      ListsKeep(g6, g, origWeak);
      ListsKeep(g6, g, g.weak - origWeak);
      ListsKeep(g6, g, origAll);
      ListsKeep(g6, g, g.ephemeron);
      ListsKeep(g6, g, g.allweak);
      AllIsClear(g0, g, s, a, origWeak, origAll);
    }

    /** `atomic`: marks what is left, clears weak tables and exchanges the whites. The tables of a have waited in
        `allweak` since before, whatever their modes are now. */
    method Atomic(ghost s: Bounds, ghost a: set<Ref>)
      requires Marking(g, {}, Phase({}, true, s.lost), s) && g.state == State.Atomic && Marked(g, g.main)
      requires AllFit(g, a)
      modifies this
      ensures Flipped(g, s) && g.state == InsideAtomic && Forgets(old(g), g, a)
    {
      hide Marking, Gathering, Clearing, AllClear, Idle, RootsMarked, TwupsMarked, Flipped, Forgets, AllFit;
      ghost var start := g.(state := InsideAtomic);
      FitInside(g, a);
      AtomicMark(s);
      ghost var g1 := g;
      ClearStart(start, g, s, a);
      AtomicClear(s, a);
      AtomicEnd(old(g), g1, g, s, a);
      g := g.(white := !g.white);
    }

    // ---- sweeping ----

    /** `luaE_freethread`: the upvalues of a dying thread are closed before its stack goes. */
    method FreeThread(th: Ref)
      modifies this
      ensures g == old(g).(ups := CloseThread(old(g), th))
    {
      var i := 0;
      ghost var g0 := g;
      while i < |g.ups|
        invariant i <= |g.ups| == |g0.ups| && g == g0.(ups := g.ups)
        invariant forall j :: 0 <= j < |g.ups| ==> g.ups[j] == if j < i then CloseThread(g0, th)[j] else g0.ups[j]
      {
        var u := g.ups[i];
        if u.Open? && u.th == th {
          g := g.(ups := g.ups[i := Closed(UpValue(g, u))]);
        }
        i := i + 1;
      }
      assert g.ups == CloseThread(g0, th);
    }

    /** One object of `sweeplist`: if dead it is freed, otherwise it turns white. */
    method SweepOne()
      requires Sweeping(g) && g.rem > 0
      modifies this
      ensures Sweeping(g) && SweepRel(old(g), g) && g.state == old(g).state && g.gray == old(g).gray
      ensures g.rem == old(g).rem - 1
    {
      hide SweepRel, Sweeping, Sound;
      ghost var g1 := g;
      SweepSize(g);
      var curr := g.allgc[|g.allgc| - g.rem];
      SweepFacts(g, curr);
      if Dead(g, curr) {
        Free(g, curr);
        FreeRel(g, curr);
        if g.heap[curr].Thread? {
          FreeThread(curr);
        } else {
          NoUpvalues(g1, g, curr);
        }
        g := g.(allgc := Without(g.allgc, |g.allgc| - g.rem), heap := g.heap - {curr}, mark := g.mark - {curr},
            rem := g.rem - 1);
        SameFreed(g1, g, curr);
      } else {
        Whiten(g, curr);
        WhitenRel(g, curr);
        g := g.(mark := g.mark[curr := White(g.white)], rem := g.rem - 1);
      }
    }

    /** `sweeplist`: at most count objects; the dead are freed, the others turn white. */
    method SweepList(count: nat)
      requires Sweeping(g)
      modifies this
      ensures Sweeping(g) && SweepRel(old(g), g) && g.state == old(g).state && g.gray == old(g).gray
      ensures g.rem <= old(g).rem && (count > 0 && old(g).rem > 0 ==> g.rem < old(g).rem)
    {
      hide SweepRel, Sweeping;
      SweepSelf(g);
      var n := count;
      while g.rem > 0 && n > 0
        invariant Sweeping(g) && SweepRel(old(g), g) && g.state == old(g).state && g.gray == old(g).gray
        invariant g.rem <= old(g).rem && (n < count ==> g.rem < old(g).rem) && n <= count
        decreases n
      {
        ghost var g1 := g;
        SweepOne();
        SweepTrans(old(g), g1, g);
        n := n - 1;
      }
    }

    /** `entersweep`: the first object is swept at once. */
    method EnterSweep()
      requires MaySweep(g)
      modifies this
      ensures Inv(g) && SweepRel(old(g).(state := SwpAllGc, rem := |old(g).allgc|), g) && g.state == SwpAllGc
      ensures !KeepInvariant(g)
    {
      hide SweepRel, Sweeping, MaySweep, Inv;
      StartSweep(g);
      g := g.(state := SwpAllGc, rem := |g.allgc|);
      SweepList(1);
      SweepingInv(g);
    }

    /** `sweepstep`; the lists of objects with finalizers are empty. */
    method SweepStep(next: State)
      requires Inv(g) && IsSweepPhase(g) && g.state != SwpEnd && Rank(next) + 1 == Rank(g.state)
      modifies this
      ensures Inv(g) && SweepRel(old(g), g) && (g.state == next || g.state == old(g).state == SwpAllGc)
      ensures Closer(old(g), g)
    {
      hide SweepRel, Sweeping, Inv;
      InvSweeping(g);
      SweepSelf(g);
      if g.rem > 0 {
        InvRem(g);
        SweepList(GCSWEEPMAX);
        if g.rem > 0 {
          SweepingInv(g);
          return;
        }
      }
      ghost var g1 := g;
      SweepNext(g, next);
      StateRel(g, next);
      SweepTrans(old(g), g1, g.(state := next));
      g := g.(state := next);
    }

    /** `restartcollection`: empty lists, and the roots are marked. */
    method RestartCollection(ghost s: Bounds)
      requires Inv(g) && g.state == Pause && KeepStrict(g, s)
      modifies this
      ensures Marking(g, {}, Idling(), s) && MarksGrew(Emptied(old(g)), g) && Marked(g, g.main) && g.gray != {}
      ensures g.state == Pause && g.rem == 0 && AllMarked(g, g.mts)
    {
      hide Inv, KeepStrict, Marking, MarksGrew, InS, Live, AllInS, AllLive;
      MainIsWhite(g);
      Restarted(g, s);
      g := Emptied(g);
      ghost var start := g;
      RootFacts(g, Idling(), s);
      SelfGrew(g);
      MarkValue(Gc(g.main), {}, Idling(), s);
      RootFacts(g, Idling(), s);
      ghost var g1 := g;
      MarkValue(g.registry, {}, Idling(), s);
      GrewTrans(start, g1, g);
      RootFacts(g, Idling(), s);
      ghost var g2 := g;
      MarkAll(g.mts, {}, Idling(), s);
      GrewTrans(start, g2, g);
      GrewMarked(g1, g2, g1.main);
      GrewMarked(g2, g, g1.main);
      MainGray(start, g1);
      MainGray(start, g);
    }

    /** `singlestep`. Whatever set of objects a collection may keep, it keeps no others. */
    method SingleStep(ghost s: Bounds)
      requires Inv(g) && Prec(g, s)
      modifies this
      ensures Inv(g) && (old(g).state != CallFin ==> Prec(g, s))
      ensures old(g).state == Pause ==> g.state == Propagate
      ensures old(g).state != Pause ==> Closer(old(g), g) && (g.state == Pause ==> old(g).state == CallFin)
      ensures !KeepInvariant(old(g)) && old(g).state != Pause ==> SweepRel(old(g), g)
      ensures StepKeeps(old(g), g)
      ensures old(g).state == Pause || old(g).state == Propagate ==> AllBuried(old(g), g)
      ensures old(g).state == Propagate ==> (g.state == Propagate || (g.state == State.Atomic && g.gray == {}))
      ensures old(g).state == Propagate ==> forall t :: Due(old(g), t) ==> Due(g, t)
      ensures old(g).state == Pause ==>
                forall i :: 0 <= i < |old(g).mts| && Waits(old(g), old(g).mts[i]) ==> Due(g, old(g).mts[i].r)
    {
      hide Inv, KeepStrict, Marking, MarksGrew, Bound, NonDeadIn, SweepRel, Trav, Whites, Flipped, Forgets, MaySweep,
        StepKeeps, Survives, Due, Waits, AllMarked, Linkage, AllFit;
      match g.state {
        case Pause =>
          RestartCollection(s);
          RestartDone(g, s);
          RestartUnseen(old(g), g);
          RestartKeeps(old(g), g);
          RestartDue(old(g), g);
          g := g.(state := Propagate);
        case Propagate =>
          InvMarking(g, s);
          PropagateMark({}, Idling(), s);
          PropagateDone(old(g), g, s);
          TravBuried(old(g), g);
          ghost var g1 := g;
          if g.gray == {} {
            MarkState(g, State.Atomic, Idling(), s);
            g := g.(state := State.Atomic);
          }
          DueState(g1, g);
          MarkKeeps(old(g), g1, g);
          MarkingInv(g, s);
        case Atomic =>
          InvMarking(g, s);
          HoldProgram(g, Idling(), s);
          PropagateAll({}, Phase({}, true, s.lost), s);
          PropagateDone(old(g), g, s);
          ghost var g1 := g;
          NewlyFit(old(g), g);
          Atomic(s, old(g).allweak);
          ghost var g3 := g;
          FlippedSweeps(g, s);
          EnteredIn(g, s);
          ghost var g2 := g.(state := SwpAllGc, rem := |g.allgc|);
          EnterSweep();
          SweepIn(g2, g, s);
          AtomicKeeps(old(g), g1, g3, g);
        case SwpAllGc =>
          SweepStep(SwpFinObj);
          SweepIn(old(g), g, s);
          SweepKeeps(old(g), g);
        case SwpFinObj =>
          SweepStep(SwpToBeFnz);
          SweepIn(old(g), g, s);
          SweepKeeps(old(g), g);
        case SwpToBeFnz =>
          SweepStep(SwpEnd);
          SweepIn(old(g), g, s);
          SweepKeeps(old(g), g);
        case SwpEnd =>
          InvMain(g);
          SweepMain(g);
          g := g.(mark := g.mark[g.main := White(g.white)], state := CallFin);
          SweepIn(old(g), g, s);
          SweepKeeps(old(g), g);
        case CallFin =>
          Finish(g);
          g := g.(state := Pause);
          SweepKeeps(old(g), g);
        case InsideAtomic =>
          InvState(g);
      }
    }

    /** `luaC_fullgc`: afterwards nothing is left outside any set that a collection may keep. What is left has its
        contents but for what weak tables lose by their modes, and all that it holds, strongly or by the keys of
        ephemerons, is left. */
    method FullGc()
      requires Inv(g)
      modifies this
      ensures Inv(g) && g.state == Pause
      ensures forall keep :: Keepable(old(g), keep) ==> g.heap.Keys <= keep
      ensures Survives(old(g), g, {}) && Complete(old(g), g.heap.Keys, {})
    {
      hide Inv, KeepStrict, Bound, NonDeadIn, SweepRel, Closer, MaySweep, KeepSet, Survives, StepKeeps, Due, Waits,
        Complete, AllBuried, Untouched, Course, Keepable, Least;
      ghost var g0 := g;
      ghost var s := Bounds(Least(g0.(allweak := {}), {}), {});
      ghost var known := exists keep :: Keepable(g0, keep);
      LeastStrict(g0);
      SurvivesSelf(g);
      if KeepInvariant(g) {
        InvSweeps(g);
        StartKeeps(g, s);
        ghost var g1 := g.(state := SwpAllGc, rem := |g.allgc|);
        EnterSweep();
        if KeepStrict(g1, s) { KeepSwept(g1, g, s); }
        EnterSurvives(g0, g1, g);
      }
      while g.state != Pause
        invariant Inv(g) && !KeepInvariant(g) && (known ==> KeepStrict(g, s))
        invariant Survives(g0, g, {}) && Untouched(g0, g)
        decreases Rank(g.state), if g.state == Propagate then Whites(g) else {}, g.gray, g.rem
      {
        ghost var g1 := g;
        HeapKeeps(g);
        SingleStep(Bounds(g.heap.Keys, {}));
        CloserMeans(g1, g);
        if KeepStrict(g1, s) { KeepSwept(g1, g, s); }
        SweepSurvives(g1, g);
        InvIsSound(g1);
        SurvivesTrans(g0, g1, g);
        UntouchedTrans(g0, g1, g);
      }
      HeapKeeps(g);
      ghost var b := if known then s else Bounds(g.heap.Keys, {});
      ghost var g2 := g;
      SingleStep(b);
      CourseBegins(g0, g2, g);
      while g.state != CallFin
        invariant Inv(g) && g.state != Pause && Prec(g, b) && Course(g0, g)
        decreases Rank(g.state), if g.state == Propagate then Whites(g) else {}, g.gray, g.rem
      {
        ghost var g1 := g;
        SingleStep(b);
        CloserMeans(g1, g);
        CourseGoes(g0, g1, g);
      }
      SweptIn(g, b);
      ghost var g3 := g;
      Finish(g);
      SingleStep(b);
      CloserMeans(g3, g);
      CourseGoes(g0, g3, g);
      FinishedIn(g3, g, b);
      CourseEnds(g0, g);
    }

    // ---- the program ----

    /** A store of v into h, followed by `luaC_barrier`: a black object that gets a white value makes the
        collector mark the value, or, in the sweep, is swept at once. */
    method Store(h: Ref, o: Obj, v: Value)
      requires Inv(g) && MayStore(g, h, o, v) && (KeepInvariant(g) && h in g.allweak ==> o.Table? && MarkedV(g, o.tmt))
      modifies this
      ensures Inv(g) && g == old(g).(heap := old(g).heap[h := o], mark := g.mark, gray := g.gray)
      ensures !IsBlack(old(g), h) ==> g.mark == old(g).mark && g.gray == old(g).gray
    {
      hide Inv, OneNew, RefsLive, Marking, MarksGrew, Ok;
      StoreLive(g, h, o, v);
      InvFacts(g);
      ghost var g0 := g;
      if v.Gc? && IsBlack(g, h) && IsWhite(g, v.r) {
        if KeepInvariant(g) {
          ReplaceHeld(g, h, o);
          g := g.(heap := g.heap[h := o]);
          ghost var g1 := g;
          ReallyMark(v.r, {h}, Idling(), Everything(g));
          StoreClosed(g0, g, h, o, v);
          MainStays(g1, g);
          Unskip(g, {h}, Everything(g1));
          BackToInv(g, Everything(g1));
        } else {
          BlackSweeps(g, h);
          ReplaceInv(g, h, o);
          g := g.(heap := g.heap[h := o]);
          SweepColor(g, h, White(g.white), g.grayagain);
          g := g.(mark := g.mark[h := White(g.white)]);
        }
      } else {
        if KeepInvariant(g) { StoreOk(g, h, o, v); }
        ReplaceInv(g, h, o);
        g := g.(heap := g.heap[h := o]);
      }
    }

    /** A store of v into a table, followed by `luaC_barrierback`: a black table that gets a white value turns
        gray, to be traversed again. With no new value this is a rehash. */
    method StoreTable(t: Ref, o: Obj, v: Value)
      requires Inv(g) && MayStore(g, t, o, v) && o.Table? && o.tmt == g.heap[t].tmt
      modifies this
      ensures Inv(g) && g == old(g).(heap := old(g).heap[t := o], mark := g.mark, grayagain := g.grayagain)
    {
      hide Inv, OneNew, RefsLive, Marking, MarksGrew, Ok;
      StoreLive(g, t, o, v);
      InvFacts(g);
      AllWeakMeta(g, t);
      if v.Gc? && IsBlack(g, t) && IsWhite(g, v.r) {
        if KeepInvariant(g) {
          ReplaceHeld(g, t, o);
          ghost var g1 := g.(heap := g.heap[t := o]);
          BackLinked(g1, t);
          g := g.(heap := g.heap[t := o], mark := g.mark[t := Gray], grayagain := g.grayagain + {t});
          BackToInv(g, Everything(g1));
        } else {
          BlackSweeps(g, t);
          ReplaceInv(g, t, o);
          g := g.(heap := g.heap[t := o]);
          SweepColor(g, t, Gray, g.grayagain + {t});
          g := g.(mark := g.mark[t := Gray], grayagain := g.grayagain + {t});
        }
      } else {
        if KeepInvariant(g) { StoreOk(g, t, o, v); }
        ReplaceInv(g, t, o);
        g := g.(heap := g.heap[t := o]);
      }
    }

    /** `lua_setmetatable` of a table. The invariant is kept exactly if the collector will look at the metatable. */
    method SetMetatable(t: Ref, mt: Value, mode: Mode)
      requires Inv(g) && Allocated(g, t) && g.heap[t].Table? && Live(g, mt)
      modifies this
      ensures Inv(g) <==> !old(Loses(g, t, mt))
      ensures g == old(g).(heap := old(g).heap[t := old(g).heap[t].(tmt := mt, mode := mode)], mark := g.mark,
                gray := g.gray)
      ensures old(Loses(g, t, mt)) ==> g.mark == old(g).mark && g.gray == old(g).gray && LostInv(g, t)
      ensures !IsBlack(old(g), t) ==> g.mark == old(g).mark && g.gray == old(g).gray
    {
      hide Inv, OneNew;
      var o := g.heap[t].(tmt := mt, mode := mode);
      MetaStore(g, t, mt, mode);
      if Loses(g, t, mt) {
        AllWeakGray(g, t);
        LoseInv(g, t, o);
        g := g.(heap := g.heap[t := o]);
      } else {
        KeptMeta(g, t, mt);
        Store(t, o, mt);
      }
    }

    /** `luaC_newobj`; r is the address that the allocator has found. */
    method New(r: Ref, o: Obj)
      requires Inv(g) && r !in g.heap && RefsLive(g, o)
      modifies this
      ensures Inv(g) && Allocated(g, r) && g == Created(old(g), r, o)
    {
      hide Inv, RefsLive;
      CreatedInv(g, r, o);
      var rem := if g.rem > 0 && g.rem == |g.allgc| then g.rem + 1 else g.rem;
      g := g.(heap := g.heap[r := o], mark := g.mark[r := White(g.white)], allgc := [r] + g.allgc, rem := rem);
    }

    /** Stores in a stack, pushes and pops; stacks have no barrier. */
    method SetStack(th: Ref, st: seq<Value>)
      requires Inv(g) && MayPush(g, th, st)
      modifies this
      ensures Inv(g) && g == old(g).(heap := old(g).heap[th := Thread(st)])
    {
      hide Inv;
      StackInv(g, th, st);
      g := g.(heap := g.heap[th := Thread(st)]);
    }

    /** Another thread runs; stores in the registry and in the metatables of basic types have no barrier either. */
    method SetRoots(running: Ref, registry: Value, mts: seq<Value>)
      requires Inv(g) && Allocated(g, running) && g.heap[running].Thread? && Live(g, registry) && AllLive(g, mts)
      modifies this
      ensures Inv(g) && g == old(g).(running := running, registry := registry, mts := mts)
    {
      hide Inv;
      RootsInv(g, running, registry, mts);
      g := g.(running := running, registry := registry, mts := mts);
    }

    /** `pushclosure` remembers the new closure in its prototype, unless that is black already. */
    method SetCache(p: Ref, c: Value)
      requires Inv(g) && Allocated(g, p) && g.heap[p].Proto? && Live(g, c)
      modifies this
      ensures Inv(g)
      ensures g == if IsBlack(old(g), p) then old(g) else old(g).(heap := old(g).heap[p := old(g).heap[p].(cache := c)])
    {
      hide Inv, MayStore, Ok;
      if !IsBlack(g, p) {
        var o := g.heap[p].(cache := c);
        CacheStore(g, p, c);
        StoreLive(g, p, o, c);
        if KeepInvariant(g) {
          NotAllWeak(g, p);
          StoreOk(g, p, o, c);
        }
        ReplaceInv(g, p, o);
        g := g.(heap := g.heap[p := o]);
      }
    }

    /** A value goes into a closed upvalue, followed by `luaC_upvalbarrier`: since any closure may share it, the
        value must be marked. */
    method PutUpvalue(u: nat, v: Value)
      requires Inv(g) && u < |g.ups| && Live(g, v)
      modifies this
      ensures Inv(g) && g == old(g).(ups := old(g).ups[u := Closed(v)], mark := g.mark, gray := g.gray)
      ensures if KeepInvariant(g) then MarkedV(g, v) && MarksGrew(old(g).(ups := g.ups), g)
              else g.mark == old(g).mark && g.gray == old(g).gray
    {
      hide Inv, Marking, MarksGrew, Sharers, Live;
      ghost var g0 := g;
      InvFacts(g);
      if KeepInvariant(g) {
        UpHeld(g, u, v);
        g := g.(ups := g.ups[u := Closed(v)]);
        ghost var g1 := g;
        ghost var s := Everything(g1);
        SelfGrew(g);
        if v.Gc? && IsWhite(g, v.r) {
          MarkIsIn(g0, v);
          ReallyMark(v.r, Sharers(g0, u), Idling(), s);
        } else {
          LiveMarked(g0, g, v);
        }
        SharersOk(g0, g, u, v);
        MainStays(g1, g);
        Unskip(g, Sharers(g0, u), s);
        BackToInv(g, s);
      } else {
        UpInv(g, u, v);
        g := g.(ups := g.ups[u := Closed(v)]);
      }
    }

    /** `OP_SETUPVAL`: an open upvalue lives in a stack, and needs no barrier. */
    method SetUpvalue(c: Ref, n: nat, v: Value)
      requires Inv(g) && Allocated(g, c) && g.heap[c].Closure? && n < |g.heap[c].upvals| && Live(g, v)
      modifies this
      ensures Inv(g) && c in g.heap && g.heap[c] == old(g).heap[c] && g.heap[c].upvals[n] < |g.ups|
      ensures UpValue(g, g.ups[g.heap[c].upvals[n]]) == v
      ensures UpStored(old(g), g.heap[c].upvals[n], v, g)
      ensures KeepInvariant(g) && old(g).ups[g.heap[c].upvals[n]].Closed? ==>
                MarkedV(g, v) && MarksGrew(old(g).(ups := g.ups), g)
    {
      hide Inv;
      UpOf(g, c, n);
      var u := g.heap[c].upvals[n];
      match g.ups[u] {
        case Open(th, slot, _) =>
          SlotStore(g, u, v);
          SetStack(th, g.heap[th].stack[slot := v]);
        case Closed(_) =>
          PutUpvalue(u, v);
      }
    }

    /** `luaF_findupval`: the open upvalue of a stack slot, a new one if there is none. */
    method FindUpvalue(th: Ref, slot: nat) returns (u: nat)
      requires Inv(g) && Allocated(g, th) && g.heap[th].Thread? && slot < |g.heap[th].stack|
      modifies this
      ensures Inv(g) && u < |g.ups| && g.ups[u].Open? && g.ups[u].th == th && g.ups[u].slot == slot
      ensures (exists i :: 0 <= i < |old(g).ups| && IsSlot(old(g).ups[i], th, slot)) ==> g == old(g)
      ensures (forall i :: 0 <= i < |old(g).ups| ==> !IsSlot(old(g).ups[i], th, slot)) ==> g == Opened(old(g), th, slot)
    {
      hide Inv;
      u := 0;
      while u < |g.ups|
        invariant u <= |g.ups| && forall i :: 0 <= i < u ==> !IsSlot(g.ups[i], th, slot)
      {
        if IsSlot(g.ups[u], th, slot) {
          return;
        }
        u := u + 1;
      }
      OpenedInv(g, th, slot);
      g := g.(ups := g.ups + [Open(th, slot, true)], twups := g.twups + {th});
    }

    /** `luaF_close`: the open upvalues of a thread at or above a level get their own values. */
    method CloseUpvalues(th: Ref, level: nat)
      requires Inv(g) && Allocated(g, th) && g.heap[th].Thread?
      modifies this
      ensures Inv(g) && UpsClosed(old(g), th, level, g)
      ensures forall i :: 0 <= i < |g.ups| ==> UpValue(g, g.ups[i]) == UpValue(old(g), old(g).ups[i])
      ensures forall i :: 0 <= i < |g.ups| ==>
                  g.ups[i] == if Closes(old(g).ups[i], th, level) then Closed(UpValue(old(g), old(g).ups[i]))
                  else old(g).ups[i]
    {
      hide Inv;
      var i := 0;
      while i < |g.ups|
        invariant Inv(g) && i <= |g.ups| == |old(g).ups| && g == old(g).(ups := g.ups, mark := g.mark, gray := g.gray)
        invariant Allocated(g, th)
        invariant forall j :: 0 <= j < |g.ups| ==>
          g.ups[j] == if j < i && Closes(old(g).ups[j], th, level) then Closed(UpValue(old(g), old(g).ups[j]))
            else old(g).ups[j]
      {
        if Closes(g.ups[i], th, level) {
          StackValue(g, i, th);
          ghost var g1 := g;
          PutUpvalue(i, UpValue(g, g.ups[i]));
          StillAllocated(g1, g, th);
        }
        i := i + 1;
      }
    }

    /** `lua_upvaluejoin`: closure c shares upvalue u from now on. */
    method JoinUpvalue(c: Ref, n: nat, u: nat)
      requires Inv(g) && MayJoin(g, c, n, u)
      modifies this
      ensures Inv(g) && g == Joined(old(g), c, n, u).(mark := g.mark, gray := g.gray)
    {
      hide Inv, Marking, MarksGrew, Ok, Live, RefsLive, Whites;
      ghost var g0 := g;
      InvFacts(g);
      var x := g.ups[u];
      if KeepInvariant(g) {
        JoinedHeld(g, c, n, u);
        OkOf(g, c);
        if x.Open? { OpenListed(g, u); }
      } else {
        JoinedInv(g, c, n, u);
      }
      g := g.(heap := g.heap[c := g.heap[c].(upvals := g.heap[c].upvals[n := u])]);
      if x.Open? {
        g := g.(ups := g.ups[u := x.(touched := true)]);
      }
      ghost var g1 := g;
      assert g1 == Joined(g0, c, n, u);
      if KeepInvariant(g) {
        ghost var skip := if IsBlack(g0, c) then {c} else {};
        ghost var s := Everything(g1);
        SelfGrew(g);
        if x.Closed? && x.v.Gc? && IsWhite(g, x.v.r) {
          MarkIsIn(g0, x.v);
          ReallyMark(x.v.r, skip, Idling(), s);
        } else if x.Closed? {
          LiveMarked(g0, g, x.v);
        }
        if IsBlack(g0, c) { JoinedOk(g0, g, c, n, u); }
        MainStays(g1, g);
        Unskip(g, skip, s);
        BackToInv(g, s);
      }
    }

    /** One action. */
    method Do(op: Op)
      requires Inv(g) && Enabled(g, op) && !Careless(g, op)
      modifies this
      ensures Inv(g) && Effect(op, old(g), g)
    {
      hide Inv, MayStore, Loses, RefsLive, Live, Survives, StepKeeps, Complete, Keepable, UpStored, Due, Waits,
        AllBuried, UpValue, Closer, SweepRel, Prec, Allowed;
      match op {
        case Step =>
          ghost var allowed := Allowed(g);
          AllowedBounds(g);
          InvState(g);
          SingleStep(Bounds(allowed, {}));
          if old(g).state != CallFin { AllowedLeast(g, allowed); }
        case FullCollect =>
          FullGc();
        case Create(r, o) =>
          New(r, o);
        case Put(h, o, v) =>
          NotTable(g, h, o, v);
          Store(h, o, v);
        case PutTable(h, o, v) =>
          StoreTable(h, o, v);
        case PutMeta(h, mt, mode) =>
          SetMetatable(h, mt, mode);
        case PutCache(h, c) =>
          SetCache(h, c);
        case PutStack(h, st) =>
          SetStack(h, st);
        case PutRoots(h, v, vs) =>
          SetRoots(h, v, vs);
        case PutUp(h, n, v) =>
          UpOf(g, h, n);
          SetUpvalue(h, n, v);
        case FindUp(h, slot) =>
          var _ := FindUpvalue(h, slot);
          FoundOrOpened(old(g), g, h, slot);
        case CloseUps(h, level) =>
          CloseUpvalues(h, level);
        case Join(h, n, u) =>
          JoinUpvalue(h, n, u);
      }
    }

    /** A whole run: actions that the program cannot take are passed over. The run stops before a store that loses a
        metatable. Up to there every state differs from the one before as its action says, and nothing that the program
        can reach has been freed in any of them. */
    method Run(ops: seq<Op>) returns (n: nat, ghost trace: seq<G>)
      requires Inv(g)
      modifies this
      ensures Inv(g) && n <= |ops| && (n < |ops| ==> Enabled(g, ops[n]) && Careless(g, ops[n]))
      ensures |trace| == n + 1 && trace[0] == old(g) && trace[n] == g
      ensures forall i :: 0 <= i <= n ==> Inv(trace[i])
      ensures forall i :: 0 <= i < n ==> Acted(ops[i], trace[i], trace[i + 1])
      ensures forall i, v :: 0 <= i <= n && Accessible(trace[i], v) && v.Gc? ==>
                  v.r in trace[i].heap && !Dead(trace[i], v.r)
    {
      hide Inv, Enabled, Careless, Accessible, Acted, Effect;
      n := 0;
      trace := [g];
      while n < |ops|
        invariant n <= |ops| && |trace| == n + 1 && trace[0] == old(g) && trace[n] == g
        invariant forall i :: 0 <= i <= n ==> Inv(trace[i])
        invariant forall i :: 0 <= i < n ==> Acted(ops[i], trace[i], trace[i + 1])
      {
        ghost var g1 := g;
        if Enabled(g, ops[n]) {
          if Careless(g, ops[n]) {
            break;
          }
          Do(ops[n]);
        }
        ActedNow(ops[n], g1, g);
        trace := trace + [g];
        n := n + 1;
      }
      forall i, v | 0 <= i <= n && Accessible(trace[i], v) && v.Gc?
        ensures v.r in trace[i].heap && !Dead(trace[i], v.r)
      {
        AccessibleIsAllocated(trace[i], v);
      }
    }
  }

  /** In a run, as many steps in a row as a cycle takes, from a pause on, come back to a pause. By then everything has
      been freed that is outside some set that could be kept at the beginning, and all that the roots hold is left. */
  lemma StepsCollect(ops: seq<Op>, trace: seq<G>, i: nat, k: nat) returns (n: nat)
    requires i + k < |trace| <= |ops| + 1 && (forall j :: 0 <= j < |trace| ==> Inv(trace[j]))
    requires forall j :: 0 <= j < |trace| - 1 ==> Acted(ops[j], trace[j], trace[j + 1])
    requires (forall j :: i <= j < i + k ==> ops[j].Step?) && trace[i].state == Pause
    requires k > CycleLength(|trace[i].heap|)
    ensures i < n <= i + k && trace[n].state == Pause && Collected(trace[i], trace[n])
  {
    hide Inv, Stepped, Steps, Collected, CycleLength;
    var part := trace[i..i + k + 1];
    StepsInRow(ops, trace, i, k);
    n := CycleCollects(part);
    n := i + n;
  }

  /** From any state, enough steps in a row come to a pause. */
  lemma StepsPause(ops: seq<Op>, trace: seq<G>, i: nat, k: nat) returns (n: nat)
    requires i + k < |trace| <= |ops| + 1 && (forall j :: 0 <= j < |trace| ==> Inv(trace[j]))
    requires forall j :: 0 <= j < |trace| - 1 ==> Acted(ops[j], trace[j], trace[j + 1])
    requires (forall j :: i <= j < i + k ==> ops[j].Step?) && k >= CycleLength(|trace[i].heap|)
    ensures i <= n <= i + k && trace[n].state == Pause
  {
    hide Inv, Stepped, Steps, CycleLength, Distance;
    StepsInRow(ops, trace, i, k);
    CycleIsBounded(trace[i]);
    n := StepsReachPause(trace[i..i + k + 1]);
    n := i + n;
  }

  lemma StepsInRow(ops: seq<Op>, trace: seq<G>, i: nat, k: nat)
    requires i + k < |trace| <= |ops| + 1 && (forall j :: 0 <= j < |trace| ==> Inv(trace[j]))
    requires forall j :: 0 <= j < |trace| - 1 ==> Acted(ops[j], trace[j], trace[j + 1])
    requires forall j :: i <= j < i + k ==> ops[j].Step?
    ensures Steps(trace[i..i + k + 1])
  {
    hide Inv, Stepped;
    var part := trace[i..i + k + 1];
    forall j | 0 < j < |part| ensures Stepped(part[j - 1], part[j]) {
      var m := i + j - 1;
      assert Acted(ops[m], trace[m], trace[m + 1]);
    }
  }

  lemma FoundOrOpened(g0: G, g: G, h: Ref, slot: nat)
    requires (exists i :: 0 <= i < |g0.ups| && IsSlot(g0.ups[i], h, slot)) ==> g == g0
    requires (forall i :: 0 <= i < |g0.ups| ==> !IsSlot(g0.ups[i], h, slot)) ==> g == Opened(g0, h, slot)
    ensures g == if HasSlot(g0, h, slot) then g0 else Opened(g0, h, slot)
  {
  }

  predicate HasSlot(g: G, h: Ref, slot: nat) { exists i :: 0 <= i < |g.ups| && IsSlot(g.ups[i], h, slot) }

  /** What an action does to the state. Barriers only change colours and gray lists. */
  ghost predicate Effect(op: Op, g0: G, g: G)
    requires Enabled(g0, op)
  {
    match op
    case Step => Stepped(g0, g)
    case FullCollect =>
      Survives(g0, g, {}) && Complete(g0, g.heap.Keys, {}) && g.state == Pause &&
      forall keep :: Keepable(g0, keep) ==> g.heap.Keys <= keep
    case Create(r, o) => g == Created(g0, r, o)
    case Put(h, o, _) => g == g0.(heap := g0.heap[h := o], mark := g.mark, gray := g.gray)
    case PutTable(h, o, _) => g == g0.(heap := g0.heap[h := o], mark := g.mark, grayagain := g.grayagain)
    case PutMeta(h, mt, mode) => g ==
        g0.(heap := g0.heap[h := g0.heap[h].(tmt := mt, mode := mode)], mark := g.mark, gray := g.gray)
    case PutCache(h, c) => g == if IsBlack(g0, h) then g0 else g0.(heap := g0.heap[h := g0.heap[h].(cache := c)])
    case PutStack(h, st) => g == g0.(heap := g0.heap[h := Thread(st)])
    case PutRoots(h, v, vs) => g == g0.(running := h, registry := v, mts := vs)
    case PutUp(h, n, v) => UpStored(g0, g0.heap[h].upvals[n], v, g)
    case FindUp(h, slot) => g == if HasSlot(g0, h, slot) then g0 else Opened(g0, h, slot)
    case CloseUps(h, level) => UpsClosed(g0, h, level, g)
    case Join(h, n, u) => g == Joined(g0, h, n, u).(mark := g.mark, gray := g.gray)
  }

  /** A store through an upvalue: into the stack slot, or into the upvalue itself. */
  ghost predicate UpStored(g0: G, u: nat, v: Value, g: G) {
    u < |g0.ups| && SlotOf(g0, g0.ups[u]) &&
    match g0.ups[u]
    case Open(th, slot, _) => g == g0.(heap := g0.heap[th := Thread(g0.heap[th].stack[slot := v])])
    case Closed(_) => g == g0.(ups := g0.ups[u := Closed(v)], mark := g.mark, gray := g.gray)
  }

  ghost predicate UpsClosed(g0: G, th: Ref, level: nat, g: G) {
    g == g0.(ups := g.ups, mark := g.mark, gray := g.gray) && |g.ups| == |g0.ups| &&
    forall i :: 0 <= i < |g.ups| ==>
          g.ups[i] == if Closes(g0.ups[i], th, level) then Closed(UpValue(g0, g0.ups[i])) else g0.ups[i]
  }

  ghost predicate Acted(op: Op, g0: G, g: G) {
    if Enabled(g0, op) then !Careless(g0, op) && Effect(op, g0, g) else g == g0
  }

  lemma ActedNow(op: Op, g0: G, g: G)
    requires if Enabled(g0, op) then !Careless(g0, op) && Effect(op, g0, g) else g == g0
    ensures Acted(op, g0, g)
  {
    hide Enabled, Effect, Careless;
  }

  /** The store that the barriers miss, at work: from a new state, an all-weak table becomes the metatable of a basic
      type and is traversed while propagating. Then it gets a new metatable. The table still has it when the atomic
      phase is over, and it is dead: the sweep will free it under the program's hands. */
  method LoseMetatable() returns (c: Collector)
    ensures fresh(c) && Accessible(c.g, Gc(NEWMETA)) && Dead(c.g, NEWMETA)
  {
    hide Inv, Marking, Forgets, Flipped, Trav, Holding, LostInv, Scene, Accessible, Due;
    c := UpToAtomic();
    ghost var g0 := c.g;
    AllThere(g0);
    c.New(NEWMETA, WeakMeta());
    LosesNow(g0);
    c.SetMetatable(WEAKTABLE, Gc(NEWMETA), AllWeak);
    LostScene(g0, c.g);
    HoldProgram(c.g, Phase({}, false, {WEAKTABLE}), Rest());
    ghost var g1 := c.g;
    c.PropagateAll({}, Phase({}, true, {WEAKTABLE}), Rest());
    TravHolds(g1, c.g);
    ghost var g2 := c.g;
    c.Atomic(Rest(), c.g.allweak);
    StillHeld(g2, c.g, Rest(), g2.allweak);
  }

  /** An assertion that fails: after propagation has ended, a weak-value table is stored in the closed upvalue of a
      closure, and the barrier puts it into the gray list. What is propagated just before the atomic phase links it
      into `weak`, which the atomic phase takes to be empty. */
  method WeakBeforeAtomic() returns (c: Collector)
    ensures fresh(c) && c.g.state == State.Atomic && c.g.gray == {} && CACHE in c.g.weak
    ensures Accessible(c.g, Gc(CACHE))
  {
    hide Inv, Marking, Trav, Linkage, Accessible, MarksGrew, Scene, Due;
    c := CacheInUpvalue();
    ghost var g0 := c.g;
    ghost var s := Everything(g0);
    HeapKeeps(g0);
    InvMarking(g0, s);
    HoldProgram(g0, Idling(), s);
    c.PropagateAll({}, Phase({}, true, {}), s);
    CacheLinked(g0, c.g, s);
  }

  /** The program's part of it. */
  method CacheInUpvalue() returns (c: Collector)
    ensures fresh(c) && Inv(c.g) && c.g.state == State.Atomic && CACHE in c.g.gray && CacheScene(c.g)
  {
    hide Inv, MarksGrew, MarkedV;
    c := TableMade();
    NoDeadHere(c.g);
    WhiteWaitsNot(c.g, CACHE);
    c.SetMetatable(CACHE, Gc(VALUEMETA), WeakValue);
    ghost var g1 := c.g;
    NoDeadHere(c.g);
    c.SetUpvalue(CLOSURE, 0, Gc(CACHE));
    CacheIsGray(g1, c.g);
  }

  /** A new table besides, and a metatable for it. */
  method TableMade() returns (c: Collector)
    ensures fresh(c) && Inv(c.g) && c.g.state == State.Atomic && TableScene(c.g)
  {
    hide Inv, RefsLive;
    c := ClosureMade();
    EmptyRefs(c.g);
    c.New(VALUEMODE, Str);
    NoDeadHere(c.g);
    MetaRefs(c.g);
    c.New(VALUEMETA, ValueMeta());
    EmptyRefs(c.g);
    c.New(CACHE, Table(Strong, Nil, [Nil], []));
  }

  /** A closure whose upvalue is closed, in the stack of the main thread. */
  method ClosureMade() returns (c: Collector)
    ensures fresh(c) && Inv(c.g) && c.g.state == State.Atomic && ClosureScene(c.g)
  {
    hide Inv, RefsLive, MayPush, CaptureScene;
    c := SlotCaptured();
    CaptureFacts(c.g);
    NoDeadHere(c.g);
    c.New(CLOSURE, Closure([], [0]));
    NoDeadHere(c.g);
    MayHold(c.g);
    c.SetStack(MAINTHREAD, [Nil, Gc(CLOSURE)]);
    NoDeadHere(c.g);
    c.CloseUpvalues(MAINTHREAD, 0);
  }

  /** A stack slot with an open upvalue. */
  method SlotCaptured() returns (c: Collector)
    ensures fresh(c) && Inv(c.g) && c.g.state == State.Atomic && CaptureScene(c.g)
  {
    hide Inv, Due, Scene, RefsLive, MayPush;
    c := UpToAtomic();
    SceneFacts(c.g);
    NoDeadHere(c.g);
    MayClear(c.g);
    c.SetStack(MAINTHREAD, [Nil, Nil]);
    NoDeadHere(c.g);
    var u := c.FindUpvalue(MAINTHREAD, 0);
  }

  /** A cycle up to the moment when nothing is gray any more. */
  method UpToAtomic() returns (c: Collector)
    ensures fresh(c) && Inv(c.g) && Scene(c.g, OLDMETA) && NEWMETA !in c.g.heap && Due(c.g, WEAKTABLE)
    ensures c.g.state == State.Atomic && c.g.gray == {}
  {
    hide Inv, Prec, Closer, StepKeeps, AllBuried, Scene, Due, Waits;
    c := BeforeCycle();
    HeapKeeps(c.g);
    ghost var g1 := c.g;
    c.SingleStep(Everything(c.g));
    StepScene(g1, c.g);
    assert Waits(g1, g1.mts[0]);
    while c.g.state == Propagate
      invariant Inv(c.g) && Scene(c.g, OLDMETA) && NEWMETA !in c.g.heap && Due(c.g, WEAKTABLE)
      invariant c.g.state == Propagate || (c.g.state == State.Atomic && c.g.gray == {})
      decreases Rank(c.g.state), if c.g.state == Propagate then Whites(c.g) else {}, c.g.gray, c.g.rem
    {
      ghost var g2 := c.g;
      HeapKeeps(c.g);
      c.SingleStep(Everything(c.g));
      CloserMeans(g2, c.g);
      StepScene(g2, c.g);
    }
  }

  /** The objects of the run, before the collector starts. */
  method BeforeCycle() returns (c: Collector)
    ensures fresh(c) && Inv(c.g) && Scene(c.g, OLDMETA) && NEWMETA !in c.g.heap && c.g.state == Pause
  {
    hide Inv, Scene;
    c := Objects();
    PausedLive(c.g);
    c.SetMetatable(WEAKTABLE, Gc(OLDMETA), AllWeak);
    PausedLive(c.g);
    c.SetRoots(MAINTHREAD, Nil, [Gc(WEAKTABLE)]);
    SceneSet(c.g);
  }

  method Objects() returns (c: Collector)
    ensures fresh(c) && Inv(c.g)
    ensures c.g == Initial(MAINTHREAD).(heap := FirstHeap(), mark := c.g.mark, allgc := c.g.allgc)
  {
    hide Inv;
    c := new Collector(MAINTHREAD);
    c.New(MODEKEY, Str);
    c.New(MODEVALUE, Str);
    c.New(OLDMETA, WeakMeta());
    PausedLive(c.g);
    c.New(WEAKTABLE, Table(Strong, Nil, [], []));
  }

  lemma PausedLive(g: G)
    requires Inv(g) && g.state == Pause
    ensures forall r :: r in g.heap ==> Allocated(g, r)
  {
    NoDead(g);
  }

  lemma SceneSet(g: G)
    requires g.main == MAINTHREAD && g.running == MAINTHREAD && g.registry == Nil && g.mts == [Gc(WEAKTABLE)]
    requires g.fixed == {} && g.ups == []
    requires g.heap == FirstHeap()[WEAKTABLE := Table(AllWeak, Gc(OLDMETA), [], [])]
    ensures Scene(g, OLDMETA) && NEWMETA !in g.heap
  {
  }

  lemma StepScene(g0: G, g: G)
    requires Scene(g0, OLDMETA) && StepKeeps(g0, g) && AllBuried(g0, g)
    ensures Scene(g, OLDMETA) && g.heap.Keys == g0.heap.Keys && Waits(g0, Gc(WEAKTABLE)) && g0.mts == [Gc(WEAKTABLE)]
  {
    hide AllBuried, AllWorn, DeadStay, Complete, Kept, Untouched;
    SceneStays(g0, g, OLDMETA);
  }

  lemma AllThere(g: G)
    requires Inv(g) && KeepInvariant(g) && Scene(g, OLDMETA)
    ensures Allocated(g, WEAKTABLE) && g.heap[WEAKTABLE] == Table(AllWeak, Gc(OLDMETA), [], [])
    ensures RefsLive(g, WeakMeta())
  {
    hide Inv;
    NoDeadHere(g);
  }

  lemma LosesNow(g0: G)
    requires KeepInvariant(g0) && Due(g0, WEAKTABLE) && g0.gray == {} && NEWMETA !in g0.heap && Allocated(g0, WEAKTABLE)
    ensures var g := Created(g0, NEWMETA, WeakMeta());
            Loses(g, WEAKTABLE, Gc(NEWMETA)) && Allocated(g, WEAKTABLE) && g.heap[WEAKTABLE] == g0.heap[WEAKTABLE]
  {
  }

  /** The store has lost the new metatable. */
  lemma LostScene(g0: G, g: G)
    requires Scene(g0, OLDMETA) && Loses(Created(g0, NEWMETA, WeakMeta()), WEAKTABLE, Gc(NEWMETA))
    requires LostInv(g, WEAKTABLE)
    requires var g1 := Created(g0, NEWMETA, WeakMeta());
             g == g1.(heap := g1.heap[WEAKTABLE := Table(AllWeak, Gc(NEWMETA), [], [])])
    ensures Marking(g, {}, Phase({}, false, {WEAKTABLE}), Rest()) && Marked(g, g.main) && Holding(g)
  {
    hide LostInv, Marking;
    assert Scene(g, NEWMETA);
    RestMarking(g);
  }
}
