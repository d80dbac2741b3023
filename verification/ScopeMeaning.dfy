/** Names at work: shadowing, a reference through two functions, and the block that has to close what it captures. */
module ScopeMeaning {
  import opened Shared
  import opened LuaScope

  const X: Name := 7
  const Y: Name := 8

  /** An upvalue in the stack is a local of the enclosing function, by its place among the declarations; any other one
      is an upvalue of the enclosing function. */
  lemma UpvaluesMean(fs: seq<Func>, k: nat, u: nat)
    requires 2 <= k <= |fs| && u < |fs[k - 1].ups|
    ensures var d := fs[k - 1].ups[u];
            if d.instack then d.idx < |fs[k - 2].vars| ==> UpDecl(fs, k, u) == Some(fs[k - 2].vars[d.idx])
            else UpDecl(fs, k, u) == UpDecl(fs, k - 1, d.idx)
  {
  }

  /** Two functions without locals of their own, inside a block with a second x. */
  ghost predicate Inside(fs: seq<Func>) {
    |fs| == 3 && fs[0].vars == [Decl(X, 1), Decl(X, 2)] && fs[0].nactvar == 2 &&
    |fs[0].blocks| == 2 && fs[0].blocks[1].nactvar == 1 && fs[1].vars == [] && fs[2].vars == [] &&
    fs[1].nactvar == 0 && fs[2].nactvar == 0
  }

  method Declare(ls: LexState)
    requires ls.Valid() && |ls.fs| == 1 && |ls.fs[0].vars| == ls.fs[0].nactvar < 10
    modifies ls
    ensures ls.Valid() && ls.next == old(ls.next) + 1 && |ls.fs| == 1
    ensures ls.fs[0] == old(ls.fs[0]).(vars := old(ls.fs[0].vars) + [Decl(X, old(ls.next))],
                                       nactvar := old(ls.fs[0].nactvar) + 1)
  {
    hide Consistent;
    var r := ls.NewLocalVar(X);
    ls.AdjustLocalVars(1);
  }

  /** `local x; do local x; ` and the beginnings of two functions, one in the other. */
  method Begin() returns (ls: LexState)
    ensures fresh(ls) && ls.Valid() && Inside(ls.fs) && ls.next == 3 && ls.fs[1].ups == ls.fs[2].ups == []
    ensures |ls.fs[0].ups| > 0 && ls.fs[0].ups[0].name == ENV
  {
    hide Consistent;
    ls := new LexState();
    Declare(ls);
    ls.EnterBlock();
    Declare(ls);
    ls.OpenFunc();
    ls.OpenFunc();
  }

  lemma InsideVisible(fs: seq<Func>)
    requires Inside(fs) && FuncsOk(fs) && fs[1].ups == fs[2].ups == []
    ensures Visible(fs, 3, X) == Some(Decl(X, 2)) && !NoRoom(fs, 3, X)
  {
    assert LastDecl(fs[0].vars, 2, X) == Some(1);
    VisibleStep(fs, 1, X);
    VisibleStep(fs, 2, X);
    VisibleStep(fs, 3, X);
    NoRoomStep(fs, 1, X);
    NoRoomStep(fs, 2, X);
    NoRoomStep(fs, 3, X);
  }

  /** The main function with the first x, when the block is over. */
  ghost predicate Outside(fs: seq<Func>) {
    |fs| == 1 && fs[0].vars == [Decl(X, 1)] && fs[0].nactvar == 1 && |fs[0].ups| > 0 && fs[0].ups[0].name == ENV
  }

  lemma OutsideVisible(fs: seq<Func>)
    requires Outside(fs) && FuncsOk(fs)
    ensures Visible(fs, 1, X) == Some(Decl(X, 1)) && Visible(fs, 1, Y).None?
    ensures !NoRoom(fs, 1, X) && !NoRoom(fs, 1, Y) && !NoRoom(fs, 1, ENV)
    ensures forall v :: VarDecl(fs, 1, v) == Some(Decl(X, 1)) ==> v == VLocal(0)
  {
    assert !NotUpvalue(fs[0], ENV);
  }

  /** The way from an upvalue of the innermost function to the second x. */
  ghost predicate LeadsToX(fs: seq<Func>, u: nat) {
    Inside(fs) && u < |fs[2].ups| && !fs[2].ups[u].instack && fs[2].ups[u].idx < |fs[1].ups| &&
    fs[1].ups[fs[2].ups[u].idx].instack && fs[1].ups[fs[2].ups[u].idx].idx == 1
  }

  lemma OnlyWay(fs: seq<Func>, u: nat)
    requires Inside(fs) && UpDecl(fs, 3, u) == Some(Decl(X, 2))
    ensures LeadsToX(fs, u)
  {
    var d := fs[2].ups[u];
    assert fs[1].vars == [] && UpDecl(fs, 3, u) == UpDecl(fs, 2, d.idx);
    var e := fs[1].ups[d.idx];
    EnvironmentOnly(fs, e.idx);
    assert e.idx == 0 || e.idx == 1;
  }

  lemma EnvironmentOnly(fs: seq<Func>, u: nat)
    requires |fs| >= 1
    ensures UpDecl(fs, 1, u) != Some(Decl(X, 2))
  {
  }

  /** What a reference leaves alone. */
  lemma GrownInside(fs: seq<Func>, gs: seq<Func>)
    requires Inside(fs) && Grown(fs, gs)
    ensures Inside(gs) && fs[0].ups <= gs[0].ups
  {
    assert GrownAt(fs, gs, 0) && GrownAt(fs, gs, 1) && GrownAt(fs, gs, 2);
    assert SameBlock(fs[0].blocks[1], gs[0].blocks[1]);
  }

  lemma Captures(fs: seq<Func>, captured: set<nat>, next: nat, u: nat)
    requires Consistent(fs, captured, next) && LeadsToX(fs, u)
    ensures IsCaptured(fs[0], captured, 1)
  {
    assert CaptureOk(fs, captured, 1, fs[2].ups[u].idx);
  }

  /** In the inner function, x is an upvalue: it is one of the function around, which has it as the second local of the
      main function, not the first. The block of that local has to close it, and behind the block x is the first local
      again. A name that is declared nowhere is global, and none of this runs out of room. */
  method Shadowed()
    returns (u: nat, inner: seq<Upvaldesc>, middle: seq<Upvaldesc>, close: bool, after: Var, global: bool)
    ensures u < |inner| && !inner[u].instack && inner[u].idx < |middle| && middle[inner[u].idx].instack
    ensures middle[inner[u].idx].idx == 1 && close && after == VLocal(0) && global
  {
    hide Consistent, Grown, UpDecl, Visible, NoRoom, VarDecl, IsCaptured;
    var ls;
    ls, u := Referred();
    inner := ls.CloseFunc();
    middle := ls.CloseFunc();
    close := ls.LeaveBlock();
    Facts(ls.fs, ls.captured, ls.next);
    OutsideVisible(ls.fs);
    ghost var f1 := ls.fs;
    var r := ls.SingleVar(X);
    after := r.value.0;
    GrownOutside(f1, ls.fs);
    Facts(ls.fs, ls.captured, ls.next);
    OutsideVisible(ls.fs);
    r := ls.SingleVar(Y);
    global := r.value.1;
  }

  lemma GrownOutside(fs: seq<Func>, gs: seq<Func>)
    requires Outside(fs) && Grown(fs, gs)
    ensures Outside(gs)
  {
    assert GrownAt(fs, gs, 0);
  }

  /** The reference in the inner function. */
  method Referred() returns (ls: LexState, u: nat)
    ensures fresh(ls) && ls.Valid() && LeadsToX(ls.fs, u) && IsCaptured(ls.fs[0], ls.captured, 1)
    ensures |ls.fs[0].ups| > 0 && ls.fs[0].ups[0].name == ENV
  {
    hide Consistent, Grown, UpDecl, Visible, NoRoom, IsCaptured;
    ls := Begin();
    ghost var f0 := ls.fs;
    Facts(f0, ls.captured, ls.next);
    InsideVisible(f0);
    var r := ls.SingleVar(X);
    GrownInside(f0, ls.fs);
    NoLocal(ls.fs, r.value.0);
    u := r.value.0.u;
    OnlyWay(ls.fs, u);
    Captures(ls.fs, ls.captured, ls.next, u);
  }

  lemma NoLocal(fs: seq<Func>, v: Var)
    requires Inside(fs) && VarDecl(fs, 3, v) == Some(Decl(X, 2))
    ensures v.VUpval? && UpDecl(fs, 3, v.u) == Some(Decl(X, 2))
  {
  }
}
