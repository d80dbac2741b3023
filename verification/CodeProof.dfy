/** The proof obligations of the code generator, step by step. */
module CodeProof {
  import opened CodeMachine
  import opened CodeSpec

  const NO_REG: Reg := 255

  /** What is being compiled: for which machine, behind which code, leaving which registers alone. Runs begin at the
      entry of the function. */
  datatype Goal = Goal(env: Env, s0: Snap, w: Frame, e: Expr)

  ghost predicate Has(g: Goal, s: Snap, d: Exp, T: set<nat>, F: set<nat>) {
    Computes(g.env, 0, g.s0, s, d, T, F, g.w, g.e)
  }

  /** The value has been tested: the run goes on here if its truth is pass, and leaves by jumps of T or F otherwise. */
  ghost predicate Branches(g: Goal, s: Snap, T: set<nat>, F: set<nat>, pass: bool) {
    Wf(s) && Keeps(g.s0, s, Outer(g.s0)) && T !! F && T + F <= s.P - s.H && (T + F) !! Outer(g.s0) &&
    s.P <= Outer(g.s0) + s.H + T + F && Forks(g.env, 0, g.s0, s, T, F, g.w, g.e, pass)
  }

  ghost predicate Tested(g: Goal, s: Snap, head: int, L: set<nat>, pass: bool) {
    Tests(g.env, 0, g.s0, s, head, L, g.w, g.e, pass)
  }

  /** `patchlistaux`, at one instruction. */
  predicate ListPatchedAt(c: seq<Ins>, c': seq<Ins>, L: set<nat>, reg: Reg, vt: int, dt: int, i: nat) {
    i < |c| && i < |c'| &&
    c'[i] ==
      if i in L then Jmp((if 1 <= i && c[i - 1].TestSet? then vt else dt) - i - 1)
      else if i + 1 in L && c[i].TestSet? then
        if reg != NO_REG && reg != c[i].b then TestSet(reg, c[i].b, c[i].c) else Test(c[i].b, c[i].c)
      else c[i]
  }

  ghost predicate ListPatched(c: seq<Ins>, c': seq<Ins>, L: set<nat>, reg: Reg, vt: int, dt: int) {
    |c'| == |c| && forall i :: 0 <= i < |c| ==> ListPatchedAt(c, c', L, reg, vt, dt, i)
  }

  ghost predicate OnlyLinks(c: seq<Ins>, c': seq<Ins>, L: set<nat>) {
    |c'| == |c| && (forall i: nat :: i < |c| && i !in L ==> c'[i] == c[i]) &&
    forall i: nat :: i < |c| && i in L ==> c[i].Jmp? && c'[i].Jmp?
  }

  lemma LinksOne(c: seq<Ins>, L: set<nat>, j: nat, offset: int)
    requires Jumps(c, L) && j in L && j < |c|
    ensures OnlyLinks(c, c[j := Jmp(offset)], L)
  {
  }

  lemma LinksSelf(c: seq<Ins>, L: set<nat>)
    requires Jumps(c, L)
    ensures OnlyLinks(c, c, L)
  {
  }

  lemma RemovedSelf(c: seq<Ins>)
    ensures Removed(c, c, {})
  {
    forall i | 0 <= i < |c| ensures RemovedAt(c, c, {}, i) {}
  }

  lemma RemovedOne(c: seq<Ins>, c1: seq<Ins>, c2: seq<Ins>, L: set<nat>, rest: set<nat>, j: nat)
    requires Removed(c, c1, L - rest) && rest <= L && j in rest && j < |c| && |c2| == |c1|
    requires if NoValue(c1, j) then c2 == c1 else j >= 1 && c2 == c1[j - 1 := Test(c1[j - 1].b, c1[j - 1].c)]
    ensures Removed(c, c2, L - (rest - {j}))
  {
    forall i | 0 <= i < |c| ensures RemovedAt(c, c2, L - (rest - {j}), i) {
      assert RemovedAt(c, c1, L - rest, i);
    }
  }

  lemma RemovedChain(c1: seq<Ins>, c2: seq<Ins>, j: nat, next: int, rest: set<nat>, L: set<nat>)
    requires Chain(c1, next, rest) && Jumps(c1, L) && rest <= L && j < |c1| && |c2| == |c1| && c1[j].Jmp? && j in L
    requires forall i: nat :: i < |c1| && c1[i].Jmp? ==> c2[i] == c1[i]
    ensures Chain(c2, next, rest) && Jumps(c2, L) && GetJump(c2, j) == GetJump(c1, j)
  {
    ChainFrame(c1, c2, next, rest);
  }

  lemma ListPatchedSelf(c: seq<Ins>, reg: Reg, vt: int, dt: int)
    ensures ListPatched(c, c, {}, reg, vt, dt)
  {
    forall i | 0 <= i < |c| ensures ListPatchedAt(c, c, {}, reg, vt, dt, i) {}
  }

  /** `patchtestreg`: the register of a test that takes a value, or none. */
  function TestFor(i: Ins, reg: Reg): Ins
    requires i.TestSet?
  {
    if reg != NO_REG && reg != i.b then TestSet(reg, i.b, i.c) else Test(i.b, i.c)
  }

  lemma PatchedOne(c: seq<Ins>, c1: seq<Ins>, c2: seq<Ins>, c3: seq<Ins>, L: set<nat>, rest: set<nat>, j: nat, reg: Reg,
                   vt: int, dt: int, done: bool)
    requires Jumps(c, L) && ListPatched(c, c1, L - rest, reg, vt, dt) && rest <= L && j in rest && j < |c|
    requires |c2| == |c1| && c1[j].Jmp? && done == !NoValue(c1, j)
    requires !done ==> c2 == c1
    requires done ==> j >= 1 && c2 == c1[j - 1 := TestFor(c1[j - 1], reg)]
    requires c3 == c2[j := Jmp((if done then vt else dt) - (j + 1))]
    ensures ListPatched(c, c3, L - (rest - {j}), reg, vt, dt)
  {
    forall i | 0 <= i < |c| ensures ListPatchedAt(c, c3, L - (rest - {j}), reg, vt, dt, i) {
      assert ListPatchedAt(c, c1, L - rest, reg, vt, dt, i);
      if j >= 1 { assert ListPatchedAt(c, c1, L - rest, reg, vt, dt, j - 1); }
    }
  }

  lemma PatchedChain(c1: seq<Ins>, c3: seq<Ins>, j: nat, next: int, rest: set<nat>, L: set<nat>)
    requires Chain(c1, next, rest) && Jumps(c1, L) && rest <= L && |c3| == |c1| && j !in rest && j < |c3| && c3[j].Jmp?
    requires forall i: nat :: i < |c1| && c1[i].Jmp? && i != j ==> c3[i] == c1[i]
    ensures Chain(c3, next, rest) && Jumps(c3, L)
  {
    ChainFrame(c1, c3, next, rest);
  }

  lemma HeadStays(c: seq<Ins>, j: nat, k: int, S: set<nat>)
    requires Chain(c, k, S) && k == j
    ensures Chain(c, j, S)
  {
  }

  lemma EmittedJumps(s: Snap, i: Ins)
    requires Wf(s)
    ensures Jumps(Emitted(s, i).code, Emitted(s, i).P)
  {
    DischargeWf(s);
  }

  lemma NoChain(c: seq<Ins>, head: int)
    requires head == NO_JUMP
    ensures Chain(c, head, {})
  {
  }

  /** The same value under another kind. */
  lemma Renamed(g: Goal, s: Snap, d: Exp, k: Kind, T: set<nat>, F: set<nat>, w: Frame)
    requires Has(g, s, d, T, F) && !Delayed(d.k) && !Delayed(k) && (k.VK? ==> k.k < |s.ks|) && w.base == g.w.base
    requires g.w.target == -1 || w == g.w
    requires s.ks <= g.env.ks ==> forall r: Regs :: KindValue(g.env, s.code, k, r) == KindValue(g.env, s.code, d.k, r)
    ensures Has(g.(w := w), s, Exp(k, d.t, d.f), T, F)
  {
    EvalsRename(g.env, 0, g.s0, s, d, Exp(k, d.t, d.f), T, F, g.w, w, g.e);
  }

  /** A numeral or another constant goes into the constant table. */
  lemma NewConstant(g: Goal, s: Snap, d: Exp, k: Kind, T: set<nat>, F: set<nat>, ks: seq<Value>)
    requires Has(g, s, d, T, F) && !Delayed(d.k) && s.ks <= ks && k.VK? && k.k < |ks|
    requires forall env: Env, c: seq<Ins>, r: Regs :: ks <= env.ks ==> KindValue(env, c, d.k, r) == ks[k.k]
    ensures Has(g, s.(ks := ks), Exp(k, d.t, d.f), T, F)
  {
    EvalsConstants(g.env, 0, g.s0, s, d, T, F, g.w, g.e, ks);
    EvalsRename(g.env, 0, g.s0, s.(ks := ks), d, Exp(k, d.t, d.f), T, F, g.w, g.w, g.e);
  }

  lemma FillFacts(g: Goal, s: Snap, head: int, d: Exp, T: set<nat>, F: set<nat>, reg: Reg)
    requires Has(g, s, d, T, F) && Wf(s) && Chain(s.code, head, s.H) && d.k.VReloc?
    requires reg >= g.w.base || reg == g.w.target
    ensures d.k.p < |s.code| && HasResult(s.code[d.k.p])
    ensures var c := s.code[d.k.p := WithA(s.code[d.k.p], reg)];
            Has(g, s.(code := c), Exp(VNonReloc(reg), d.t, d.f), T, F) && Chain(c, head, s.H) && Wf(s.(code := c))
  {
    ComputesFill(g.env, 0, g.s0, s, d, T, F, g.w, g.e, reg);
    FilledJpc(s, head, d.k.p, reg);
  }

  lemma FilledJpc(s: Snap, head: int, p: nat, reg: Reg)
    requires Wf(s) && Chain(s.code, head, s.H) && p < |s.code| && HasResult(s.code[p])
    ensures Chain(s.code[p := WithA(s.code[p], reg)], head, s.H)
  {
    ChainFrame(s.code, s.code[p := WithA(s.code[p], reg)], head, s.H);
  }

  // ---- conditions ----

  lemma NotFacts(g: Goal, s: Snap, d: Exp, T: set<nat>, F: set<nat>)
    requires Has(g, s, d, T, F) && d.k.VReloc?
    ensures d.k.p + 1 == |s.code| && s.H == {}
  {
  }

  lemma PopFacts(g: Goal, s: Snap, head: int, d: Exp, T: set<nat>, F: set<nat>)
    requires Has(g, s, d, T, F) && d.k.VReloc? && Chain(s.code, head, s.H)
    ensures var s' := s.(code := s.code[..d.k.p]); Wf(s') && Chain(s'.code, head, s'.H) && head == NO_JUMP
  {
    assert forall j :: j in s.P ==> j < d.k.p by {
      forall j | j in s.P ensures j < d.k.p { assert s.code[j].Jmp?; }
    }
  }

  /** The jumps of a branch at j. */
  function WithJump(L: set<nat>, j: nat, b: bool): set<nat> { if b then L + {j} else L }

  /** What every branch has to know of the lists. */
  lemma BranchFacts(g: Goal, s: Snap, d: Exp, T: set<nat>, F: set<nat>, n: nat, i: Ins)
    requires Has(g, s, d, T, F) && n <= |s.code| && Closed(s.code[..n]) && IsTest(i)
    requires n < |s.code| ==> s.H == {} && forall j :: j in s.P ==> j < n
    ensures var s1 := s.(code := s.code[..n]); Wf(s1) && var s' := Branched(s1, i);
            Wf(s') && Keeps(g.s0, s', Outer(g.s0)) && Chain(s'.code, d.t, T) && Chain(s'.code, d.f, F) &&
            Chain(s'.code, n + 1, {n + 1}) &&
            s'.P <= s.P - s.H + {n + 1} && T + F <= s'.P - s'.H && n + 1 !in T && n + 1 !in F &&
            n + 1 !in Outer(g.s0) && s.H !! Outer(g.s0)
  {
    hide Evals;
    var s1 := s.(code := s.code[..n]);
    var s' := Branched(s1, i);
    var L := T + F + Outer(g.s0);
    ChainIn(s.code, d.t, T);
    ChainIn(s.code, d.f, F);
    assert Wf(s1);
    assert Keeps(s, s1, L) by {
      forall j: nat | j in L ensures j < n { assert j in s.P; }
    }
    BranchKeeps(s1, i, L);
    KeepsTrans(s, s1, s', L);
    KeepsChain(s, s', L, d.t, T);
    KeepsChain(s, s', L, d.f, F);
    KeepsTrans(g.s0, s, s', Outer(g.s0));
    assert s'.code[n + 1] == Jmp(NO_JUMP) && {n + 1} - {n + 1} == {};
    assert forall j :: j in L ==> j < n;
  }

  lemma Forked(g: Goal, s: Snap, d: Exp, T: set<nat>, F: set<nat>, pass: bool, s': Snap, i: Ins, n: nat)
    requires Evals(g.env, 0, g.s0, s, d, T, F, g.w, g.e) && BranchAt(s, d.k, s', i, n + 1)
    requires forall q :: q in T || q in F ==> q < n
    requires s.ks <= g.env.ks ==> forall r: Regs :: BranchFits(g.env, s.code, d.k, i, pass, r)
    requires Wf(s') && Keeps(g.s0, s', Outer(g.s0)) && T !! F && T + F <= s'.P - s'.H && n + 1 in s'.P
    requires (T + F) !! Outer(g.s0) && n + 1 !in Outer(g.s0)
    requires s'.P <= Outer(g.s0) + T + F + {n + 1}
    ensures Branches(g, s', WithJump(T, n + 1, !pass), WithJump(F, n + 1, pass), pass)
  {
    ForkBranch(g.env, 0, g.s0, s, d, T, F, g.w, g.e, pass, s', i, n + 1, WithJump(T, n + 1, !pass),
        WithJump(F, n + 1, pass));
  }

  lemma NoDischarge(s: Snap)
    requires s.H == {}
    ensures Discharge(s) == s
  {
    forall i | 0 <= i < |s.code|
      ensures DischargedCode(s.code, s.H)[i] == s.code[i]
    {
      assert DischargedAt(s.code, DischargedCode(s.code, s.H), s.H, i);
    }
    assert DischargedCode(s.code, s.H) == s.code;
  }

  lemma NotTested(g: Goal, s: Snap, d: Exp, T: set<nat>, F: set<nat>, cond: bool, s': Snap)
    requires Has(g, s, d, T, F) && d.k.VReloc? && d.k.p < |s.code| && s.code[d.k.p].Not?
    requires s' == Branched(s.(code := s.code[..d.k.p]), Test(s.code[d.k.p].b, !cond))
    ensures var j := d.k.p + 1;
            Branches(g, s', WithJump(T, j, cond), WithJump(F, j, !cond), !cond) &&
            Chain(s'.code, d.t, T) && Chain(s'.code, d.f, F) && Chain(s'.code, j, {j}) && j !in T && j !in F
  {
    hide Evals, Chain;
    var n := d.k.p;
    assert forall j :: j in s.P ==> j < n by {
      forall j | j in s.P ensures j < n { assert s.code[j].Jmp?; }
    }
    BranchFacts(g, s, d, T, F, n, Test(s.code[n].b, !cond));
    NoDischarge(s.(code := s.code[..n]));
    Forked(g, s, d, T, F, !cond, s', Test(s.code[n].b, !cond), n);
  }

  lemma ValueTested(g: Goal, s: Snap, d: Exp, T: set<nat>, F: set<nat>, cond: bool)
    requires Has(g, s, d, T, F) && d.k.VNonReloc?
    ensures var s', j := Branched(s, TestSet(NO_REG, d.k.r, cond)), |s.code| + 1;
            Branches(g, s', WithJump(T, j, cond), WithJump(F, j, !cond), !cond) &&
            Chain(s'.code, d.t, T) && Chain(s'.code, d.f, F) && Chain(s'.code, j, {j}) && j !in T && j !in F
  {
    var n, i := |s.code|, TestSet(NO_REG, d.k.r, cond);
    Whole(s.code);
    ChainIn(s.code, d.t, T);
    ChainIn(s.code, d.f, F);
    BranchFacts(g, s, d, T, F, n, i);
    EvalsDischarge(g.env, 0, g.s0, s, d, T, F, g.w, g.e);
    DischargeWf(s);
    var s1 := Discharge(s);
    Whole(s1.code);
    assert Branched(s, i).code[..n] == s1.code;
    Forked(g, s1, d, T, F, !cond, Branched(s, i), i, n);
  }

  lemma CompareTested(g: Goal, s: Snap, head: int, d: Exp, T: set<nat>, F: set<nat>, pass: bool, s': Snap)
    requires Has(g, s, d, T, F) && d.k.VJmp? && Chain(s.code, head, s.H) && 1 <= d.k.p < |s.code|
    requires var i := s.code[d.k.p - 1];
             i.Compare? && s' == s.(code := s.code[d.k.p - 1 := if pass then i.(accept := !i.accept) else i])
    ensures var j := d.k.p;
            Branches(g, s', WithJump(T, j, !pass), WithJump(F, j, pass), pass) && Chain(s'.code, head, s'.H) &&
            Wf(s') &&
            Chain(s'.code, d.t, T) && Chain(s'.code, d.f, F) && Chain(s'.code, j, {j}) && j !in T && j !in F
  {
    hide Evals, BranchFits;
    var j, n := d.k.p, d.k.p - 1;
    CompareFacts(g, s, head, d, T, F, s');
    assert s'.code[..n] == s.code[..n];
    CompareFits(g.env, s.code, d.k, s'.code[n], pass);
    Forked(g, s, d, T, F, pass, s', s'.code[n], n);
  }

  lemma CompareFits(env: Env, code: seq<Ins>, k: Kind, i: Ins, pass: bool)
    requires k.VJmp? && 1 <= k.p < |code| && code[k.p - 1].Compare?
    requires i == code[k.p - 1].(accept := if pass then !code[k.p - 1].accept else code[k.p - 1].accept)
    ensures forall r: Regs :: BranchFits(env, code, k, i, pass, r)
  {
  }

  lemma CompareFacts(g: Goal, s: Snap, head: int, d: Exp, T: set<nat>, F: set<nat>, s': Snap)
    requires Has(g, s, d, T, F) && d.k.VJmp? && Chain(s.code, head, s.H) && 1 <= d.k.p < |s.code|
    requires |s'.code| == |s.code| && s'.code[d.k.p - 1].Compare?
    requires s' == s.(code := s.code[d.k.p - 1 := s'.code[d.k.p - 1]])
    ensures var j := d.k.p;
            Wf(s') && Keeps(g.s0, s', Outer(g.s0)) && T + F <= s'.P - s'.H && Chain(s'.code, head, s'.H) &&
            Chain(s'.code, d.t, T) && Chain(s'.code, d.f, F) && Chain(s'.code, j, {j})
  {
    hide Evals, Chain;
    var j := d.k.p;
    var L := T + F + Outer(g.s0);
    CompareShape(s, s', d.k.p, L);
    KeepsChain(s, s', L, d.t, T);
    KeepsChain(s, s', L, d.f, F);
    KeepsTrans(g.s0, s, s', Outer(g.s0));
    NoPending(s, s', head);
    OneJump(s'.code, j);
  }

  lemma OneJump(c: seq<Ins>, j: nat)
    requires j < |c| && c[j] == Jmp(NO_JUMP)
    ensures Chain(c, j, {j})
  {
    assert {j} - {j} == {};
  }

  lemma NoPending(s: Snap, s': Snap, head: int)
    requires Chain(s.code, head, s.H) && s.H == {} && s'.H == {}
    ensures Chain(s'.code, head, s'.H)
  {
  }

  lemma CompareShape(s: Snap, s': Snap, j: nat, L: set<nat>)
    requires Wf(s) && 1 <= j == |s.code| - 1 && s.code[j].Jmp? && s.code[j - 1].Compare? && L <= s.P - s.H
    requires |s'.code| == |s.code| && s'.code[j - 1].Compare? && s' == s.(code := s.code[j - 1 := s'.code[j - 1]])
    ensures Wf(s') && Keeps(s, s', L)
  {
    forall q | q in s.P ensures q < |s'.code| && s'.code[q] == s.code[q] { assert s.code[q].Jmp?; }
  }

  lemma ConstantTested(g: Goal, s: Snap, d: Exp, T: set<nat>, F: set<nat>, pass: bool)
    requires Has(g, s, d, T, F) && Always(d.k, pass) && (d.k.VK? ==> d.k.k < |s.ks| && Truthy(s.ks[d.k.k]))
    ensures Branches(g, s, T, F, pass) && Chain(s.code, d.t, T) && Chain(s.code, d.f, F)
  {
    ForkConstant(g.env, 0, g.s0, s, d, T, F, g.w, g.e, pass);
  }

  lemma BranchJumps(g: Goal, s: Snap, T: set<nat>, F: set<nat>, pass: bool)
    requires Branches(g, s, T, F, pass)
    ensures Wf(s) && T + F <= s.P && (T + F) !! s.H && T !! F
  {
  }

  /** Relinking jumps of L does not disturb the rest. */
  lemma LinkKeeps(s: Snap, c': seq<Ins>, L: set<nat>, M: set<nat>)
    requires OnlyLinks(s.code, c', L) && Jumps(s.code, s.P) && Closed(s.code) && s.H <= s.P && L <= s.P
    requires M <= s.P - s.H && L !! M
    ensures Keeps(s, s.(code := c'), M) && Wf(s.(code := c')) && Relinked(s.code, c', s.P)
  {
    forall i | 0 <= i < |s.code| ensures RelinkedAt(s.code, c', s.P, i) { assert i !in L ==> c'[i] == s.code[i]; }
    forall j | j in s.P ensures j < |c'| && c'[j].Jmp? { assert s.code[j].Jmp?; }
    forall j: nat | j in M && NoValue(s.code, j)
      ensures NoValue(c', j)
    {
      assert j >= 1 && j <= |c'| ==> c'[j - 1] == s.code[j - 1] || c'[j - 1].Jmp?;
    }
  }

  lemma Linked(g: Goal, s: Snap, s': Snap, head: int, H: set<nat>, other: int, M: set<nat>, T: set<nat>, F: set<nat>,
               pass: bool, L: set<nat>)
    requires Branches(g, s, T, F, pass) && s' == s.(code := s'.code) && OnlyLinks(s.code, s'.code, L) && L <= T + F
    requires Chain(s.code, head, H) && H == s.H && Chain(s.code, other, M) && M !! L && M <= T + F
    ensures Branches(g, s', T, F, pass) && Chain(s'.code, head, H) && Chain(s'.code, other, M) && Wf(s')
  {
    LinkKeeps(s, s'.code, L, Outer(g.s0));
    KeepsTrans(g.s0, s, s', Outer(g.s0));
    ForksRelinked(g.env, 0, g.s0, s, T, F, g.w, g.e, pass, s'.code);
    ChainIn(s.code, head, H);
    ChainIn(s.code, other, M);
    ChainFrame(s.code, s'.code, head, H);
    ChainFrame(s.code, s'.code, other, M);
  }

  /** One list waits outside, the other goes on here. */
  lemma Hereed(g: Goal, s: Snap, s': Snap, head: int, T: set<nat>, F: set<nat>, pass: bool)
    requires Branches(g, s, T, F, pass) && Chain(s.code, head, if pass then F else T)
    requires s' == s.(code := s'.code, H := s.H + if pass then T else F) && OnlyLinks(s.code, s'.code, s.H)
    ensures Tested(g, s', head, if pass then F else T, pass)
  {
    var L := if pass then F else T;
    var s1 := s.(code := s'.code);
    LinkKeeps(s, s'.code, s.H, Outer(g.s0));
    KeepsTrans(g.s0, s, s1, Outer(g.s0));
    ForksRelinked(g.env, 0, g.s0, s, T, F, g.w, g.e, pass, s'.code);
    ForkHere(g.env, 0, g.s0, s1, T, F, g.w, g.e, pass);
    ChainIn(s.code, head, L);
    ChainFrame(s.code, s'.code, head, L);
    assert Keeps(s1, s', Outer(g.s0));
    KeepsTrans(g.s0, s1, s', Outer(g.s0));
  }

  lemma JmpFacts(g: Goal, s: Snap, d: Exp, T: set<nat>, F: set<nat>)
    requires Has(g, s, d, T, F) && d.k.VJmp?
    ensures 1 <= d.k.p < |s.code| && s.code[d.k.p - 1].Compare? && s.H == {}
  {
  }

  lemma NoJumps(T: set<nat>, F: set<nat>, code: seq<Ins>)
    ensures T + {} == T && F + {} == F && Chain(code, NO_JUMP, {})
  {
  }

  lemma TestedWf(g: Goal, s: Snap, head: int, L: set<nat>, pass: bool)
    requires Tested(g, s, head, L, pass)
    ensures Wf(s)
  {
  }

  // ---- negation ----

  /** Between computing the opposite value and cleaning the lists: s has the value, s1 its opposite under kind k. */
  ghost predicate Opposite(g: Goal, s: Snap, s1: Snap, d: Exp, T: set<nat>, F: set<nat>, k: Kind) {
    var n := Cut(d.k, s.code);
    n <= |s.code| && n <= |s1.code| && s1.code[..n] == s.code[..n] && Cut(k, s1.code) == n && Closed(s.code[..n]) &&
    Evals(g.env, 0, g.s0, s, d, T, F, g.w, g.e) && s1.P == s.P && s1.H == s.H && s1.ks == s.ks && Wf(s) && Wf(s1) &&
    Keeps(g.s0, s1, Outer(g.s0)) && T !! F && T + F <= s.P - s.H && (T + F) !! Outer(g.s0) &&
    (k.VJmp? ==> k.p !in Outer(g.s0)) &&
    s.P <= Outer(g.s0) + s.H + T + F + Own(k) && Chain(s1.code, d.t, T) && Chain(s1.code, d.f, F) &&
    KindOk(s1, Exp(k, d.f, d.t), F, T) &&
    (s.ks <= g.env.ks ==> forall r: Regs :: Negates(g.env, s.code, d.k, s1.code, k, r)) &&
    forall j :: j in T || j in F ==> j < n
  }

  lemma NotConstant(g: Goal, s: Snap, d: Exp, T: set<nat>, F: set<nat>, k: Kind)
    requires Has(g, s, d, T, F)
    requires if k.VTrue? then d.k.VNil? || d.k.VFalse? else k.VFalse? && (d.k.VK? || d.k.VNum? || d.k.VTrue?)
    requires d.k.VK? ==> d.k.k < |s.ks| && Truthy(s.ks[d.k.k])
    ensures Opposite(g, s, s, d, T, F, k)
  {
    Whole(s.code);
    ChainIn(s.code, d.t, T);
    ChainIn(s.code, d.f, F);
  }

  lemma NotCompare(g: Goal, s: Snap, d: Exp, T: set<nat>, F: set<nat>, s1: Snap)
    requires Has(g, s, d, T, F) && d.k.VJmp? && 1 <= d.k.p < |s.code| && s.code[d.k.p - 1].Compare?
    requires var i := s.code[d.k.p - 1]; s1 == s.(code := s.code[d.k.p - 1 := i.(accept := !i.accept)])
    ensures Opposite(g, s, s1, d, T, F, d.k)
  {
    var n := d.k.p - 1;
    assert s1.code[n].Compare? && s1.code[n].accept == !s.code[n].accept;
    assert Chain(s.code, NO_JUMP, s.H);
    CompareFacts(g, s, NO_JUMP, d, T, F, s1);
    assert s1.code[..n] == s.code[..n];
  }

  lemma NotValue(g: Goal, s: Snap, d: Exp, T: set<nat>, F: set<nat>)
    requires Has(g, s, d, T, F) && d.k.VNonReloc?
    ensures Opposite(g, Discharge(s), Emitted(s, Not(0, d.k.r)), d, T, F, VReloc(|s.code|))
  {
    var s1, s' := Discharge(s), Emitted(s, Not(0, d.k.r));
    EmitFacts(g.s0, s, d, T, F, Not(0, d.k.r));
    EvalsDischarge(g.env, 0, g.s0, s, d, T, F, g.w, g.e);
    DischargeWf(s);
    Whole(s1.code);
    assert s'.code[..|s.code|] == s1.code;
  }

  lemma OppositeWf(g: Goal, s: Snap, s1: Snap, d: Exp, T: set<nat>, F: set<nat>, k: Kind)
    requires Opposite(g, s, s1, d, T, F, k)
    ensures Wf(s1)
  {
  }

  lemma EmittedH(s: Snap, i: Ins)
    ensures Emitted(s, i).H == {}
  {
  }

  lemma NegatedJpc(s: Snap, s1: Snap, head: int)
    requires Chain(s.code, head, s.H) && s.H == {} && s1.H == {}
    ensures Chain(s1.code, head, s1.H)
  {
  }

  lemma ListsOf(g: Goal, s: Snap, s1: Snap, d: Exp, T: set<nat>, F: set<nat>, k: Kind)
    requires Opposite(g, s, s1, d, T, F, k)
    ensures Chain(s1.code, d.t, T) && Chain(s1.code, d.f, F) && Jumps(s1.code, F) && Jumps(s1.code, T) && Wf(s1)
  {
    ChainIn(s1.code, d.t, T);
    ChainIn(s1.code, d.f, F);
  }

  lemma RemovedKeeps(s: Snap, c: seq<Ins>, L: set<nat>, head: int, S: set<nat>)
    requires Wf(s) && Removed(s.code, c, L) && Chain(s.code, head, S) && Jumps(s.code, S)
    ensures Chain(c, head, S) && Jumps(c, S) && Wf(s.(code := c))
  {
    forall j: nat | j < |c| && s.code[j].Jmp? ensures c[j] == s.code[j] { assert RemovedAt(s.code, c, L, j); }
    ChainFrame(s.code, c, head, S);
    if c != [] { assert RemovedAt(s.code, c, L, |c| - 1); }
    assert |c| == 0 || !IsTest(s.code[|c| - 1]);
  }

  lemma RemovedBoth(c: seq<Ins>, c1: seq<Ins>, c2: seq<Ins>, L: set<nat>, M: set<nat>, n: nat)
    requires Removed(c, c1, L) && Removed(c1, c2, M) && n <= |c|
    ensures Removed(c[..n], c2[..n], M + L) && Removed(c, c2, M + L)
  {
    forall i | 0 <= i < |c| ensures RemovedAt(c, c2, M + L, i) {
      assert RemovedAt(c, c1, L, i) && RemovedAt(c1, c2, M, i);
    }
    forall i | 0 <= i < n ensures RemovedAt(c[..n], c2[..n], M + L, i) { assert RemovedAt(c, c2, M + L, i); }
  }

  lemma NotDone(g: Goal, s: Snap, s1: Snap, d: Exp, T: set<nat>, F: set<nat>, c: seq<Ins>, c2: seq<Ins>, k: Kind,
                head: int)
    requires Opposite(g, s, s1, d, T, F, k) && Removed(s1.code, c, F) && Removed(c, c2, T) && Chain(s1.code, head, s1.H)
    ensures Has(g.(e := ENot(g.e)), s1.(code := c2), Exp(k, d.f, d.t), F, T) && Chain(c2, head, s1.H)
    ensures Wf(s1.(code := c2))
  {
    var n := Cut(d.k, s.code);
    var s2 := s1.(code := c2);
    RemovedBoth(s1.code, c, c2, F, T, n);
    RemovedShape(g, s, s1, d, T, F, c2, k, head);
    forall r: Regs | s.ks <= g.env.ks ensures Negates(g.env, s.code, d.k, c2, k, r) {
      assert Negates(g.env, s.code, d.k, s1.code, k, r);
      RemovedValue(g.env, s1, Exp(k, d.f, d.t), T, F, c2, r);
    }
    EvalsNot(g.env, 0, g.s0, s, d, T, F, g.w, g.e, s2, k);
  }

  lemma RemovedValue(env: Env, s: Snap, d: Exp, T: set<nat>, F: set<nat>, c2: seq<Ins>, r: Regs)
    requires KindOk(s, d, F, T) && Removed(s.code, c2, T + F)
    ensures KindValue(env, c2, d.k, r) == KindValue(env, s.code, d.k, r) && KindOk(s.(code := c2), d, F, T)
    ensures Cut(d.k, c2) == Cut(d.k, s.code)
  {
    if d.k.VReloc? {
      assert RemovedAt(s.code, c2, T + F, d.k.p);
      RemovedPrefix(s.code, c2, T + F, d.k.p);
    } else if d.k.VJmp? {
      assert RemovedAt(s.code, c2, T + F, d.k.p) && RemovedAt(s.code, c2, T + F, d.k.p - 1);
      RemovedPrefix(s.code, c2, T + F, d.k.p - 1);
    }
  }

  lemma RemovedPrefix(c: seq<Ins>, c2: seq<Ins>, L: set<nat>, n: nat)
    requires Removed(c, c2, L) && n <= |c| && Closed(c[..n])
    ensures Closed(c2[..n])
  {
    if n > 0 { assert RemovedAt(c, c2, L, n - 1); }
  }

  lemma RemovedShape(g: Goal, s: Snap, s1: Snap, d: Exp, T: set<nat>, F: set<nat>, c2: seq<Ins>, k: Kind, head: int)
    requires Opposite(g, s, s1, d, T, F, k) && Removed(s1.code, c2, T + F) && Chain(s1.code, head, s1.H)
    ensures var s2 := s1.(code := c2);
            Wf(s2) && Keeps(g.s0, s2, Outer(g.s0)) && Chain(c2, d.t, T) && Chain(c2, d.f, F) && Chain(c2, head, s1.H) &&
            KindOk(s2, Exp(k, d.f, d.t), F, T) && Cut(k, c2) == Cut(k, s1.code)
  {
    hide Evals, KindValue, Negates;
    var s2 := s1.(code := c2);
    ChainIn(s1.code, d.t, T);
    ChainIn(s1.code, d.f, F);
    ChainIn(s1.code, head, s1.H);
    RemovedKeeps(s1, c2, T + F, d.t, T);
    RemovedKeeps(s1, c2, T + F, d.f, F);
    RemovedKeeps(s1, c2, T + F, head, s1.H);
    RemovedKind(s1, Exp(k, d.f, d.t), T, F, c2);
    forall j: nat | j in Outer(g.s0)
      ensures j < |c2| && c2[j] == s1.code[j] && (NoValue(s1.code, j) ==> NoValue(c2, j))
    {
      assert j in s1.P && s1.code[j].Jmp?;
      assert RemovedAt(s1.code, c2, T + F, j);
      if j >= 1 { assert RemovedAt(s1.code, c2, T + F, j - 1); }
    }
    assert Keeps(s1, s2, Outer(g.s0));
    KeepsTrans(g.s0, s1, s2, Outer(g.s0));
  }

  lemma RemovedKind(s: Snap, d: Exp, T: set<nat>, F: set<nat>, c2: seq<Ins>)
    requires KindOk(s, d, F, T) && Removed(s.code, c2, T + F)
    ensures KindOk(s.(code := c2), d, F, T) && Cut(d.k, c2) == Cut(d.k, s.code)
  {
    if d.k.VReloc? {
      assert RemovedAt(s.code, c2, T + F, d.k.p);
      RemovedPrefix(s.code, c2, T + F, d.k.p);
    } else if d.k.VJmp? {
      assert RemovedAt(s.code, c2, T + F, d.k.p) && RemovedAt(s.code, c2, T + F, d.k.p - 1);
      RemovedPrefix(s.code, c2, T + F, d.k.p - 1);
    }
  }

  // ---- into a register ----

  lemma HasLists(g: Goal, s: Snap, d: Exp, T: set<nat>, F: set<nat>)
    requires Has(g, s, d, T, F)
    ensures Chain(s.code, d.t, T) && Chain(s.code, d.f, F) && Jumps(s.code, T) && Jumps(s.code, F) && T !! F
  {
    ChainIn(s.code, d.t, T);
    ChainIn(s.code, d.f, F);
  }

  lemma HasWf(g: Goal, s: Snap, d: Exp, T: set<nat>, F: set<nat>)
    requires Has(g, s, d, T, F)
    ensures Wf(s) && Jumps(s.code, s.P) && s.H <= s.P
  {
  }

  lemma JumpWf(s: Snap, s1: Snap, j: nat)
    requires Wf(s) && j == |s.code| && |s1.code| == j + 1 && s1.code[..j] == s.code && s1.code[j].Jmp?
    requires s1.P == s.P + {j} && s1.H == {}
    ensures Wf(s1)
  {
    forall q | q in s1.P ensures q < |s1.code| && s1.code[q].Jmp? {
      if q != j { assert q in s.P && s1.code[..j][q] == s.code[q]; }
    }
  }

  lemma LoadsFacts(s2: Snap, c1: seq<Ins>, d: Exp, reg: Reg, fj: nat, hold: set<nat>)
    requires s2.code == c1 + [LoadBool(reg, false, true)] + [LoadBool(reg, true, false)] && Chain(c1, fj, hold)
    ensures Chain(s2.code, fj, hold)
  {
    ChainIn(c1, fj, hold);
    ChainFrame(c1, s2.code, fj, hold);
  }

  /** What the code is in the end. */
  lemma LoadsSnap(s: Snap, c1: seq<Ins>, s2: Snap, reg: Reg, j: Ins, fj: nat)
    requires c1 == s.code + [j]
    requires OnlyLinks(c1 + [LoadBool(reg, false, true)] + [LoadBool(reg, true, false)], s2.code, {})
    requires fj == |s.code| && s2.P == s.P + {fj} && s2.H == {} + (s.H + {fj}) && s2.ks == s.ks
    ensures s2 == Snap(s.code + [j] + [LoadBool(reg, false, true), LoadBool(reg, true, false)], s.P + {fj}, s.H + {fj},
              s.ks)
  {
    assert s2.code == s.code + [j] + [LoadBool(reg, false, true), LoadBool(reg, true, false)];
  }

  lemma LoadsHas(g: Goal, s: Snap, d: Exp, T: set<nat>, F: set<nat>, reg: Reg, j: Ins)
    requires Has(g, s, d, T, F) && d.k == VNonReloc(reg) && j.Jmp?
    ensures var s' := Snap(s.code + [j] + [LoadBool(reg, false, true), LoadBool(reg, true, false)], s.P + {|s.code|},
              s.H + {|s.code|}, s.ks);
            Has(g, s', d, T, F) && LoadsReady(s'.code, s'.P, T, F, reg, |s.code| + 1, |s.code| + 2)
  {
    var ls := [LoadBool(reg, false, true), LoadBool(reg, true, false)];
    var s' := Snap(s.code + [j] + ls, s.P + {|s.code|}, s.H + {|s.code|}, s.ks);
    HasLists(g, s, d, T, F);
    EvalsLoads(g.env, 0, g.s0, s, d, T, F, g.w, g.e, j, ls);
    var L := T + F + Outer(g.s0);
    forall q: nat | q in L
      ensures q < |s.code| && s'.code[q] == s.code[q] && (NoValue(s.code, q) ==> NoValue(s'.code, q))
    {
      assert q in s.P;
      if q >= 1 { assert s'.code[q - 1] == s.code[q - 1]; }
    }
    assert Keeps(s, s', L);
    KeepsChain(s, s', L, d.t, T);
    KeepsChain(s, s', L, d.f, F);
    KeepsTrans(g.s0, s, s', Outer(g.s0));
    forall q | q in s'.P ensures q < |s'.code| && s'.code[q].Jmp? { if q != |s.code| { assert s.code[q].Jmp?; } }
  }

  lemma TestFacts(g: Goal, s: Snap, d: Exp, T: set<nat>, F: set<nat>, head: int)
    requires Has(g, s, d, T, F) && d.k.VJmp? && Chain(s.code, head, s.H)
    ensures Chain(s.code, d.t, T) && Chain(s.code, d.k.p, {d.k.p}) && T !! {d.k.p} && s.H == {} && head == NO_JUMP
    ensures 1 <= d.k.p
    ensures T <= s.P
  {
    assert {d.k.p} - {d.k.p} == {};
  }

  /** The jumps of a comparison. */
  ghost predicate TestJumps(g: Goal, s: Snap, d: Exp, T: set<nat>, F: set<nat>)
    requires d.k.VJmp?
  {
    T !! F && T + F <= s.P && (T + F) !! Outer(g.s0) && d.k.p !in Outer(g.s0) && s.P <= Outer(g.s0) + T + F + {d.k.p}
  }

  /** The jump of the comparison has joined the true list. */
  lemma TestLinked(g: Goal, s: Snap, s1: Snap, d: Exp, T: set<nat>, F: set<nat>, head: int)
    requires Has(g, s, d, T, F) && d.k.VJmp? && s1 == s.(code := s1.code) && OnlyLinks(s.code, s1.code, T)
    requires head == NO_JUMP
    ensures Wf(s1) && Chain(s1.code, head, s1.H) && s1.H == {}
    ensures Keeps(g.s0, s1, Outer(g.s0)) && Chain(s1.code, d.f, F)
    ensures 1 <= d.k.p == |s1.code| - 1 && d.k.p in s1.P && s1.code[d.k.p - 1].Compare? && Closed(s1.code[..d.k.p - 1])
    ensures forall t :: Evals(g.env, 0, g.s0, s1, Exp(d.k, t, d.f), T, F, g.w, g.e)
    ensures (forall q :: q in T || q in F ==> q < d.k.p - 1) && TestJumps(g, s1, d, T, F)
  {
    HasLists(g, s, d, T, F);
    LinkKeeps(s, s1.code, T, F + Outer(g.s0));
    KeepsChain(s, s1, F + Outer(g.s0), d.f, F);
    KeepsTrans(g.s0, s, s1, Outer(g.s0));
    forall t ensures Evals(g.env, 0, g.s0, s1, Exp(d.k, t, d.f), T, F, g.w, g.e) {
      EvalsRelinked(g.env, 0, g.s0, s, d, T, F, g.w, g.e, s1.code, t, d.f);
    }
    var n := d.k.p - 1;
    assert s1.code[n] == s.code[n];
    if n > 0 { assert n - 1 in T || s1.code[n - 1] == s.code[n - 1]; assert s.code[..n][n - 1] == s.code[n - 1]; }
  }

  lemma TestLoadsHas(g: Goal, s1: Snap, d: Exp, t: int, T: set<nat>, F: set<nat>, reg: Reg)
    requires d.k.VJmp? && Wf(s1) && s1.H == {} && Keeps(g.s0, s1, Outer(g.s0)) && Chain(s1.code, t, T + {d.k.p})
    requires Chain(s1.code, d.f, F)
    requires 1 <= d.k.p == |s1.code| - 1 && d.k.p in s1.P && s1.code[d.k.p - 1].Compare? && Closed(s1.code[..d.k.p - 1])
    requires d.k.VJmp? && Evals(g.env, 0, g.s0, s1, Exp(d.k, t, d.f), T, F, g.w, g.e)
    requires (forall q :: q in T || q in F ==> q < d.k.p - 1) && (reg >= g.w.base || reg == g.w.target)
    requires TestJumps(g, s1, d, T, F)
    ensures var s' := s1.(code := s1.code + [LoadBool(reg, false, true), LoadBool(reg, true, false)]);
            Has(g, s', Exp(VNonReloc(reg), t, d.f), T + {d.k.p}, F) &&
            LoadsReady(s'.code, s'.P, T + {d.k.p}, F, reg, |s1.code|, |s1.code| + 1) && Wf(s')
  {
    var s' := s1.(code := s1.code + [LoadBool(reg, false, true), LoadBool(reg, true, false)]);
    EvalsTestLoads(g.env, 0, g.s0, s1, Exp(d.k, t, d.f), T, F, g.w, g.e, reg);
    var L := T + {d.k.p} + F + Outer(g.s0);
    forall q: nat | q in L
      ensures q < |s1.code| && s'.code[q] == s1.code[q] && (NoValue(s1.code, q) ==> NoValue(s'.code, q))
    {
      assert q in s1.P;
      if q >= 1 { assert s'.code[q - 1] == s1.code[q - 1]; }
    }
    assert Keeps(s1, s', L);
    KeepsChain(s1, s', L, t, T + {d.k.p});
    KeepsChain(s1, s', L, d.f, F);
    KeepsTrans(g.s0, s1, s', Outer(g.s0));
  }

  lemma TestNeeds(g: Goal, s: Snap, d: Exp, T: set<nat>, F: set<nat>)
    requires Has(g, s, d, T, F) && d.k.VJmp?
    ensures exists j: nat :: j in T + {d.k.p} && NoValue(s.code, j)
  {
    assert d.k.p in T + {d.k.p} && NoValue(s.code, d.k.p);
  }

  lemma NoLists(g: Goal, s: Snap, d: Exp, T: set<nat>, F: set<nat>)
    requires Has(g, s, d, T, F) && !HasJumps(d)
    ensures Has(g, s, Exp(d.k, NO_JUMP, NO_JUMP), {}, {})
  {
    assert T == {} && F == {};
    EvalsRename(g.env, 0, g.s0, s, d, Exp(d.k, NO_JUMP, NO_JUMP), T, F, g.w, g.w, g.e);
  }

  lemma AllTakeValues(code: seq<Ins>, P: set<nat>, T: set<nat>, F: set<nat>, reg: Reg)
    requires (forall j: nat :: j in T ==> !NoValue(code, j)) && forall j: nat :: j in F ==> !NoValue(code, j)
    ensures LoadsReady(code, P, T, F, reg, NO_JUMP, NO_JUMP)
  {
  }

  lemma ListPatchedChain(s: Snap, c1: seq<Ins>, F: set<nat>, T: set<nat>, reg: Reg, vt: int, dt: int, head: int)
    requires ListPatched(s.code, c1, F, reg, vt, dt) && Jumps(s.code, F) && Jumps(s.code, T) && T !! F
    requires Chain(s.code, head, T)
    ensures Chain(c1, head, T) && Jumps(c1, T)
  {
    forall j | j in T ensures j < |c1| && c1[j] == s.code[j] { assert ListPatchedAt(s.code, c1, F, reg, vt, dt, j); }
    ChainFrame(s.code, c1, head, T);
  }

  lemma BothPatched(c: seq<Ins>, c1: seq<Ins>, c2: seq<Ins>, T: set<nat>, F: set<nat>, reg: Reg, pf: int, pt: int)
    requires ListPatched(c, c1, F, reg, |c|, pf) && ListPatched(c1, c2, T, reg, |c|, pt) && T !! F && Jumps(c, T)
    requires Jumps(c, F) && reg != NO_REG
    ensures Patched(c, c2, T, F, reg, pf, pt)
  {
    forall i | 0 <= i < |c| ensures PatchedAt(c, c2, T, F, reg, pf, pt, i) {
      assert ListPatchedAt(c, c1, F, reg, |c|, pf, i) && ListPatchedAt(c1, c2, T, reg, |c|, pt, i);
      if i >= 1 { assert ListPatchedAt(c, c1, F, reg, |c|, pf, i - 1); }
    }
  }

  lemma PatchedHas(g: Goal, s: Snap, d: Exp, T: set<nat>, F: set<nat>, reg: Reg, pf: int, pt: int, c1: seq<Ins>,
                   c2: seq<Ins>, head: int)
    requires Has(g, s, d, T, F) && d.k == VNonReloc(reg) && reg != NO_REG && (reg >= g.w.base || reg == g.w.target)
    requires Chain(s.code, head, s.H)
    requires LoadsReady(s.code, s.P, T, F, reg, pf, pt) && ListPatched(s.code, c1, F, reg, |s.code|, pf)
    requires ListPatched(c1, c2, T, reg, |s.code|, pt)
    ensures var s' := Snap(c2, s.P - T - F, s.H, s.ks);
            Has(g, s', Exp(VNonReloc(reg), NO_JUMP, NO_JUMP), {}, {}) && Wf(s') && Chain(c2, head, s.H)
  {
    HasLists(g, s, d, T, F);
    BothPatched(s.code, c1, c2, T, F, reg, pf, pt);
    EvalsPatched(g.env, 0, g.s0, s, d, T, F, g.w, g.e, reg, pf, pt, c2);
    PatchedShape(g.s0, s, T, F, reg, pf, pt, c2, head);
  }

  lemma PatchedShape(s0: Snap, s: Snap, T: set<nat>, F: set<nat>, reg: Reg, pf: int, pt: int, c2: seq<Ins>, head: int)
    requires Wf(s) && Keeps(s0, s, Outer(s0)) && T + F <= s.P - s.H && (T + F) !! Outer(s0) && Chain(s.code, head, s.H)
    requires Patched(s.code, c2, T, F, reg, pf, pt)
    ensures var s' := Snap(c2, s.P - T - F, s.H, s.ks); Wf(s') && Keeps(s0, s', Outer(s0)) && Chain(c2, head, s.H)
  {
    var s' := Snap(c2, s.P - T - F, s.H, s.ks);
    forall j | j in s'.P
      ensures j < |c2| && c2[j] == s.code[j]
    {
      assert s.code[j].Jmp? && PatchedAt(s.code, c2, T, F, reg, pf, pt, j);
    }
    ChainIn(s.code, head, s.H);
    ChainFrame(s.code, c2, head, s.H);
    if c2 != [] { assert PatchedAt(s.code, c2, T, F, reg, pf, pt, |c2| - 1); }
    forall j: nat | j in Outer(s0) && NoValue(s.code, j) ensures NoValue(c2, j) {
      if 1 <= j <= |c2| { assert PatchedAt(s.code, c2, T, F, reg, pf, pt, j - 1); }
    }
    assert Keeps(s, s', Outer(s0));
    KeepsTrans(s0, s, s', Outer(s0));
  }

  // ---- operators ----

  predicate OperandOk(d: Exp) { (d.k.VK? || d.k.VNonReloc?) && d == Exp(d.k, NO_JUMP, NO_JUMP) }

  lemma BranchedWf(s: Snap, i: Ins)
    requires Wf(s)
    ensures Wf(Branched(s, i)) && Chain(Branched(s, i).code, NO_JUMP, Branched(s, i).H) && Branched(s, i).H == {}
  {
    BranchKeeps(s, i, {});
  }

  /** What is known of two compiled operands. */
  lemma CompareHas(g1: Goal, s1: Snap, d1: Exp, g2: Goal, s2: Snap, d2: Exp, op: CmpOp)
    requires Has(g1, s1, d1, {}, {}) && Has(g2, s2, d2, {}, {}) && OperandOk(d1) && OperandOk(d2)
    requires g2.s0 == s1 && g2.env == g1.env && g1.w.target == -1 && g2.w.target == -1 && g1.w.base <= g2.w.base
    requires Scoped(g2.e, g1.w.base) && (d1.k.VNonReloc? ==> d1.k.r < g2.w.base)
    ensures var s' := Branched(s2, CompareIns(op, Operand(d1.k), Operand(d2.k)));
            Has(g1.(e := ECompare(op, g1.e, g2.e)), s', Exp(VJmp(|s2.code| + 1), NO_JUMP, NO_JUMP), {}, {})
  {
    hide Evals;
    var i := CompareIns(op, Operand(d1.k), Operand(d2.k));
    var s, s' := Discharge(s2), Branched(s2, i);
    CompareEvals(g1, s1, d1, g2, s2, d2, op);
    CompareKeeps(g1.s0, s1, s2, i);
    CompareKind(s2, i);
  }

  lemma CompareEvals(g1: Goal, s1: Snap, d1: Exp, g2: Goal, s2: Snap, d2: Exp, op: CmpOp)
    requires Has(g1, s1, d1, {}, {}) && Has(g2, s2, d2, {}, {}) && OperandOk(d1) && OperandOk(d2)
    requires g2.s0 == s1 && g2.env == g1.env && g1.w.target == -1 && g2.w.target == -1 && g1.w.base <= g2.w.base
    requires Scoped(g2.e, g1.w.base) && (d1.k.VNonReloc? ==> d1.k.r < g2.w.base)
    ensures var s' := Branched(s2, CompareIns(op, Operand(d1.k), Operand(d2.k)));
            Evals(g1.env, 0, g1.s0, s', Exp(VJmp(|s2.code| + 1), NO_JUMP, NO_JUMP), {}, {}, g1.w,
                ECompare(op, g1.e, g2.e))
  {
    hide Evals;
    var s := Discharge(s2);
    DischargeWf(s2);
    EvalsDischarge(g2.env, 0, s1, s2, d2, {}, {}, g2.w, g2.e);
    EvalsCompare(g1.env, 0, g1.s0, s1, d1, g1.w, g1.e, s, d2, g2.w, g2.e, op, s.P + {|s.code| + 1});
  }

  lemma CompareKeeps(s0: Snap, s1: Snap, s2: Snap, i: Ins)
    requires Keeps(s0, s1, Outer(s0)) && Keeps(s1, s2, Outer(s1)) && Wf(s2) && s1.P <= Outer(s0) + s1.H
    requires s2.P <= Outer(s1) + s2.H
    ensures var s' := Branched(s2, i);
            Wf(s') && Keeps(s0, s', Outer(s0)) && s'.P <= Outer(s0) + {|s2.code| + 1} && |s2.code| + 1 !in Outer(s0)
  {
    BranchKeeps(s2, i, Outer(s1));
    KeepsTrans(s1, s2, Branched(s2, i), Outer(s1));
    KeepsTrans(s0, s1, Branched(s2, i), Outer(s0));
  }

  lemma CompareKind(s: Snap, i: Ins)
    requires Wf(s) && i.Compare?
    ensures var s' := Branched(s, i); KindOk(s', Exp(VJmp(|s.code| + 1), NO_JUMP, NO_JUMP), {}, {}) && s'.H == {}
  {
    DischargeWf(s);
    Whole(Discharge(s).code);
    var s' := Branched(s, i);
    assert s'.code[..|s.code|] == Discharge(s).code;
  }

  function Joined(cond: bool, a: Expr, b: Expr): Expr { if cond then EAnd(a, b) else EOr(a, b) }

  function WithList(S: set<nat>, L: set<nat>, b: bool): set<nat> { if b then S + L else S }

  lemma JoinFacts(g1: Goal, s1: Snap, head: int, L: set<nat>, cond: bool, g2: Goal, s: Snap, d: Exp, T: set<nat>,
                  F: set<nat>)
    requires Tested(g1, s1, head, L, cond) && Has(g2, s, d, T, F) && g2.s0 == s1
    ensures Chain(s.code, head, L) && Chain(s.code, d.f, F) && Chain(s.code, d.t, T) && L !! T + F && L <= Outer(s1)
    ensures L <= s.P - s.H && T + F <= s.P && Outer(g1.s0) <= Outer(s1) <= Outer(g1.s0) + L
  {
    KeepsChain(s1, s, Outer(s1), head, L);
  }

  lemma JoinHas(g1: Goal, s1: Snap, head: int, L: set<nat>, cond: bool, g2: Goal, s: Snap, d: Exp, T: set<nat>,
                F: set<nat>, c: seq<Ins>, jpc: int, l: int)
    requires Tested(g1, s1, head, L, cond) && Has(g2, s, d, T, F) && g2 == g1.(s0 := s1, e := g2.e) && g1.w.target == -1
    requires Scoped(g2.e, g1.w.base)
    requires var M := if cond then F else T; OnlyLinks(s.code, c, M) && Chain(c, l, M + L)
    requires Chain(s.code, jpc, s.H)
    ensures var s' := s.(code := c);
            Has(g1.(e := Joined(cond, g1.e, g2.e)), s', if cond then Exp(d.k, d.t, l) else Exp(d.k, l, d.f),
                WithList(T, L, !cond), WithList(F, L, cond)) &&
            Wf(s') && Chain(c, jpc, s.H)
  {
    hide Evals, Forks, Chain, OnlyLinks, KindOk, Keeps, Closed, Jumps, Relinked;
    var M, N := if cond then F else T, if cond then T else F;
    var d' := if cond then Exp(d.k, d.t, l) else Exp(d.k, l, d.f);
    JoinFacts(g1, s1, head, L, cond, g2, s, d, T, F);
    JoinShape(g1.s0, s1, s, c, M, N, if cond then d.t else d.f, jpc);
    JoinKind(s, c, d, d', T, F, WithList(T, L, !cond), WithList(F, L, cond), M, L, s1);
    JoinEvals(g1, s1, head, L, cond, g2, s, d, T, F, c, d'.t, d'.f);
  }

  lemma JoinEvals(g1: Goal, s1: Snap, head: int, L: set<nat>, cond: bool, g2: Goal, s: Snap, d: Exp, T: set<nat>,
                  F: set<nat>, c: seq<Ins>, t: int, f: int)
    requires Tested(g1, s1, head, L, cond) && Has(g2, s, d, T, F) && g2 == g1.(s0 := s1, e := g2.e) && g1.w.target == -1
    requires Scoped(g2.e, g1.w.base)
    requires Relinked(s.code, c, s.P)
    ensures Evals(g1.env, 0, g1.s0, s.(code := c), Exp(d.k, t, f), WithList(T, L, !cond), WithList(F, L, cond), g1.w,
              Joined(cond, g1.e, g2.e))
  {
    hide Evals, Forks, Chain, Relinked, Closed, Jumps, Scoped;
    JoinFacts(g1, s1, head, L, cond, g2, s, d, T, F);
    Compose(g1.env, 0, g1.s0, s1, L, g1.w, g1.e, cond, s, d, T, F, g2.e);
    WithNone(T, F, L, cond);
    EvalsRelinked(g1.env, 0, g1.s0, s, d, WithList(T, L, !cond), WithList(F, L, cond), g1.w, Joined(cond, g1.e, g2.e),
        c, t, f);
  }

  lemma WithNone(T: set<nat>, F: set<nat>, L: set<nat>, cond: bool)
    ensures T + (if cond then {} else L) == WithList(T, L, !cond)
    ensures F + (if cond then L else {}) == WithList(F, L, cond)
  {
  }

  lemma JoinShape(s0: Snap, s1: Snap, s: Snap, c: seq<Ins>, M: set<nat>, N: set<nat>, other: int, jpc: int)
    requires Wf(s) && Keeps(s0, s1, Outer(s0)) && Keeps(s1, s, Outer(s1)) && OnlyLinks(s.code, c, M)
    requires M + N <= s.P - s.H && M !! N && M !! Outer(s1)
    requires Chain(s.code, other, N) && Chain(s.code, jpc, s.H)
    ensures var s' := s.(code := c);
            Wf(s') && Keeps(s0, s', Outer(s0)) && Chain(c, other, N) && Chain(c, jpc, s.H) && Relinked(s.code, c, s.P)
  {
    var s' := s.(code := c);
    LinkKeeps(s, c, M, Outer(s0) + N);
    KeepsTrans(s0, s1, s, Outer(s0));
    KeepsTrans(s0, s, s', Outer(s0));
    KeepsChain(s, s', Outer(s0) + N, other, N);
    ChainIn(s.code, jpc, s.H);
    ChainFrame(s.code, c, jpc, s.H);
  }

  lemma JoinKind(s: Snap, c: seq<Ins>, d: Exp, d': Exp, T: set<nat>, F: set<nat>, T': set<nat>, F': set<nat>,
                 M: set<nat>, L: set<nat>, s1: Snap)
    requires KindOk(s, d, T, F) && OnlyLinks(s.code, c, M) && M <= T + F && d'.k == d.k && L <= Outer(s1)
    requires Keeps(s1, s, Outer(s1)) && Wf(s1)
    requires T' + F' <= T + F + L && (d.k.VJmp? ==> d.k.p !in Outer(s1))
    ensures KindOk(s.(code := c), d', T', F')
  {
    forall j | j in L ensures j < |s.code| && s.code[j].Jmp? { assert s.code[j] == s1.code[j]; }
    if d.k.VJmp? {
      var n := d.k.p - 1;
      assert n !in M && c[n] == s.code[n];
      if n > 0 { assert s.code[..n][n - 1] == s.code[n - 1] && (c[n - 1] == s.code[n - 1] || c[n - 1].Jmp?); }
    } else if d.k.VReloc? {
      var n := d.k.p;
      assert n !in M && c[n] == s.code[n];
      if n > 0 { assert s.code[..n][n - 1] == s.code[n - 1] && (c[n - 1] == s.code[n - 1] || c[n - 1].Jmp?); }
    }
  }

  lemma ScopedMore(e: Expr, n: nat, m: nat)
    requires Scoped(e, n) && n <= m
    ensures Scoped(e, m)
  {
  }

  lemma SameKs(s: Snap)
    ensures s.(ks := s.ks) == s
  {
  }

  lemma StartHas(g: Goal, d: Exp)
    requires !Delayed(d.k) && !d.k.VK? && d == Exp(d.k, NO_JUMP, NO_JUMP) && Wf(g.s0)
    requires forall env: Env, c: seq<Ins>, r: Regs :: KindValue(env, c, d.k, r) == Eval(env, g.e, r)
    ensures Has(g, g.s0, d, {}, {})
  {
    EvalsStart(g.env, 0, g.s0, g.s0.ks, d, g.w, g.e);
    SameKs(g.s0);
  }

  lemma StringHas(g: Goal, ks: seq<Value>, i: nat)
    requires Wf(g.s0) && g.e.EString? && g.s0.ks <= ks && i < |ks| && ks[i] == Str(g.e.s)
    ensures Has(g, g.s0.(ks := ks), Exp(VK(i), NO_JUMP, NO_JUMP), {}, {})
  {
    EvalsStart(g.env, 0, g.s0, ks, Exp(VK(i), NO_JUMP, NO_JUMP), g.w, g.e);
  }

  /** The same, with one more register that may change. */
  lemma Retarget(g: Goal, s: Snap, d: Exp, T: set<nat>, F: set<nat>, target: Reg)
    requires Has(g, s, d, T, F) && g.w.target == -1
    ensures Has(g.(w := Frame(g.w.base, target)), s, d, T, F)
  {
    EvalsRename(g.env, 0, g.s0, s, d, d, T, F, g.w, Frame(g.w.base, target), g.e);
  }

  lemma HasConstants(g: Goal, s: Snap, d: Exp, T: set<nat>, F: set<nat>)
    requires Has(g, s, d, T, F)
    ensures g.s0.ks <= s.ks
  {
  }

  // ---- jump targets, and registers that are set to nil ----

  /** Finished jumps go no further than l, and no LOADNIL can be skipped. */
  predicate AimedAt(c: seq<Ins>, P: set<nat>, l: int, i: nat) {
    i < |c| &&
    (c[i].Jmp? && i !in P && c[i].off >= 0 ==> i + 1 + c[i].off <= l) &&
    (Skip(c[i]) == 1 ==> i + 1 < |c| && c[i + 1].LoadBool?) &&
    (i + 1 < |c| && IsTest(c[i]) ==> !c[i + 1].LoadNil?)
  }

  /** `lasttarget`: no jump goes behind l, and those that are pending to here go to l. */
  ghost predicate Aimed(c: seq<Ins>, P: set<nat>, H: set<nat>, l: int) {
    l <= |c| && (H != {} ==> l == |c|) && forall i: nat :: i < |c| ==> AimedAt(c, P, l, i)
  }

  lemma AimedEmitted(s: Snap, i: Ins, l: nat)
    requires Wf(s) && Aimed(s.code, s.P, s.H, l) && !i.Jmp? && !IsTest(i) && Skip(i) == 0
    ensures var s' := Emitted(s, i); Aimed(s'.code, s'.P, s'.H, l)
  {
    var s' := Emitted(s, i);
    forall k: nat | k < |s'.code| ensures AimedAt(s'.code, s'.P, l, k) {
      if k < |s.code| {
        assert AimedAt(s.code, s.P, l, k) && DischargedAt(s.code, Discharge(s).code, s.H, k);
        if k + 1 < |s.code| { assert DischargedAt(s.code, Discharge(s).code, s.H, k + 1); }
      }
    }
  }

  lemma AimedBranched(s: Snap, i: Ins, l: nat)
    requires Wf(s) && Aimed(s.code, s.P, s.H, l) && IsTest(i)
    ensures var s' := Branched(s, i); Aimed(s'.code, s'.P, s'.H, l)
  {
    var s' := Branched(s, i);
    forall k: nat | k < |s'.code| ensures AimedAt(s'.code, s'.P, l, k) {
      if k < |s.code| {
        assert AimedAt(s.code, s.P, l, k) && DischargedAt(s.code, Discharge(s).code, s.H, k);
        if k + 1 < |s.code| { assert DischargedAt(s.code, Discharge(s).code, s.H, k + 1); }
      }
    }
  }

  /** The last instruction is taken back, when no jump goes behind it. */
  lemma AimedPop(c: seq<Ins>, P: set<nat>, n: nat, l: nat)
    requires Aimed(c, P, {}, l) && |c| == n + 1 && l <= n && !c[n].LoadBool?
    ensures Aimed(c[..n], P, {}, l)
  {
    forall k: nat | k < n ensures AimedAt(c[..n], P, l, k) { assert AimedAt(c, P, l, k); }
  }

  /** Same instructions, except for links of pending jumps, registers and conditions. */
  predicate Alike(i: Ins, i': Ins) {
    i'.Jmp? == i.Jmp? && IsTest(i') == IsTest(i) && i'.LoadNil? == i.LoadNil? && i'.LoadBool? == i.LoadBool? &&
    Skip(i') == Skip(i)
  }

  ghost predicate AllAlike(c: seq<Ins>, c': seq<Ins>, P: set<nat>) {
    |c'| == |c| && forall k: nat :: k < |c| ==> AlikeAt(c, c', P, k)
  }

  predicate AlikeAt(c: seq<Ins>, c': seq<Ins>, P: set<nat>, k: nat) {
    k < |c| && k < |c'| && Alike(c[k], c'[k]) && (c[k].Jmp? && k !in P ==> c'[k] == c[k])
  }

  lemma AimedAlike(c: seq<Ins>, c': seq<Ins>, P: set<nat>, H: set<nat>, l: nat)
    requires Aimed(c, P, H, l) && AllAlike(c, c', P)
    ensures Aimed(c', P, H, l)
  {
    forall k: nat | k < |c'| ensures AimedAt(c', P, l, k) {
      assert AimedAt(c, P, l, k) && AlikeAt(c, c', P, k);
      if k + 1 < |c| { assert AlikeAt(c, c', P, k + 1); }
    }
  }

  lemma AimedLinked(c: seq<Ins>, c': seq<Ins>, P: set<nat>, H: set<nat>, l: nat, L: set<nat>)
    requires Aimed(c, P, H, l) && OnlyLinks(c, c', L) && L <= P
    ensures Aimed(c', P, H, l)
  {
    forall k: nat | k < |c| ensures AlikeAt(c, c', P, k) { assert k !in L ==> c'[k] == c[k]; }
    AimedAlike(c, c', P, H, l);
  }

  lemma AimedRemoved(c: seq<Ins>, c': seq<Ins>, P: set<nat>, H: set<nat>, l: nat, L: set<nat>)
    requires Aimed(c, P, H, l) && Removed(c, c', L)
    ensures Aimed(c', P, H, l)
  {
    forall k: nat | k < |c| ensures AlikeAt(c, c', P, k) { assert RemovedAt(c, c', L, k); }
    AimedAlike(c, c', P, H, l);
  }

  /** One instruction is changed. */
  lemma AimedSet(c: seq<Ins>, P: set<nat>, H: set<nat>, l: nat, n: nat, i: Ins)
    requires Aimed(c, P, H, l) && n < |c| && Alike(c[n], i) && !i.Jmp?
    ensures Aimed(c[n := i], P, H, l)
  {
    var c' := c[n := i];
    forall k: nat | k < |c| ensures AlikeAt(c, c', P, k) {}
    AimedAlike(c, c', P, H, l);
  }

  /** A label here: jumps may come here. */
  lemma AimedHere(c: seq<Ins>, P: set<nat>, H: set<nat>, l: nat, H': set<nat>)
    requires Aimed(c, P, H, l)
    ensures Aimed(c, P, H', |c|)
  {
    forall k: nat | k < |c| ensures AimedAt(c, P, |c|, k) { assert AimedAt(c, P, l, k); }
  }

  lemma AimedBelow(c: seq<Ins>, P: set<nat>, H: set<nat>, l: nat)
    requires Aimed(c, P, H, l)
    ensures l <= |c|
  {
  }

  /** `luaK_patchtohere`. */
  lemma AimedPatchedHere(s: Snap, c: seq<Ins>, l: nat, H': set<nat>)
    requires Aimed(s.code, s.P, s.H, l) && OnlyLinks(s.code, c, s.H) && s.H <= s.P
    ensures Aimed(c, s.P, H', |c|)
  {
    AimedLinked(s.code, c, s.P, s.H, l, s.H);
    AimedHere(c, s.P, s.H, l, H');
  }

  /** One more pending jump, and the loads behind it. */
  lemma AimedLoads(c: seq<Ins>, P: set<nat>, H: set<nat>, l: nat, j: Ins, reg: Reg)
    requires Aimed(c, P, H, l) && j.Jmp?
    ensures var c' := c + [j] + [LoadBool(reg, false, true), LoadBool(reg, true, false)];
            Aimed(c', P + {|c|}, {}, |c'| - 1)
  {
    var c', P' := c + [j] + [LoadBool(reg, false, true), LoadBool(reg, true, false)], P + {|c|};
    var l' := |c'| - 1;
    forall k: nat | k < |c'| ensures AimedAt(c', P', l', k) {
      if k < |c| { assert AimedAt(c, P, l, k); }
    }
  }

  /** The loads behind the jump of a comparison. */
  lemma AimedTestLoads(c: seq<Ins>, P: set<nat>, H: set<nat>, l: nat, reg: Reg)
    requires Aimed(c, P, H, l) && c != [] && c[|c| - 1].Jmp?
    ensures var c' := c + [LoadBool(reg, false, true), LoadBool(reg, true, false)]; Aimed(c', P, {}, |c'| - 1)
  {
    var c' := c + [LoadBool(reg, false, true), LoadBool(reg, true, false)];
    var l' := |c'| - 1;
    forall k: nat | k < |c'| ensures AimedAt(c', P, l', k) {
      if k < |c| { assert AimedAt(c, P, l, k); }
    }
  }

  lemma AimedPatched(c: seq<Ins>, c1: seq<Ins>, c2: seq<Ins>, P: set<nat>, H: set<nat>, l: nat, T: set<nat>,
                     F: set<nat>, reg: Reg, pf: int, pt: int)
    requires Aimed(c, P, H, l) && T + F <= P && Jumps(c, P) && T !! F && pf <= |c| && pt <= |c| && reg != NO_REG
    requires ListPatched(c, c1, F, reg, |c|, pf) && ListPatched(c1, c2, T, reg, |c|, pt)
    ensures Aimed(c2, P - T - F, H, |c|)
  {
    BothPatched(c, c1, c2, T, F, reg, pf, pt);
    forall k: nat | k < |c2| ensures AimedAt(c2, P - T - F, |c|, k) {
      assert AimedAt(c, P, l, k) && PatchedAt(c, c2, T, F, reg, pf, pt, k);
      if k + 1 < |c| { assert PatchedAt(c, c2, T, F, reg, pf, pt, k + 1); }
    }
  }

  // ---- luaK_nil ----

  /** What setting registers to nil makes of the end of a run. */
  function Filled(o: Out, from: Reg, n: nat): Out { if o.Here? then Here(Fill(o.r, from, n)) else o }

  ghost predicate FillsAt(env: Env, s: Snap, s': Snap, from: Reg, n: nat, r: Regs) {
    Start(env, s, 0, r) != Bad ==> Start(env, s', 0, r) == Filled(Start(env, s, 0, r), from, n)
  }

  /** LOADNIL instructions differ, and there may be more code. */
  ghost predicate NilEdit(c: seq<Ins>, c': seq<Ins>) {
    |c| <= |c'| && forall i :: 0 <= i < |c| ==> c'[i] == c[i] || (c[i].LoadNil? && c'[i].LoadNil?)
  }

  /** The code since s sets the registers from to from + n to nil, and does nothing else. */
  ghost predicate NilCoded(env: Env, s: Snap, s': Snap, from: Reg, n: nat) {
    var d := Discharge(s);
    Wf(s') && s'.P == d.P && s'.H == {} && s'.ks == s.ks && NilEdit(d.code, s'.code) &&
    forall r: Regs :: FillsAt(env, d, s', from, n, r)
  }

  /** No LOADNIL at the end. */
  lemma NilEmitted(env: Env, s: Snap, from: Reg, n: nat)
    requires Wf(s)
    ensures NilCoded(env, s, Emitted(s, LoadNil(from, n)), from, n)
  {
    var d, s' := Discharge(s), Emitted(s, LoadNil(from, n));
    EmitKeeps(s, LoadNil(from, n), {});
    DischargeWf(s);
    forall r: Regs ensures FillsAt(env, d, s', from, n, r) {
      if Run(env, d.code, d.P, 0, r) != Bad { FillOne(env, d.code, d.P, from, n, r); }
    }
  }

  lemma FillOne(env: Env, c: seq<Ins>, P: set<nat>, from: Reg, n: nat, r: Regs)
    requires Closed(c) && |c| !in P && Run(env, c, P, 0, r) != Bad
    ensures Run(env, c + [LoadNil(from, n)], P, 0, r) == Filled(Run(env, c, P, 0, r), from, n)
  {
    RunAppend(env, c, [LoadNil(from, n)], P, P, 0, r);
    var o := Run(env, c, P, 0, r);
    if o.Here? {
      assert (c + [LoadNil(from, n)])[|c|] == LoadNil(from, n);
      assert Run(env, c + [LoadNil(from, n)], P, |c| + 1, Fill(o.r, from, n)) == Here(Fill(o.r, from, n));
    }
  }

  /** Two ranges of registers that touch, and the range of both. */
  predicate Connects(a: Reg, n: nat, from: Reg, m: nat, y: Ins) {
    y.LoadNil? && (a <= from <= a + n + 1 || from <= a <= from + m + 1) &&
    y.a == (if a < from then a else from) && y.a + y.n == if a + n > from + m then a + n else from + m
  }

  lemma FillTwice(r: Regs, a: Reg, n: nat, from: Reg, m: nat, y: Ins)
    requires Connects(a, n, from, m, y)
    ensures Fill(Fill(r, a, n), from, m) == Fill(r, y.a, y.n)
  {
  }

  /** A LOADNIL at the end sets more registers instead: no jump goes behind it, so all runs to the end pass it. */
  lemma {:induction false} MergeRun(env: Env, c: seq<Ins>, P: set<nat>, l: nat, from: Reg, m: nat, y: Ins, pc: nat,
                                    r: Regs)
    requires |c| > 0 && pc < |c| && l < |c| && (forall i: nat :: i < |c| ==> AimedAt(c, P, l, i)) && |c| - 1 !in P
    requires c[|c| - 1].LoadNil? && Connects(c[|c| - 1].a, c[|c| - 1].n, from, m, y)
    ensures Run(env, c[|c| - 1 := y], P, pc, r) == Filled(Run(env, c, P, pc, r), from, m)
    decreases |c| - pc
  {
    var i, c' := c[pc], c[|c| - 1 := y];
    assert AimedAt(c, P, l, pc);
    if pc == |c| - 1 {
      FillTwice(r, i.a, i.n, from, m, y);
      assert Run(env, c, P, |c|, Fill(r, i.a, i.n)) == Here(Fill(r, i.a, i.n));
      assert Run(env, c', P, |c|, Fill(r, y.a, y.n)) == Here(Fill(r, y.a, y.n));
    } else if i.Jmp? {
      if pc !in P && i.off >= 0 { MergeRun(env, c, P, l, from, m, y, pc + 1 + i.off, r); }
    } else if i.TestSet? && Takes(env, i, r) {
      if pc + 1 !in P { MergeRun(env, c, P, l, from, m, y, pc + 1, r[i.a := r[i.b]]); }
    } else if IsTest(i) {
      assert pc + 1 != |c| - 1;
      MergeRun(env, c, P, l, from, m, y, if Takes(env, i, r) then pc + 1 else pc + 2, r);
    } else if i.LoadNil? {
      MergeRun(env, c, P, l, from, m, y, pc + 1, Fill(r, i.a, i.n));
    } else if HasResult(i) {
      assert Skip(i) == 1 ==> pc + 1 != |c| - 1;
      MergeRun(env, c, P, l, from, m, y, pc + 1 + Skip(i), r[i.a := Result(env, i, r)]);
    }
  }

  lemma NilMerged(env: Env, s: Snap, l: nat, from: Reg, m: nat, y: Ins)
    requires Wf(s) && Aimed(s.code, s.P, s.H, l) && l < |s.code| && s.code[|s.code| - 1].LoadNil?
    requires Connects(s.code[|s.code| - 1].a, s.code[|s.code| - 1].n, from, m, y)
    ensures var c' := s.code[|s.code| - 1 := y];
            NilCoded(env, s, s.(code := c'), from, m) && Aimed(c', s.P, s.H, l) && s.H == {} && Wf(s.(code := c'))
  {
    var n := |s.code| - 1;
    var c' := s.code[n := y];
    NoDischarge(s);
    assert n !in s.P;
    AimedSet(s.code, s.P, s.H, l, n, y);
    forall r: Regs ensures FillsAt(env, s, s.(code := c'), from, m, r) {
      hide AimedAt;
      MergeRun(env, s.code, s.P, l, from, m, y, 0, r);
    }
  }

  /** Nil goes into a register. */
  lemma NilHas(g: Goal, s: Snap, d: Exp, T: set<nat>, F: set<nat>, s': Snap, reg: Reg)
    requires Has(g, s, d, T, F) && d.k.VNil? && NilCoded(g.env, s, s', reg, 0) && (reg >= g.w.base || reg == g.w.target)
    ensures Has(g, s', d.(k := VNonReloc(reg)), T, F)
  {
    hide Evals, FillsAt;
    NilShape(g.s0, s, d, T, F, s');
    DischargeWf(s);
    EvalsDischarge(g.env, 0, g.s0, s, d, T, F, g.w, g.e);
    NilEvals(g, Discharge(s), d, T, F, s', reg);
  }

  lemma NilShape(s0: Snap, s: Snap, d: Exp, T: set<nat>, F: set<nat>, s': Snap)
    requires Wf(s) && Keeps(s0, s, Outer(s0)) && T + F <= s.P - s.H && Chain(s.code, d.t, T) && Chain(s.code, d.f, F)
    requires var e := Discharge(s); NilEdit(e.code, s'.code) && s'.P == e.P && s'.H == {} && s'.ks == s.ks
    ensures Keeps(s0, s', Outer(s0)) && T + F <= s'.P - s'.H && Chain(s'.code, d.t, T) && Chain(s'.code, d.f, F)
    ensures s.H !! Outer(s0) && forall j :: j in T || j in F ==> j < |s.code|
  {
    var L := T + F + Outer(s0);
    var e := Discharge(s);
    DischargeWf(s);
    assert Keeps(s, s', L) by {
      forall j: nat | j in L
        ensures j < |s.code| && s'.code[j] == s.code[j] && (NoValue(s.code, j) ==> NoValue(s'.code, j))
      {
        assert j in s.P && s.code[j].Jmp? && e.code[j] == s.code[j];
        if j >= 1 && NoValue(s.code, j) {
          assert NoValue(e.code, j);
          assert s'.code[j - 1] == e.code[j - 1] || s'.code[j - 1].LoadNil?;
        }
      }
    }
    KeepsChain(s, s', L, d.t, T);
    KeepsChain(s, s', L, d.f, F);
    KeepsTrans(s0, s, s', Outer(s0));
    ChainIn(s.code, d.t, T);
    ChainIn(s.code, d.f, F);
  }

  lemma NilEvals(g: Goal, s: Snap, d: Exp, T: set<nat>, F: set<nat>, s': Snap, reg: Reg)
    requires Evals(g.env, 0, g.s0, s, d, T, F, g.w, g.e) && d.k.VNil? && s.H == {} && Wf(s)
    requires reg >= g.w.base || reg == g.w.target
    requires NilEdit(s.code, s'.code) && s'.P == s.P && s'.H == {} && s'.ks == s.ks
    requires forall j :: j in T || j in F ==> j < |s.code|
    requires forall r: Regs :: FillsAt(g.env, s, s', reg, 0, r)
    ensures Evals(g.env, 0, g.s0, s', d.(k := VNonReloc(reg)), T, F, g.w, g.e)
  {
    hide Run;
    if s.ks <= g.env.ks {
      forall r: Regs ensures EvalsAt(g.env, 0, g.s0, s', d.(k := VNonReloc(reg)), T, F, g.w, g.e, r) {
        assert EvalsAt(g.env, 0, g.s0, s, d, T, F, g.w, g.e, r) && FillsAt(g.env, s, s', reg, 0, r);
        Whole(s.code);
        Whole(s'.code);
        RunStops(g.env, s.code, s.P, 0, r);
      }
    }
  }

  lemma NilConstants(env: Env, s: Snap, s': Snap, from: Reg, n: nat)
    requires NilCoded(env, s, s', from, n)
    ensures s'.ks == s.ks
  {
  }
}
