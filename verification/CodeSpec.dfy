/** What it means that code computes an expression, while its jumps are still pending. */
module CodeSpec {
  import opened CodeMachine

  datatype CmpOp = OpEq | OpNe | OpLt | OpLe | OpGt | OpGe

  /** Expressions over constants, locals and upvalues. */
  datatype Expr =
    | ENil | ETrue | EFalse | EString(s: string) | ENumber(n: Number) | ELocal(r: Reg) | EUpval(u: nat)
    | ENot(e: Expr) | EAnd(l: Expr, r0: Expr) | EOr(l: Expr, r0: Expr) | ECompare(op: CmpOp, l: Expr, r0: Expr)

  predicate Scoped(e: Expr, nactvar: nat) {
    match e
    case ELocal(r) => r < nactvar
    case ENot(a) => Scoped(a, nactvar)
    case EAnd(a, b) => Scoped(a, nactvar) && Scoped(b, nactvar)
    case EOr(a, b) => Scoped(a, nactvar) && Scoped(b, nactvar)
    case ECompare(_, a, b) => Scoped(a, nactvar) && Scoped(b, nactvar)
    case _ => true
  }

  function Compared(env: Env, op: CmpOp, a: Value, b: Value): bool {
    match op
    case OpEq => (env.cmp)(Eq, a, b)
    case OpNe => !(env.cmp)(Eq, a, b)
    case OpLt => (env.cmp)(Lt, a, b)
    case OpLe => (env.cmp)(Le, a, b)
    case OpGt => (env.cmp)(Lt, b, a)
    case OpGe => (env.cmp)(Le, b, a)
  }

  /** The value of an expression (sections 3.4.4 and 3.4.5 of the Lua 5.3 Reference Manual). */
  function Eval(env: Env, e: Expr, r: Regs): Value {
    match e
    case ENil => Nil
    case ETrue => Bool(true)
    case EFalse => Bool(false)
    case EString(s) => Str(s)
    case ENumber(n) => Num(n)
    case ELocal(x) => r[x]
    case EUpval(u) => (env.ups)(u)
    case ENot(a) => Bool(!Truthy(Eval(env, a, r)))
    case EAnd(a, b) => var v := Eval(env, a, r); if Truthy(v) then Eval(env, b, r) else v
    case EOr(a, b) => var v := Eval(env, a, r); if Truthy(v) then v else Eval(env, b, r)
    case ECompare(op, a, b) => Bool(Compared(env, op, Eval(env, a, r), Eval(env, b, r)))
  }

  lemma EvalScoped(env: Env, e: Expr, n: nat, a: Regs, b: Regs)
    requires Scoped(e, n) && forall i :: 0 <= i < n && i < 256 ==> a[i] == b[i]
    ensures Eval(env, e, a) == Eval(env, e, b)
  {
  }

  // ---- expression descriptors ----

  /** `expdesc`: where the value is, and the jumps that leave the expression early because it is true or false. */
  datatype Kind =
    | VNil | VTrue | VFalse | VK(k: nat) | VNum(n: Number) | VNonReloc(r: Reg) | VLocal(r: Reg) | VUpval(u: nat)
    | VJmp(p: nat) | VReloc(p: nat)

  datatype Exp = Exp(k: Kind, t: int, f: int)

  predicate HasJumps(e: Exp) { e.t != e.f }

  /** The state of the code array that a run depends on; H are the pending jumps to the end (`jpc`). */
  datatype Snap = Snap(code: seq<Ins>, P: set<nat>, H: set<nat>, ks: seq<Value>)

  /** A relocatable result and a comparison are not executed yet. */
  function Cut(k: Kind, code: seq<Ins>): nat {
    match k
    case VReloc(p) => p
    case VJmp(p) => if p == 0 then 0 else p - 1
    case _ => |code|
  }

  function KindValue(env: Env, code: seq<Ins>, k: Kind, r: Regs): Value {
    match k
    case VNil => Nil
    case VTrue => Bool(true)
    case VFalse => Bool(false)
    case VK(i) => Constant(env, i)
    case VNum(n) => Num(n)
    case VNonReloc(x) => r[x]
    case VLocal(x) => r[x]
    case VUpval(u) => (env.ups)(u)
    case VReloc(p) => if p < |code| && HasResult(code[p]) then Result(env, code[p], r) else Nil
    case VJmp(p) => if 1 <= p <= |code| && IsTest(code[p - 1]) then Bool(Takes(env, code[p - 1], r)) else Nil
  }

  function RegsOf(o: Out): Regs
    requires o != Bad
  {
    o.r
  }

  /** The run gets to the end, by falling through or by a pending jump to there. */
  predicate Arrives(o: Out, H: set<nat>) { o.Here? || ((o.Away? || o.AwaySet?) && o.j in H) }

  /** Registers that an expression must leave alone: those below base, but for its target. */
  datatype Frame = Frame(base: nat, target: int)

  predicate Same(a: Regs, b: Regs, w: Frame) {
    forall i :: 0 <= i < w.base && i < 256 && i != w.target ==> a[i] == b[i]
  }

  predicate NoValue(code: seq<Ins>, j: nat) { 1 <= j <= |code| ==> !code[j - 1].TestSet? }

  /** The run left by a jump of the true list because the value is true, or of the false list because it is false.
      A jump that takes no value means exactly the boolean. */
  predicate Left(code: seq<Ins>, o: Out, T: set<nat>, F: set<nat>, v: Value) {
    (o.Away? || o.AwaySet?) && (o.j in T || o.j in F) && (o.j in T ==> Truthy(v)) && (o.j in F ==> !Truthy(v)) &&
    if o.AwaySet? then o.r[o.b] == v else v.Bool? && NoValue(code, o.j)
  }

  /** The value is where the descriptor says, or the run left. */
  predicate Sat(env: Env, s: Snap, o: Out, d: Exp, T: set<nat>, F: set<nat>, v: Value, r: Regs, w: Frame) {
    o != Bad && Same(RegsOf(o), r, w) &&
    if Arrives(o, s.H) then KindValue(env, s.code, d.k, RegsOf(o)) == v else Left(s.code, o, T, F, v)
  }

  function Start(env: Env, s0: Snap, p0: nat, r: Regs): Out { Run(env, s0.code, s0.P, p0, r) }

  function Now(env: Env, s: Snap, k: Kind, p0: nat, r: Regs): Out
    requires Cut(k, s.code) <= |s.code|
  {
    Run(env, s.code[..Cut(k, s.code)], s.P, p0, r)
  }

  ghost predicate EvalsAt(env: Env, p0: nat, s0: Snap, s: Snap, d: Exp, T: set<nat>, F: set<nat>, w: Frame, e: Expr,
                          r: Regs) {
    var o0 := Start(env, s0, p0, r);
    Cut(d.k, s.code) <= |s.code| && (o0 != Bad ==>
      var o := Now(env, s, d.k, p0, r);
      if Arrives(o0, s0.H) then Sat(env, s, o, d, T, F, Eval(env, e, RegsOf(o0)), RegsOf(o0), w) else o == o0)
  }

  /** From wherever the run came to the end of s0, the code added since computes e. */
  ghost predicate Evals(env: Env, p0: nat, s0: Snap, s: Snap, d: Exp, T: set<nat>, F: set<nat>, w: Frame, e: Expr) {
    s.ks <= env.ks ==> forall r: Regs :: EvalsAt(env, p0, s0, s, d, T, F, w, e, r)
  }

  /** A test of e: the run goes on if its truth is cond, and leaves otherwise. */
  ghost predicate ForksAt(env: Env, p0: nat, s0: Snap, s: Snap, T: set<nat>, F: set<nat>, w: Frame, e: Expr, cond: bool,
                          r: Regs) {
    var o0 := Start(env, s0, p0, r);
    o0 != Bad ==>
      var o := Start(env, s, p0, r);
      if Arrives(o0, s0.H) then
        var v := Eval(env, e, RegsOf(o0));
        o != Bad && Same(RegsOf(o), RegsOf(o0), w) && if Arrives(o, s.H) then Truthy(v) == cond
          else Left(s.code, o, T, F, v)
      else o == o0
  }

  ghost predicate Forks(env: Env, p0: nat, s0: Snap, s: Snap, T: set<nat>, F: set<nat>, w: Frame, e: Expr, cond: bool) {
    s.ks <= env.ks ==> forall r: Regs :: ForksAt(env, p0, s0, s, T, F, w, e, cond, r)
  }

  // ---- emitting ----

  /** `dischargejpc`: the jumps to the end get it as their target, without values. */
  function DischargedCode(c: seq<Ins>, H: set<nat>): (c': seq<Ins>)
    ensures |c'| == |c|
    ensures forall i :: 0 <= i < |c| ==> DischargedAt(c, c', H, i)
  {
    seq(|c|, i requires 0 <= i < |c| => if i in H then Jmp(|c| - i - 1) else if i + 1 in H && c[i].TestSet? then
          Test(c[i].b, c[i].c) else c[i])
  }

  predicate DischargedAt(c: seq<Ins>, c': seq<Ins>, H: set<nat>, i: nat) {
    i < |c| && i < |c'| &&
    c'[i] == if i in H then Jmp(|c| - i - 1) else if i + 1 in H && c[i].TestSet? then Test(c[i].b, c[i].c) else c[i]
  }

  function Discharge(s: Snap): Snap { Snap(DischargedCode(s.code, s.H), s.P - s.H, {}, s.ks) }

  /** `luaK_code`. */
  function Emitted(s: Snap, i: Ins): Snap { var d := Discharge(s); d.(code := d.code + [i]) }

  /** `condjump`. */
  function Branched(s: Snap, i: Ins): Snap {
    var d := Discharge(s); d.(code := d.code + [i, Jmp(NO_JUMP)], P := d.P + {|d.code| + 1})
  }

  predicate Jumps(c: seq<Ins>, P: set<nat>) { forall j :: j in P ==> j < |c| && c[j].Jmp? }

  /** A snapshot on which runs make sense. */
  ghost predicate Wf(s: Snap) { Jumps(s.code, s.P) && s.H <= s.P && Closed(s.code) }

  lemma Discharges(env: Env, s: Snap, p0: nat, r: Regs)
    requires Wf(s)
    ensures var o := Start(env, s, p0, r);
            Start(env, Discharge(s), p0, r) == if Arrives(o, s.H) then Here(RegsOf(o)) else o
  {
    var c, c', P, H := s.code, DischargedCode(s.code, s.H), s.P, s.H;
    forall i | 0 <= i < |c| ensures RewrittenAt(c, c', P, i) {
      assert DischargedAt(c, c', H, i);
    }
    RunRewritten(env, c, c', P, P - H, p0, r);
    RunStops(env, c, P, p0, r);
    var o := Run(env, c, P, p0, r);
    if o.Away? {
      assert DischargedAt(c, c', H, o.j);
      if o.j in H { assert Run(env, c', P - H, |c|, o.r) == Here(o.r); }
    } else if o.AwaySet? && o.j in P {
      assert DischargedAt(c, c', H, o.j - 1) && DischargedAt(c, c', H, o.j);
      assert c[o.j].Jmp? && o.j - 1 !in P;
      if o.j in H {
        assert Run(env, c', P - H, |c|, o.r) == Here(o.r);
        assert Run(env, c', P - H, o.j, o.r) == Here(o.r);
      }
    }
  }

  lemma DischargeWf(s: Snap)
    requires Wf(s)
    ensures Wf(Discharge(s))
    ensures forall j :: j in s.P - s.H ==> Discharge(s).code[j] == s.code[j]
    ensures forall j: nat :: NoValue(s.code, j) ==> NoValue(Discharge(s).code, j)
  {
    var c' := Discharge(s).code;
    forall j | j in s.P - s.H ensures j < |c'| && c'[j] == s.code[j] { assert DischargedAt(s.code, c', s.H, j); }
    forall j: nat | NoValue(s.code, j) ensures NoValue(c', j) {
      if 1 <= j <= |c'| { assert DischargedAt(s.code, c', s.H, j - 1); }
    }
    if c' != [] { assert DischargedAt(s.code, c', s.H, |c'| - 1); }
  }

  predicate Delayed(k: Kind) { k.VReloc? || k.VJmp? }

  /** Discharging pending jumps changes no value. */
  lemma EvalsDischarge(env: Env, p0: nat, s0: Snap, s: Snap, d: Exp, T: set<nat>, F: set<nat>, w: Frame, e: Expr)
    requires Wf(s) && Evals(env, p0, s0, s, d, T, F, w, e) && !Delayed(d.k) && s.H !! s0.P - s0.H
    ensures Evals(env, p0, s0, Discharge(s), d, T, F, w, e)
  {
    hide Run;
    var s' := Discharge(s);
    DischargeWf(s);
    if s.ks <= env.ks {
      forall r: Regs ensures EvalsAt(env, p0, s0, s', d, T, F, w, e, r) {
        assert EvalsAt(env, p0, s0, s, d, T, F, w, e, r);
        Discharges(env, s, p0, r);
        RunStops(env, s0.code, s0.P, p0, r);
        Whole(s.code);
        Whole(s'.code);
      }
    }
  }

  lemma Whole(c: seq<Ins>)
    ensures c[..|c|] == c
  {
  }

  /** A value computed by a new instruction, whose register is still open. */
  lemma EvalsReloc(env: Env, p0: nat, s0: Snap, s: Snap, d: Exp, T: set<nat>, F: set<nat>, w: Frame, e: Expr, i: Ins)
    requires Wf(s) && s.H == {} && Evals(env, p0, s0, s, d, T, F, w, e) && !Delayed(d.k) && HasResult(i)
    requires s.ks <= env.ks ==> forall r: Regs :: Result(env, i, r) == KindValue(env, s.code, d.k, r)
    requires forall j :: j in T || j in F ==> j < |s.code|
    ensures Evals(env, p0, s0, s.(code := s.code + [i]), d.(k := VReloc(|s.code|)), T, F, w, e)
  {
    var s' := s.(code := s.code + [i]);
    if s.ks <= env.ks {
      forall r: Regs ensures EvalsAt(env, p0, s0, s', d.(k := VReloc(|s.code|)), T, F, w, e, r) {
        assert EvalsAt(env, p0, s0, s, d, T, F, w, e, r);
        Whole(s.code);
        assert s'.code[..|s.code|] == s.code;
      }
    }
  }

  /** Running one more instruction. */
  lemma RunOne(env: Env, c: seq<Ins>, i: Ins, P: set<nat>, p0: nat, r: Regs)
    requires Closed(c) && HasResult(i) && Skip(i) == 0 && |c| !in P && Run(env, c, P, p0, r) != Bad
    ensures var o := Run(env, c, P, p0, r);
            Run(env, c + [i], P, p0, r) == if o.Here? then Here(o.r[i.a := Result(env, i, o.r)]) else o
  {
    RunAppend(env, c, [i], P, P, p0, r);
    var o := Run(env, c, P, p0, r);
    if o.Here? {
      assert (c + [i])[|c|] == i;
      assert Run(env, c + [i], P, |c| + 1, o.r[i.a := Result(env, i, o.r)]) == Here(o.r[i.a := Result(env, i, o.r)]);
    }
  }

  /** A value put into a register by a new instruction. */
  lemma EvalsPut(env: Env, p0: nat, s0: Snap, s: Snap, d: Exp, T: set<nat>, F: set<nat>, w: Frame, e: Expr, i: Ins)
    requires Wf(s) && s.H == {} && Evals(env, p0, s0, s, d, T, F, w, e) && !Delayed(d.k) && HasResult(i) && Skip(i) == 0
    requires s.ks <= env.ks ==> forall r: Regs :: Result(env, i, r) == KindValue(env, s.code, d.k, r)
    requires forall j :: j in T || j in F ==> j < |s.code|
    requires i.a >= w.base || i.a == w.target
    ensures Evals(env, p0, s0, s.(code := s.code + [i]), d.(k := VNonReloc(i.a)), T, F, w, e)
  {
    if s.ks <= env.ks {
      forall r: Regs ensures EvalsAt(env, p0, s0, s.(code := s.code + [i]), d.(k := VNonReloc(i.a)), T, F, w, e, r) {
        assert EvalsAt(env, p0, s0, s, d, T, F, w, e, r);
        Whole(s.code);
        PutAt(env, p0, s0, s, d, T, F, w, e, i, s.code, r);
      }
    }
  }

  /** The open register of the last instruction is filled in. */
  lemma EvalsFill(env: Env, p0: nat, s0: Snap, s: Snap, d: Exp, T: set<nat>, F: set<nat>, w: Frame, e: Expr, i: Ins)
    requires s.H == {} && Evals(env, p0, s0, s, d, T, F, w, e) && d.k.VReloc? && d.k.p == |s.code| - 1
    requires Jumps(s.code, s.P)
    requires HasResult(i) && Skip(i) == 0 && HasResult(s.code[d.k.p]) && Closed(s.code[..d.k.p])
    requires forall r: Regs :: Result(env, i, r) == Result(env, s.code[d.k.p], r)
    requires forall j :: j in T || j in F ==> j < |s.code|
    requires i.a >= w.base || i.a == w.target
    ensures Evals(env, p0, s0, s.(code := s.code[d.k.p := i]), d.(k := VNonReloc(i.a)), T, F, w, e)
  {
    var c := s.code[..d.k.p];
    assert s.code[d.k.p := i] == c + [i];
    if s.ks <= env.ks {
      forall r: Regs ensures EvalsAt(env, p0, s0, s.(code := c + [i]), d.(k := VNonReloc(i.a)), T, F, w, e, r) {
        assert EvalsAt(env, p0, s0, s, d, T, F, w, e, r);
        PutAt(env, p0, s0, s, d, T, F, w, e, i, c, r);
      }
    }
  }

  lemma PutAt(env: Env, p0: nat, s0: Snap, s: Snap, d: Exp, T: set<nat>, F: set<nat>, w: Frame, e: Expr, i: Ins,
              c: seq<Ins>, r: Regs)
    requires s.H == {} && Cut(d.k, s.code) == |c| <= |s.code| && c == s.code[..|c|] && Closed(c) && Jumps(s.code, s.P)
    requires EvalsAt(env, p0, s0, s, d, T, F, w, e, r)
    requires HasResult(i) && Skip(i) == 0 && (|c| == |s.code| || HasResult(s.code[|c|]))
    requires forall q: Regs :: Result(env, i, q) == KindValue(env, s.code, d.k, q)
    requires forall j :: j in T || j in F ==> j < |s.code|
    requires i.a >= w.base || i.a == w.target
    requires |c| == |s.code| || |c| + 1 == |s.code|
    ensures EvalsAt(env, p0, s0, s.(code := c + [i]), d.(k := VNonReloc(i.a)), T, F, w, e, r)
  {
    hide Run;
    var s' := s.(code := c + [i]);
    Whole(s'.code);
    if Start(env, s0, p0, r) != Bad {
      RunOne(env, c, i, s.P, p0, r);
      RunStops(env, c, s.P, p0, r);
    }
  }

  /** The test takes its jump if the value is not cond, and then has the value at hand or needs none. */
  predicate BranchFits(env: Env, code: seq<Ins>, k: Kind, i: Ins, cond: bool, r: Regs) {
    var v := KindValue(env, code, k, r);
    IsTest(i) && (Takes(env, i, r) <==> Truthy(v) != cond) && if i.TestSet? then r[i.b] == v else v.Bool?
  }

  /** s' is s up to where the value is, followed by a test and its jump j. */
  ghost predicate BranchAt(s: Snap, k: Kind, s': Snap, i: Ins, j: nat) {
    s.H == {} && Cut(k, s.code) + 1 == j && j <= |s.code| + 1 && IsTest(i) && Closed(s.code[..j - 1]) &&
    |s'.code| == j + 1 && s'.code[..j - 1] == s.code[..j - 1] && s'.code[j - 1] == i && s'.code[j].Jmp? &&
    s'.H == {} && s'.ks == s.ks && j in s'.P && forall q :: q < j - 1 ==> (q in s'.P <==> q in s.P)
  }

  /** A branch behind the code: what it takes is what is not cond. */
  lemma ForkBranch(env: Env, p0: nat, s0: Snap, s: Snap, d: Exp, T: set<nat>, F: set<nat>, w: Frame, e: Expr,
                   cond: bool, s': Snap, i: Ins, j: nat, T': set<nat>, F': set<nat>)
    requires Evals(env, p0, s0, s, d, T, F, w, e) && BranchAt(s, d.k, s', i, j)
    requires T <= T' && F <= F' && T' <= T + {j} && F' <= F + {j} && j in (if cond then F' else T')
    requires j !in (if cond then T' else F')
    requires forall q :: q in T || q in F ==> q < j - 1
    requires s.ks <= env.ks ==> forall r: Regs :: BranchFits(env, s.code, d.k, i, cond, r)
    ensures Forks(env, p0, s0, s', T', F', w, e, cond)
  {
    hide Run;
    if s.ks <= env.ks {
      forall r: Regs ensures ForksAt(env, p0, s0, s', T', F', w, e, cond, r) {
        assert EvalsAt(env, p0, s0, s, d, T, F, w, e, r);
        ForkAt(env, p0, s0, s, d, T, F, w, e, cond, s', i, j, T', F', r);
      }
    }
  }

  lemma ForkAt(env: Env, p0: nat, s0: Snap, s: Snap, d: Exp, T: set<nat>, F: set<nat>, w: Frame, e: Expr, cond: bool,
               s': Snap, i: Ins, j: nat, T': set<nat>, F': set<nat>, r: Regs)
    requires EvalsAt(env, p0, s0, s, d, T, F, w, e, r) && BranchAt(s, d.k, s', i, j)
    requires T <= T' && F <= F' && T' <= T + {j} && F' <= F + {j} && j in (if cond then F' else T')
    requires j !in (if cond then T' else F')
    requires forall q :: q in T || q in F ==> q < j - 1
    requires forall r: Regs :: BranchFits(env, s.code, d.k, i, cond, r)
    ensures ForksAt(env, p0, s0, s', T', F', w, e, cond, r)
  {
    hide Run, Eval, KindValue, Sat, Left, BranchFits;
    var o0 := Start(env, s0, p0, r);
    if o0 != Bad {
      var o := Now(env, s, d.k, p0, r);
      RunStops(env, s.code[..j - 1], s.P, p0, r);
      if Arrives(o0, s0.H) {
        var v, r0 := Eval(env, e, RegsOf(o0)), RegsOf(o0);
        SatRuns(env, s, o, d, T, F, v, r0, w);
        ForkRun(env, p0, s, d.k, s', i, j, r);
        if o.Here? { assert BranchFits(env, s.code, d.k, i, cond, o.r); }
        ForkOut(env, s, o, d, T, F, v, r0, w, cond, s', i, j, T', F', Start(env, s', p0, r));
      } else {
        ForkRun(env, p0, s, d.k, s', i, j, r);
      }
    }
  }

  lemma ForkOut(env: Env, s: Snap, o: Out, d: Exp, T: set<nat>, F: set<nat>, v: Value, r: Regs, w: Frame, cond: bool,
                s': Snap, i: Ins, j: nat, T': set<nat>, F': set<nat>, o': Out)
    requires Sat(env, s, o, d, T, F, v, r, w) && BranchAt(s, d.k, s', i, j)
    requires T <= T' && F <= F' && j in (if cond then F' else T') && j !in (if cond then T' else F')
    requires forall q :: q in T || q in F ==> q < j - 1
    requires o.Here? ==> BranchFits(env, s.code, d.k, i, cond, o.r)
    requires (forall q :: q in T' && q != j ==> q in T) && (forall q :: q in F' && q != j ==> q in F)
    requires o' == if !o.Here? then o else if !Takes(env, i, o.r) then Here(o.r) else if i.TestSet? then
               AwaySet(j, i.b, o.r) else Away(j, o.r)
    ensures o' != Bad && Same(RegsOf(o'), r, w)
    ensures if Arrives(o', s'.H) then Truthy(v) == cond else Left(s'.code, o', T', F', v)
  {
    hide Same, Takes, KindValue;
    forall q: nat | q < j - 1 ensures s'.code[q] == s.code[q] { assert s'.code[..j - 1][q] == s.code[..j - 1][q]; }
  }

  lemma ForkRun(env: Env, p0: nat, s: Snap, k: Kind, s': Snap, i: Ins, j: nat, r: Regs)
    requires BranchAt(s, k, s', i, j) && Now(env, s, k, p0, r) != Bad
    ensures var o := Now(env, s, k, p0, r);
            Start(env, s', p0, r) ==
              if !o.Here? then o else if !Takes(env, i, o.r) then Here(o.r) else if i.TestSet? then
                  AwaySet(j, i.b, o.r) else Away(j, o.r)
  {
    var c := s.code[..j - 1];
    assert s'.code == c + [i, s'.code[j]];
    RunAppend(env, c, [i, s'.code[j]], s.P, s'.P, p0, r);
    var o := Run(env, c, s.P, p0, r);
    if o.Here? { BranchOut(env, s'.code, s'.P, j, o.r); }
  }

  lemma BranchOut(env: Env, c: seq<Ins>, P: set<nat>, j: nat, r: Regs)
    requires 1 <= j == |c| - 1 && IsTest(c[j - 1]) && c[j].Jmp? && j in P
    ensures Run(env, c, P, j - 1, r) ==
      if !Takes(env, c[j - 1], r) then Here(r) else if c[j - 1].TestSet? then AwaySet(j, c[j - 1].b, r) else Away(j, r)
  {
    assert Run(env, c, P, j + 1, r) == Here(r);
  }

  /** Constants whose truth is known. */
  predicate Always(k: Kind, cond: bool) { if cond then k.VTrue? || k.VK? || k.VNum? else k.VNil? || k.VFalse? }

  /** A constant needs no branch. */
  lemma ForkConstant(env: Env, p0: nat, s0: Snap, s: Snap, d: Exp, T: set<nat>, F: set<nat>, w: Frame, e: Expr,
                     cond: bool)
    requires Evals(env, p0, s0, s, d, T, F, w, e) && !Delayed(d.k)
    requires Always(d.k, cond) && (d.k.VK? ==> d.k.k < |s.ks| && Truthy(s.ks[d.k.k]))
    ensures Forks(env, p0, s0, s, T, F, w, e, cond)
  {
    if s.ks <= env.ks {
      forall r: Regs ensures ForksAt(env, p0, s0, s, T, F, w, e, cond, r) {
        assert EvalsAt(env, p0, s0, s, d, T, F, w, e, r);
        Whole(s.code);
      }
    }
  }

  /** `luaK_patchtohere`: one of the lists goes on here. */
  lemma ForkHere(env: Env, p0: nat, s0: Snap, s: Snap, T: set<nat>, F: set<nat>, w: Frame, e: Expr, cond: bool)
    requires Forks(env, p0, s0, s, T, F, w, e, cond) && (T + F) !! s0.P - s0.H && s.H !! s0.P - s0.H
    ensures Forks(env, p0, s0, s.(H := s.H + if cond then T else F),
                  if cond then {} else T, if cond then F else {}, w, e, cond)
  {
    var s' := s.(H := s.H + if cond then T else F);
    var T', F' := if cond then {} else T, if cond then F else {};
    if s.ks <= env.ks {
      forall r: Regs ensures ForksAt(env, p0, s0, s', T', F', w, e, cond, r) {
        assert ForksAt(env, p0, s0, s, T, F, w, e, cond, r);
        RunStops(env, s0.code, s0.P, p0, r);
      }
    }
  }

  // ---- negation ----

  /** `removevalues`: tests before the jumps of L take no value any more. */
  predicate RemovedAt(c: seq<Ins>, c': seq<Ins>, L: set<nat>, i: nat) {
    i < |c| && i < |c'| && c'[i] == if i + 1 in L && c[i].TestSet? then Test(c[i].b, c[i].c) else c[i]
  }

  ghost predicate Removed(c: seq<Ins>, c': seq<Ins>, L: set<nat>) {
    |c'| == |c| && forall i :: 0 <= i < |c| ==> RemovedAt(c, c', L, i)
  }

  lemma RunRemoved(env: Env, c: seq<Ins>, c': seq<Ins>, P: set<nat>, L: set<nat>, p0: nat, r: Regs)
    requires Removed(c, c', L) && Closed(c) && (forall j :: j in L ==> j in P)
    requires forall j :: j in P && j < |c| ==> c[j].Jmp?
    ensures var o := Run(env, c, P, p0, r);
            Run(env, c', P, p0, r) == if o.AwaySet? && o.j in L then Away(o.j, o.r) else o
  {
    forall i | 0 <= i < |c| ensures RewrittenAt(c, c', P, i) { assert RemovedAt(c, c', L, i); }
    RunRewritten(env, c, c', P, P, p0, r);
    RunStops(env, c, P, p0, r);
    var o := Run(env, c, P, p0, r);
    if o.Away? {
      assert RemovedAt(c, c', L, o.j);
    } else if o.AwaySet? {
      assert o.j < |c|;
      assert RemovedAt(c, c', L, o.j - 1) && RemovedAt(c, c', L, o.j);
      assert c'[o.j].Jmp? && Run(env, c', P, o.j, o.r) == Away(o.j, o.r);
    }
  }

  /** What negation does to the value in place. */
  predicate Negates(env: Env, code: seq<Ins>, k: Kind, code': seq<Ins>, k': Kind, r: Regs) {
    KindValue(env, code', k', r) == Bool(!Truthy(KindValue(env, code, k, r)))
  }

  /** `codenot`: the lists change places and give no values, and the value in place is negated. */
  lemma EvalsNot(env: Env, p0: nat, s0: Snap, s: Snap, d: Exp, T: set<nat>, F: set<nat>, w: Frame, e: Expr, s': Snap,
                 k': Kind)
    requires Evals(env, p0, s0, s, d, T, F, w, e) && Cut(k', s'.code) == Cut(d.k, s.code) <= |s.code|
    requires |s'.code| >= Cut(d.k, s.code)
    requires var n := Cut(d.k, s.code);
             Removed(s.code[..n], s'.code[..n], T + F) && Closed(s.code[..n]) && forall j :: j in T + F ==> j < n
    requires s'.P == s.P && s'.H == s.H && s'.ks == s.ks && Jumps(s.code, s.P) && (T + F) <= s.P && (T + F) !! s.H
    requires (T + F) !! s0.P - s0.H
    requires s.ks <= env.ks ==> forall r: Regs :: Negates(env, s.code, d.k, s'.code, k', r)
    ensures Evals(env, p0, s0, s', Exp(k', d.f, d.t), F, T, w, ENot(e))
  {
    var n := Cut(d.k, s.code);
    if s.ks <= env.ks {
      forall r: Regs ensures EvalsAt(env, p0, s0, s', Exp(k', d.f, d.t), F, T, w, ENot(e), r) {
        assert EvalsAt(env, p0, s0, s, d, T, F, w, e, r);
        NotAt(env, p0, s0, s, d, T, F, w, e, s', k', r);
      }
    }
  }

  lemma NotAt(env: Env, p0: nat, s0: Snap, s: Snap, d: Exp, T: set<nat>, F: set<nat>, w: Frame, e: Expr, s': Snap,
              k': Kind, r: Regs)
    requires EvalsAt(env, p0, s0, s, d, T, F, w, e, r) && Cut(k', s'.code) == Cut(d.k, s.code) <= |s.code|
    requires |s'.code| >= Cut(d.k, s.code)
    requires var n := Cut(d.k, s.code);
             Removed(s.code[..n], s'.code[..n], T + F) && Closed(s.code[..n]) && forall j :: j in T + F ==> j < n
    requires s'.P == s.P && s'.H == s.H && s'.ks == s.ks && Jumps(s.code, s.P) && (T + F) <= s.P && (T + F) !! s.H
    requires (T + F) !! s0.P - s0.H
    requires forall r: Regs :: Negates(env, s.code, d.k, s'.code, k', r)
    ensures EvalsAt(env, p0, s0, s', Exp(k', d.f, d.t), F, T, w, ENot(e), r)
  {
    hide Run, Removed, Jumps, Eval;
    var n := Cut(d.k, s.code);
    var c, c', o0 := s.code[..n], s'.code[..n], Start(env, s0, p0, r);
    if o0 != Bad {
      NotRun(env, p0, s, n, T + F, c', r);
      RunStops(env, s0.code, s0.P, p0, r);
      var o := Run(env, c, s.P, p0, r);
      NegatedValue(env, e, o0);
      if o != Bad && Arrives(o, s.H) { assert Negates(env, s.code, d.k, s'.code, k', RegsOf(o)); }
    }
  }

  lemma NegatedValue(env: Env, e: Expr, o: Out)
    requires o != Bad
    ensures Eval(env, ENot(e), RegsOf(o)) == Bool(!Truthy(Eval(env, e, RegsOf(o))))
  {
  }

  lemma NotRun(env: Env, p0: nat, s: Snap, n: nat, L: set<nat>, c': seq<Ins>, r: Regs)
    requires n <= |s.code| && Removed(s.code[..n], c', L) && Closed(s.code[..n]) && Jumps(s.code, s.P) && L <= s.P
    requires forall j :: j in L ==> j < n
    ensures var o := Run(env, s.code[..n], s.P, p0, r);
            Run(env, c', s.P, p0, r) == (if o.AwaySet? && o.j in L then Away(o.j, o.r) else o) &&
            (o.Away? || o.AwaySet? ==> o.j < n && (NoValue(s.code, o.j) || o.j in L ==> NoValue(c', o.j)))
  {
    hide Run;
    var c := s.code[..n];
    RunRemoved(env, c, c', s.P, L, p0, r);
    RunStops(env, c, s.P, p0, r);
    var o := Run(env, c, s.P, p0, r);
    if o.Away? || o.AwaySet? {
      assert o.j >= 1 ==> RemovedAt(c, c', L, o.j - 1);
    }
  }

  // ---- and, or ----

  /** What has been kept of the jumps that wait outside. */
  ghost predicate KeptOut(s1: Snap, s2: Snap, L: set<nat>) {
    L !! s2.H && forall j: nat :: j in L && NoValue(s1.code, j) ==> NoValue(s2.code, j)
  }

  /** e1 and e2 (cond), e1 or e2 (not cond): the jumps that left e1 join the list of e2. */
  lemma Compose(env: Env, p0: nat, s0: Snap, s1: Snap, L: set<nat>, w: Frame, e1: Expr, cond: bool,
                s2: Snap, d: Exp, T: set<nat>, F: set<nat>, e2: Expr)
    requires Forks(env, p0, s0, s1, if cond then {} else L, if cond then L else {}, w, e1, cond)
    requires Evals(env, p0, s1, s2, d, T, F, w, e2) && s1.ks <= s2.ks && KeptOut(s1, s2, L)
    requires Scoped(e2, w.base) && w.target == -1 && s1.H !! s0.P - s0.H && L <= s1.P - s1.H && L !! T + F
    requires (T + F) !! s0.P - s0.H
    ensures Evals(env, p0, s0, s2, d, T + (if cond then {} else L), F + (if cond then L else {}), w, if cond then
                EAnd(e1, e2) else EOr(e1, e2))
  {
    hide Run;
    var TL, FL := if cond then {} else L, if cond then L else {};
    var T', F', e := T + TL, F + FL, if cond then EAnd(e1, e2) else EOr(e1, e2);
    if s2.ks <= env.ks {
      forall r: Regs ensures EvalsAt(env, p0, s0, s2, d, T', F', w, e, r) {
        assert ForksAt(env, p0, s0, s1, TL, FL, w, e1, cond, r);
        assert EvalsAt(env, p0, s1, s2, d, T, F, w, e2, r);
        RunStops(env, s0.code, s0.P, p0, r);
        var o0, o1 := Start(env, s0, p0, r), Start(env, s1, p0, r);
        if o0 != Bad && Arrives(o0, s0.H) && Arrives(o1, s1.H) {
          EvalScoped(env, e2, w.base, RegsOf(o0), RegsOf(o1));
        }
      }
    }
  }

  // ---- comparisons ----

  /** The operand e of a comparison, as register or constant. */
  function Operand(k: Kind): RK
    requires k.VK? || k.VNonReloc?
  {
    if k.VK? then K(k.k) else R(k.r)
  }

  /** `codecomp`: the instruction for a comparison of two operands. */
  function CompareIns(op: CmpOp, x: RK, y: RK): Ins {
    match op
    case OpEq => Compare(Eq, true, x, y)
    case OpNe => Compare(Eq, false, x, y)
    case OpLt => Compare(Lt, true, x, y)
    case OpLe => Compare(Le, true, x, y)
    case OpGt => Compare(Lt, true, y, x)
    case OpGe => Compare(Le, true, y, x)
  }

  /** Both operands are there: the first from before, the second just computed. */
  lemma EvalsCompare(env: Env, p0: nat, s0: Snap, s1: Snap, d1: Exp, w: Frame, e1: Expr, s2: Snap, d2: Exp, w1: Frame,
                     e2: Expr, op: CmpOp, P': set<nat>)
    requires Evals(env, p0, s0, s1, d1, {}, {}, w, e1) && Evals(env, p0, s1, s2, d2, {}, {}, w1, e2) && s1.ks <= s2.ks
    requires (d1.k.VK? || d1.k.VNonReloc?) && (d2.k.VK? || d2.k.VNonReloc?) && s2.H == {} && Closed(s2.code)
    requires w.target == -1 && w1.target == -1 && w.base <= w1.base && (d1.k.VNonReloc? ==> d1.k.r < w1.base)
    requires Scoped(e2, w.base)
    requires s1.H !! s0.P - s0.H && forall q :: q < |s2.code| ==> (q in P' <==> q in s2.P)
    ensures var i := CompareIns(op, Operand(d1.k), Operand(d2.k));
            Evals(env, p0, s0, Snap(s2.code + [i, Jmp(NO_JUMP)], P', {}, s2.ks),
                Exp(VJmp(|s2.code| + 1), NO_JUMP, NO_JUMP), {}, {}, w, ECompare(op, e1, e2))
  {
    var i := CompareIns(op, Operand(d1.k), Operand(d2.k));
    var s' := Snap(s2.code + [i, Jmp(NO_JUMP)], P', {}, s2.ks);
    var d := Exp(VJmp(|s2.code| + 1), NO_JUMP, NO_JUMP);
    var e := ECompare(op, e1, e2);
    if s2.ks <= env.ks {
      forall r: Regs ensures EvalsAt(env, p0, s0, s', d, {}, {}, w, e, r) {
        assert EvalsAt(env, p0, s0, s1, d1, {}, {}, w, e1, r);
        assert EvalsAt(env, p0, s1, s2, d2, {}, {}, w1, e2, r);
        CompareAt(env, p0, s0, s1, d1, w, e1, s2, d2, w1, e2, op, P', r);
      }
    }
  }

  lemma CompareAt(env: Env, p0: nat, s0: Snap, s1: Snap, d1: Exp, w: Frame, e1: Expr, s2: Snap, d2: Exp, w1: Frame,
                  e2: Expr, op: CmpOp, P': set<nat>, r: Regs)
    requires EvalsAt(env, p0, s0, s1, d1, {}, {}, w, e1, r) && EvalsAt(env, p0, s1, s2, d2, {}, {}, w1, e2, r)
    requires (d1.k.VK? || d1.k.VNonReloc?) && (d2.k.VK? || d2.k.VNonReloc?) && s2.H == {} && Closed(s2.code)
    requires w.target == -1 && w1.target == -1 && w.base <= w1.base && (d1.k.VNonReloc? ==> d1.k.r < w1.base)
    requires Scoped(e2, w.base)
    requires s1.H !! s0.P - s0.H && forall q :: q < |s2.code| ==> (q in P' <==> q in s2.P)
    ensures var i := CompareIns(op, Operand(d1.k), Operand(d2.k));
            EvalsAt(env, p0, s0, Snap(s2.code + [i, Jmp(NO_JUMP)], P', {}, s2.ks),
                Exp(VJmp(|s2.code| + 1), NO_JUMP, NO_JUMP), {}, {}, w, ECompare(op, e1, e2), r)
  {
    hide Run, Eval, Compared, CmpValue, Scoped, Takes;
    var i := CompareIns(op, Operand(d1.k), Operand(d2.k));
    var s' := Snap(s2.code + [i, Jmp(NO_JUMP)], P', {}, s2.ks);
    assert s'.code[|s2.code|] == i && IsTest(i);
    RunStops(env, s0.code, s0.P, p0, r);
    Whole(s1.code);
    Whole(s2.code);
    assert s'.code[..|s2.code|] == s2.code;
    var o0, o1, o2 := Start(env, s0, p0, r), Start(env, s1, p0, r), Start(env, s2, p0, r);
    if o0 != Bad {
      SamePending(env, s2.code, s2.P, P', p0, r);
      if Arrives(o0, s0.H) {
        CompareHere(env, e1, e2, op, d1.k, d2.k, s1.code, s2.code, w.base, w1.base, RegsOf(o0), RegsOf(o1), RegsOf(o2));
      }
    }
  }

  lemma CompareHere(env: Env, e1: Expr, e2: Expr, op: CmpOp, k1: Kind, k2: Kind, c1: seq<Ins>, c2: seq<Ins>, base: nat,
                    base1: nat, r0: Regs, r1: Regs, r2: Regs)
    requires (k1.VK? || k1.VNonReloc?) && (k2.VK? || k2.VNonReloc?) && base <= base1 && (k1.VNonReloc? ==> k1.r < base1)
    requires Scoped(e2, base)
    requires Same(r1, r0, Frame(base, -1)) && Same(r2, r1, Frame(base1, -1))
    requires KindValue(env, c1, k1, r1) == Eval(env, e1, r0) && KindValue(env, c2, k2, r2) == Eval(env, e2, r1)
    ensures Bool(Takes(env, CompareIns(op, Operand(k1), Operand(k2)), r2)) == Eval(env, ECompare(op, e1, e2), r0)
    ensures Same(r2, r0, Frame(base, -1))
  {
    EvalScoped(env, e2, base, r0, r1);
    CompareValue(env, op, Operand(k1), Operand(k2), r2);
    assert k1.VNonReloc? ==> r2[k1.r] == r1[k1.r];
  }

  lemma CompareValue(env: Env, op: CmpOp, x: RK, y: RK, r: Regs)
    ensures Takes(env, CompareIns(op, x, y), r) == Compared(env, op, RKValue(env, x, r), RKValue(env, y, r))
  {
  }

  /** Pending jumps further behind do not matter. */
  lemma SamePending(env: Env, c: seq<Ins>, P: set<nat>, Q: set<nat>, p0: nat, r: Regs)
    requires Run(env, c, P, p0, r) != Bad && Closed(c) && forall q :: q < |c| ==> (q in Q <==> q in P)
    ensures Run(env, c, Q, p0, r) == Run(env, c, P, p0, r)
  {
    RunAppend(env, c, [], P, Q, p0, r);
    assert c + [] == c;
  }

  // ---- lists are relinked ----

  /** Only links of pending jumps differ. */
  predicate RelinkedAt(c: seq<Ins>, c': seq<Ins>, P: set<nat>, i: nat) {
    i < |c| && i < |c'| && (c'[i] == c[i] || (i in P && c[i].Jmp? && c'[i].Jmp?))
  }

  ghost predicate Relinked(c: seq<Ins>, c': seq<Ins>, P: set<nat>) {
    |c'| == |c| && forall i :: 0 <= i < |c| ==> RelinkedAt(c, c', P, i)
  }

  lemma RunRelinked(env: Env, c: seq<Ins>, c': seq<Ins>, P: set<nat>, n: nat, p0: nat, r: Regs)
    requires Relinked(c, c', P) && n <= |c|
    ensures Run(env, c'[..n], P, p0, r) == Run(env, c[..n], P, p0, r)
  {
    var a, b := c[..n], c'[..n];
    forall i | 0 <= i < n ensures RewrittenAt(a, b, P, i) { assert RelinkedAt(c, c', P, i); }
    RunRewritten(env, a, b, P, P, p0, r);
    RunStops(env, a, P, p0, r);
    var o := Run(env, a, P, p0, r);
    if o.Away? {
      assert RelinkedAt(c, c', P, o.j);
    } else if o.AwaySet? {
      assert RelinkedAt(c, c', P, o.j - 1);
      assert b[o.j - 1] == a[o.j - 1];
    }
  }

  lemma EvalsRelinked(env: Env, p0: nat, s0: Snap, s: Snap, d: Exp, T: set<nat>, F: set<nat>, w: Frame, e: Expr,
                      c': seq<Ins>, t: int, f: int)
    requires Evals(env, p0, s0, s, d, T, F, w, e) && Relinked(s.code, c', s.P)
    requires d.k.VReloc? ==> d.k.p < |s.code| && !s.code[d.k.p].Jmp?
    ensures Evals(env, p0, s0, s.(code := c'), Exp(d.k, t, f), T, F, w, e)
  {
    if s.ks <= env.ks {
      forall r: Regs ensures EvalsAt(env, p0, s0, s.(code := c'), Exp(d.k, t, f), T, F, w, e, r) {
        assert EvalsAt(env, p0, s0, s, d, T, F, w, e, r);
        RelinkAt(env, p0, s0, s, d, T, F, w, e, c', t, f, r);
      }
    }
  }

  lemma RelinkAt(env: Env, p0: nat, s0: Snap, s: Snap, d: Exp, T: set<nat>, F: set<nat>, w: Frame, e: Expr,
                 c': seq<Ins>, t: int, f: int, r: Regs)
    requires EvalsAt(env, p0, s0, s, d, T, F, w, e, r) && Relinked(s.code, c', s.P)
    requires d.k.VReloc? ==> d.k.p < |s.code| && !s.code[d.k.p].Jmp?
    ensures EvalsAt(env, p0, s0, s.(code := c'), Exp(d.k, t, f), T, F, w, e, r)
  {
    hide Run, Relinked;
    RelinkSame(env, s.code, c', s.P, d.k);
    if Start(env, s0, p0, r) != Bad {
      RunRelinked(env, s.code, c', s.P, Cut(d.k, s.code), p0, r);
    }
  }

  lemma RelinkSame(env: Env, c: seq<Ins>, c': seq<Ins>, P: set<nat>, k: Kind)
    requires Relinked(c, c', P) && (k.VReloc? ==> k.p < |c| && !c[k.p].Jmp?)
    ensures forall r: Regs :: KindValue(env, c', k, r) == KindValue(env, c, k, r)
    ensures forall j: nat :: NoValue(c, j) ==> NoValue(c', j)
    ensures |c'| == |c| && Cut(k, c') == Cut(k, c)
  {
    if k.VReloc? { assert RelinkedAt(c, c', P, k.p); }
    if k.VJmp? && 1 <= k.p <= |c| { assert RelinkedAt(c, c', P, k.p - 1); }
    forall j: nat | NoValue(c, j) ensures NoValue(c', j) {
      if 1 <= j <= |c| { assert RelinkedAt(c, c', P, j - 1); }
    }
  }

  lemma ForksRelinked(env: Env, p0: nat, s0: Snap, s: Snap, T: set<nat>, F: set<nat>, w: Frame, e: Expr, cond: bool,
                      c': seq<Ins>)
    requires Forks(env, p0, s0, s, T, F, w, e, cond) && Relinked(s.code, c', s.P)
    ensures Forks(env, p0, s0, s.(code := c'), T, F, w, e, cond)
  {
    hide Run;
    if s.ks <= env.ks {
      forall r: Regs ensures ForksAt(env, p0, s0, s.(code := c'), T, F, w, e, cond, r) {
        assert ForksAt(env, p0, s0, s, T, F, w, e, cond, r);
        RunRelinked(env, s.code, c', s.P, |s.code|, p0, r);
        Whole(s.code);
        Whole(c');
        var o := Start(env, s, p0, r);
        if o.Away? && o.j >= 1 && o.j <= |s.code| { assert RelinkedAt(s.code, c', s.P, o.j - 1); }
      }
    }
  }

  // ---- the value goes into its register ----

  /** Two loads behind a jump over them, for jumps that take no value; the jump goes to the end. */
  lemma EvalsLoads(env: Env, p0: nat, s0: Snap, s: Snap, d: Exp, T: set<nat>, F: set<nat>, w: Frame, e: Expr, j: Ins,
                   ls: seq<Ins>)
    requires Evals(env, p0, s0, s, d, T, F, w, e) && d.k.VNonReloc? && Wf(s) && j.Jmp?
    requires forall q :: q in T || q in F ==> q < |s.code|
    ensures Evals(env, p0, s0, Snap(s.code + [j] + ls, s.P + {|s.code|}, s.H + {|s.code|}, s.ks), d, T, F, w, e)
  {
    var s' := Snap(s.code + [j] + ls, s.P + {|s.code|}, s.H + {|s.code|}, s.ks);
    if s.ks <= env.ks {
      forall r: Regs ensures EvalsAt(env, p0, s0, s', d, T, F, w, e, r) {
        assert EvalsAt(env, p0, s0, s, d, T, F, w, e, r);
        LoadsAt(env, p0, s0, s, d, T, F, w, e, j, ls, r);
      }
    }
  }

  lemma LoadsAt(env: Env, p0: nat, s0: Snap, s: Snap, d: Exp, T: set<nat>, F: set<nat>, w: Frame, e: Expr, j: Ins,
                ls: seq<Ins>, r: Regs)
    requires EvalsAt(env, p0, s0, s, d, T, F, w, e, r) && d.k.VNonReloc? && Wf(s) && j.Jmp?
    requires forall q :: q in T || q in F ==> q < |s.code|
    ensures EvalsAt(env, p0, s0, Snap(s.code + [j] + ls, s.P + {|s.code|}, s.H + {|s.code|}, s.ks), d, T, F, w, e, r)
  {
    hide Run;
    var s' := Snap(s.code + [j] + ls, s.P + {|s.code|}, s.H + {|s.code|}, s.ks);
    Whole(s.code);
    Whole(s'.code);
    assert s'.code == s.code + ([j] + ls);
    if Start(env, s0, p0, r) != Bad {
      RunAppend(env, s.code, [j] + ls, s.P, s'.P, p0, r);
      RunStops(env, s.code, s.P, p0, r);
      var o := Run(env, s.code, s.P, p0, r);
      if o.Here? { RunPending(env, s'.code, s'.P, |s.code|, o.r); }
    }
  }

  lemma RunPending(env: Env, c: seq<Ins>, P: set<nat>, j: nat, r: Regs)
    requires j < |c| && c[j].Jmp? && j in P
    ensures Run(env, c, P, j, r) == Away(j, r)
  {
  }

  /** A comparison falls through to the load of false. */
  lemma EvalsTestLoads(env: Env, p0: nat, s0: Snap, s: Snap, d: Exp, T: set<nat>, F: set<nat>, w: Frame, e: Expr,
                       reg: Reg)
    requires Evals(env, p0, s0, s, d, T, F, w, e) && Wf(s) && s.H == {} && d.k.VJmp? && 1 <= d.k.p == |s.code| - 1
    requires d.k.p in s.P
    requires s.code[d.k.p - 1].Compare? && Closed(s.code[..d.k.p - 1])
    requires (forall q :: q in T || q in F ==> q < d.k.p - 1) && (reg >= w.base || reg == w.target)
    ensures Evals(env, p0, s0, s.(code := s.code + [LoadBool(reg, false, true), LoadBool(reg, true, false)]),
              Exp(VNonReloc(reg), d.t, d.f), T + {d.k.p}, F, w, e)
  {
    var s' := s.(code := s.code + [LoadBool(reg, false, true), LoadBool(reg, true, false)]);
    if s.ks <= env.ks {
      forall r: Regs ensures EvalsAt(env, p0, s0, s', Exp(VNonReloc(reg), d.t, d.f), T + {d.k.p}, F, w, e, r) {
        assert EvalsAt(env, p0, s0, s, d, T, F, w, e, r);
        TestLoadsAt(env, p0, s0, s, d, T, F, w, e, reg, r);
      }
    }
  }

  lemma TestLoadsAt(env: Env, p0: nat, s0: Snap, s: Snap, d: Exp, T: set<nat>, F: set<nat>, w: Frame, e: Expr, reg: Reg,
                    r: Regs)
    requires EvalsAt(env, p0, s0, s, d, T, F, w, e, r) && Wf(s) && s.H == {} && d.k.VJmp? && 1 <= d.k.p == |s.code| - 1
    requires d.k.p in s.P
    requires s.code[d.k.p - 1].Compare? && Closed(s.code[..d.k.p - 1])
    requires (forall q :: q in T || q in F ==> q < d.k.p - 1) && (reg >= w.base || reg == w.target)
    ensures EvalsAt(env, p0, s0, s.(code := s.code + [LoadBool(reg, false, true), LoadBool(reg, true, false)]),
              Exp(VNonReloc(reg), d.t, d.f), T + {d.k.p}, F, w, e, r)
  {
    hide Run, Sat, Eval;
    var p := d.k.p;
    var c, ls := s.code[..p - 1], [LoadBool(reg, false, true), LoadBool(reg, true, false)];
    var c' := s.code + ls;
    Whole(c');
    assert c' == c + (s.code[p - 1..] + ls);
    var o0 := Start(env, s0, p0, r);
    if o0 != Bad {
      var o := Run(env, c, s.P, p0, r);
      if Arrives(o0, s0.H) { SatRuns(env, s, o, d, T, F, Eval(env, e, RegsOf(o0)), RegsOf(o0), w); }
      RunAppend(env, c, s.code[p - 1..] + ls, s.P, s.P, p0, r);
      RunStops(env, c, s.P, p0, r);
      if o.Here? { TestLoadsOut(env, c', s.P, p, reg, o.r); }
      if Arrives(o0, s0.H) {
        TestLoadsSat(env, s, o, Run(env, c', s.P, p0, r), d, T, F, Eval(env, e, RegsOf(o0)), RegsOf(o0), w, reg);
      }
    }
  }

  lemma SatRuns(env: Env, s: Snap, o: Out, d: Exp, T: set<nat>, F: set<nat>, v: Value, r: Regs, w: Frame)
    requires Sat(env, s, o, d, T, F, v, r, w)
    ensures o != Bad
  {
  }

  /** Behind a comparison the run either jumps, or goes on to the load of false. */
  lemma TestLoadsSat(env: Env, s: Snap, o: Out, o': Out, d: Exp, T: set<nat>, F: set<nat>, v: Value, r: Regs, w: Frame,
                     reg: Reg)
    requires Sat(env, s, o, d, T, F, v, r, w) && s.H == {} && d.k.VJmp? && 1 <= d.k.p == |s.code| - 1
    requires s.code[d.k.p - 1].Compare? && (forall q :: q in T || q in F ==> q < d.k.p - 1)
    requires reg >= w.base || reg == w.target
    requires o' == if !o.Here? then o
                   else if Takes(env, s.code[d.k.p - 1], o.r) then Away(d.k.p, o.r) else Here(o.r[reg := Bool(false)])
    ensures Sat(env, s.(code := s.code + [LoadBool(reg, false, true), LoadBool(reg, true, false)]), o',
                Exp(VNonReloc(reg), d.t, d.f), T + {d.k.p}, F, v, r, w)
  {
  }

  lemma TestLoadsOut(env: Env, c: seq<Ins>, P: set<nat>, p: nat, reg: Reg, r: Regs)
    requires 1 <= p && |c| == p + 3 && c[p - 1].Compare? && c[p].Jmp? && p in P
    requires c[p + 1] == LoadBool(reg, false, true)
    ensures Run(env, c, P, p - 1, r) == if Takes(env, c[p - 1], r) then Away(p, r) else Here(r[reg := Bool(false)])
  {
    assert Run(env, c, P, p + 3, r[reg := Bool(false)]) == Here(r[reg := Bool(false)]);
    assert Run(env, c, P, p + 1, r) == Here(r[reg := Bool(false)]);
  }

  /** Where the final patch sends a jump: to the end if it takes a value, to the load of its boolean otherwise. */
  predicate PatchedAt(c: seq<Ins>, c': seq<Ins>, T: set<nat>, F: set<nat>, reg: Reg, pf: int, pt: int, i: nat) {
    i < |c| && i < |c'| &&
    c'[i] ==
      if i in T || i in F then Jmp((if 1 <= i && c[i - 1].TestSet? then |c| else if i in T then pt else pf) - i - 1)
      else if (i + 1 in T || i + 1 in F) && c[i].TestSet? then
        if c[i].b == reg then Test(c[i].b, c[i].c) else TestSet(reg, c[i].b, c[i].c)
      else c[i]
  }

  ghost predicate Patched(c: seq<Ins>, c': seq<Ins>, T: set<nat>, F: set<nat>, reg: Reg, pf: int, pt: int) {
    |c'| == |c| && forall i :: 0 <= i < |c| ==> PatchedAt(c, c', T, F, reg, pf, pt, i)
  }

  /** The loads are there, behind all jumps, unless every jump takes a value. */
  ghost predicate LoadsReady(c: seq<Ins>, P: set<nat>, T: set<nat>, F: set<nat>, reg: Reg, pf: int, pt: int) {
    if pf == NO_JUMP then pt == NO_JUMP && forall j: nat :: j in T || j in F ==> !NoValue(c, j)
    else
      0 <= pf && pt == pf + 1 && |c| == pt + 1 && c[pf] == LoadBool(reg, false, true) &&
      c[pt] == LoadBool(reg, true, false) &&
      pf !in P && pt !in P && forall j :: j in T || j in F ==> j < pf
  }

  lemma EvalsPatched(env: Env, p0: nat, s0: Snap, s: Snap, d: Exp, T: set<nat>, F: set<nat>, w: Frame, e: Expr,
                     reg: Reg, pf: int, pt: int, c': seq<Ins>)
    requires Evals(env, p0, s0, s, d, T, F, w, e) && d.k == VNonReloc(reg) && Wf(s) && T + F <= s.P - s.H && T !! F
    requires (T + F) !! s0.P - s0.H
    requires Patched(s.code, c', T, F, reg, pf, pt) && LoadsReady(s.code, s.P, T, F, reg, pf, pt)
    requires reg >= w.base || reg == w.target
    ensures Evals(env, p0, s0, Snap(c', s.P - T - F, s.H, s.ks), Exp(VNonReloc(reg), NO_JUMP, NO_JUMP), {}, {}, w, e)
  {
    var s', d' := Snap(c', s.P - T - F, s.H, s.ks), Exp(VNonReloc(reg), NO_JUMP, NO_JUMP);
    if s.ks <= env.ks {
      forall r: Regs ensures EvalsAt(env, p0, s0, s', d', {}, {}, w, e, r) {
        assert EvalsAt(env, p0, s0, s, d, T, F, w, e, r);
        PatchAt(env, p0, s0, s, d, T, F, w, e, reg, pf, pt, c', r);
      }
    }
  }

  lemma PatchAt(env: Env, p0: nat, s0: Snap, s: Snap, d: Exp, T: set<nat>, F: set<nat>, w: Frame, e: Expr, reg: Reg,
                pf: int, pt: int, c': seq<Ins>, r: Regs)
    requires EvalsAt(env, p0, s0, s, d, T, F, w, e, r) && d.k == VNonReloc(reg) && Wf(s) && T + F <= s.P - s.H && T !! F
    requires (T + F) !! s0.P - s0.H
    requires Patched(s.code, c', T, F, reg, pf, pt) && LoadsReady(s.code, s.P, T, F, reg, pf, pt)
    requires reg >= w.base || reg == w.target
    ensures EvalsAt(env, p0, s0, Snap(c', s.P - T - F, s.H, s.ks), Exp(VNonReloc(reg), NO_JUMP, NO_JUMP), {}, {}, w, e,
              r)
  {
    hide Run, Patched, LoadsReady;
    Whole(s.code);
    Whole(c');
    PatchRun(env, p0, s, T, F, reg, pf, pt, c', r);
    RunStops(env, s.code, s.P, p0, r);
    RunStops(env, s0.code, s0.P, p0, r);
  }

  /** Where a run ends up once its jump has been patched. */
  predicate Landed(s: Snap, T: set<nat>, F: set<nat>, reg: Reg, o: Out, o': Out) {
    if !(o.Away? || o.AwaySet?) || (o.j !in T && o.j !in F) then o' == o
    else if o.AwaySet? then o' == Here(o.r[reg := o.r[o.b]])
    else NoValue(s.code, o.j) ==> o' == Here(o.r[reg := Bool(o.j in T)])
  }

  lemma PatchRun(env: Env, p0: nat, s: Snap, T: set<nat>, F: set<nat>, reg: Reg, pf: int, pt: int, c': seq<Ins>,
                 r: Regs)
    requires Wf(s) && T + F <= s.P - s.H && T !! F && Patched(s.code, c', T, F, reg, pf, pt)
    requires LoadsReady(s.code, s.P, T, F, reg, pf, pt)
    ensures Landed(s, T, F, reg, Start(env, s, p0, r), Run(env, c', s.P - T - F, p0, r))
  {
    hide Run;
    var c := s.code;
    forall i | 0 <= i < |c| ensures RewrittenAt(c, c', s.P, i) { assert PatchedAt(c, c', T, F, reg, pf, pt, i); }
    RunRewritten(env, c, c', s.P, s.P - T - F, p0, r);
    RunStops(env, c, s.P, p0, r);
    var o := Run(env, c, s.P, p0, r);
    if o.Away? || o.AwaySet? {
      PatchedOut(env, s, T, F, reg, pf, pt, c', o);
    }
  }

  lemma PatchedOut(env: Env, s: Snap, T: set<nat>, F: set<nat>, reg: Reg, pf: int, pt: int, c': seq<Ins>, o: Out)
    requires Wf(s) && T + F <= s.P - s.H && T !! F && Patched(s.code, c', T, F, reg, pf, pt)
    requires LoadsReady(s.code, s.P, T, F, reg, pf, pt)
    requires o.Away? || o.AwaySet?
    requires o.j in s.P
    requires o.AwaySet? ==>
               1 <= o.j && s.code[o.j - 1].TestSet? && s.code[o.j - 1].b == o.b && Takes(env, s.code[o.j - 1], o.r)
    ensures Landed(s, T, F, reg, o, Resume(env, o, c', s.P - T - F))
  {
    var c, Q, j := s.code, s.P - T - F, o.j;
    assert PatchedAt(c, c', T, F, reg, pf, pt, j);
    if o.AwaySet? {
      assert PatchedAt(c, c', T, F, reg, pf, pt, j - 1);
      assert j - 1 !in s.P;
      if j in T || j in F {
        var r' := o.r[reg := o.r[o.b]];
        assert o.b == reg ==> r' == o.r;
        assert Run(env, c', Q, |c|, r') == Here(r');
        assert Run(env, c', Q, j, r') == Here(r');
      }
    } else if (j in T || j in F) && NoValue(c, j) {
      assert PatchedAt(c, c', T, F, reg, pf, pt, pf) && PatchedAt(c, c', T, F, reg, pf, pt, pt);
      var x := if j in T then pt else pf;
      var r' := o.r[reg := Bool(j in T)];
      assert Run(env, c', Q, |c|, r') == Here(r');
      assert Run(env, c', Q, x, o.r) == Here(r');
    }
  }

  // ---- everything that is known of a half-compiled expression ----

  /** The jumps that wait outside of what is being compiled. */
  ghost function Outer(s0: Snap): set<nat> { s0.P - s0.H }

  /** The jumps of L are as they were. */
  ghost predicate Keeps(s: Snap, s': Snap, L: set<nat>) {
    L <= s'.P - s'.H && s.ks <= s'.ks && forall j: nat :: j in L ==>
      j < |s.code| && j < |s'.code| && s'.code[j] == s.code[j] && (NoValue(s.code, j) ==> NoValue(s'.code, j))
  }

  ghost predicate KindOk(s: Snap, d: Exp, T: set<nat>, F: set<nat>) {
    match d.k
    case VK(k) => k < |s.ks|
    case VReloc(p) =>
      |s.code| == p + 1 && HasResult(s.code[p]) && Skip(s.code[p]) == 0 && s.H == {} && Closed(s.code[..p]) &&
      forall j :: j in T || j in F ==> j < p
    case VJmp(p) =>
      1 <= p && |s.code| == p + 1 && p in s.P && p !in T && p !in F && s.code[p] == Jmp(NO_JUMP) &&
      s.code[p - 1].Compare? && s.H == {} &&
      Closed(s.code[..p - 1]) && forall j :: j in T || j in F ==> j < p - 1
    case _ => true
  }

  /** The jump of a comparison is pending on its own. */
  function Own(k: Kind): set<nat> { if k.VJmp? then {k.p} else {} }

  /** The code since s0 computes e, as d says. */
  ghost predicate Computes(env: Env, p0: nat, s0: Snap, s: Snap, d: Exp, T: set<nat>, F: set<nat>, w: Frame, e: Expr) {
    Wf(s) && Keeps(s0, s, Outer(s0)) && T !! F && T + F <= s.P - s.H && (T + F) !! Outer(s0) &&
    (d.k.VJmp? ==> d.k.p !in Outer(s0)) &&
    s.P <= Outer(s0) + s.H + T + F + Own(d.k) &&
    Chain(s.code, d.t, T) && Chain(s.code, d.f, F) && KindOk(s, d, T, F) && Evals(env, p0, s0, s, d, T, F, w, e)
  }

  /** The code since s0 goes on here if the truth of e is cond, and leaves by the jumps of L otherwise. */
  ghost predicate Tests(env: Env, p0: nat, s0: Snap, s: Snap, head: int, L: set<nat>, w: Frame, e: Expr, cond: bool) {
    Wf(s) && Keeps(s0, s, Outer(s0)) && L <= s.P - s.H && L !! Outer(s0) && Chain(s.code, head, L) &&
    s.P <= Outer(s0) + s.H + L &&
    Forks(env, p0, s0, s, if cond then {} else L, if cond then L else {}, w, e, cond)
  }

  lemma EmitKeeps(s: Snap, i: Ins, L: set<nat>)
    requires Wf(s) && L <= s.P - s.H
    ensures Keeps(s, Emitted(s, i), L)
    ensures !IsTest(i) ==> Wf(Emitted(s, i))
  {
    DischargeWf(s);
    var d, s' := Discharge(s), Emitted(s, i);
    forall j: nat | j in L && NoValue(s.code, j) ensures NoValue(s'.code, j) {
      assert NoValue(d.code, j);
      if 1 <= j { assert s'.code[j - 1] == d.code[j - 1]; }
    }
  }

  lemma BranchKeeps(s: Snap, i: Ins, L: set<nat>)
    requires Wf(s) && L <= s.P - s.H
    ensures Keeps(s, Branched(s, i), L) && Wf(Branched(s, i))
  {
    DischargeWf(s);
    var d, s' := Discharge(s), Branched(s, i);
    forall j: nat | j in L && NoValue(s.code, j) ensures NoValue(s'.code, j) {
      assert NoValue(d.code, j);
      if 1 <= j { assert s'.code[j - 1] == d.code[j - 1]; }
    }
  }

  lemma KeepsTrans(s0: Snap, s1: Snap, s2: Snap, L: set<nat>)
    requires Keeps(s0, s1, L) && Keeps(s1, s2, L)
    ensures Keeps(s0, s2, L)
  {
  }

  lemma KeepsChain(s: Snap, s': Snap, L: set<nat>, head: int, S: set<nat>)
    requires Keeps(s, s', L) && S <= L && Chain(s.code, head, S)
    ensures Chain(s'.code, head, S)
  {
    ChainFrame(s.code, s'.code, head, S);
  }

  /** More constants do no harm. */
  lemma EvalsConstants(env: Env, p0: nat, s0: Snap, s: Snap, d: Exp, T: set<nat>, F: set<nat>, w: Frame, e: Expr,
                       ks: seq<Value>)
    requires Evals(env, p0, s0, s, d, T, F, w, e) && s.ks <= ks
    ensures Evals(env, p0, s0, s.(ks := ks), d, T, F, w, e)
  {
    if ks <= env.ks {
      forall r: Regs ensures EvalsAt(env, p0, s0, s.(ks := ks), d, T, F, w, e, r) {
        assert EvalsAt(env, p0, s0, s, d, T, F, w, e, r);
      }
    }
  }

  /** Another name for the same value. */
  lemma EvalsRename(env: Env, p0: nat, s0: Snap, s: Snap, d: Exp, d': Exp, T: set<nat>, F: set<nat>, w: Frame,
                    w': Frame, e: Expr)
    requires Evals(env, p0, s0, s, d, T, F, w, e) && Cut(d'.k, s.code) == Cut(d.k, s.code) && w'.base == w.base
    requires w.target == -1 || w' == w
    requires s.ks <= env.ks ==> forall r: Regs :: KindValue(env, s.code, d'.k, r) == KindValue(env, s.code, d.k, r)
    ensures Evals(env, p0, s0, s, d', T, F, w', e)
  {
    if s.ks <= env.ks {
      forall r: Regs ensures EvalsAt(env, p0, s0, s, d', T, F, w', e, r) {
        assert EvalsAt(env, p0, s0, s, d, T, F, w, e, r);
      }
    }
  }

  /** A fresh start: nothing has been emitted for the expression yet. */
  lemma EvalsStart(env: Env, p0: nat, s0: Snap, ks: seq<Value>, d: Exp, w: Frame, e: Expr)
    requires !Delayed(d.k) && s0.ks <= ks
    requires ks <= env.ks ==> forall r: Regs :: KindValue(env, s0.code, d.k, r) == Eval(env, e, r)
    ensures Evals(env, p0, s0, s0.(ks := ks), d, {}, {}, w, e)
  {
    var s := s0.(ks := ks);
    if ks <= env.ks {
      forall r: Regs ensures EvalsAt(env, p0, s0, s, d, {}, {}, w, e, r) {
        Whole(s0.code);
      }
    }
  }

  // ---- one instruction ----

  /** The next instruction computes the value, into a register that is still open. */
  lemma ComputesReloc(env: Env, p0: nat, s0: Snap, s: Snap, d: Exp, T: set<nat>, F: set<nat>, w: Frame, e: Expr, i: Ins)
    requires Computes(env, p0, s0, s, d, T, F, w, e) && !Delayed(d.k) && HasResult(i) && Skip(i) == 0
    requires s.ks <= env.ks ==> forall r: Regs :: Result(env, i, r) == KindValue(env, s.code, d.k, r)
    ensures var s' := Emitted(s, i); Computes(env, p0, s0, s', d.(k := VReloc(|s.code|)), T, F, w, e)
  {
    var s1, s' := Discharge(s), Emitted(s, i);
    EmitFacts(s0, s, d, T, F, i);
    EvalsDischarge(env, p0, s0, s, d, T, F, w, e);
    DischargeWf(s);
    SameKindValue(env, s.code, s1.code, d.k);
    EvalsReloc(env, p0, s0, s1, d, T, F, w, e, i);
    assert s'.code[..|s.code|] == s1.code;
  }

  /** The next instruction puts the value into a register. */
  lemma ComputesPut(env: Env, p0: nat, s0: Snap, s: Snap, d: Exp, T: set<nat>, F: set<nat>, w: Frame, e: Expr, i: Ins)
    requires Computes(env, p0, s0, s, d, T, F, w, e) && !Delayed(d.k) && HasResult(i) && Skip(i) == 0
    requires s.ks <= env.ks ==> forall r: Regs :: Result(env, i, r) == KindValue(env, s.code, d.k, r)
    requires i.a >= w.base || i.a == w.target
    ensures var s' := Emitted(s, i); Computes(env, p0, s0, s', d.(k := VNonReloc(i.a)), T, F, w, e)
  {
    var s1 := Discharge(s);
    EmitFacts(s0, s, d, T, F, i);
    EvalsDischarge(env, p0, s0, s, d, T, F, w, e);
    DischargeWf(s);
    SameKindValue(env, s.code, s1.code, d.k);
    EvalsPut(env, p0, s0, s1, d, T, F, w, e, i);
  }

  lemma SameKindValue(env: Env, c: seq<Ins>, c': seq<Ins>, k: Kind)
    requires !Delayed(k)
    ensures forall r: Regs :: KindValue(env, c', k, r) == KindValue(env, c, k, r)
  {
  }

  /** What stays as it is when an instruction is emitted. */
  lemma EmitFacts(s0: Snap, s: Snap, d: Exp, T: set<nat>, F: set<nat>, i: Ins)
    requires Wf(s) && Keeps(s0, s, Outer(s0)) && T + F <= s.P - s.H && Chain(s.code, d.t, T) && Chain(s.code, d.f, F)
    requires !IsTest(i)
    ensures var s' := Emitted(s, i);
            Wf(s') && Keeps(s0, s', Outer(s0)) && T + F <= s'.P - s'.H && Chain(s'.code, d.t, T) &&
            Chain(s'.code, d.f, F)
    ensures s.H !! Outer(s0) && forall j :: j in T || j in F ==> j < |s.code|
  {
    var s' := Emitted(s, i);
    EmitKeeps(s, i, T + F + Outer(s0));
    KeepsChain(s, s', T + F + Outer(s0), d.t, T);
    KeepsChain(s, s', T + F + Outer(s0), d.f, F);
    KeepsTrans(s0, s, s', Outer(s0));
    ChainIn(s.code, d.t, T);
    ChainIn(s.code, d.f, F);
  }

  /** `SETARG_A`. */
  function WithA(i: Ins, reg: Reg): Ins
    requires HasResult(i)
  {
    match i
    case Move(_, b) => Move(reg, b)
    case LoadK(_, k) => LoadK(reg, k)
    case LoadBool(_, v, skip) => LoadBool(reg, v, skip)
    case GetUpval(_, u) => GetUpval(reg, u)
    case Not(_, b) => Not(reg, b)
  }

  /** The open register of the last instruction is filled in. */
  lemma ComputesFill(env: Env, p0: nat, s0: Snap, s: Snap, d: Exp, T: set<nat>, F: set<nat>, w: Frame, e: Expr,
                     reg: Reg)
    requires Computes(env, p0, s0, s, d, T, F, w, e) && d.k.VReloc? && (reg >= w.base || reg == w.target)
    ensures var s' := s.(code := s.code[d.k.p := WithA(s.code[d.k.p], reg)]);
            Computes(env, p0, s0, s', d.(k := VNonReloc(reg)), T, F, w, e)
  {
    var i := WithA(s.code[d.k.p], reg);
    var s' := s.(code := s.code[d.k.p := i]);
    EvalsFill(env, p0, s0, s, d, T, F, w, e, i);
    var L := T + F + Outer(s0);
    ChainIn(s.code, d.t, T);
    ChainIn(s.code, d.f, F);
    assert Keeps(s, s', L) by {
      forall j: nat | j in L && NoValue(s.code, j) ensures NoValue(s'.code, j) { assert j in s.P; }
    }
    KeepsChain(s, s', L, d.t, T);
    KeepsChain(s, s', L, d.f, F);
    KeepsTrans(s0, s, s', Outer(s0));
  }
}
