/** Straight-line blocks of declarations and assignments of locals, and what running their code must do. */
module CodeStat {
  import opened CodeMachine
  import opened CodeSpec
  import opened CodeProof

  /** `local x = e`, an assignment to a local, and `local` with one name or more and no value. */
  datatype Stat = SLocal(e: Expr) | SAssign(x: Reg, e: Expr) | SNils(more: nat)

  /** No operator or operand takes more instructions. */
  const STEPS: nat := 34

  /** What the code of an expression takes at most, until its value is used. */
  function Length(e: Expr): nat {
    match e
    case ENot(a) => Length(a) + STEPS
    case EAnd(a, b) => Length(a) + Length(b) + STEPS
    case EOr(a, b) => Length(a) + Length(b) + STEPS
    case ECompare(_, a, b) => Length(a) + Length(b) + STEPS
    case _ => 0
  }

  function Max(a: nat, b: nat): nat { if a > b then a else b }

  /** The registers that an expression needs, one for its value included. */
  function Registers(e: Expr): (n: nat)
    ensures n >= 1
  {
    match e
    case ENot(a) => Registers(a)
    case EAnd(a, b) => Max(Registers(a), Registers(b))
    case EOr(a, b) => Max(Registers(a), Registers(b))
    case ECompare(_, a, b) => Max(Registers(a), 1 + Registers(b))
    case _ => 1
  }

  function StatLength(st: Stat): nat { if st.SNils? then 1 else Length(st.e) + STEPS }

  function StatRegisters(st: Stat): nat { if st.SNils? then st.more + 1 else Registers(st.e) }

  function BlockLength(b: seq<Stat>): nat {
    if b == [] then 0 else BlockLength(b[..|b| - 1]) + StatLength(b[|b| - 1])
  }

  /** The registers that a block needs when the first n are taken. */
  function BlockRegisters(b: seq<Stat>, n: nat): nat {
    if b == [] then n
    else
      Max(BlockRegisters(b[..|b| - 1], n), Locals(b[..|b| - 1], n) + StatRegisters(b[|b| - 1]))
  }

  lemma NoStatements(n: nat)
    ensures BlockLength([]) == 0 && Locals([], n) == n
  {
  }

  lemma NextStatement(b: seq<Stat>, n: nat, i: nat)
    requires i < |b|
    ensures BlockLength(b[..i + 1]) == BlockLength(b[..i]) + StatLength(b[i])
    ensures Locals(b[..i + 1], n) == Locals(b[..i], n) + Declares(b[i])
  {
    assert b[..i + 1][..i] == b[..i];
  }

  /** Every beginning of a block needs no more. */
  lemma {:induction false} Beginnings(b: seq<Stat>, n: nat)
    ensures forall i :: 0 <= i < |b| ==>
              BlockLength(b[..i]) + StatLength(b[i]) <= BlockLength(b) &&
              Locals(b[..i], n) + StatRegisters(b[i]) <= BlockRegisters(b, n)
    decreases |b|
  {
    if b != [] {
      var m := |b| - 1;
      Beginnings(b[..m], n);
      forall i | 0 <= i < |b|
        ensures BlockLength(b[..i]) + StatLength(b[i]) <= BlockLength(b)
        ensures Locals(b[..i], n) + StatRegisters(b[i]) <= BlockRegisters(b, n)
      {
        if i < m { assert b[..m][..i] == b[..i] && b[..m][i] == b[i]; }
      }
    }
  }

  /** The number of locals that a statement declares. */
  function Declares(st: Stat): nat {
    match st
    case SLocal(_) => 1
    case SAssign(_, _) => 0
    case SNils(more) => more + 1
  }

  /** The number of locals after a block that starts with n. */
  function Locals(b: seq<Stat>, n: nat): nat
  {
    if b == [] then n else Locals(b[..|b| - 1], n) + Declares(b[|b| - 1])
  }

  function StatFrame(st: Stat, n: nat): Frame { Frame(n, if st.SAssign? then Target(st, n) else -1) }

  /** Every name used is declared. */
  predicate ScopedStat(st: Stat, n: nat) {
    match st
    case SLocal(e) => Scoped(e, n)
    case SAssign(x, e) => Scoped(e, n) && x < n
    case SNils(_) => true
  }

  /** Every statement uses only locals that are declared before it. */
  predicate ScopedBlock(b: seq<Stat>, n: nat) {
    forall i :: 0 <= i < |b| ==> ScopedAt(b, n, i)
  }

  predicate ScopedAt(b: seq<Stat>, n: nat, i: nat)
    requires i < |b|
  {
    ScopedStat(b[i], Locals(b[..i], n))
  }

  function Target(st: Stat, n: nat): nat { if st.SAssign? then st.x else n }

  /** New locals are the next registers. */
  function ExecStat(env: Env, st: Stat, n: nat, r: Regs): Regs {
    if Target(st, n) >= 256 then r
    else if st.SNils? then Fill(r, Target(st, n), st.more)
    else r[Target(st, n) := Eval(env, st.e, r)]
  }

  function Exec(env: Env, b: seq<Stat>, n: nat, r: Regs): Regs
  {
    if b == [] then r
    else
      var p := b[..|b| - 1];
      ExecStat(env, b[|b| - 1], Locals(p, n), Exec(env, p, n, r))
  }

  /** The locals are the same. */
  predicate Agree(a: Regs, b: Regs, n: nat) { forall i :: 0 <= i < n && i < 256 ==> a[i] == b[i] }

  lemma AgreeTrans(a: Regs, b: Regs, c: Regs, n: nat)
    requires Agree(a, b, n) && Agree(b, c, n)
    ensures Agree(a, c, n)
  {
  }

  ghost predicate StepsAt(env: Env, s0: Snap, s: Snap, st: Stat, n: nat, r: Regs) {
    var o0, o := Start(env, s0, 0, r), Start(env, s, 0, r);
    o0 != Bad && Arrives(o0, s0.H) ==>
      o != Bad && Arrives(o, s.H) && Agree(RegsOf(o), ExecStat(env, st, n, RegsOf(o0)), n + Declares(st))
  }

  /** The code since s0 does what the statement says. */
  ghost predicate Steps(env: Env, s0: Snap, s: Snap, st: Stat, n: nat) {
    s.ks <= env.ks ==> forall r: Regs :: StepsAt(env, s0, s, st, n, r)
  }

  /** Once a value is in its register, and no other jumps are pending, every run gets to the end with it. */
  lemma HasSteps(g: Goal, s: Snap, reg: Reg, st: Stat, n: nat)
    requires Has(g, s, Exp(VNonReloc(reg), NO_JUMP, NO_JUMP), {}, {}) && g.s0.P <= g.s0.H
    requires !st.SNils? && g.e == st.e && ScopedStat(st, n) && reg == Target(st, n) && g.w == StatFrame(st, n)
    ensures s.P <= s.H && Steps(g.env, g.s0, s, st, n)
  {
    hide Run, Eval;
    if s.ks <= g.env.ks {
      forall r: Regs ensures StepsAt(g.env, g.s0, s, st, n, r) {
        assert EvalsAt(g.env, 0, g.s0, s, Exp(VNonReloc(reg), NO_JUMP, NO_JUMP), {}, {}, g.w, g.e, r);
        Whole(s.code);
      }
    }
  }

  /** Filling the registers of the new locals. */
  lemma NilsSteps(env: Env, s0: Snap, s: Snap, from: Reg, more: nat)
    requires Wf(s0) && s0.P <= s0.H && NilCoded(env, s0, s, from, more)
    ensures s.P <= s.H && Steps(env, s0, s, SNils(more), from)
  {
    hide Run, Discharge, Fill;
    forall r: Regs ensures StepsAt(env, s0, s, SNils(more), from, r) {
      Discharges(env, s0, 0, r);
      assert FillsAt(env, Discharge(s0), s, from, more, r);
    }
    NonePending(s0);
  }

  ghost predicate PerformsAt(env: Env, s0: Snap, s: Snap, b: seq<Stat>, n: nat, r: Regs) {
    var o0, o := Start(env, s0, 0, r), Start(env, s, 0, r);
    o0 != Bad && Arrives(o0, s0.H) ==>
        o != Bad && Arrives(o, s.H) && Agree(RegsOf(o), Exec(env, b, n, RegsOf(o0)), Locals(b, n))
  }

  /** The code since s0 does what the block says. */
  ghost predicate Performs(env: Env, s0: Snap, s: Snap, b: seq<Stat>, n: nat) {
    s.ks <= env.ks ==> forall r: Regs :: PerformsAt(env, s0, s, b, n, r)
  }

  lemma PerformsNothing(env: Env, s: Snap, n: nat)
    ensures Performs(env, s, s, [], n)
  {
    hide Run;
    forall r: Regs ensures PerformsAt(env, s, s, [], n, r) {}
  }

  /** One more statement. */
  lemma PerformsMore(env: Env, s0: Snap, s1: Snap, b: seq<Stat>, n: nat, st: Stat, s2: Snap)
    requires Performs(env, s0, s1, b, n) && s1.ks <= s2.ks && ScopedStat(st, Locals(b, n))
    requires Steps(env, s1, s2, st, Locals(b, n))
    ensures Performs(env, s0, s2, b + [st], n)
  {
    hide Run, Exec, ExecStat, Locals, Agree;
    if s2.ks <= env.ks {
      forall r: Regs ensures PerformsAt(env, s0, s2, b + [st], n, r) {
        assert PerformsAt(env, s0, s1, b, n, r) && StepsAt(env, s1, s2, st, Locals(b, n), r);
        var o0 := Start(env, s0, 0, r);
        if o0 != Bad && Arrives(o0, s0.H) {
          MoreHere(env, b, n, st, RegsOf(o0), RegsOf(Start(env, s1, 0, r)), RegsOf(Start(env, s2, 0, r)));
        }
      }
    }
  }

  lemma MoreHere(env: Env, b: seq<Stat>, n: nat, st: Stat, r0: Regs, r1: Regs, r2: Regs)
    requires ScopedStat(st, Locals(b, n)) && Agree(r1, Exec(env, b, n, r0), Locals(b, n))
    requires Agree(r2, ExecStat(env, st, Locals(b, n), r1), Locals(b, n) + Declares(st))
    ensures Agree(r2, Exec(env, b + [st], n, r0), Locals(b + [st], n))
  {
    hide ExecStat, Agree;
    assert (b + [st])[..|b|] == b;
    StatAgrees(env, st, Locals(b, n), r1, Exec(env, b, n, r0));
    AgreeTrans(r2, ExecStat(env, st, Locals(b, n), r1), Exec(env, b + [st], n, r0), Locals(b + [st], n));
  }

  lemma StatAgrees(env: Env, st: Stat, n: nat, a: Regs, b: Regs)
    requires ScopedStat(st, n) && Agree(a, b, n)
    ensures Agree(ExecStat(env, st, n, a), ExecStat(env, st, n, b), n + Declares(st))
  {
    hide Eval;
    if !st.SNils? { EvalScoped(env, st.e, n, a, b); }
  }

  /** What the plain machine does with finished code: if it got to the end of the code before, it gets to the end of the
      new code, with the locals as the block says. */
  ghost predicate RunsAs(env: Env, code0: seq<Ins>, code: seq<Ins>, b: seq<Stat>, n: nat, r: Regs) {
    var o0, o := Run(env, code0, {}, 0, r), Run(env, code, {}, 0, r);
    o0.Here? ==> o.Here? && Agree(o.r, Exec(env, b, n, o0.r), Locals(b, n))
  }

  ghost predicate AllRunAs(env: Env, code0: seq<Ins>, code: seq<Ins>, b: seq<Stat>, n: nat) {
    forall r: Regs :: RunsAs(env, code0, code, b, n, r)
  }

  /** With the last jumps discharged, nothing is pending. */
  lemma Finished(env: Env, s0: Snap, s: Snap, b: seq<Stat>, n: nat)
    requires Performs(env, s0, s, b, n) && s0.P == {} && s.P <= s.H && Wf(s) && s.ks <= env.ks
    ensures AllRunAs(env, s0.code, Discharge(s).code, b, n)
  {
    hide Run, Exec, Discharge;
    forall r: Regs ensures RunsAs(env, s0.code, Discharge(s).code, b, n, r) {
      assert PerformsAt(env, s0, s, b, n, r);
      Discharges(env, s, 0, r);
      NonePending(s);
    }
  }

  lemma NonePending(s: Snap)
    requires s.P <= s.H
    ensures Discharge(s).P == {}
  {
  }

  /** The code of a whole function body runs from any registers. */
  lemma FromTheStart(env: Env, code: seq<Ins>, b: seq<Stat>, n: nat, r: Regs)
    requires AllRunAs(env, [], code, b, n)
    ensures var o := Run(env, code, {}, 0, r); o.Here? && Agree(o.r, Exec(env, b, n, r), Locals(b, n))
  {
    hide Exec;
    assert RunsAs(env, [], code, b, n, r);
    assert Run(env, [], {}, 0, r) == Here(r);
  }
}
