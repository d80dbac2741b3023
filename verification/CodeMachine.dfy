/** The part of Lua's virtual machine that expressions compile to, run on code whose jumps may still be pending. */
module CodeMachine {

  datatype Number = Int(i: int) | Float(id: nat)

  datatype Value = Nil | Bool(b: bool) | Num(n: Number) | Str(s: string)

  predicate Truthy(v: Value) { v != Nil && v != Bool(false) }

  type Reg = r: nat | r < 256

  type Regs = s: seq<Value> | |s| == 256 witness seq(256, i => Nil)

  /** An operand of a comparison: a register or a constant. */
  datatype RK = R(r: Reg) | K(k: nat)

  datatype Cmp = Eq | Lt | Le

  datatype Ins =
    | Move(a: Reg, b: Reg)
    | LoadK(a: Reg, k: nat)
    | LoadBool(a: Reg, v: bool, skip: bool)
    | LoadNil(a: Reg, n: nat)
    | GetUpval(a: Reg, u: nat)
    | Not(a: Reg, b: Reg)
    | Jmp(off: int)
    | Compare(cmp: Cmp, accept: bool, x: RK, y: RK)
    | Test(a: Reg, c: bool)
    | TestSet(a: Reg, b: Reg, c: bool)
    | Return(a: Reg)

  /** What the code runs against: the finished constant table, upvalues, and what comparisons yield. */
  datatype Env = Env(ks: seq<Value>, ups: nat -> Value, cmp: (Cmp, Value, Value) -> bool)

  function Constant(env: Env, k: nat): Value { if k < |env.ks| then env.ks[k] else Nil }

  function RKValue(env: Env, x: RK, r: Regs): Value {
    match x
    case R(i) => r[i]
    case K(k) => Constant(env, k)
  }

  function CmpValue(env: Env, cmp: Cmp, x: RK, y: RK, r: Regs): bool {
    (env.cmp)(cmp, RKValue(env, x, r), RKValue(env, y, r))
  }

  /** `testTMode`: the next instruction is a jump. */
  predicate IsTest(i: Ins) { i.Compare? || i.Test? || i.TestSet? }

  /** Whether a test lets the jump behind it happen. */
  predicate Takes(env: Env, i: Ins, r: Regs)
    requires IsTest(i)
  {
    match i
    case Compare(cmp, accept, x, y) => CmpValue(env, cmp, x, y, r) == accept
    case Test(a, c) => Truthy(r[a]) == c
    case TestSet(_, b, c) => Truthy(r[b]) == c
  }

  /** Instructions with one result that can be put anywhere. */
  predicate HasResult(i: Ins) { i.Move? || i.LoadK? || i.LoadBool? || i.GetUpval? || i.Not? }

  function Result(env: Env, i: Ins, r: Regs): Value
    requires HasResult(i)
  {
    match i
    case Move(_, b) => r[b]
    case LoadK(_, k) => Constant(env, k)
    case LoadBool(_, v, _) => Bool(v)
    case GetUpval(_, u) => (env.ups)(u)
    case Not(_, b) => Bool(!Truthy(r[b]))
  }

  /** Where a run gets: to the end of the code, or to a pending jump, which may be about to take a value along. */
  datatype Out = Here(r: Regs) | Away(j: nat, r: Regs) | AwaySet(j: nat, b: Reg, r: Regs) | Bad

  /** P are the jumps that are still pending: a run stops there, and a TESTSET whose jump is pending does not
      assign yet. All other jumps go forward. */
  function Run(env: Env, code: seq<Ins>, P: set<nat>, pc: nat, r: Regs): Out
    decreases |code| - pc
  {
    if pc == |code| then Here(r)
    else if pc > |code| then Bad
    else
      var i := code[pc];
      if i.Jmp? then
        if pc in P then Away(pc, r) else if i.off < 0 then Bad else Run(env, code, P, pc + 1 + i.off, r)
      else if i.TestSet? && Takes(env, i, r) then
        if pc + 1 in P then AwaySet(pc + 1, i.b, r) else Run(env, code, P, pc + 1, r[i.a := r[i.b]])
      else if IsTest(i) then Run(env, code, P, if Takes(env, i, r) then pc + 1 else pc + 2, r)
      else if i.LoadNil? then Run(env, code, P, pc + 1, Fill(r, i.a, i.n))
      else if HasResult(i) then Run(env, code, P, pc + 1 + Skip(i), r[i.a := Result(env, i, r)])
      else Bad
  }

  /** LOADNIL: the register a and n more behind it. */
  function Fill(r: Regs, a: Reg, n: nat): Regs {
    seq(256, i requires 0 <= i < 256 => if a <= i <= a + n then Nil else r[i])
  }

  function Skip(i: Ins): nat { if i.LoadBool? && i.skip then 1 else 0 }

  /** A test is never the last instruction: its jump follows. */
  predicate Closed(c: seq<Ins>) { c == [] || !IsTest(c[|c| - 1]) }

  /** A run goes on where code has been added behind. */
  function Then(env: Env, o: Out, code: seq<Ins>, P: set<nat>, pc: nat): Out {
    if o.Here? then Run(env, code, P, pc, o.r) else o
  }

  lemma {:induction false} RunAppend(env: Env, c: seq<Ins>, d: seq<Ins>, P: set<nat>, Q: set<nat>, pc: nat, r: Regs)
    requires Run(env, c, P, pc, r) != Bad && Closed(c)
    requires forall j :: j < |c| ==> (j in Q <==> j in P)
    ensures Run(env, c + d, Q, pc, r) == Then(env, Run(env, c, P, pc, r), c + d, Q, |c|)
    decreases |c| - pc
  {
    if pc < |c| {
      var i := c[pc];
      assert (c + d)[pc] == i;
      if i.Jmp? {
        if pc !in P && i.off >= 0 { RunAppend(env, c, d, P, Q, pc + 1 + i.off, r); }
      } else if i.TestSet? && Takes(env, i, r) {
        if pc + 1 !in P { RunAppend(env, c, d, P, Q, pc + 1, r[i.a := r[i.b]]); }
      } else if IsTest(i) {
        RunAppend(env, c, d, P, Q, if Takes(env, i, r) then pc + 1 else pc + 2, r);
      } else if i.LoadNil? {
        RunAppend(env, c, d, P, Q, pc + 1, Fill(r, i.a, i.n));
      } else if HasResult(i) {
        RunAppend(env, c, d, P, Q, pc + 1 + Skip(i), r[i.a := Result(env, i, r)]);
      }
    }
  }

  /** What may be rewritten: pending jumps, and TESTSETs before them, which may get another register or become plain
      tests. */
  predicate RewrittenAt(c: seq<Ins>, c': seq<Ins>, P: set<nat>, i: nat) {
    i < |c| && i < |c'| &&
    if c[i].Jmp? && i in P then c'[i].Jmp?
    else if c[i].TestSet? && i + 1 in P then SameTest(c[i], c'[i])
    else c'[i] == c[i]
  }

  predicate SameTest(i: Ins, i': Ins)
    requires i.TestSet?
  {
    (i'.TestSet? && i'.b == i.b && i'.c == i.c) || i' == Test(i.b, i.c)
  }

  ghost predicate Rewritten(c: seq<Ins>, c': seq<Ins>, P: set<nat>) {
    |c'| == |c| && forall i :: 0 <= i < |c| ==> RewrittenAt(c, c', P, i)
  }

  /** After rewriting, a run that had stopped goes on from its jump, or from the TESTSET before it. */
  function Resume(env: Env, o: Out, code: seq<Ins>, P: set<nat>): Out {
    match o
    case Away(j, r) => Run(env, code, P, j, r)
    case AwaySet(j, _, r) => if j == 0 then Bad else Run(env, code, P, j - 1, r)
    case _ => o
  }

  lemma {:induction false} RunRewritten(env: Env, c: seq<Ins>, c': seq<Ins>, P: set<nat>, Q: set<nat>, pc: nat, r: Regs)
    requires Rewritten(c, c', P) && Q <= P
    ensures Run(env, c', Q, pc, r) == Resume(env, Run(env, c, P, pc, r), c', Q)
    decreases |c| - pc
  {
    if pc < |c| {
      var i := c[pc];
      assert RewrittenAt(c, c', P, pc);
      if i.Jmp? {
        if pc !in P && i.off >= 0 { RunRewritten(env, c, c', P, Q, pc + 1 + i.off, r); }
      } else if i.TestSet? && Takes(env, i, r) {
        if pc + 1 !in P { RunRewritten(env, c, c', P, Q, pc + 1, r[i.a := r[i.b]]); }
      } else if IsTest(i) {
        RunRewritten(env, c, c', P, Q, if Takes(env, i, r) then pc + 1 else pc + 2, r);
      } else if i.LoadNil? {
        RunRewritten(env, c, c', P, Q, pc + 1, Fill(r, i.a, i.n));
      } else if HasResult(i) {
        RunRewritten(env, c, c', P, Q, pc + 1 + Skip(i), r[i.a := Result(env, i, r)]);
      }
    }
  }

  /** A run stops only at pending jumps, and with a value only behind a TESTSET that takes its jump. */
  lemma {:induction false} RunStops(env: Env, c: seq<Ins>, P: set<nat>, pc: nat, r: Regs)
    ensures var o := Run(env, c, P, pc, r);
            (o.Away? ==> o.j in P && o.j < |c| && c[o.j].Jmp?) &&
            (o.AwaySet? ==>
                  o.j in P && 1 <= o.j <= |c| && c[o.j - 1].TestSet? && c[o.j - 1].b == o.b &&
                  Takes(env, c[o.j - 1], o.r))
    decreases |c| - pc
  {
    if pc < |c| {
      var i := c[pc];
      if i.Jmp? {
        if pc !in P && i.off >= 0 { RunStops(env, c, P, pc + 1 + i.off, r); }
      } else if i.TestSet? && Takes(env, i, r) {
        if pc + 1 !in P { RunStops(env, c, P, pc + 1, r[i.a := r[i.b]]); }
      } else if IsTest(i) {
        RunStops(env, c, P, if Takes(env, i, r) then pc + 1 else pc + 2, r);
      } else if i.LoadNil? {
        RunStops(env, c, P, pc + 1, Fill(r, i.a, i.n));
      } else if HasResult(i) {
        RunStops(env, c, P, pc + 1 + Skip(i), r[i.a := Result(env, i, r)]);
      }
    }
  }

  // ---- jump lists ----

  const NO_JUMP: int := -1

  /** `getjump`: a jump to itself ends the list. */
  function GetJump(code: seq<Ins>, pc: nat): int
    requires pc < |code| && code[pc].Jmp?
  {
    if code[pc].off == NO_JUMP then NO_JUMP else pc + 1 + code[pc].off
  }

  /** The jumps of a list are exactly those in S, each once. */
  ghost predicate Chain(code: seq<Ins>, head: int, S: set<nat>)
    decreases |S|
  {
    if head == NO_JUMP then S == {}
    else head in S && 0 <= head < |code| && code[head].Jmp? && Chain(code, GetJump(code, head), S - {head})
  }

  lemma {:induction false} ChainIn(code: seq<Ins>, head: int, S: set<nat>)
    requires Chain(code, head, S)
    ensures forall j :: j in S ==> j < |code| && code[j].Jmp?
    decreases |S|
  {
    if head != NO_JUMP {
      ChainIn(code, GetJump(code, head), S - {head});
      assert forall j :: j in S ==> j == head || j in S - {head};
    }
  }

  /** A list does not depend on other code. */
  lemma {:induction false} ChainFrame(code: seq<Ins>, code': seq<Ins>, head: int, S: set<nat>)
    requires Chain(code, head, S) && forall j :: j in S ==> j < |code| && j < |code'| && code'[j] == code[j]
    ensures Chain(code', head, S)
    decreases |S|
  {
    if head != NO_JUMP { ChainFrame(code, code', GetJump(code, head), S - {head}); }
  }

  /** The last jump of a list. */
  ghost predicate LastOf(code: seq<Ins>, head: int, S: set<nat>, last: nat)
    decreases |S|
  {
    head in S && 0 <= head < |code| && code[head].Jmp? &&
    if GetJump(code, head) == NO_JUMP then last == head else LastOf(code, GetJump(code, head), S - {head}, last)
  }

  /** Linking the last jump of one list to the head of another joins the lists. */
  lemma {:induction false} ChainJoin(code: seq<Ins>, l1: int, S1: set<nat>, l2: int, S2: set<nat>, last: nat)
    requires Chain(code, l1, S1) && Chain(code, l2, S2) && S1 !! S2 && LastOf(code, l1, S1, last) && l2 != NO_JUMP
    ensures last in S1 && last < |code| && code[last].Jmp?
    ensures Chain(code[last := Jmp(l2 - (last + 1))], l1, S1 + S2)
    decreases |S1|
  {
    if GetJump(code, l1) == NO_JUMP {
      var code' := code[last := Jmp(l2 - (last + 1))];
      assert S1 - {l1} == {};
      assert l2 in S2 && l2 != l1;
      ChainIn(code, l2, S2);
      ChainFrame(code, code', l2, S2);
      assert S1 + S2 - {l1} == S2;
    } else {
      ChainJoin(code, GetJump(code, l1), S1 - {l1}, l2, S2, last);
      assert last in S1 - {l1};
      assert S1 + S2 - {l1} == S1 - {l1} + S2;
    }
  }
}
