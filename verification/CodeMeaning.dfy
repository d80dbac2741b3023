/** What expressions, statements and instructions mean in terms of plain values, down to what compiled blocks leave in
    the registers. */
module CodeMeaning {
  import opened CodeMachine
  import opened CodeSpec
  import opened CodeStat
  import opened LuaCode

  // ---- the machine ----

  /** The machine compares integers as integers. */
  ghost predicate OrdersIntegers(env: Env) {
    forall i, j :: OrdersPair(env, i, j)
  }

  predicate OrdersPair(env: Env, i: int, j: int) {
    (env.cmp)(Eq, Num(Int(i)), Num(Int(j))) == (i == j) &&
    (env.cmp)(Lt, Num(Int(i)), Num(Int(j))) == (i < j) &&
    (env.cmp)(Le, Num(Int(i)), Num(Int(j))) == (i <= j)
  }

  /** The listing of `local x = a < b` for locals in registers 1 and 2: the comparison goes on with the jump if its
      outcome is as asked, and over the jump otherwise. */
  lemma ListingOfLess(env: Env, r: Regs, i: int, j: int)
    requires OrdersPair(env, i, j) && r[1] == Num(Int(i)) && r[2] == Num(Int(j))
    ensures var code := [Compare(Lt, true, R(1), R(2)), Jmp(1), LoadBool(0, false, true), LoadBool(0, true, false)];
            Run(env, code, {}, 0, r) == Here(r[0 := Bool(i < j)])
  {
    var code := [Compare(Lt, true, R(1), R(2)), Jmp(1), LoadBool(0, false, true), LoadBool(0, true, false)];
    assert Run(env, code, {}, 3, r) == Here(r[0 := Bool(true)]);
    assert Run(env, code, {}, 2, r) == Here(r[0 := Bool(false)]);
    assert Run(env, code, {}, 1, r) == Run(env, code, {}, 3, r);
  }

  /** The listing of `local z = x and y` for locals in registers 0 and 1, if c is false, and of the one with `or`, if
      c is true: TESTSET leaves with the value if it decides, and otherwise the move behind the jump comes next. */
  lemma ListingOfLogic(env: Env, r: Regs, c: bool)
    ensures var code := [TestSet(2, 0, c), Jmp(1), Move(2, 1)];
            Run(env, code, {}, 0, r) == Here(r[2 := if (r[0] != Nil && r[0] != Bool(false)) == c then r[0] else r[1]])
  {
    var code := [TestSet(2, 0, c), Jmp(1), Move(2, 1)];
    var kept := r[2 := r[0]];
    assert Run(env, code, {}, 2, r) == Here(r[2 := r[1]]);
    assert Run(env, code, {}, 3, kept) == Here(kept);
    assert Run(env, code, {}, 1, kept) == Here(kept);
  }

  /** The instructions that load one value each. */
  lemma ListingOfLoads(env: Env, r: Regs)
    requires |env.ks| > 0
    ensures Run(env, [LoadK(0, 0), GetUpval(1, 7), Not(2, 3), LoadNil(3, 1)], {}, 0, r) ==
            Here(r[0 := env.ks[0]][1 := (env.ups)(7)][2 := Bool(r[3] == Nil || r[3] == Bool(false))]
                  [3 := Nil][4 := Nil])
  {
    var code := [LoadK(0, 0), GetUpval(1, 7), Not(2, 3), LoadNil(3, 1)];
    var a := r[0 := env.ks[0]];
    var b := a[1 := (env.ups)(7)];
    var c := b[2 := Bool(r[3] == Nil || r[3] == Bool(false))];
    assert Fill(c, 3, 1) == c[3 := Nil][4 := Nil];
    assert Run(env, code, {}, 3, c) == Here(Fill(c, 3, 1)) by {
      assert Run(env, code, {}, 4, Fill(c, 3, 1)) == Here(Fill(c, 3, 1));
    }
    assert Run(env, code, {}, 2, b) == Run(env, code, {}, 3, c);
    assert Run(env, code, {}, 1, a) == Run(env, code, {}, 2, b);
  }

  // ---- expressions ----

  /** What the operator, as written, says about two integers. */
  predicate Holds(op: string, i: int, j: int) {
    (op == "==" && i == j) || (op == "~=" && i != j) || (op == "<" && i < j) || (op == "<=" && i <= j) ||
    (op == ">" && i > j) || (op == ">=" && i >= j)
  }

  /** How the operators are written. */
  function Written(op: CmpOp): string {
    match op
    case OpEq => "=="
    case OpNe => "~="
    case OpLt => "<"
    case OpLe => "<="
    case OpGt => ">"
    case OpGe => ">="
  }

  /** Comparisons of integers. */
  lemma ComparisonsMean(env: Env, a: Expr, b: Expr, r: Regs, i: int, j: int)
    requires OrdersIntegers(env) && Eval(env, a, r) == Num(Int(i)) && Eval(env, b, r) == Num(Int(j))
    ensures Eval(env, ECompare(OpEq, a, b), r) == Bool(i == j)
    ensures Eval(env, ECompare(OpNe, a, b), r) == Bool(i != j)
    ensures Eval(env, ECompare(OpLt, a, b), r) == Bool(i < j)
    ensures Eval(env, ECompare(OpLe, a, b), r) == Bool(i <= j)
    ensures Eval(env, ECompare(OpGt, a, b), r) == Bool(i > j)
    ensures Eval(env, ECompare(OpGe, a, b), r) == Bool(i >= j)
  {
    assert OrdersPair(env, i, j) && OrdersPair(env, j, i);
  }

  /** Only nil and false are not true: `and` gives its first operand if that is one of them, `or` if it is not, and
      otherwise they give the second. */
  lemma LogicMeans(env: Env, a: Expr, b: Expr, r: Regs)
    ensures var v, w := Eval(env, a, r), Eval(env, b, r);
            var no := v == Nil || v == Bool(false);
            Eval(env, EAnd(a, b), r) == (if no then v else w) &&
            Eval(env, EOr(a, b), r) == (if no then w else v) &&
            Eval(env, ENot(a), r) == Bool(no)
  {
  }

  // ---- compiled blocks ----

  /** Every run of the code ends with this value in register x. */
  ghost predicate Leaves(env: Env, code: seq<Ins>, x: Reg, v: Value) {
    forall r: Regs :: LeavesFrom(env, code, x, v, r)
  }

  predicate LeavesFrom(env: Env, code: seq<Ins>, x: Reg, v: Value, r: Regs) {
    Run(env, code, {}, 0, r).Here? && Run(env, code, {}, 0, r).r[x] == v
  }

  /** `local x = e` is compiled, and leaves in the first register what the expression means. */
  method CompileLocal(e: Expr, ghost v: Value, ghost env: Env) returns (o: Outcome<seq<Ins>>, ks: seq<Value>)
    requires Scoped(e, 0) && forall g: Regs :: Eval(env, e, g) == v
    ensures o.Ok? && ks <= env.ks ==> Leaves(env, o.value, 0, v)
    ensures o.TooComplex? ==> Length(e) + 35 > 131071 || Registers(e) >= 255
  {
    hide Run, Eval, AllRunAs, Length, Registers, Exec;
    var b := [SLocal(e)];
    var fs := new FuncState();
    OneStatement(b[0]);
    var done := fs.Block(b, env);
    ks := fs.ks;
    if done.TooComplex? {
      return TooComplex, ks;
    }
    var code := fs.code[..|fs.code| - 1];
    if ks <= env.ks {
      forall g: Regs ensures LeavesFrom(env, code, 0, v, g) { FromTheStart(env, code, b, 0, g); }
    }
    return Ok(code), ks;
  }

  lemma OneStatement(st: Stat)
    requires st.SLocal? && Scoped(st.e, 0)
    ensures ScopedBlock([st], 0) && BlockLength([st]) == Length(st.e) + 34
    ensures BlockRegisters([st], 0) == Registers(st.e) && Locals([st], 0) == 1
    ensures forall env, r :: Exec(env, [st], 0, r) == r[0 := Eval(env, st.e, r)]
  {
    hide Eval, Length, Registers;
    assert [st][..0] == [];
  }

  /** For `local x = l op r`, with any operands that mean these integers, that is whether the comparison holds. */
  method CompileComparison(op: CmpOp, l: Expr, r: Expr, ghost i: int, ghost j: int, ghost env: Env)
      returns (o: Outcome<seq<Ins>>, ks: seq<Value>)
    requires OrdersIntegers(env) && Scoped(l, 0) && Scoped(r, 0)
    requires forall g: Regs :: Eval(env, l, g) == Num(Int(i)) && Eval(env, r, g) == Num(Int(j))
    ensures o.Ok? && ks <= env.ks ==> Leaves(env, o.value, 0, Bool(Holds(Written(op), i, j)))
  {
    hide Eval, Leaves, Length, Registers;
    ghost var v := Bool(Holds(Written(op), i, j));
    forall g: Regs ensures Eval(env, ECompare(op, l, r), g) == v { ComparisonsMean(env, l, r, g, i, j); }
    o, ks := CompileLocal(ECompare(op, l, r), v, env);
  }

  /** For `local x = c and a or b`, that is a if c and a are true, and b otherwise. */
  method CompileChoice(c: Expr, a: Expr, b: Expr, ghost x: Value, ghost y: Value, ghost z: Value, ghost env: Env)
      returns (o: Outcome<seq<Ins>>, ks: seq<Value>)
    requires Scoped(c, 0) && Scoped(a, 0) && Scoped(b, 0)
    requires forall g: Regs :: Eval(env, c, g) == x && Eval(env, a, g) == y && Eval(env, b, g) == z
    ensures o.Ok? && ks <= env.ks ==>
              Leaves(env, o.value, 0, if x in {Nil, Bool(false)} || y in {Nil, Bool(false)} then z else y)
  {
    hide Eval, Leaves, Length, Registers;
    var e := EOr(EAnd(c, a), b);
    ghost var v := if x in {Nil, Bool(false)} || y in {Nil, Bool(false)} then z else y;
    forall g: Regs ensures Eval(env, e, g) == v {
      LogicMeans(env, c, a, g);
      LogicMeans(env, EAnd(c, a), b, g);
    }
    o, ks := CompileLocal(e, v, env);
  }

  /** `local a, b; a = 1; local c = a; a = 2` is compiled, and its statements take effect one after the other. */
  method CompileSequence(ghost env: Env) returns (code: seq<Ins>, ks: seq<Value>)
    ensures ks <= env.ks ==> Leaves(env, code, 0, Num(Int(2))) && Leaves(env, code, 1, Nil)
    ensures ks <= env.ks ==> Leaves(env, code, 2, Num(Int(1)))
  {
    hide Run, AllRunAs, Exec;
    var b := [SNils(1), SAssign(0, ENumber(Int(1))), SLocal(ELocal(0)), SAssign(0, ENumber(Int(2)))];
    var fs := new FuncState();
    SequenceMeans(b);
    var done := fs.Block(b, env);
    ks, code := fs.ks, fs.code[..|fs.code| - 1];
    if ks <= env.ks {
      forall g: Regs
        ensures LeavesFrom(env, code, 0, Num(Int(2)), g)
        ensures LeavesFrom(env, code, 1, Nil, g)
        ensures LeavesFrom(env, code, 2, Num(Int(1)), g)
      {
        FromTheStart(env, code, b, 0, g);
      }
    }
  }

  lemma SequenceMeans(b: seq<Stat>)
    requires b == [SNils(1), SAssign(0, ENumber(Int(1))), SLocal(ELocal(0)), SAssign(0, ENumber(Int(2)))]
    ensures ScopedBlock(b, 0) && BlockLength(b) < 200 && BlockRegisters(b, 0) < 10 && Locals(b, 0) == 3
    ensures forall env, r :: Exec(env, b, 0, r) == r[0 := Num(Int(2))][1 := Nil][2 := Num(Int(1))]
  {
    assert b[..3][..2] == b[..2] && b[..2][..1] == b[..1] && b[..1][..0] == [];
    assert b[..4] == b && BlockLength(b[..1]) == 1 && BlockLength(b[..2]) == 35 && BlockLength(b[..3]) == 69;
    assert BlockRegisters(b[..1], 0) == 2 && BlockRegisters(b[..2], 0) == 3 && BlockRegisters(b[..3], 0) == 3;
    assert Locals(b[..1], 0) == 2 && Locals(b[..2], 0) == 2 && Locals(b[..3], 0) == 3;
    forall env, r: Regs ensures Exec(env, b, 0, r) == r[0 := Num(Int(2))][1 := Nil][2 := Num(Int(1))] {
      assert Exec(env, b[..1], 0, r) == r[0 := Nil][1 := Nil];
      assert Exec(env, b[..2], 0, r) == r[0 := Num(Int(1))][1 := Nil];
      assert Exec(env, b[..3], 0, r) == r[0 := Num(Int(1))][1 := Nil][2 := Num(Int(1))];
    }
  }
}
