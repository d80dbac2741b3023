/** How tokens with several operators are read, by the order in which the manual lists the operators. */
module OperatorMeaning {
  import opened LuaOperators

  /** The levels of precedence, from the lowest to the highest (section 3.4.8 of the Lua 5.3 Reference Manual). Unary
      operators stand between the last two. */
  function Level(op: BinOpr): nat {
    match op
    case OPR_OR => 0
    case OPR_AND => 1
    case OPR_LT | OPR_GT | OPR_LE | OPR_GE | OPR_NE | OPR_EQ => 2
    case OPR_BOR => 3
    case OPR_BXOR => 4
    case OPR_BAND => 5
    case OPR_SHL | OPR_SHR => 6
    case OPR_CONCAT => 7
    case OPR_ADD | OPR_SUB => 8
    case OPR_MUL | OPR_DIV | OPR_IDIV | OPR_MOD => 9
    case OPR_POW => 10
  }

  /** Whether the second of two operators binds before the first: it is on a higher level, or on the same one and groups
      to the right, as concatenation and exponentiation do. */
  predicate BindsFirst(a: BinOpr, b: BinOpr) {
    Level(b) > Level(a) || (Level(b) == Level(a) && (a == OPR_CONCAT || a == OPR_POW))
  }

  lemma PriorityOf(op: BinOpr)
    ensures var i := Level(op);
            Left(op) == (if i < 7 then i + 1 else if i == 10 then 14 else i + 2) &&
            Right(op) == (if i < 7 then i + 1 else if i == 7 then 8 else if i == 10 then 13 else i + 2)
    ensures Level(op) <= 10 && (op == OPR_CONCAT <==> Level(op) == 7) && (op == OPR_POW <==> Level(op) == 10)
  {
  }

  lemma LevelsMean(a: BinOpr, b: BinOpr)
    ensures Left(b) > Right(a) <==> BindsFirst(a, b)
    ensures (Left(b) > UNARY_PRIORITY <==> b == OPR_POW) && Left(b) > 0
  {
    PriorityOf(a);
    PriorityOf(b);
    hide Left, Right, Level;
  }

  lemma ReadName(n: nat, rest: seq<Token>, level: nat)
    ensures First([TName(n)] + rest, level) == Got(Name(n), rest)
  {
    assert ([TName(n)] + rest)[1..] == rest;
  }

  lemma LoopOne(t: Tree, op: BinOpr, rest: seq<Token>, limit: nat, level: nat)
    ensures Loop(t, [BinToken(op)] + rest, limit, level) ==
            if Left(op) <= limit then Got(t, [BinToken(op)] + rest)
            else
              var p := Sub(rest, Right(op), level);
              if p.Got? then Loop(Binary(op, t, p.t), p.rest, limit, level) else p
  {
    hide Sub;
    var ts := [BinToken(op)] + rest;
    assert ts[1..] == rest && GetBinOpr(Head(ts)).Some? && GetBinOpr(Head(ts)).value == op;
  }

  lemma LoopEnd(t: Tree, limit: nat, level: nat)
    ensures Loop(t, [], limit, level) == Got(t, [])
  {
  }

  /** `x b y` behind an operator that takes the operands above limit. */
  lemma ReadTwo(y: nat, b: BinOpr, z: nat, limit: nat, level: nat)
    requires level < 190 && Left(b) > 0
    ensures Sub([TName(y)] + ([BinToken(b)] + [TName(z)]), limit, level) ==
            if Left(b) > limit then Got(Binary(b, Name(y), Name(z)), []) else Got(Name(y), [BinToken(b)] + [TName(z)])
  {
    hide First, Loop, Left, Right;
    var ts := [TName(y)] + ([BinToken(b)] + [TName(z)]);
    SubIs(ts, limit, level);
    ReadName(y, [BinToken(b)] + [TName(z)], level + 1);
    LoopOne(Name(y), b, [TName(z)], limit, level + 1);
    ReadLast(z, Right(b), level + 1);
    LoopEnd(Binary(b, Name(y), Name(z)), limit, level + 1);
  }

  lemma ReadLast(z: nat, limit: nat, level: nat)
    requires level < 199
    ensures Sub([TName(z)], limit, level) == Got(Name(z), [])
  {
    hide First, Loop;
    SubIs([TName(z)], limit, level);
    assert [TName(z)] + [] == [TName(z)];
    ReadName(z, [], level + 1);
    LoopEnd(Name(z), limit, level + 1);
  }

  /** `x a y b z` is `x a (y b z)` if the second operator binds first, and `(x a y) b z` otherwise. */
  lemma TwoOperatorsMean(x: nat, a: BinOpr, y: nat, b: BinOpr, z: nat)
    ensures Sub([TName(x)] + ([BinToken(a)] + ([TName(y)] + ([BinToken(b)] + [TName(z)]))), 0, 0) ==
            Got(if BindsFirst(a, b) then Binary(a, Name(x), Binary(b, Name(y), Name(z)))
                else Binary(b, Binary(a, Name(x), Name(y)), Name(z)), [])
  {
    hide First, Loop, Left, Right, BindsFirst;
    var rest := [TName(y)] + ([BinToken(b)] + [TName(z)]);
    LevelsMean(a, b);
    LevelsMean(a, a);
    SubIs([TName(x)] + ([BinToken(a)] + rest), 0, 0);
    ReadName(x, [BinToken(a)] + rest, 1);
    LoopOne(Name(x), a, rest, 0, 1);
    ReadTwo(y, b, z, Right(a), 1);
    if BindsFirst(a, b) {
      LoopEnd(Binary(a, Name(x), Binary(b, Name(y), Name(z))), 0, 1);
    } else {
      LoopOne(Binary(a, Name(x), Name(y)), b, [TName(z)], 0, 1);
      ReadLast(z, Right(b), 1);
      LoopEnd(Binary(b, Binary(a, Name(x), Name(y)), Name(z)), 0, 1);
    }
  }

  /** `u x b y` is `u (x b y)` for exponentiation, and `(u x) b y` for every other operator. */
  lemma UnaryMeans(u: UnOpr, x: nat, b: BinOpr, y: nat)
    ensures Sub([UnToken(u)] + ([TName(x)] + ([BinToken(b)] + [TName(y)])), 0, 0) ==
            Got(if b == OPR_POW then Unary(u, Binary(b, Name(x), Name(y))) else Binary(b, Unary(u, Name(x)), Name(y)),
                [])
  {
    hide First, Loop, Left, Right;
    var rest := [TName(x)] + ([BinToken(b)] + [TName(y)]);
    LevelsMean(b, b);
    SubIs([UnToken(u)] + rest, 0, 0);
    FirstUnary(u, rest, 1);
    ReadTwo(x, b, y, UNARY_PRIORITY, 1);
    if b == OPR_POW {
      LoopEnd(Unary(u, Binary(b, Name(x), Name(y))), 0, 1);
    } else {
      LoopOne(Unary(u, Name(x)), b, [TName(y)], 0, 1);
      ReadLast(y, Right(b), 1);
      LoopEnd(Binary(b, Unary(u, Name(x)), Name(y)), 0, 1);
    }
  }

  /** `-x`, `~x`, `not x` and `#x`; two of the tokens are binary operators as well. */
  lemma TokensMean(x: nat, y: nat)
    ensures Sub([TMinus] + [TName(x)], 0, 0) == Got(Unary(OPR_MINUS, Name(x)), [])
    ensures Sub([TTilde] + [TName(x)], 0, 0) == Got(Unary(OPR_BNOT, Name(x)), [])
    ensures Sub([TNot] + [TName(x)], 0, 0) == Got(Unary(OPR_NOT, Name(x)), [])
    ensures Sub([TLen] + [TName(x)], 0, 0) == Got(Unary(OPR_LEN, Name(x)), [])
    ensures Sub([TName(x)] + ([TMinus] + [TName(y)]), 0, 0) == Got(Binary(OPR_SUB, Name(x), Name(y)), [])
    ensures Sub([TName(x)] + ([TTilde] + [TName(y)]), 0, 0) == Got(Binary(OPR_BXOR, Name(x), Name(y)), [])
  {
    hide Sub, First;
    OneUnary(OPR_MINUS, x);
    OneUnary(OPR_BNOT, x);
    OneUnary(OPR_NOT, x);
    OneUnary(OPR_LEN, x);
    ReadTwo(x, OPR_SUB, y, 0, 0);
    ReadTwo(x, OPR_BXOR, y, 0, 0);
  }

  lemma OneUnary(u: UnOpr, x: nat)
    ensures Sub([UnToken(u)] + [TName(x)], 0, 0) == Got(Unary(u, Name(x)), [])
  {
    hide First, Loop;
    SubIs([UnToken(u)] + [TName(x)], 0, 0);
    FirstUnary(u, [TName(x)], 1);
    ReadLast(x, UNARY_PRIORITY, 1);
    LoopEnd(Unary(u, Name(x)), 0, 1);
  }
}
