/** Operator precedence in Lua's parser, against printing with as few parentheses as it needs. */
module LuaOperators {
  import opened Shared

  const UNARY_PRIORITY: nat := 12
  const LUAI_MAXCCALLS: nat := 200

  datatype UnOpr = OPR_MINUS | OPR_BNOT | OPR_NOT | OPR_LEN

  datatype BinOpr = OPR_ADD | OPR_SUB | OPR_MUL | OPR_MOD | OPR_POW | OPR_DIV | OPR_IDIV
    | OPR_BAND | OPR_BOR | OPR_BXOR | OPR_SHL | OPR_SHR | OPR_CONCAT
    | OPR_EQ | OPR_LT | OPR_LE | OPR_NE | OPR_GT | OPR_GE | OPR_AND | OPR_OR

  /** Some tokens are a unary and a binary operator. */
  datatype Token = TName(n: nat) | TOpen | TClose | TNot | TLen | TMinus | TTilde | TBinary(op: BinOpr) | TEnd

  function GetUnOpr(t: Token): Option<UnOpr> {
    match t
    case TNot => Some(OPR_NOT)
    case TMinus => Some(OPR_MINUS)
    case TTilde => Some(OPR_BNOT)
    case TLen => Some(OPR_LEN)
    case _ => None
  }

  function GetBinOpr(t: Token): Option<BinOpr> {
    match t
    case TMinus => Some(OPR_SUB)
    case TTilde => Some(OPR_BXOR)
    case TBinary(op) => if op == OPR_SUB || op == OPR_BXOR then None else Some(op)
    case _ => None
  }

  /** `priority`. */
  function Left(op: BinOpr): nat {
    match op
    case OPR_ADD | OPR_SUB => 10
    case OPR_MUL | OPR_MOD | OPR_DIV | OPR_IDIV => 11
    case OPR_POW => 14
    case OPR_BAND => 6
    case OPR_BOR => 4
    case OPR_BXOR => 5
    case OPR_SHL | OPR_SHR => 7
    case OPR_CONCAT => 9
    case OPR_EQ | OPR_LT | OPR_LE | OPR_NE | OPR_GT | OPR_GE => 3
    case OPR_AND => 2
    case OPR_OR => 1
  }

  function Right(op: BinOpr): nat {
    match op
    case OPR_POW => 13
    case OPR_CONCAT => 8
    case _ => Left(op)
  }

  datatype Tree = Name(n: nat) | Unary(u: UnOpr, e: Tree) | Binary(op: BinOpr, l: Tree, r: Tree)

  /** What the parser asks of the code generator. */
  datatype Call = Simple(n: nat) | Prefix(u: UnOpr) | Infix(op: BinOpr) | Posfix(op: BinOpr)

  /** The calls for a tree: the first operand, `luaK_infix`, the second operand, `luaK_posfix`. */
  function Calls(t: Tree): seq<Call> {
    match t
    case Name(n) => [Simple(n)]
    case Unary(u, e) => Calls(e) + [Prefix(u)]
    case Binary(op, l, r) => Calls(l) + [Infix(op)] + Calls(r) + [Posfix(op)]
  }

  // ---- printing ----

  function UnToken(u: UnOpr): Token {
    match u
    case OPR_MINUS => TMinus
    case OPR_BNOT => TTilde
    case OPR_NOT => TNot
    case OPR_LEN => TLen
  }

  function BinToken(op: BinOpr): Token {
    if op == OPR_SUB then TMinus else if op == OPR_BXOR then TTilde else TBinary(op)
  }

  /** Whether a tree can stand without parentheses where only operators above limit are taken, and one with priority
      `after` comes next: its own operator is above the limit, and no operand of it swallows the next one. */
  predicate Fits(t: Tree, limit: nat, after: nat) {
    match t
    case Name(_) => true
    case Unary(_, _) => after <= UNARY_PRIORITY
    case Binary(op, _, _) => Left(op) > limit && after <= Right(op)
  }

  function Print(t: Tree, limit: nat, after: nat): seq<Token>
    decreases t, 1
  {
    if Fits(t, limit, after) then Bare(t, limit, after) else [TOpen] + Bare(t, 0, 0) + [TClose]
  }

  function Bare(t: Tree, limit: nat, after: nat): seq<Token>
    decreases t, 0
  {
    match t
    case Name(n) => [TName(n)]
    case Unary(u, e) => [UnToken(u)] + Print(e, UNARY_PRIORITY, after)
    case Binary(op, l, r) => Print(l, limit, Left(op)) + [BinToken(op)] + Print(r, Right(op), after)
  }

  /** How deeply `subexpr` nests for a printed tree, below its own call. */
  function Nesting(t: Tree, limit: nat, after: nat): nat
    decreases t, 1
  {
    if Fits(t, limit, after) then BareNesting(t, limit, after) else 1 + BareNesting(t, 0, 0)
  }

  function BareNesting(t: Tree, limit: nat, after: nat): nat
    decreases t, 0
  {
    match t
    case Name(_) => 0
    case Unary(_, e) => 1 + Nesting(e, UNARY_PRIORITY, after)
    case Binary(op, l, r) => var a, b := Nesting(l, limit, Left(op)), 1 + Nesting(r, Right(op), after); if a > b then a
      else b
  }

  // ---- parsing ----

  datatype Parsed = Got(t: Tree, rest: seq<Token>) | SyntaxError | TooDeep

  function Head(ts: seq<Token>): Token { if ts == [] then TEnd else ts[0] }

  /** The priority of the operator that comes next, if there is one. */
  function Next(ts: seq<Token>): nat {
    var op := GetBinOpr(Head(ts));
    if op.Some? then Left(op.value) else 0
  }

  /** The tree that `subexpr` reads; level is the nesting of calls so far. */
  function Sub(ts: seq<Token>, limit: nat, level: nat): (r: Parsed)
    ensures r.Got? ==> |r.rest| < |ts|
    decreases |ts|, 2
  {
    if level >= LUAI_MAXCCALLS then TooDeep
    else
      var p := First(ts, level + 1);
      if p.Got? then Loop(p.t, p.rest, limit, level + 1) else p
  }

  /** An operand: a unary operator with its own operand, a parenthesised expression, or a name. */
  function First(ts: seq<Token>, level: nat): (r: Parsed)
    ensures r.Got? ==> |r.rest| < |ts|
    decreases |ts|, 1
  {
    if ts == [] then SyntaxError
    else if GetUnOpr(ts[0]).Some? then
      var p := Sub(ts[1..], UNARY_PRIORITY, level);
      if p.Got? then Got(Unary(GetUnOpr(ts[0]).value, p.t), p.rest) else p
    else if ts[0].TOpen? then
      var p := Sub(ts[1..], 0, level);
      if !p.Got? then p else if Head(p.rest) == TClose then Got(p.t, p.rest[1..]) else SyntaxError
    else if ts[0].TName? then Got(Name(ts[0].n), ts[1..])
    else SyntaxError
  }

  /** Operators above limit take what has been read as their first operand. */
  function Loop(t: Tree, ts: seq<Token>, limit: nat, level: nat): (r: Parsed)
    ensures r.Got? ==> |r.rest| <= |ts|
    decreases |ts|, 3
  {
    var op := GetBinOpr(Head(ts));
    if op.None? || Left(op.value) <= limit then Got(t, ts)
    else
      var p := Sub(ts[1..], Right(op.value), level);
      if p.Got? then Loop(Binary(op.value, t, p.t), p.rest, limit, level) else p
  }

  // ---- parsing inverts printing ----

  lemma SubIs(ts: seq<Token>, limit: nat, level: nat)
    requires level < LUAI_MAXCCALLS
    ensures var p := First(ts, level + 1);
            Sub(ts, limit, level) == if p.Got? then Loop(p.t, p.rest, limit, level + 1) else p
  {
    hide First, Loop;
  }

  lemma FirstUnary(u: UnOpr, ts: seq<Token>, level: nat)
    ensures var p := Sub(ts, UNARY_PRIORITY, level);
            First([UnToken(u)] + ts, level) == if p.Got? then Got(Unary(u, p.t), p.rest) else p
  {
    hide Sub;
    assert ([UnToken(u)] + ts)[1..] == ts;
  }

  lemma FirstParenthesis(ts: seq<Token>, level: nat, t: Tree, rest: seq<Token>)
    requires Sub(ts, 0, level) == Got(t, [TClose] + rest)
    ensures First([TOpen] + ts, level) == Got(t, rest)
  {
    hide Sub;
    assert ([TOpen] + ts)[1..] == ts && ([TClose] + rest)[1..] == rest;
  }

  lemma FirstName(n: nat, ts: seq<Token>, level: nat)
    ensures First([TName(n)] + ts, level) == Got(Name(n), ts)
  {
    assert ([TName(n)] + ts)[1..] == ts;
  }

  lemma LoopTakes(t: Tree, op: BinOpr, ts: seq<Token>, limit: nat, level: nat)
    requires Left(op) > limit
    ensures var p := Sub(ts, Right(op), level);
      Loop(t, [BinToken(op)] + ts, limit, level) == if p.Got? then Loop(Binary(op, t, p.t), p.rest, limit, level) else p
  {
    hide Sub;
    assert ([BinToken(op)] + ts)[1..] == ts;
  }

  lemma LoopStops(t: Tree, ts: seq<Token>, limit: nat, level: nat)
    requires Next(ts) <= limit
    ensures Loop(t, ts, limit, level) == Got(t, ts)
  {
  }

  lemma NextOfOp(op: BinOpr, ts: seq<Token>)
    ensures Next([BinToken(op)] + ts) == Left(op) > 0
  {
  }

  /** After a printed tree, the parser goes on as if it had just read that tree as an operand. */
  lemma {:induction false} SubPrint(t: Tree, limit: nat, after: nat, rest: seq<Token>, level: nat)
    requires Next(rest) == after && level + Nesting(t, limit, after) < LUAI_MAXCCALLS
    ensures Sub(Print(t, limit, after) + rest, limit, level) == Loop(t, rest, limit, level + 1)
    decreases t, 1
  {
    hide Sub, First, Loop, Bare, BareNesting, Fits;
    if Fits(t, limit, after) {
      SubBare(t, limit, after, rest, level);
    } else {
      var tail := [TClose] + rest;
      assert Print(t, limit, after) + rest == [TOpen] + (Bare(t, 0, 0) + tail);
      assert Next(tail) == 0;
      FitsAlone(t);
      SubBare(t, 0, 0, tail, level + 1);
      LoopStops(t, tail, 0, level + 2);
      FirstParenthesis(Bare(t, 0, 0) + tail, level + 1, t, rest);
      SubIs(Print(t, limit, after) + rest, limit, level);
    }
  }

  lemma FitsAlone(t: Tree)
    ensures Fits(t, 0, 0)
  {
  }

  lemma {:induction false} SubBare(t: Tree, limit: nat, after: nat, rest: seq<Token>, level: nat)
    requires Next(rest) == after && Fits(t, limit, after) && level + BareNesting(t, limit, after) < LUAI_MAXCCALLS
    ensures Sub(Bare(t, limit, after) + rest, limit, level) == Loop(t, rest, limit, level + 1)
    decreases t, 0, 1
  {
    hide Sub, First, Loop, Print, Nesting;
    SubIs(Bare(t, limit, after) + rest, limit, level);
    match t
    case Name(n) =>
      FirstName(n, rest, level + 1);
    case Unary(u, e) =>
      assert Bare(t, limit, after) + rest == [UnToken(u)] + (Print(e, UNARY_PRIORITY, after) + rest);
      FirstUnary(u, Print(e, UNARY_PRIORITY, after) + rest, level + 1);
      SubPrint(e, UNARY_PRIORITY, after, rest, level + 1);
      LoopStops(e, rest, UNARY_PRIORITY, level + 2);
    case Binary(op, l, r) =>
      SubBinary(op, l, r, limit, rest, level);
      LoopStops(r, rest, Right(op), level + 2);
  }

  /** Reading a binary tree goes on with what its operator makes of the second operand. */
  lemma {:induction false} SubBinary(op: BinOpr, l: Tree, r: Tree, limit: nat, rest: seq<Token>, level: nat)
    requires Left(op) > limit && level + BareNesting(Binary(op, l, r), limit, Next(rest)) < LUAI_MAXCCALLS
    ensures var p := Loop(r, rest, Right(op), level + 2);
      Sub(Bare(Binary(op, l, r), limit, Next(rest)) + rest, limit, level) == if p.Got? then
          Loop(Binary(op, l, p.t), p.rest, limit, level + 1) else p
    decreases Binary(op, l, r), 0, 0
  {
    hide Sub, First, Loop, Print, Nesting;
    var more := Print(r, Right(op), Next(rest)) + rest;
    var tail := [BinToken(op)] + more;
    assert Bare(Binary(op, l, r), limit, Next(rest)) + rest == Print(l, limit, Left(op)) + tail;
    NextOfOp(op, more);
    SubPrint(l, limit, Left(op), tail, level);
    LoopTakes(l, op, more, limit, level + 1);
    SubPrint(r, Right(op), Next(rest), rest, level + 1);
  }

  /** Reading a printed tree gives the tree, and stops before the first operator that is not above the limit. */
  lemma ParseInvertsPrint(t: Tree, limit: nat, rest: seq<Token>, level: nat)
    requires Next(rest) <= limit && level + Nesting(t, limit, Next(rest)) < LUAI_MAXCCALLS
    ensures Sub(Print(t, limit, Next(rest)) + rest, limit, level) == Got(t, rest)
  {
    SubPrint(t, limit, Next(rest), rest, level);
  }

  /** The left operands of a tree, and the tree itself. */
  predicate OnLeft(x: Tree, t: Tree) { x == t || (t.Binary? && OnLeft(x, t.l)) }

  function LeftDepth(t: Tree): nat { if t.Binary? then 1 + LeftDepth(t.l) else 0 }

  function Size(t: Tree): nat {
    match t
    case Name(_) => 1
    case Unary(_, e) => 1 + Size(e)
    case Binary(_, l, r) => 1 + Size(l) + Size(r)
  }

  lemma {:induction false} LeftUnique(x: Tree, y: Tree, t: Tree)
    requires OnLeft(x, t) && OnLeft(y, t) && LeftDepth(x) == LeftDepth(y)
    ensures x == y
  {
    if x != t && y != t {
      LeftUnique(x, y, t.l);
    } else if x != t {
      LeftShallow(x, t.l);
    } else if y != t {
      LeftShallow(y, t.l);
    }
  }

  lemma {:induction false} LeftShallow(x: Tree, t: Tree)
    requires OnLeft(x, t)
    ensures LeftDepth(x) <= LeftDepth(t) && Size(x) <= Size(t)
    decreases t
  {
    if x != t { LeftShallow(x, t.l); }
  }

  /** What the loop starts with ends up at the left. */
  lemma {:induction false} LoopKeeps(t: Tree, ts: seq<Token>, limit: nat, level: nat)
    ensures var p := Loop(t, ts, limit, level); p.Got? ==> OnLeft(t, p.t) && (Next(ts) > limit ==> p.t != t)
    decreases |ts|
  {
    var op := GetBinOpr(Head(ts));
    if op.Some? && Left(op.value) > limit {
      var p := Sub(ts[1..], Right(op.value), level);
      if p.Got? {
        LoopKeeps(Binary(op.value, t, p.t), p.rest, limit, level);
        var q := Loop(Binary(op.value, t, p.t), p.rest, limit, level);
        if q.Got? {
          OnLeftTrans(op.value, t, p.t, q.t);
          LeftShallow(Binary(op.value, t, p.t), q.t);
        }
      }
    }
  }

  lemma {:induction false} OnLeftTrans(op: BinOpr, l: Tree, r: Tree, t: Tree)
    requires OnLeft(Binary(op, l, r), t)
    ensures OnLeft(l, t)
    decreases t
  {
    if Binary(op, l, r) != t { OnLeftTrans(op, l, r, t.l); }
  }

  /** Parentheses are printed only where the tree would not be read as it is meant without them, whatever comes next. */
  lemma ParenthesesAreNeeded(t: Tree, limit: nat, rest: seq<Token>, level: nat)
    requires !Fits(t, limit, Next(rest)) && level + BareNesting(t, limit, Next(rest)) < LUAI_MAXCCALLS
    requires Loop(t, rest, limit, level + 1).Got?
    ensures Sub(Bare(t, limit, Next(rest)) + rest, limit, level) != Loop(t, rest, limit, level + 1)
  {
    hide Sub, First, Loop, Print, Nesting, OnLeft;
    var after := Next(rest);
    var meant := Loop(t, rest, limit, level + 1);
    LoopKeeps(t, rest, limit, level + 1);
    LeftShallow(t, meant.t);
    match t
    case Unary(u, e) =>
      SubIs(Bare(t, limit, after) + rest, limit, level);
      assert Bare(t, limit, after) + rest == [UnToken(u)] + (Print(e, UNARY_PRIORITY, after) + rest);
      FirstUnary(u, Print(e, UNARY_PRIORITY, after) + rest, level + 1);
      SubPrint(e, UNARY_PRIORITY, after, rest, level + 1);
      var p := Loop(e, rest, UNARY_PRIORITY, level + 2);
      LoopKeeps(e, rest, UNARY_PRIORITY, level + 2);
      if p.Got? { Misread(t, Unary(u, p.t), p.rest, limit, level + 1, meant.t); }
    case Binary(op, l, r) =>
      if Left(op) > limit {
        SubBinary(op, l, r, limit, rest, level);
        var p := Loop(r, rest, Right(op), level + 2);
        LoopKeeps(r, rest, Right(op), level + 2);
        if p.Got? { Misread(t, Binary(op, l, p.t), p.rest, limit, level + 1, meant.t); }
      } else {
        var tail := [BinToken(op)] + (Print(r, Right(op), after) + rest);
        assert Bare(t, limit, after) + rest == Print(l, limit, Left(op)) + tail;
        NextOfOp(op, Print(r, Right(op), after) + rest);
        SubPrint(l, limit, Left(op), tail, level);
        LoopStops(l, tail, limit, level + 1);
      }
  }

  /** Another operand in the place of t cannot end up as what was meant. */
  lemma Misread(t: Tree, x: Tree, rest: seq<Token>, limit: nat, level: nat, meant: Tree)
    requires t != x && LeftDepth(t) == LeftDepth(x) && OnLeft(t, meant)
    ensures var q := Loop(x, rest, limit, level); q.Got? ==> q.t != meant
  {
    LoopKeeps(x, rest, limit, level);
    var q := Loop(x, rest, limit, level);
    if q.Got? && q.t == meant { LeftUnique(t, x, meant); }
  }

  // ---- the parser ----

  class LexState {
    const tokens: seq<Token>
    var pos: nat
    var nCcalls: nat
    /** The calls of the code generator so far. */
    var calls: seq<Call>

    constructor (tokens: seq<Token>)
      ensures this.tokens == tokens && pos == 0 && nCcalls == 0 && calls == []
    {
      this.tokens, pos, nCcalls, calls := tokens, 0, 0, [];
    }

    ghost function Rest(): seq<Token>
      reads this
      requires pos <= |tokens|
    {
      tokens[pos..]
    }

    function Current(): Token
      reads this
    {
      if pos < |tokens| then tokens[pos] else TEnd
    }

    /** `luaX_next`. */
    method Advance()
      requires pos < |tokens|
      modifies this`pos
      ensures pos == old(pos) + 1
    {
      pos := pos + 1;
    }

    /** What has been read, and the calls for it. */
    ghost predicate Read(p: Parsed, before: seq<Call>)
      reads this
    {
      p.Got? && pos <= |tokens| && Rest() == p.rest && calls == before + Calls(p.t)
    }

    /** `subexpr`. */
    method Subexpr(limit: nat) returns (ok: bool, op: Option<BinOpr>)
      requires pos <= |tokens|
      modifies this
      ensures var p := Sub(old(Rest()), limit, old(nCcalls));
        ok == p.Got? && (ok ==> Read(p, old(calls)) && nCcalls == old(nCcalls) && op == GetBinOpr(Current()))
      decreases |tokens| - pos, 2
    {
      hide Sub, First, Loop, Calls;
      op := None;
      if nCcalls < LUAI_MAXCCALLS { SubIs(Rest(), limit, nCcalls); } else { SubTooDeep(Rest(), limit, nCcalls); }
      nCcalls := nCcalls + 1;
      if nCcalls > LUAI_MAXCCALLS {
        return false, op;
      }
      ghost var first := First(Rest(), nCcalls);
      ok := Operand();
      if !ok {
        return;
      }
      ghost var t := first.t;
      op := GetBinOpr(Current());
      while op.Some? && Left(op.value) > limit
        invariant old(pos) < pos <= |tokens| && calls == old(calls) + Calls(t) && nCcalls == old(nCcalls) + 1
        invariant op == GetBinOpr(Current())
        invariant Loop(t, Rest(), limit, nCcalls) == Loop(first.t, first.rest, limit, nCcalls)
        decreases |tokens| - pos
      {
        LoopStep(t, Rest(), limit, nCcalls);
        Advance();
        calls := calls + [Infix(op.value)];
        ghost var p := Sub(Rest(), Right(op.value), nCcalls);
        var next;
        ok, next := Subexpr(Right(op.value));
        if !ok {
          return;
        }
        calls := calls + [Posfix(op.value)];
        BinaryCalls(old(calls), op.value, t, p.t);
        t := Binary(op.value, t, p.t);
        op := next;
      }
      LoopStops(t, Rest(), limit, nCcalls);
      nCcalls := nCcalls - 1;
      return true, op;
    }

    /** The operand of `subexpr`, with `simpleexp` and `primaryexp`. */
    method Operand() returns (ok: bool)
      requires pos <= |tokens|
      modifies this
      ensures var p := First(old(Rest()), old(nCcalls));
              ok == p.Got? && (ok ==> Read(p, old(calls)) && nCcalls == old(nCcalls) && pos > old(pos))
      decreases |tokens| - pos, 1
    {
      var u := GetUnOpr(Current());
      if u.Some? {
        Advance();
        var next;
        ok, next := Subexpr(UNARY_PRIORITY);
        if ok {
          calls := calls + [Prefix(u.value)];
        }
        return ok;
      } else if Current() == TOpen {
        Advance();
        var next;
        ok, next := Subexpr(0);
        if !ok || Current() != TClose {
          return false;
        }
        Advance();
        return true;
      } else if Current().TName? {
        calls := calls + [Simple(Current().n)];
        Advance();
        return true;
      }
      return false;
    }
  }

  lemma SubTooDeep(ts: seq<Token>, limit: nat, level: nat)
    requires level >= LUAI_MAXCCALLS
    ensures Sub(ts, limit, level) == TooDeep
  {
  }

  lemma LoopStep(t: Tree, ts: seq<Token>, limit: nat, level: nat)
    requires GetBinOpr(Head(ts)).Some? && Left(GetBinOpr(Head(ts)).value) > limit
    ensures ts != [] && var op := GetBinOpr(Head(ts)).value;
      var p := Sub(ts[1..], Right(op), level);
      Loop(t, ts, limit, level) == if p.Got? then Loop(Binary(op, t, p.t), p.rest, limit, level) else p
  {
    hide Sub;
  }

  lemma BinaryCalls(before: seq<Call>, op: BinOpr, l: Tree, r: Tree)
    ensures before + Calls(l) + [Infix(op)] + Calls(r) + [Posfix(op)] == before + Calls(Binary(op, l, r))
  {
  }
}
