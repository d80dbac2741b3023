/** Lua's code generator for expressions: delayed jumps in lists that are threaded through the code array. */
module LuaCode {
  import opened CodeMachine
  import opened CodeSpec
  import opened CodeProof
  import opened CodeStat

  const MAXARG_sBx: int := 131071
  const MAXREGS: nat := 255
  const MAXINDEXRK: nat := 255

  /** What may be raised: a jump over too much code, or too many registers. */
  datatype Outcome<T> = Ok(value: T) | TooComplex {
    predicate IsFailure() { TooComplex? }
    function PropagateFailure<U>(): Outcome<U>
      requires TooComplex?
    {
      TooComplex
    }
    function Extract(): T
      requires Ok?
    {
      value
    }
  }

  /** How an emitter ends: with at most k more instructions. It gives up only if the code might become too long for
      the jump field, or if this register is beyond the last one. */
  ghost predicate Spends<T>(o: Outcome<T>, c0: seq<Ins>, c: seq<Ins>, k: nat, reg: nat) {
    match o
    case Ok(_) => |c| <= |c0| + k
    case TooComplex => |c0| + k > MAXARG_sBx || reg >= MAXREGS
  }

  class FuncState {
    var code: seq<Ins>
    var lasttarget: nat
    var jpc: int
    var freereg: nat
    var nactvar: nat
    var ks: seq<Value>
    ghost var P: set<nat>
    ghost var H: set<nat>

    ghost function S(): Snap
      reads this
    {
      Snap(code, P, H, ks)
    }

    ghost predicate Valid()
      reads this
    {
      Wf(S()) && Chain(code, jpc, H) && nactvar <= freereg < MAXREGS && Aimed(code, P, H, lasttarget)
    }

    /** `open_func`: an empty function without parameters. */
    constructor ()
      ensures Ready() && P == {} && code == [] && nactvar == 0
    {
      code, lasttarget, jpc, freereg, nactvar, ks := [], 0, NO_JUMP, 0, 0, [];
      P, H := {}, {};
    }

    // ---- jump lists ----

    /** `fixjump`. */
    method FixJump(pc: nat, dest: int) returns (o: Outcome<()>)
      requires pc < |code| && code[pc].Jmp?
      modifies this`code
      ensures o.Ok? ==> code == old(code)[pc := Jmp(dest - (pc + 1))]
      ensures o.Ok? <==> 0 - MAXARG_sBx <= dest - (pc + 1) <= MAXARG_sBx
    {
      var offset := dest - (pc + 1);
      if offset > MAXARG_sBx || offset < 0 - MAXARG_sBx {
        return TooComplex;
      }
      code := code[pc := Jmp(offset)];
      return Ok(());
    }

    /** `luaK_concat`: list l2 is linked behind list l1. */
    method Concat(l1: int, l2: int, ghost S1: set<nat>, ghost S2: set<nat>) returns (o: Outcome<int>)
      requires Chain(code, l1, S1) && Chain(code, l2, S2) && S1 !! S2
      modifies this`code
      ensures o.Ok? ==> Chain(code, o.value, S1 + S2) && OnlyLinks(old(code), code, S1)
      ensures o.Ok? ==> o.value == (if l1 == NO_JUMP then l2 else l1)
      ensures o.Ok? ==> (l1 == NO_JUMP || l2 == NO_JUMP ==> code == old(code))
      ensures Spends(o, old(code), code, 0, 0)
    {
      hide OnlyLinks;
      ChainIn(code, l1, S1);
      LinksSelf(code, S1);
      if l2 == NO_JUMP {
        assert S1 + S2 == S1;
        return Ok(l1);
      } else if l1 == NO_JUMP {
        assert S1 + S2 == S2;
        return Ok(l2);
      }
      var list := l1;
      ghost var rest := S1;
      while GetJump(code, list) != NO_JUMP
        invariant list >= 0 && Chain(code, list, rest) && rest <= S1 && list != NO_JUMP && list < |code|
        invariant code[list].Jmp?
        invariant forall last :: LastOf(code, list, rest, last) ==> LastOf(code, l1, S1, last)
        decreases |rest|
      {
        rest := rest - {list};
        list := GetJump(code, list);
      }
      assert LastOf(code, list, rest, list);
      ChainJoin(code, l1, S1, l2, S2, list);
      LinksOne(code, S1, list, l2 - (list + 1));
      var _ :- FixJump(list, l2);
      return Ok(l1);
    }

    /** `patchtestreg`: a TESTSET before a jump gets its register, or becomes a TEST. */
    method PatchTestReg(node: nat, reg: Reg) returns (done: bool)
      requires node < |code| && code[node].Jmp?
      modifies this`code
      ensures done == !NoValue(old(code), node)
      ensures !done ==> code == old(code)
      ensures done ==> code == old(code)[node - 1 := TestFor(old(code)[node - 1], reg)]
    {
      var at := if node >= 1 && IsTest(code[node - 1]) then node - 1 else node;
      var i := code[at];
      if !i.TestSet? {
        return false;
      }
      if reg != NO_REG && reg != i.b {
        code := code[at := TestSet(reg, i.b, i.c)];
      } else {
        code := code[at := Test(i.b, i.c)];
      }
      return true;
    }

    /** `removevalues`. */
    method RemoveValues(head: int, ghost L: set<nat>)
      requires Chain(code, head, L) && Jumps(code, L)
      modifies this`code
      ensures Removed(old(code), code, L)
      ensures |code| == |old(code)|
    {
      var list := head;
      ghost var rest := L;
      ghost var c := code;
      RemovedSelf(c);
      assert L - rest == {};
      while list != NO_JUMP
        invariant Chain(code, list, rest) && rest <= L && Removed(c, code, L - rest) && Jumps(code, L)
        decreases |rest|
      {
        ghost var c1 := code;
        var _ := PatchTestReg(list, NO_REG);
        RemovedOne(c, c1, code, L, rest, list);
        rest := rest - {list};
        RemovedChain(c1, code, list, GetJump(c1, list), rest, L);
        list := GetJump(code, list);
      }
      assert L - {} == L;
    }

    /** `need_value`: whether some jump of the list takes no value. */
    method NeedValue(head: int, ghost L: set<nat>) returns (b: bool)
      requires Chain(code, head, L)
      ensures b <==> exists j: nat :: j in L && NoValue(code, j)
    {
      var list := head;
      ghost var rest := L;
      while list != NO_JUMP
        invariant Chain(code, list, rest) && rest <= L && forall j: nat :: j in L && j !in rest ==> !NoValue(code, j)
        decreases |rest|
      {
        var at := if list >= 1 && IsTest(code[list - 1]) then list - 1 else list;
        if !code[at].TestSet? {
          assert NoValue(code, list);
          return true;
        }
        rest := rest - {list};
        list := GetJump(code, list);
      }
      return false;
    }

    /** `patchlistaux`: jumps that take a value go to vtarget with it, the others to dtarget. */
    method PatchListAux(head: int, vtarget: int, reg: Reg, dtarget: int, ghost L: set<nat>) returns (o: Outcome<()>)
      requires Chain(code, head, L) && Jumps(code, L)
      modifies this`code
      ensures o.Ok? ==> ListPatched(old(code), code, L, reg, vtarget, dtarget)
      ensures o.Ok? ==> |code| == |old(code)|
      ensures -1 <= vtarget <= |old(code)| && -1 <= dtarget <= |old(code)| ==> Spends(o, old(code), code, 1, 0)
    {
      hide ListPatchedAt;
      var list := head;
      ghost var rest := L;
      ghost var c := code;
      ListPatchedSelf(c, reg, vtarget, dtarget);
      assert L - rest == {};
      while list != NO_JUMP
        invariant Chain(code, list, rest) && rest <= L && ListPatched(c, code, L - rest, reg, vtarget, dtarget)
        invariant Jumps(code, L)
        decreases |rest|
      {
        ghost var c1 := code;
        var next := GetJump(code, list);
        var done := PatchTestReg(list, reg);
        ghost var c2 := code;
        if done {
          var _ :- FixJump(list, vtarget);
        } else {
          var _ :- FixJump(list, dtarget);
        }
        PatchedOne(c, c1, c2, code, L, rest, list, reg, vtarget, dtarget, done);
        rest := rest - {list};
        PatchedChain(c1, code, list, next, rest, L);
        list := next;
      }
      assert L - {} == L;
      return Ok(());
    }

    // ---- emitting ----

    /** `dischargejpc`. */
    method DischargeJpc() returns (o: Outcome<()>)
      requires Wf(S()) && Chain(code, jpc, H)
      modifies this
      ensures o.Ok? ==> S() == Discharge(old(S())) && jpc == NO_JUMP
      ensures o.Ok? ==> Same3(old(freereg), old(nactvar), old(lasttarget))
      ensures Spends(o, old(code), code, 1, 0) && (o.Ok? ==> |code| == |old(code)|)
    {
      ghost var s := S();
      var _ :- PatchListAux(jpc, |code|, NO_REG, |code|, H);
      jpc := NO_JUMP;
      P, H := P - H, {};
      assert code == DischargedCode(s.code, s.H) by {
        forall i | 0 <= i < |code| ensures code[i] == DischargedCode(s.code, s.H)[i] {
          assert ListPatchedAt(s.code, code, s.H, NO_REG, |s.code|, |s.code|, i);
          assert DischargedAt(s.code, DischargedCode(s.code, s.H), s.H, i);
        }
      }
      return Ok(());
    }

    predicate Same3(f: nat, n: nat, l: nat)
      reads this
    {
      freereg == f && nactvar == n && lasttarget == l
    }

    /** `luaK_code`. */
    method Code(i: Ins) returns (o: Outcome<nat>)
      requires Wf(S()) && Chain(code, jpc, H)
      modifies this
      ensures o.Ok? ==> S() == Emitted(old(S()), i) && jpc == NO_JUMP && o.value == |old(code)|
      ensures o.Ok? ==> Same3(old(freereg), old(nactvar), old(lasttarget))
      ensures Spends(o, old(code), code, 1, 0)
    {
      var _ :- DischargeJpc();
      code := code + [i];
      return Ok(|code| - 1);
    }

    /** `luaK_jump`: jumps that would lead here are kept on hold, linked behind the new one. */
    method Jump() returns (o: Outcome<nat>)
      requires Jumps(code, P) && H <= P && Chain(code, jpc, H)
      modifies this
      ensures o.Ok? ==> o.value == |old(code)| && jpc == NO_JUMP && H == {} && P == old(P) + {o.value}
      ensures o.Ok? ==> Same3(old(freereg), old(nactvar), old(lasttarget))
      ensures o.Ok? ==> |code| == |old(code)| + 1 && code[..|old(code)|] == old(code) && code[o.value].Jmp?
      ensures o.Ok? ==> ks == old(ks)
      ensures o.Ok? ==> Chain(code, o.value, old(H) + {o.value}) && (old(H) == {} ==> code[o.value] == Jmp(NO_JUMP))
      ensures Spends(o, old(code), code, 1, 0)
    {
      ghost var h, c := H, code;
      var pending := jpc;
      var j := |code|;
      jpc := NO_JUMP;
      code := code + [Jmp(NO_JUMP)];
      P, H := P + {j}, {};
      ChainIn(c, pending, h);
      ChainFrame(c, code, pending, h);
      assert {j} - {j} == {};
      assert Chain(code, NO_JUMP, {});
      assert Chain(code, j, {j});
      var k :- Concat(j, pending, {j}, h);
      HeadStays(code, j, k, {j} + h);
      assert {j} + h == h + {j};
      return Ok(j);
    }

    /** `condjump`. */
    method CondJump(i: Ins) returns (o: Outcome<nat>)
      requires Wf(S()) && Chain(code, jpc, H) && IsTest(i)
      modifies this
      ensures o.Ok? ==> S() == Branched(old(S()), i) && jpc == NO_JUMP && o.value == |old(code)| + 1
      ensures o.Ok? ==> Same3(old(freereg), old(nactvar), old(lasttarget))
      ensures o.Ok? ==> Chain(code, o.value, {o.value})
      ensures Spends(o, old(code), code, 2, 0)
    {
      ghost var s := S();
      var _ :- Code(i);
      EmittedJumps(s, i);
      ghost var c := code;
      var j :- Jump();
      assert code == c + [Jmp(NO_JUMP)];
      assert {} + {j} == {j};
      return Ok(j);
    }

    /** `luaK_getlabel`. */
    method GetLabel() returns (pc: nat)
      modifies this`lasttarget
      ensures pc == |code| && lasttarget == pc
    {
      lasttarget := |code|;
      return |code|;
    }

    /** `luaK_patchtohere`. */
    method PatchToHere(list: int, ghost L: set<nat>) returns (o: Outcome<()>)
      requires Wf(S()) && Chain(code, jpc, H) && Chain(code, list, L) && L !! H && L <= P
      modifies this
      ensures o.Ok? ==> H == old(H) + L && P == old(P) && ks == old(ks) && Chain(code, jpc, H)
      ensures o.Ok? ==> OnlyLinks(old(code), code, old(H))
      ensures o.Ok? ==> freereg == old(freereg) && nactvar == old(nactvar) && lasttarget == |old(code)|
      ensures Spends(o, old(code), code, 0, 0)
    {
      var _ := GetLabel();
      var l :- Concat(jpc, list, H, L);
      jpc := l;
      H := H + L;
      return Ok(());
    }

    // ---- registers and constants ----

    /** `luaK_reserveregs`. */
    method ReserveRegs(n: nat) returns (o: Outcome<()>)
      modifies this`freereg
      ensures o.Ok? ==> freereg == old(freereg) + n && freereg < MAXREGS
      ensures o.Ok? <==> old(freereg) + n < MAXREGS
    {
      if freereg + n >= MAXREGS {
        return TooComplex;
      }
      freereg := freereg + n;
      return Ok(());
    }

    /** `freereg`. */
    method FreeReg(reg: Reg)
      requires reg >= nactvar ==> freereg > 0 && reg == freereg - 1
      modifies this`freereg
      ensures freereg == if reg >= nactvar then old(freereg) - 1 else old(freereg)
    {
      if reg >= nactvar {
        freereg := freereg - 1;
      }
    }

    /** `freeexp`. */
    method FreeExp(d: Exp)
      requires d.k.VNonReloc? && d.k.r >= nactvar ==> freereg > 0 && d.k.r == freereg - 1
      modifies this`freereg
      ensures freereg == if d.k.VNonReloc? && d.k.r >= nactvar then old(freereg) - 1 else old(freereg)
    {
      if d.k.VNonReloc? {
        FreeReg(d.k.r);
      }
    }

    /** `addk`: a constant is used again if it is there. (The scanner's table finds it in one step.) */
    method AddK(v: Value) returns (k: nat)
      modifies this`ks
      ensures old(ks) <= ks && k < |ks| && ks[k] == v
    {
      k := 0;
      while k < |ks| && ks[k] != v
        invariant k <= |ks| && ks == old(ks)
      {
        k := k + 1;
      }
      if k == |ks| {
        ks := ks + [v];
      }
    }

    /** The register of an expression, if it has one, is a local or the next free one. An instruction whose register is
        still open is the last one, and no jump goes behind it. */
    predicate InRegs(k: Kind, base: nat)
      reads this
    {
      nactvar <= base && (k.VReloc? ==> lasttarget <= k.p) &&
      if k.VNonReloc? then (k.r < nactvar && freereg == base) || (k.r == base && freereg == base + 1)
      else freereg == base && (k.VLocal? ==> k.r < nactvar)
    }

    // ---- values ----

    /** `luaK_dischargevars`. */
    method DischargeVars(d: Exp, ghost g: Goal, ghost T: set<nat>, ghost F: set<nat>) returns (o: Outcome<Exp>)
      requires Valid() && Has(g, S(), d, T, F)
      modifies this
      ensures o.Ok? ==> Valid() && Has(g, S(), o.value, T, F) && freereg == old(freereg) && nactvar == old(nactvar)
      ensures o.Ok? ==> ks == old(ks)
      ensures o.Ok? ==> o.value.t == d.t && o.value.f == d.f && !o.value.k.VUpval? && !o.value.k.VLocal?
      ensures o.Ok? ==> |code| > 0 || !d.k.VUpval?
      ensures o.Ok? ==>
                o.value.k == (if d.k.VLocal? then VNonReloc(d.k.r) else if d.k.VUpval? then VReloc(|code| - 1) else d.k)
      ensures !d.k.VUpval? ==> o.Ok? && S() == old(S())
      ensures o.Ok? ==> lasttarget == old(lasttarget) && (d.k.VUpval? ==> lasttarget < |code|)
      ensures Spends(o, old(code), code, 1, 0)
    {
      match d.k {
        case VLocal(r) =>
          Renamed(g, S(), d, VNonReloc(r), T, F, g.w);
          return Ok(Exp(VNonReloc(r), d.t, d.f));
        case VUpval(u) =>
          ComputesReloc(g.env, 0, g.s0, S(), d, T, F, g.w, g.e, GetUpval(0, u));
          AimedEmitted(S(), GetUpval(0, u), lasttarget);
          var pc :- Code(GetUpval(0, u));
          NoChain(code, jpc);
          return Ok(Exp(VReloc(pc), d.t, d.f));
        case _ =>
          return Ok(d);
      }
    }

    /** The value goes into a register by one more instruction. */
    method CodePut(i: Ins, d: Exp, ghost g: Goal, ghost T: set<nat>, ghost F: set<nat>) returns (o: Outcome<Exp>)
      requires Valid() && Has(g, S(), d, T, F) && !Delayed(d.k) && HasResult(i) && Skip(i) == 0
      requires i.a >= g.w.base || i.a == g.w.target
      requires ks <= g.env.ks ==> forall r: Regs :: Result(g.env, i, r) == KindValue(g.env, code, d.k, r)
      modifies this
      ensures o.Ok? ==> Valid() && Has(g, S(), o.value, T, F) && freereg == old(freereg) && nactvar == old(nactvar)
      ensures o.Ok? ==> o.value == d.(k := VNonReloc(i.a))
      ensures Spends(o, old(code), code, 1, 0)
    {
      ComputesPut(g.env, 0, g.s0, S(), d, T, F, g.w, g.e, i);
      AimedEmitted(S(), i, lasttarget);
      var _ :- Code(i);
      NoChain(code, jpc);
      return Ok(d.(k := VNonReloc(i.a)));
    }

    /** `luaK_nil`: n registers from the given one are set to nil, by the instruction before if it is a LOADNIL next to
        them and no jump comes here. */
    method CodeNil(first: Reg, n: nat, ghost env: Env) returns (o: Outcome<()>)
      requires Valid() && n >= 1
      modifies this
      ensures o.Ok? ==> Valid() && NilCoded(env, old(S()), S(), first, n - 1)
      ensures o.Ok? ==> Same3(old(freereg), old(nactvar), old(lasttarget)) && lasttarget < |code|
      ensures Spends(o, old(code), code, 1, 0)
    {
      hide NilCoded, Wf, Chain, Aimed;
      var from, l := first, first + n - 1;
      if |code| > lasttarget {
        var previous := code[|code| - 1];
        if previous.LoadNil? {
          var pfrom := previous.a;
          var pl := pfrom + previous.n;
          if pfrom <= from <= pl + 1 || from <= pfrom <= l + 1 {
            if pfrom < from {
              from := pfrom;
            }
            if pl > l {
              l := pl;
            }
            NilMerged(env, S(), lasttarget, first, n - 1, LoadNil(from, l - from));
            NegatedJpc(S(), S().(code := code[|code| - 1 := LoadNil(from, l - from)]), jpc);
            code := code[|code| - 1 := LoadNil(from, l - from)];
            return Ok(());
          }
        }
      }
      AimedBelow(code, P, H, lasttarget);
      NilEmitted(env, S(), from, n - 1);
      AimedEmitted(S(), LoadNil(from, n - 1), lasttarget);
      EmitKeeps(S(), LoadNil(from, n - 1), {});
      var _ :- Code(LoadNil(from, n - 1));
      NoChain(code, jpc);
      return Ok(());
    }

    /** `discharge2reg`. */
    method Discharge2Reg(d0: Exp, reg: Reg, ghost g: Goal, ghost T: set<nat>, ghost F: set<nat>)
      returns (o: Outcome<Exp>)
      requires Valid() && Has(g, S(), d0, T, F) && (reg >= g.w.base || reg == g.w.target)
      modifies this
      ensures o.Ok? ==> Valid() && Has(g, S(), o.value, T, F) && freereg == old(freereg) && nactvar == old(nactvar)
      ensures o.Ok? ==> o.value.t == d0.t && o.value.f == d0.f
      ensures o.Ok? ==> o.value.k == (if d0.k.VJmp? then d0.k else VNonReloc(reg))
      ensures Spends(o, old(code), code, 2, 0)
    {
      hide Has, Aimed;
      var d :- DischargeVars(d0, g, T, F);
      match d.k {
        case VNil =>
          ghost var s := S();
          var _ :- CodeNil(reg, 1, g.env);
          NilHas(g, s, d, T, F, S(), reg);
          return Ok(Exp(VNonReloc(reg), d.t, d.f));
        case VFalse =>
          var r :- CodePut(LoadBool(reg, false, false), d, g, T, F);
          return Ok(r);
        case VTrue =>
          var r :- CodePut(LoadBool(reg, true, false), d, g, T, F);
          return Ok(r);
        case VK(k) =>
          var r :- CodePut(LoadK(reg, k), d, g, T, F);
          return Ok(r);
        case VNum(n) =>
          ghost var s := S();
          var k := AddK(Num(n));
          NewConstant(g, s, d, VK(k), T, F, ks);
          var r :- CodePut(LoadK(reg, k), Exp(VK(k), d.t, d.f), g, T, F);
          return Ok(r);
        case VReloc(p) =>
          FillFacts(g, S(), jpc, d, T, F, reg);
          AimedSet(code, P, H, lasttarget, p, WithA(code[p], reg));
          code := code[p := WithA(code[p], reg)];
          return Ok(Exp(VNonReloc(reg), d.t, d.f));
        case VNonReloc(r) =>
          if reg == r {
            return Ok(d);
          }
          var x :- CodePut(Move(reg, r), d, g, T, F);
          return Ok(x);
        case VJmp(_) =>
          return Ok(d);
      }
    }

    /** `discharge2anyreg`. */
    method Discharge2AnyReg(d: Exp, ghost g: Goal, ghost T: set<nat>, ghost F: set<nat>) returns (o: Outcome<Exp>)
      requires Valid() && Has(g, S(), d, T, F) && InRegs(d.k, g.w.base) && !d.k.VJmp? && !d.k.VLocal?
      requires g.w.target == -1
      modifies this
      ensures o.Ok? ==> Valid() && Has(g, S(), o.value, T, F) && InRegs(o.value.k, g.w.base) && nactvar == old(nactvar)
      ensures o.Ok? ==> o.value.k.VNonReloc? && o.value.t == d.t && o.value.f == d.f
      ensures Spends(o, old(code), code, 2, g.w.base + 1)
    {
      if d.k.VNonReloc? {
        return Ok(d);
      }
      var _ :- ReserveRegs(1);
      var r :- Discharge2Reg(d, freereg - 1, g, T, F);
      return Ok(r);
    }

    // ---- conditions ----

    /** `negatecondition`. */
    method NegateCondition(p: nat)
      requires 1 <= p < |code| && code[p - 1].Compare?
      modifies this`code
      ensures var i := old(code)[p - 1]; code == old(code)[p - 1 := i.(accept := !i.accept)]
    {
      var i := code[p - 1];
      code := code[p - 1 := i.(accept := !i.accept)];
    }

    /** `jumponcond`: jumps if the value is cond. Instead of testing a `not`, that is taken back and its operand
        tested. */
    method JumpOnCond(d: Exp, cond: bool, ghost g: Goal, ghost T: set<nat>, ghost F: set<nat>) returns (o: Outcome<nat>)
      requires Valid() && Has(g, S(), d, T, F) && InRegs(d.k, g.w.base) && !d.k.VJmp? && !d.k.VLocal?
      requires g.w.target == -1
      modifies this
      ensures o.Ok? ==> var j := o.value;
        Valid() && Branches(g, S(), if cond then T + {j} else T, if cond then F else F + {j}, !cond) &&
        Chain(code, d.t, T) && Chain(code, d.f, F) && Chain(code, j, {j}) && j !in T && j !in F
      ensures o.Ok? ==> freereg == g.w.base && nactvar == old(nactvar) && H == {}
      ensures Spends(o, old(code), code, 4, g.w.base + 1)
    {
      hide Has, Branches, Aimed, Chain, Discharge, Wf;
      if d.k.VReloc? {
        NotFacts(g, S(), d, T, F);
        var ie := code[d.k.p];
        if ie.Not? {
          ghost var s := S();
          AimedPop(code, P, d.k.p, lasttarget);
          code := code[..d.k.p];
          PopFacts(g, s, jpc, d, T, F);
          AimedBranched(S(), Test(ie.b, !cond), lasttarget);
          BranchedWf(S(), Test(ie.b, !cond));
          var j :- CondJump(Test(ie.b, !cond));
          NotTested(g, s, d, T, F, cond, S());
          return Ok(j);
        }
      }
      var d1 :- Discharge2AnyReg(d, g, T, F);
      FreeExp(d1);
      ghost var s := S();
      BranchedWf(s, TestSet(NO_REG, d1.k.r, cond));
      AimedBranched(s, TestSet(NO_REG, d1.k.r, cond), lasttarget);
      var j :- CondJump(TestSet(NO_REG, d1.k.r, cond));
      ValueTested(g, s, d1, T, F, cond);
      return Ok(j);
    }

    /** The test of `luaK_goiftrue` (pass) and `luaK_goiffalse` (not pass): a comparison already jumps if it is true,
        and constants need no jump. */
    method JumpUnless(d: Exp, pass: bool, ghost g: Goal, ghost T: set<nat>, ghost F: set<nat>)
      returns (o: Outcome<int>, ghost J: set<nat>)
      requires Valid() && Has(g, S(), d, T, F) && InRegs(d.k, g.w.base) && g.w.target == -1 && !d.k.VLocal?
      requires d.k.VK? ==> d.k.k < |ks| && Truthy(ks[d.k.k])
      modifies this
      ensures o.Ok? ==> Valid() && freereg == g.w.base && nactvar == old(nactvar) && Chain(code, o.value, J)
      ensures o.Ok? ==> J !! T + F
      ensures o.Ok? ==> Branches(g, S(), if pass then T else T + J, if pass then F + J else F, pass)
      ensures o.Ok? ==> Chain(code, d.t, T) && Chain(code, d.f, F)
      ensures Spends(o, old(code), code, 4, g.w.base + 1)
    {
      hide Has, Branches, Aimed;
      J := {};
      NoJumps(T, F, code);
      if d.k.VJmp? {
        JmpFacts(g, S(), d, T, F);
        ghost var s := S();
        if pass {
          AimedSet(code, P, H, lasttarget, d.k.p - 1, code[d.k.p - 1].(accept := !code[d.k.p - 1].accept));
          NegateCondition(d.k.p);
        }
        J := {d.k.p};
        CompareTested(g, s, jpc, d, T, F, pass, S());
        return Ok(d.k.p), J;
      } else if (pass && (d.k.VK? || d.k.VNum? || d.k.VTrue?)) || (!pass && (d.k.VNil? || d.k.VFalse?)) {
        ConstantTested(g, S(), d, T, F, pass);
        return Ok(NO_JUMP), J;
      }
      var j :- JumpOnCond(d, !pass, g, T, F);
      J := {j};
      return Ok(j), J;
    }

    /** `luaK_goiftrue`: the new jump joins the false list, and the true list goes on here. */
    method GoIfTrue(d0: Exp, ghost g: Goal, ghost T: set<nat>, ghost F: set<nat>)
      returns (o: Outcome<int>, ghost L: set<nat>)
      requires Valid() && Has(g, S(), d0, T, F) && InRegs(d0.k, g.w.base) && g.w.target == -1
      requires d0.k.VK? ==> d0.k.k < |ks| && Truthy(ks[d0.k.k])
      modifies this
      ensures o.Ok? ==> Valid() && Tested(g, S(), o.value, L, true) && freereg == g.w.base && nactvar == old(nactvar)
      ensures Spends(o, old(code), code, 5, g.w.base + 1)
    {
      hide Has, Branches, Tested, OnlyLinks, Closed, Aimed, Chain, Jumps;
      L := {};
      var d :- DischargeVars(d0, g, T, F);
      ghost var J: set<nat>;
      var r;
      r, J := JumpUnless(d, true, g, T, F);
      var pc :- r;
      L := F + J;
      ghost var s1 := S();
      BranchJumps(g, s1, T, L, true);
      var f :- Concat(d.f, pc, F, J);
      ghost var s2, l := S(), lasttarget;
      Linked(g, s1, s2, jpc, H, d.t, T, T, L, true, F);
      AimedLinked(s1.code, code, P, H, lasttarget, F);
      BranchJumps(g, s2, T, L, true);
      var _ :- PatchToHere(d.t, T);
      AimedPatchedHere(s2, code, l, H);
      Hereed(g, s2, S(), f, T, L, true);
      TestedWf(g, S(), f, L, true);
      return Ok(f), L;
    }

    /** `luaK_goiffalse`: the other way round. */
    method GoIfFalse(d0: Exp, ghost g: Goal, ghost T: set<nat>, ghost F: set<nat>)
      returns (o: Outcome<int>, ghost L: set<nat>)
      requires Valid() && Has(g, S(), d0, T, F) && InRegs(d0.k, g.w.base) && g.w.target == -1
      requires d0.k.VK? ==> d0.k.k < |ks| && Truthy(ks[d0.k.k])
      modifies this
      ensures o.Ok? ==> Valid() && Tested(g, S(), o.value, L, false) && freereg == g.w.base && nactvar == old(nactvar)
      ensures Spends(o, old(code), code, 5, g.w.base + 1)
    {
      hide Has, Branches, Tested, OnlyLinks, Closed, Aimed, Chain, Jumps;
      L := {};
      var d :- DischargeVars(d0, g, T, F);
      ghost var J: set<nat>;
      var r;
      r, J := JumpUnless(d, false, g, T, F);
      var pc :- r;
      L := T + J;
      ghost var s1 := S();
      BranchJumps(g, s1, L, F, false);
      var t :- Concat(d.t, pc, T, J);
      ghost var s2, l := S(), lasttarget;
      Linked(g, s1, s2, jpc, H, d.f, F, L, F, false, T);
      AimedLinked(s1.code, code, P, H, lasttarget, T);
      BranchJumps(g, s2, L, F, false);
      var _ :- PatchToHere(d.f, F);
      AimedPatchedHere(s2, code, l, H);
      Hereed(g, s2, S(), t, L, F, false);
      TestedWf(g, S(), t, L, false);
      return Ok(t), L;
    }

    // ---- negation ----

    /** The switch of `codenot`: constants are folded, conditions negated, other values computed. */
    method CodeOpposite(d: Exp, ghost g: Goal, ghost T: set<nat>, ghost F: set<nat>)
      returns (o: Outcome<Kind>, ghost s: Snap, ghost b: Exp)
      requires Valid() && Has(g, S(), d, T, F) && InRegs(d.k, g.w.base) && g.w.target == -1
      requires d.k.VK? ==> d.k.k < |ks| && Truthy(ks[d.k.k])
      requires !d.k.VLocal? && !d.k.VUpval?
      modifies this
      ensures o.Ok? ==> Valid() && Opposite(g, s, S(), b, T, F, o.value) && b.t == d.t && b.f == d.f
      ensures o.Ok? ==> InRegs(o.value, g.w.base) && nactvar == old(nactvar) && !o.value.VK?
      ensures Spends(o, old(code), code, 3, g.w.base + 1)
    {
      hide Has, Opposite, Emitted, Discharge, Aimed;
      s, b := S(), d;
      if d.k.VNil? || d.k.VFalse? {
        NotConstant(g, s, d, T, F, VTrue);
        return Ok(VTrue), s, b;
      } else if d.k.VK? || d.k.VNum? || d.k.VTrue? {
        NotConstant(g, s, d, T, F, VFalse);
        return Ok(VFalse), s, b;
      } else if d.k.VJmp? {
        JmpFacts(g, S(), d, T, F);
        AimedSet(code, P, H, lasttarget, d.k.p - 1, code[d.k.p - 1].(accept := !code[d.k.p - 1].accept));
        NegateCondition(d.k.p);
        NotCompare(g, s, d, T, F, S());
        NegatedJpc(s, S(), jpc);
        OppositeWf(g, s, S(), d, T, F, d.k);
        return Ok(d.k), s, b;
      }
      var x :- Discharge2AnyReg(d, g, T, F);
      FreeExp(x);
      NotValue(g, S(), x, T, F);
      ghost var s0 := S();
      s, b := Discharge(s0), x;
      AimedEmitted(s0, Not(0, x.k.r), lasttarget);
      AimedBelow(code, P, H, lasttarget);
      var pc :- Code(Not(0, x.k.r));
      EmittedH(s0, Not(0, x.k.r));
      NoChain(code, jpc);
      OppositeWf(g, s, S(), b, T, F, VReloc(pc));
      return Ok(VReloc(pc)), s, b;
    }

    /** `codenot`: the value is negated, and the lists change places. */
    method CodeNot(d0: Exp, ghost g: Goal, ghost T: set<nat>, ghost F: set<nat>) returns (o: Outcome<Exp>)
      requires Valid() && Has(g, S(), d0, T, F) && InRegs(d0.k, g.w.base) && g.w.target == -1
      requires d0.k.VK? ==> d0.k.k < |ks| && Truthy(ks[d0.k.k])
      modifies this
      ensures o.Ok? ==> Valid() && Has(g.(e := ENot(g.e)), S(), o.value, F, T) && InRegs(o.value.k, g.w.base)
      ensures o.Ok? ==> nactvar == old(nactvar) && !o.value.k.VK?
      ensures Spends(o, old(code), code, 4, g.w.base + 1)
    {
      hide Has, Opposite, Removed, Wf, Aimed;
      var d :- DischargeVars(d0, g, T, F);
      var x;
      ghost var s, b;
      x, s, b := CodeOpposite(d, g, T, F);
      var k :- x;
      ghost var s1 := S();
      ListsOf(g, s, s1, b, T, F, k);
      RemoveValues(d.f, F);
      ghost var c := code;
      AimedRemoved(s1.code, c, P, H, lasttarget, F);
      RemovedKeeps(s1, c, F, d.t, T);
      RemoveValues(d.t, T);
      AimedRemoved(c, code, P, H, lasttarget, T);
      NotDone(g, s, s1, b, T, F, c, code, k, jpc);
      return Ok(Exp(k, d.f, d.t));
    }

    // ---- the value in a register ----

    /** `code_loadbool`. */
    method CodeLoadBool(a: Reg, v: bool, skip: bool) returns (o: Outcome<nat>)
      requires Wf(S()) && Chain(code, jpc, H) && H == {}
      modifies this
      ensures o.Ok? ==> S() == old(S()).(code := old(code) + [LoadBool(a, v, skip)]) && o.value == |old(code)|
      ensures o.Ok? ==> jpc == NO_JUMP
      ensures o.Ok? ==> Same3(old(freereg), old(nactvar), |old(code)|) && Wf(S()) && Chain(code, jpc, H)
      ensures Spends(o, old(code), code, 1, 0)
    {
      var _ := GetLabel();
      NoDischarge(S());
      var pc :- Code(LoadBool(a, v, skip));
      return Ok(pc);
    }

    /** The loads of `exp2reg` for jumps that take no value, with a jump over them. */
    method CodeLoads(d: Exp, reg: Reg, ghost g: Goal, ghost T: set<nat>, ghost F: set<nat>)
      returns (o: Outcome<(int, int)>)
      requires Valid() && Has(g, S(), d, T, F) && d.k == VNonReloc(reg)
      modifies this
      ensures o.Ok? ==> Valid() && Has(g, S(), d, T, F) && freereg == old(freereg) && nactvar == old(nactvar)
      ensures o.Ok? ==> LoadsReady(code, P, T, F, reg, o.value.0, o.value.1) && o.value.0 >= 0
      ensures Spends(o, old(code), code, 3, 0)
    {
      hide Has, LoadsReady, Chain, OnlyLinks, Wf, Aimed;
      ghost var s, l := S(), lasttarget;
      HasWf(g, s, d, T, F);
      var fj :- Jump();
      ghost var j, c1, hold := code[fj], code, s.H + {fj};
      assert c1 == s.code + [j];
      JumpWf(s, S(), fj);
      NoChain(code, jpc);
      var pf :- CodeLoadBool(reg, false, true);
      var pt :- CodeLoadBool(reg, true, false);
      LoadsFacts(S(), c1, d, reg, fj, hold);
      var _ :- PatchToHere(fj, hold);
      LoadsSnap(s, c1, S(), reg, j, fj);
      AimedLoads(s.code, s.P, s.H, l, j, reg);
      AimedHere(code, P, {}, |code| - 1, H);
      LoadsHas(g, s, d, T, F, reg, j);
      HasWf(g, S(), d, T, F);
      return Ok((pf, pt));
    }

    /** The loads of `exp2reg` behind a comparison. */
    method CodeTestLoads(d: Exp, reg: Reg, ghost g: Goal, ghost T: set<nat>, ghost F: set<nat>)
      returns (o: Outcome<(Exp, int, int)>)
      requires Valid() && Has(g, S(), d, T, F) && d.k.VJmp? && (reg >= g.w.base || reg == g.w.target)
      modifies this
      ensures o.Ok? ==> Valid() && Has(g, S(), o.value.0, T + {d.k.p}, F) && freereg == old(freereg)
      ensures o.Ok? ==> nactvar == old(nactvar)
      ensures o.Ok? ==> o.value.0.k == VNonReloc(reg) && o.value.0.f == d.f
      ensures o.Ok? ==> LoadsReady(code, P, T + {d.k.p}, F, reg, o.value.1, o.value.2) && o.value.1 >= 0
      ensures Spends(o, old(code), code, 2, 0)
    {
      hide Has, Chain, Aimed, LoadsReady, OnlyLinks, Evals, TestJumps, Closed, Keeps;
      ghost var s := S();
      TestFacts(g, s, d, T, F, jpc);
      var t :- Concat(d.t, d.k.p, T, {d.k.p});
      ghost var s1 := S();
      TestLinked(g, s, s1, d, T, F, jpc);
      AimedLinked(s.code, s1.code, P, H, lasttarget, T);
      AimedTestLoads(s1.code, P, H, lasttarget, reg);
      var pf :- CodeLoadBool(reg, false, true);
      var pt :- CodeLoadBool(reg, true, false);
      assert code == s1.code + [LoadBool(reg, false, true), LoadBool(reg, true, false)];
      TestLoadsHas(g, s1, d, t, T, F, reg);
      return Ok((Exp(VNonReloc(reg), t, d.f), pf, pt));
    }

    /** The end of `exp2reg`: all jumps get their targets and registers. */
    method PatchBoth(d: Exp, reg: Reg, pf: int, pt: int, ghost g: Goal, ghost T: set<nat>, ghost F: set<nat>)
      returns (o: Outcome<Exp>)
      requires Valid() && Has(g, S(), d, T, F) && d.k == VNonReloc(reg) && reg != NO_REG
      requires reg >= g.w.base || reg == g.w.target
      requires LoadsReady(code, P, T, F, reg, pf, pt)
      modifies this
      ensures o.Ok? ==> Valid() && Has(g, S(), Exp(VNonReloc(reg), NO_JUMP, NO_JUMP), {}, {})
      ensures o.Ok? ==> o.value == Exp(VNonReloc(reg), NO_JUMP, NO_JUMP)
      ensures o.Ok? ==> freereg == old(freereg) && nactvar == old(nactvar)
      ensures Spends(o, old(code), code, 1, 0)
    {
      hide Aimed, ListPatched;
      ghost var s, l := S(), lasttarget;
      HasLists(g, s, d, T, F);
      var final := GetLabel();
      var _ :- PatchListAux(d.f, final, reg, pf, F);
      ghost var c1 := code;
      ListPatchedChain(s, c1, F, T, reg, final, pf, d.t);
      var _ :- PatchListAux(d.t, final, reg, pt, T);
      HasWf(g, s, d, T, F);
      AimedPatched(s.code, c1, code, s.P, H, l, T, F, reg, pf, pt);
      P := P - T - F;
      PatchedHas(g, s, d, T, F, reg, pf, pt, c1, code, jpc);
      return Ok(Exp(VNonReloc(reg), NO_JUMP, NO_JUMP));
    }

    /** `exp2reg`. */
    method Exp2Reg(d0: Exp, reg: Reg, ghost g: Goal, ghost T: set<nat>, ghost F: set<nat>) returns (o: Outcome<Exp>)
      requires Valid() && Has(g, S(), d0, T, F) && reg != NO_REG && (reg >= g.w.base || reg == g.w.target)
      modifies this
      ensures o.Ok? ==> Valid() && Has(g, S(), Exp(VNonReloc(reg), NO_JUMP, NO_JUMP), {}, {})
      ensures o.Ok? ==> o.value == Exp(VNonReloc(reg), NO_JUMP, NO_JUMP)
      ensures o.Ok? ==> freereg == old(freereg) && nactvar == old(nactvar)
      ensures Spends(o, old(code), code, 6, 0)
    {
      hide Has, LoadsReady, Aimed;
      var d :- Discharge2Reg(d0, reg, g, T, F);
      HasLists(g, S(), d, T, F);
      if d.k.VJmp? {
        TestNeeds(g, S(), d, T, F);
        var r :- CodeTestLoads(d, reg, g, T, F);
        var x :- PatchBoth(r.0, reg, r.1, r.2, g, T + {d.k.p}, F);
        return Ok(x);
      }
      if !HasJumps(d) {
        NoLists(g, S(), d, T, F);
        return Ok(Exp(VNonReloc(reg), NO_JUMP, NO_JUMP));
      }
      var nt := NeedValue(d.t, T);
      var nf := NeedValue(d.f, F);
      var pf, pt := NO_JUMP, NO_JUMP;
      if nt || nf {
        var r :- CodeLoads(d, reg, g, T, F);
        pf, pt := r.0, r.1;
      } else {
        AllTakeValues(code, P, T, F, reg);
      }
      var x :- PatchBoth(d, reg, pf, pt, g, T, F);
      return Ok(x);
    }

    /** `luaK_exp2nextreg`. */
    method Exp2NextReg(d0: Exp, ghost g: Goal, ghost T: set<nat>, ghost F: set<nat>) returns (o: Outcome<Exp>)
      requires Valid() && Has(g, S(), d0, T, F) && InRegs(d0.k, g.w.base) && g.w.target == -1
      modifies this
      ensures o.Ok? ==> Valid() && Has(g, S(), o.value, {}, {}) && freereg == g.w.base + 1 && nactvar == old(nactvar)
      ensures o.Ok? ==> g.w.base < MAXREGS - 1 && o.value == Exp(VNonReloc(g.w.base), NO_JUMP, NO_JUMP)
      ensures Spends(o, old(code), code, 7, g.w.base + 1)
    {
      hide Has, Aimed;
      var d :- DischargeVars(d0, g, T, F);
      FreeExp(d);
      var _ :- ReserveRegs(1);
      var x :- Exp2Reg(d, freereg - 1, g, T, F);
      return Ok(x);
    }

    /** `luaK_exp2anyreg`. */
    method Exp2AnyReg(d0: Exp, ghost g: Goal, ghost T: set<nat>, ghost F: set<nat>) returns (o: Outcome<Exp>)
      requires Valid() && Has(g, S(), d0, T, F) && InRegs(d0.k, g.w.base) && g.w.target == -1
      modifies this
      ensures o.Ok? ==> Valid() && Has(g, S(), o.value, {}, {}) && InRegs(o.value.k, g.w.base)
      ensures o.Ok? ==> nactvar == old(nactvar)
      ensures o.Ok? ==> o.value.k.VNonReloc? && o.value == Exp(o.value.k, NO_JUMP, NO_JUMP)
      ensures Spends(o, old(code), code, 8, g.w.base + 1)
    {
      hide Has, Aimed;
      var d :- DischargeVars(d0, g, T, F);
      if d.k.VNonReloc? {
        if !HasJumps(d) {
          NoLists(g, S(), d, T, F);
          return Ok(Exp(d.k, NO_JUMP, NO_JUMP));
        }
        if d.k.r >= nactvar {
          var x :- Exp2Reg(d, d.k.r, g, T, F);
          return Ok(x);
        }
      }
      var x :- Exp2NextReg(d, g, T, F);
      return Ok(x);
    }

    /** `luaK_exp2val`. */
    method Exp2Val(d0: Exp, ghost g: Goal, ghost T: set<nat>, ghost F: set<nat>) returns (o: Outcome<Exp>)
      requires Valid() && Has(g, S(), d0, T, F) && InRegs(d0.k, g.w.base) && g.w.target == -1
      modifies this
      ensures o.Ok? ==> Valid() && Has(g, S(), o.value, {}, {}) && InRegs(o.value.k, g.w.base)
      ensures o.Ok? ==> nactvar == old(nactvar)
      ensures o.Ok? ==> o.value == Exp(o.value.k, NO_JUMP, NO_JUMP) && !o.value.k.VLocal? && !o.value.k.VUpval?
      ensures Spends(o, old(code), code, 8, g.w.base + 1)
    {
      hide Has, Aimed;
      if HasJumps(d0) {
        var x :- Exp2AnyReg(d0, g, T, F);
        return Ok(x);
      }
      var d :- DischargeVars(d0, g, T, F);
      NoLists(g, S(), d, T, F);
      return Ok(Exp(d.k, NO_JUMP, NO_JUMP));
    }

    /** `boolK`, `nilK`, `luaK_intK` and `luaK_numberK`: a constant goes into the table. */
    method Exp2K(d: Exp, v: Value, ghost g: Goal) returns (x: Exp)
      requires Valid() && Has(g, S(), d, {}, {}) && InRegs(d.k, g.w.base) && !d.k.VNonReloc? && !Delayed(d.k)
      requires d == Exp(d.k, NO_JUMP, NO_JUMP)
      requires forall env: Env, c: seq<Ins>, r: Regs :: KindValue(env, c, d.k, r) == v
      modifies this`ks
      ensures Valid() && Has(g, S(), x, {}, {}) && InRegs(x.k, g.w.base) && x.k.VK? && x == Exp(x.k, NO_JUMP, NO_JUMP)
    {
      hide Has, Aimed;
      ghost var s := S();
      var k := AddK(v);
      NewConstant(g, s, d, VK(k), {}, {}, ks);
      return Exp(VK(k), NO_JUMP, NO_JUMP);
    }

    /** `luaK_exp2RK`. */
    method Exp2RK(d0: Exp, ghost g: Goal, ghost T: set<nat>, ghost F: set<nat>) returns (o: Outcome<Exp>)
      requires Valid() && Has(g, S(), d0, T, F) && InRegs(d0.k, g.w.base) && g.w.target == -1
      modifies this
      ensures o.Ok? ==> Valid() && Has(g, S(), o.value, {}, {}) && InRegs(o.value.k, g.w.base)
      ensures o.Ok? ==> nactvar == old(nactvar)
      ensures o.Ok? ==> o.value == Exp(o.value.k, NO_JUMP, NO_JUMP)
      ensures o.Ok? ==> if o.value.k.VK? then o.value.k.k <= MAXINDEXRK else o.value.k.VNonReloc?
      ensures Spends(o, old(code), code, 16, g.w.base + 1)
    {
      hide Has, Aimed;
      var d :- Exp2Val(d0, g, T, F);
      if d.k.VTrue? {
        d := Exp2K(d, Bool(true), g);
      } else if d.k.VFalse? {
        d := Exp2K(d, Bool(false), g);
      } else if d.k.VNil? {
        d := Exp2K(d, Nil, g);
      } else if d.k.VNum? {
        d := Exp2K(d, Num(d.k.n), g);
      }
      if d.k.VK? && d.k.k <= MAXINDEXRK {
        return Ok(d);
      }
      var x :- Exp2AnyReg(d, g, {}, {});
      return Ok(x);
    }

    /** `freeexps`: registers are given back in reverse order. */
    method FreeExps(d1: Exp, d2: Exp, ghost base: nat, ghost base1: nat)
      requires nactvar <= base && base <= base1 <= freereg
      requires if d1.k.VNonReloc? then (d1.k.r < nactvar && base1 == base) || (d1.k.r == base && base1 == base + 1)
               else base1 == base
      requires if d2.k.VNonReloc? then
                 (d2.k.r < nactvar && freereg == base1) || (d2.k.r == base1 && freereg == base1 + 1)
                 else freereg == base1
      modifies this`freereg
      ensures freereg == base
    {
      var r1 := if d1.k.VNonReloc? then d1.k.r else -1;
      var r2 := if d2.k.VNonReloc? then d2.k.r else -1;
      if r1 > r2 {
        FreeExp(d1);
        FreeExp(d2);
      } else {
        FreeExp(d2);
        FreeExp(d1);
      }
    }

    /** `codecomp`: the first operand is in place already. */
    method CodeComp(op: CmpOp, d1: Exp, d0: Exp, ghost g1: Goal, ghost s1: Snap, ghost g2: Goal, ghost T: set<nat>,
                    ghost F: set<nat>)
      returns (o: Outcome<Exp>)
      requires Valid() && Has(g2, S(), d0, T, F) && InRegs(d0.k, g2.w.base) && Has(g1, s1, d1, {}, {}) && OperandOk(d1)
      requires g2.s0 == s1 && g2.env == g1.env && g1.w.target == -1 && g2.w.target == -1
      requires nactvar <= g1.w.base <= g2.w.base && Scoped(g2.e, g1.w.base)
      requires if d1.k.VNonReloc? then
                 (d1.k.r < nactvar && g2.w.base == g1.w.base) || (d1.k.r == g1.w.base && g2.w.base == g1.w.base + 1)
                 else g2.w.base == g1.w.base
      modifies this
      ensures o.Ok? ==> Valid() && Has(g1.(e := ECompare(op, g1.e, g2.e)), S(), o.value, {}, {}) && o.value.k.VJmp?
      ensures o.Ok? ==> freereg == g1.w.base && nactvar == old(nactvar)
      ensures Spends(o, old(code), code, 18, g2.w.base + 1)
    {
      hide Has, Aimed;
      var d2 :- Exp2RK(d0, g2, T, F);
      FreeExps(d1, d2, g1.w.base, g2.w.base);
      var i := CompareIns(op, Operand(d1.k), Operand(d2.k));
      CompareHas(g1, s1, d1, g2, S(), d2, op);
      ghost var s := S();
      AimedBranched(s, i, lasttarget);
      var j :- CondJump(i);
      BranchedWf(s, i);
      return Ok(Exp(VJmp(j), NO_JUMP, NO_JUMP));
    }

    // ---- expressions ----

    /** `luaK_posfix` for `and` (cond) and `or`: the lists of the operands are joined. */
    method JoinLists(d0: Exp, head: int, cond: bool, ghost g1: Goal, ghost s1: Snap, ghost L: set<nat>, ghost g2: Goal,
                     ghost T: set<nat>, ghost F: set<nat>)
      returns (o: Outcome<Exp>)
      requires Valid() && Tested(g1, s1, head, L, cond) && Has(g2, S(), d0, T, F) && InRegs(d0.k, g1.w.base)
      requires g2 == g1.(s0 := s1, e := g2.e) && g1.w.target == -1 && Scoped(g2.e, g1.w.base)
      requires d0.k.VK? ==> d0.k.k < |ks| && Truthy(ks[d0.k.k])
      modifies this
      ensures o.Ok? ==> Valid()
      ensures o.Ok? ==> Has(g1.(e := Joined(cond, g1.e, g2.e)), S(), o.value, WithList(T, L, !cond),
                WithList(F, L, cond))
      ensures o.Ok? ==> InRegs(o.value.k, g1.w.base) && nactvar == old(nactvar)
      ensures o.Ok? ==> (o.value.k.VK? ==> o.value.k.k < |ks| && Truthy(ks[o.value.k.k]))
      ensures Spends(o, old(code), code, 1, 0)
    {
      hide Has, Tested, OnlyLinks, Aimed;
      var d :- DischargeVars(d0, g2, T, F);
      ghost var s := S();
      JoinFacts(g1, s1, head, L, cond, g2, s, d, T, F);
      if cond {
        var f :- Concat(d.f, head, F, L);
        AimedLinked(s.code, code, P, H, lasttarget, F);
        JoinHas(g1, s1, head, L, cond, g2, s, d, T, F, code, jpc, f);
        return Ok(Exp(d.k, d.t, f));
      } else {
        var t :- Concat(d.t, head, T, L);
        AimedLinked(s.code, code, P, H, lasttarget, T);
        JoinHas(g1, s1, head, L, cond, g2, s, d, T, F, code, jpc, t);
        return Ok(Exp(d.k, t, d.f));
      }
    }

    /** What compiling an expression gives: a descriptor of its value. */
    ghost predicate Compiled(g: Goal, d: Exp, T: set<nat>, F: set<nat>)
      reads this
    {
      Valid() && Has(g, S(), d, T, F) && InRegs(d.k, g.w.base) && (d.k.VK? ==> d.k.k < |ks| && Truthy(ks[d.k.k]))
    }

    /** `simpleexp` and `singlevar`: nothing is emitted yet. */
    method Simple(e: Expr, ghost env: Env) returns (d: Exp)
      requires Valid() && Scoped(e, nactvar) && !(e.ENot? || e.EAnd? || e.EOr? || e.ECompare?)
      modifies this`ks
      ensures Compiled(Goal(env, old(S()), Frame(freereg, -1), e), d, {}, {})
    {
      hide Has, Aimed;
      ghost var g := Goal(env, S(), Frame(freereg, -1), e);
      ghost var s := S();
      var k: Kind := match e
        case ENil => VNil
        case ETrue => VTrue
        case EFalse => VFalse
        case ENumber(n) => VNum(n)
        case ELocal(r) => VLocal(r)
        case EUpval(u) => VUpval(u)
        case _ => VNil;
      d := Exp(k, NO_JUMP, NO_JUMP);
      if e.EString? {
        var i := AddK(Str(e.s));
        StringHas(g, ks, i);
        d := Exp(VK(i), NO_JUMP, NO_JUMP);
      } else {
        StartHas(g, d);
      }
    }

    /** `subexpr`: an expression is compiled in one pass, its operands from left to right. */
    method Compile(e: Expr, ghost env: Env) returns (o: Outcome<Exp>, ghost T: set<nat>, ghost F: set<nat>)
      requires Valid() && Scoped(e, nactvar)
      modifies this
      ensures o.Ok? ==> Compiled(Goal(env, old(S()), Frame(old(freereg), -1), e), o.value, T, F)
      ensures o.Ok? ==> nactvar == old(nactvar)
      ensures Spends(o, old(code), code, Length(e), old(freereg) + Registers(e))
      decreases e
    {
      hide Has, Tested, Aimed;
      T, F := {}, {};
      ghost var g := Goal(env, S(), Frame(freereg, -1), e);
      if e.ENot? {
        var x;
        ghost var T1, F1;
        x, T1, F1 := Compile(e.e, env);
        var d :- x;
        var y :- CodeNot(d, g.(e := e.e), T1, F1);
        return Ok(y), F1, T1;
      } else if e.EAnd? || e.EOr? {
        var y, T1, F1 := CompileLogical(e, env);
        return y, T1, F1;
      } else if e.ECompare? {
        var y :- CompileCompare(e, env);
        return Ok(y), {}, {};
      }
      var d := Simple(e, env);
      return Ok(d), {}, {};
    }

    method CompileLogical(e: Expr, ghost env: Env) returns (o: Outcome<Exp>, ghost T: set<nat>, ghost F: set<nat>)
      requires Valid() && Scoped(e, nactvar) && (e.EAnd? || e.EOr?)
      modifies this
      ensures o.Ok? ==> Compiled(Goal(env, old(S()), Frame(old(freereg), -1), e), o.value, T, F)
      ensures o.Ok? ==> nactvar == old(nactvar)
      ensures Spends(o, old(code), code, Length(e), old(freereg) + Registers(e))
      decreases e, 0
    {
      hide Has, Tested, Aimed;
      T, F := {}, {};
      ghost var g1 := Goal(env, S(), Frame(freereg, -1), e.l);
      var x;
      ghost var T1, F1;
      x, T1, F1 := Compile(e.l, env);
      var d1 :- x;
      var h;
      ghost var L;
      if e.EAnd? {
        h, L := GoIfTrue(d1, g1, T1, F1);
      } else {
        h, L := GoIfFalse(d1, g1, T1, F1);
      }
      var head :- h;
      ghost var s1 := S();
      ghost var T2, F2;
      x, T2, F2 := Compile(e.r0, env);
      var d2 :- x;
      ScopedMore(e.r0, nactvar, g1.w.base);
      var d :- JoinLists(d2, head, e.EAnd?, g1, s1, L, g1.(s0 := s1, e := e.r0), T2, F2);
      return Ok(d), WithList(T2, L, !e.EAnd?), WithList(F2, L, e.EAnd?);
    }

    method CompileCompare(e: Expr, ghost env: Env) returns (o: Outcome<Exp>)
      requires Valid() && Scoped(e, nactvar) && e.ECompare?
      modifies this
      ensures o.Ok? ==> Compiled(Goal(env, old(S()), Frame(old(freereg), -1), e), o.value, {}, {})
      ensures o.Ok? ==> nactvar == old(nactvar)
      ensures Spends(o, old(code), code, Length(e), old(freereg) + Registers(e))
      decreases e, 0
    {
      hide Has, Aimed;
      ghost var g1 := Goal(env, S(), Frame(freereg, -1), e.l);
      var x;
      ghost var T, F;
      x, T, F := Compile(e.l, env);
      var d :- x;
      var d1 :- Exp2RK(d, g1, T, F);
      ghost var s1, g2 := S(), Goal(env, S(), Frame(freereg, -1), e.r0);
      x, T, F := Compile(e.r0, env);
      var d2 :- x;
      ScopedMore(e.r0, nactvar, g1.w.base);
      var y :- CodeComp(e.op, d1, d2, g1, s1, g2, T, F);
      return Ok(y);
    }

    // ---- statements ----

    /** `luaK_storevar`, on a local. */
    method StoreLocal(x: Reg, d: Exp, ghost g: Goal, ghost T: set<nat>, ghost F: set<nat>) returns (o: Outcome<()>)
      requires Compiled(g, d, T, F) && x < nactvar && g.w.target == -1
      modifies this
      ensures o.Ok? ==> Valid() && Has(g.(w := Frame(g.w.base, x)), S(), Exp(VNonReloc(x), NO_JUMP, NO_JUMP), {}, {})
      ensures o.Ok? ==> freereg == g.w.base && nactvar == old(nactvar)
      ensures Spends(o, old(code), code, 6, 0)
    {
      hide Has, Aimed;
      FreeExp(d);
      Retarget(g, S(), d, T, F, x);
      var _ :- Exp2Reg(d, x, g.(w := Frame(g.w.base, x)), T, F);
      return Ok(());
    }

    /** Between statements, no jump is pending except to here, and only locals are in registers. */
    ghost predicate Ready()
      reads this
    {
      Valid() && P <= H && freereg == nactvar
    }

    /** `localstat` for one name with a value or for names alone (`adjust_assign`), and `assignment` to one local. */
    method Statement(st: Stat, ghost env: Env) returns (o: Outcome<()>)
      requires Ready() && ScopedStat(st, nactvar)
      modifies this
      ensures o.Ok? ==> Ready() && nactvar == old(nactvar) + Declares(st) && old(ks) <= ks && nactvar < MAXREGS
      ensures o.Ok? ==> Steps(env, old(S()), S(), st, old(nactvar))
      ensures Spends(o, old(code), code, StatLength(st), old(nactvar) + StatRegisters(st))
    {
      hide Has, Steps, NilCoded, Aimed;
      if st.SNils? {
        var n := st.more + 1;
        ghost var s := S();
        var _ :- ReserveRegs(n);
        var _ :- CodeNil(freereg - n, n, env);
        nactvar := nactvar + n;
        NilsSteps(env, s, S(), nactvar - n, st.more);
        NilConstants(env, s, S(), nactvar - n, st.more);
        return Ok(());
      }
      ghost var g := Goal(env, S(), Frame(freereg, -1), st.e);
      var x;
      ghost var T, F;
      x, T, F := Compile(st.e, env);
      var d :- x;
      if st.SLocal? {
        var y :- Exp2NextReg(d, g, T, F);
        HasSteps(g, S(), y.k.r, st, nactvar);
        nactvar := nactvar + 1;
        HasConstants(g, S(), y, {}, {});
      } else {
        var _ :- StoreLocal(st.x, d, g, T, F);
        g := g.(w := Frame(g.w.base, st.x));
        HasSteps(g, S(), st.x, st, nactvar);
        HasConstants(g, S(), Exp(VNonReloc(st.x), NO_JUMP, NO_JUMP), {}, {});
      }
      return Ok(());
    }

    /** A whole block and the RETURN behind it (`statlist`, `luaK_ret`): running the finished code, for any machine
        whose constants begin with these, does to the locals what the block says. */
    method Block(b: seq<Stat>, ghost env: Env) returns (o: Outcome<()>)
      requires Ready() && P == {} && ScopedBlock(b, nactvar)
      modifies this
      ensures o.Ok? ==> Ready() && P == {} && nactvar == Locals(b, old(nactvar)) && old(ks) <= ks
      ensures o.Ok? ==> |code| > 0 && code[|code| - 1] == Return(0)
      ensures o.Ok? && ks <= env.ks ==> AllRunAs(env, old(code), code[..|code| - 1], b, old(nactvar))
      ensures Spends(o, old(code), code, BlockLength(b) + 1, BlockRegisters(b, old(nactvar)))
    {
      hide Performs, Steps, Exec, Has, AllRunAs, Aimed, BlockLength, BlockRegisters, StatLength, StatRegisters, Locals,
        ScopedStat, Declares;
      ghost var s0, n := S(), nactvar;
      Beginnings(b, n);
      NoStatements(n);
      PerformsNothing(env, s0, n);
      var i := 0;
      assert b[..0] == [];
      while i < |b|
        invariant 0 <= i <= |b| && Ready() && nactvar == Locals(b[..i], n) && s0.ks <= ks
        invariant Performs(env, s0, S(), b[..i], n) && |code| <= |s0.code| + BlockLength(b[..i])
      {
        ghost var s1 := S();
        assert ScopedAt(b, n, i);
        NextStatement(b, n, i);
        var _ :- Statement(b[i], env);
        assert b[..i + 1] == b[..i] + [b[i]];
        PerformsMore(env, s0, s1, b[..i], n, b[i], S());
        i := i + 1;
      }
      assert b[..|b|] == b;
      ghost var s := S();
      AimedEmitted(s, Return(0), lasttarget);
      var _ :- Code(Return(0));
      if s.ks <= env.ks { Finished(env, s0, s, b, n); }
      assert code[..|code| - 1] == Discharge(s).code;
      return Ok(());
    }
  }
}
