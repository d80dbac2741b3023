/** Name resolution in Lua's parser: locals, upvalues, and the blocks that have to close them. */
module LuaScope {
  import opened Shared

  const MAXVARS: nat := 200
  const MAXUPVAL: nat := 255

  /** Names are unique strings. */
  type Name = nat

  const ENV: Name := 0

  /** A declaration of a name; its number tells it from all others. */
  datatype Decl = Decl(name: Name, id: nat)

  const ENV_DECL := Decl(ENV, 0)

  datatype Upvaldesc = Upvaldesc(name: Name, instack: bool, idx: nat)

  /** `BlockCnt`: the locals outside the block, and whether one of its own is an upvalue. */
  datatype Block = Block(nactvar: nat, upval: bool)

  /** A function that is being compiled: the variables declared so far, of which nactvar are visible yet. */
  datatype Func = Func(vars: seq<Decl>, nactvar: nat, ups: seq<Upvaldesc>, blocks: seq<Block>)

  datatype Var = VVoid | VLocal(i: nat) | VUpval(u: nat)

  datatype Outcome<T> = Ok(value: T) | TooMany {
    predicate IsFailure() { TooMany? }
    function PropagateFailure<U>(): Outcome<U>
      requires TooMany?
    {
      TooMany
    }
    function Extract(): T
      requires Ok?
    {
      value
    }
  }

  // ---- scoping ----

  /** The last of the first n declarations of a name. */
  function LastDecl(ds: seq<Decl>, n: nat, name: Name): (r: Option<nat>)
    requires n <= |ds|
    ensures r.Some? ==> r.value < n && ds[r.value].name == name && forall i :: r.value < i < n ==> ds[i].name != name
    ensures r.None? ==> forall i :: 0 <= i < n ==> ds[i].name != name
  {
    if n == 0 then None else if ds[n - 1].name == name then Some(n - 1) else LastDecl(ds, n - 1, name)
  }

  predicate FuncOk(f: Func) { f.nactvar <= |f.vars| <= MAXVARS && |f.ups| <= MAXUPVAL }

  predicate FuncsOk(fs: seq<Func>) { forall j :: 0 <= j < |fs| ==> FuncOk(fs[j]) }

  /** The declaration that a name refers to in the outermost k functions: the innermost one that is visible (section 3.5
      of the Lua 5.3 Reference Manual). Around the main function, there is only the environment. */
  function Visible(fs: seq<Func>, k: nat, name: Name): Option<Decl>
    requires k <= |fs| && FuncsOk(fs)
  {
    if k == 0 then if name == ENV then Some(ENV_DECL) else None
    else
      var i := LastDecl(fs[k - 1].vars, fs[k - 1].nactvar, name);
      if i.Some? then Some(fs[k - 1].vars[i.value]) else Visible(fs, k - 1, name)
  }

  /** What upvalue u of function k - 1 stands for, as the closures that are made at run time link it: a local of the
      enclosing function, or one of its upvalues. The main function has the environment. */
  function UpDecl(fs: seq<Func>, k: nat, u: nat): Option<Decl>
    requires k <= |fs|
  {
    if k == 0 || u >= |fs[k - 1].ups| then None
    else if k == 1 then Some(ENV_DECL)
    else
      var d := fs[k - 1].ups[u];
      if !d.instack then UpDecl(fs, k - 1, d.idx)
      else if d.idx < |fs[k - 2].vars| then Some(fs[k - 2].vars[d.idx]) else None
  }

  /** What a reference in function k - 1 stands for. */
  function VarDecl(fs: seq<Func>, k: nat, v: Var): Option<Decl>
    requires k <= |fs|
  {
    match v
    case VVoid => None
    case VLocal(i) => if k > 0 && i < |fs[k - 1].vars| then Some(fs[k - 1].vars[i]) else None
    case VUpval(u) => UpDecl(fs, k, u)
  }

  /** Every upvalue stands for what its name refers to around its function. */
  ghost predicate UpsOk(fs: seq<Func>) {
    FuncsOk(fs) && forall k, u :: 1 <= k <= |fs| && 0 <= u < |fs[k - 1].ups| ==> UpOk(fs, k, u)
  }

  predicate UpOk(fs: seq<Func>, k: nat, u: nat)
    requires 1 <= k <= |fs| && u < |fs[k - 1].ups| && FuncsOk(fs)
  {
    UpDecl(fs, k, u).Some? && UpDecl(fs, k, u) == Visible(fs, k - 1, fs[k - 1].ups[u].name)
  }

  predicate NotUpvalue(f: Func, name: Name) { forall u :: 0 <= u < |f.ups| ==> f.ups[u].name != name }

  /** When a name cannot be referred to in the outermost k functions: some function on the way to its declaration
      needs a new upvalue and has no room for it. */
  predicate NoRoom(fs: seq<Func>, k: nat, name: Name)
    requires k <= |fs| && FuncsOk(fs)
  {
    k > 0 && LastDecl(fs[k - 1].vars, fs[k - 1].nactvar, name).None? &&
    NotUpvalue(fs[k - 1], name) &&
    (NoRoom(fs, k - 1, name) || (Visible(fs, k - 1, name).Some? && |fs[k - 1].ups| >= MAXUPVAL))
  }

  lemma NoRoomStep(fs: seq<Func>, k: nat, name: Name)
    requires k <= |fs| && FuncsOk(fs)
    ensures NoRoom(fs, k, name) <==>
            k > 0 && LastDecl(fs[k - 1].vars, fs[k - 1].nactvar, name).None? &&
            NotUpvalue(fs[k - 1], name) &&
            (NoRoom(fs, k - 1, name) || (Visible(fs, k - 1, name).Some? && |fs[k - 1].ups| >= MAXUPVAL))
  {
  }

  // ---- blocks ----

  /** Where block b ends. */
  function BlockEnd(f: Func, b: nat): nat
    requires b < |f.blocks|
  {
    if b + 1 < |f.blocks| then f.blocks[b + 1].nactvar else f.nactvar
  }

  predicate BlockOk(f: Func, b: nat)
    requires b < |f.blocks|
  {
    f.blocks[b].nactvar <= BlockEnd(f, b)
  }

  /** A local that some function has as an upvalue. */
  predicate IsCaptured(f: Func, captured: set<nat>, i: nat)
    requires i < |f.vars|
  {
    f.vars[i].id in captured
  }

  /** A block is flagged exactly if one of its own visible locals is captured. */
  ghost predicate FlagExact(f: Func, captured: set<nat>, b: nat)
    requires b < |f.blocks|
  {
    f.blocks[b].upval <==> exists i: nat ::
          f.blocks[b].nactvar <= i < BlockEnd(f, b) && i < |f.vars| && IsCaptured(f, captured, i)
  }

  ghost predicate BlocksOk(f: Func, captured: set<nat>) {
    |f.blocks| >= 1 && f.blocks[0].nactvar == 0 && (forall b :: 0 <= b < |f.blocks| ==> BlockOk(f, b)) &&
    (forall b :: 0 <= b < |f.blocks| ==> FlagExact(f, captured, b)) &&
    forall i: nat :: f.nactvar <= i < |f.vars| ==> !IsCaptured(f, captured, i)
  }

  /** Locals that are upvalues of an open function are captured. */
  ghost predicate CapturesOk(fs: seq<Func>, captured: set<nat>) {
    forall k, u :: 1 <= k < |fs| && 0 <= u < |fs[k].ups| ==> CaptureOk(fs, captured, k, u)
  }

  predicate CaptureOk(fs: seq<Func>, captured: set<nat>, k: nat, u: nat)
    requires 1 <= k < |fs| && u < |fs[k].ups|
  {
    var d := fs[k].ups[u]; d.instack ==> d.idx < |fs[k - 1].vars| && IsCaptured(fs[k - 1], captured, d.idx)
  }

  /** No two declarations have the same number. */
  ghost predicate Distinct(fs: seq<Func>, next: nat) {
    (forall j, i :: 0 <= j < |fs| && 0 <= i < |fs[j].vars| ==> 0 < fs[j].vars[i].id < next) &&
    forall j, i, k, h ::
          0 <= j < |fs| && 0 <= k < |fs| && 0 <= i < |fs[j].vars| && 0 <= h < |fs[k].vars| && (j != k || i != h) ==>
            Differ(fs, j, i, k, h)
  }

  predicate Differ(fs: seq<Func>, j: nat, i: nat, k: nat, h: nat)
    requires j < |fs| && k < |fs| && i < |fs[j].vars| && h < |fs[k].vars|
  {
    fs[j].vars[i].id != fs[k].vars[h].id
  }

  // ---- what resolution changes ----

  /** Upvalues have been added, and blocks flagged. */
  predicate GrownAt(fs: seq<Func>, gs: seq<Func>, j: nat)
    requires j < |fs| == |gs|
  {
    gs[j].vars == fs[j].vars && gs[j].nactvar == fs[j].nactvar && fs[j].ups <= gs[j].ups &&
    |gs[j].blocks| == |fs[j].blocks| &&
    forall b :: 0 <= b < |fs[j].blocks| ==> SameBlock(fs[j].blocks[b], gs[j].blocks[b])
  }

  /** The block is the same, but may have been flagged. */
  predicate SameBlock(b: Block, b': Block) { b'.nactvar == b.nactvar && (b.upval ==> b'.upval) }

  ghost predicate Grown(fs: seq<Func>, gs: seq<Func>) {
    |gs| == |fs| && forall j :: 0 <= j < |fs| ==> GrownAt(fs, gs, j)
  }

  lemma GrownTrans(fs: seq<Func>, gs: seq<Func>, hs: seq<Func>)
    requires Grown(fs, gs) && Grown(gs, hs)
    ensures Grown(fs, hs)
  {
    forall j | 0 <= j < |fs| ensures GrownAt(fs, hs, j) { assert GrownAt(fs, gs, j) && GrownAt(gs, hs, j); }
  }

  lemma {:induction false} SameVisible(fs: seq<Func>, gs: seq<Func>, k: nat, name: Name)
    requires FuncsOk(fs) && FuncsOk(gs) && k <= |fs| && k <= |gs|
    requires forall j :: 0 <= j < k ==> gs[j].vars == fs[j].vars && gs[j].nactvar == fs[j].nactvar
    ensures Visible(gs, k, name) == Visible(fs, k, name)
  {
    if k > 0 { SameVisible(fs, gs, k - 1, name); }
  }

  /** Upvalues keep their meaning. */
  lemma {:induction false} SameUpDecl(fs: seq<Func>, gs: seq<Func>, k: nat, u: nat)
    requires k <= |fs| && k <= |gs| && (forall j :: 0 <= j < k ==> fs[j].ups <= gs[j].ups) && UpDecl(fs, k, u).Some?
    requires forall j :: 0 <= j < k - 1 ==> gs[j].vars == fs[j].vars
    ensures UpDecl(gs, k, u) == UpDecl(fs, k, u)
  {
    if k > 1 {
      assert fs[k - 1].ups <= gs[k - 1].ups;
      if !fs[k - 1].ups[u].instack { SameUpDecl(fs, gs, k - 1, fs[k - 1].ups[u].idx); }
    }
  }

  lemma GrownVisible(fs: seq<Func>, gs: seq<Func>, k: nat, name: Name)
    requires Grown(fs, gs) && FuncsOk(fs) && FuncsOk(gs) && k <= |fs|
    ensures Visible(gs, k, name) == Visible(fs, k, name)
  {
    forall j | 0 <= j < k
      ensures gs[j].vars == fs[j].vars && gs[j].nactvar == fs[j].nactvar
    {
      assert GrownAt(fs, gs, j);
    }
    SameVisible(fs, gs, k, name);
  }

  /** One function gets one more upvalue. */
  lemma AddedUp(fs: seq<Func>, gs: seq<Func>, k: nat, d: Upvaldesc)
    requires UpsOk(fs) && 1 <= k <= |fs| && |fs[k - 1].ups| < MAXUPVAL
    requires gs == fs[k - 1 := fs[k - 1].(ups := fs[k - 1].ups + [d])]
    requires UpDecl(gs, k, |fs[k - 1].ups|).Some? && UpDecl(gs, k, |fs[k - 1].ups|) == Visible(fs, k - 1, d.name)
    ensures UpsOk(gs) && Grown(fs, gs)
  {
    hide UpDecl, Visible;
    forall j | 0 <= j < |fs| ensures GrownAt(fs, gs, j) && FuncOk(gs[j]) { assert FuncOk(fs[j]); }
    forall h: nat, u: nat | 1 <= h <= |gs| && u < |gs[h - 1].ups| ensures UpOk(gs, h, u) {
      GrownVisible(fs, gs, h - 1, gs[h - 1].ups[u].name);
      if h != k || u < |fs[k - 1].ups| {
        assert UpOk(fs, h, u);
        SameUpDecl(fs, gs, h, u);
      }
    }
  }

  /** Blocks do not matter for names. */
  lemma FlaggedUps(fs: seq<Func>, gs: seq<Func>, k: nat, blocks: seq<Block>)
    requires UpsOk(fs) && k < |fs| && gs == fs[k := fs[k].(blocks := blocks)] && |blocks| == |fs[k].blocks|
    requires forall b :: 0 <= b < |blocks| ==> SameBlock(fs[k].blocks[b], blocks[b])
    ensures UpsOk(gs) && Grown(fs, gs)
  {
    hide UpDecl, Visible;
    forall j | 0 <= j < |fs| ensures GrownAt(fs, gs, j) && FuncOk(gs[j]) { assert FuncOk(fs[j]); }
    forall h: nat, u: nat | 1 <= h <= |gs| && u < |gs[h - 1].ups| ensures UpOk(gs, h, u) {
      assert UpOk(fs, h, u);
      SameUpDecl(fs, gs, h, u);
      GrownVisible(fs, gs, h - 1, gs[h - 1].ups[u].name);
    }
  }

  /** The innermost function changes, with the same upvalues. */
  lemma TopChanged(fs: seq<Func>, gs: seq<Func>)
    requires UpsOk(fs) && |fs| >= 1 && |gs| == |fs| && gs[..|fs| - 1] == fs[..|fs| - 1]
    requires gs[|fs| - 1].ups == fs[|fs| - 1].ups && FuncOk(gs[|fs| - 1])
    ensures UpsOk(gs)
  {
    hide UpDecl, Visible;
    var n := |fs| - 1;
    forall j | 0 <= j < n ensures gs[j] == fs[j] { assert gs[..n][j] == fs[..n][j]; }
    assert FuncsOk(gs);
    forall h: nat, u: nat | 1 <= h <= |gs| && u < |gs[h - 1].ups| ensures UpOk(gs, h, u) {
      assert UpOk(fs, h, u);
      SameUpDecl(fs, gs, h, u);
      SameVisible(fs, gs, h - 1, gs[h - 1].ups[u].name);
    }
  }

  /** A function without upvalues is opened, or the innermost one is closed. */
  lemma Shorter(fs: seq<Func>, gs: seq<Func>)
    requires UpsOk(fs) && |gs| <= |fs| && gs == fs[..|gs|]
    ensures UpsOk(gs)
  {
    hide UpDecl, Visible;
    assert FuncsOk(gs) by { forall j | 0 <= j < |gs| ensures FuncOk(gs[j]) { assert FuncOk(fs[j]); } }
    forall h: nat, u: nat | 1 <= h <= |gs| && u < |gs[h - 1].ups| ensures UpOk(gs, h, u) {
      assert UpOk(fs, h, u);
      SameUpDecl(fs, gs, h, u);
      SameVisible(fs, gs, h - 1, gs[h - 1].ups[u].name);
    }
  }

  lemma Longer(fs: seq<Func>, f: Func)
    requires UpsOk(fs) && FuncOk(f) && f.ups == []
    ensures UpsOk(fs + [f])
  {
    hide UpDecl, Visible;
    var gs := fs + [f];
    assert FuncsOk(gs) by { forall j | 0 <= j < |gs| ensures FuncOk(gs[j]) { if j < |fs| { assert FuncOk(fs[j]); } } }
    forall h: nat, u: nat | 1 <= h <= |gs| && u < |gs[h - 1].ups| ensures UpOk(gs, h, u) {
      assert UpOk(fs, h, u);
      SameUpDecl(fs, gs, h, u);
      SameVisible(fs, gs, h - 1, gs[h - 1].ups[u].name);
    }
  }

  // ---- what capturing changes ----

  /** A local is captured, and its block flagged. */
  lemma Flagged(f: Func, captured: set<nat>, i: nat, b: nat)
    requires FuncOk(f) && BlocksOk(f, captured) && i < f.nactvar && b < |f.blocks|
    requires f.blocks[b].nactvar <= i < BlockEnd(f, b)
    requires forall h :: 0 <= h < |f.vars| && f.vars[h].id == f.vars[i].id ==> h == i
    ensures BlocksOk(f.(blocks := f.blocks[b := f.blocks[b].(upval := true)]), captured + {f.vars[i].id})
  {
    var g := f.(blocks := f.blocks[b := f.blocks[b].(upval := true)]);
    var c := captured + {f.vars[i].id};
    forall h: nat | h < |f.vars| && h != i ensures IsCaptured(g, c, h) == IsCaptured(f, captured, h) {}
    assert IsCaptured(g, c, i);
    forall a: nat | a < |g.blocks| ensures BlockOk(g, a) && FlagExact(g, c, a) {
      assert BlockOk(f, a) && FlagExact(f, captured, a);
      assert BlockEnd(g, a) == BlockEnd(f, a);
      if a != b && f.blocks[a].nactvar <= i < BlockEnd(f, a) { BlocksApart(f, captured, a, b, i); }
      if f.blocks[a].upval {
        var h: nat :| f.blocks[a].nactvar <= h < BlockEnd(f, a) && h < |f.vars| && IsCaptured(f, captured, h);
        assert IsCaptured(g, c, h);
      }
    }
    assert forall h: nat :: f.nactvar <= h < |f.vars| ==> !IsCaptured(f, captured, h);
  }

  lemma BlocksApart(f: Func, captured: set<nat>, a: nat, b: nat, i: nat)
    requires BlocksOk(f, captured) && a < |f.blocks| && b < |f.blocks| && a != b
    requires f.blocks[a].nactvar <= i < BlockEnd(f, a)
    ensures !(f.blocks[b].nactvar <= i < BlockEnd(f, b))
  {
    if a < b { BlocksOrdered(f, captured, a + 1, b); } else { BlocksOrdered(f, captured, b + 1, a); }
  }

  lemma {:induction false} BlocksOrdered(f: Func, captured: set<nat>, a: nat, b: nat)
    requires BlocksOk(f, captured) && a <= b < |f.blocks|
    ensures f.blocks[a].nactvar <= f.blocks[b].nactvar
    decreases b - a
  {
    if a < b {
      BlocksOrdered(f, captured, a, b - 1);
      assert BlockOk(f, b - 1);
    }
  }

  /** Captures of other functions do not touch a function. */
  lemma CapturedElsewhere(f: Func, captured: set<nat>, id: nat)
    requires BlocksOk(f, captured) && forall h :: 0 <= h < |f.vars| ==> f.vars[h].id != id
    ensures BlocksOk(f, captured + {id})
  {
    forall h: nat | h < |f.vars| ensures IsCaptured(f, captured + {id}, h) == IsCaptured(f, captured, h) {}
    forall a: nat | a < |f.blocks| ensures FlagExact(f, captured + {id}, a) { assert FlagExact(f, captured, a); }
  }

  ghost predicate AllBlocks(fs: seq<Func>, captured: set<nat>) {
    forall j :: 0 <= j < |fs| ==> BlocksOk(fs[j], captured)
  }

  /** The main function has the environment. */
  predicate EnvOk(fs: seq<Func>) { |fs| >= 1 && |fs[0].ups| >= 1 && fs[0].ups[0] == Upvaldesc(ENV, true, 0) }

  ghost predicate Consistent(fs: seq<Func>, captured: set<nat>, next: nat) {
    EnvOk(fs) && UpsOk(fs) && AllBlocks(fs, captured) && CapturesOk(fs, captured) && Distinct(fs, next) && next > 0 &&
    forall id :: id in captured ==> id < next
  }

  lemma GrownDistinct(fs: seq<Func>, gs: seq<Func>, next: nat)
    requires Grown(fs, gs) && Distinct(fs, next)
    ensures Distinct(gs, next)
  {
    forall j | 0 <= j < |fs| ensures gs[j].vars == fs[j].vars { assert GrownAt(fs, gs, j); }
    SameDistinct(fs, gs, next);
  }

  lemma OneDecl(fs: seq<Func>, next: nat, k: nat, i: nat)
    requires Distinct(fs, next) && k < |fs| && i < |fs[k].vars|
    ensures forall j, h :: 0 <= j < |fs| && 0 <= h < |fs[j].vars| && fs[j].vars[h].id == fs[k].vars[i].id ==>
                j == k && h == i
    ensures fs[k].vars[i].id < next
  {
    forall j, h | 0 <= j < |fs| && 0 <= h < |fs[j].vars| && (j != k || h != i)
      ensures fs[j].vars[h].id != fs[k].vars[i].id
    {
      assert Differ(fs, j, h, k, i);
    }
  }

  /** `markupval`. */
  lemma MarkOk(fs: seq<Func>, captured: set<nat>, next: nat, k: nat, i: nat, b: nat, gs: seq<Func>)
    requires Consistent(fs, captured, next) && k < |fs| && i < fs[k].nactvar <= |fs[k].vars| && b < |fs[k].blocks|
    requires fs[k].blocks[b].nactvar <= i < BlockEnd(fs[k], b)
    requires gs == fs[k := fs[k].(blocks := fs[k].blocks[b := fs[k].blocks[b].(upval := true)])]
    ensures Consistent(gs, captured + {fs[k].vars[i].id}, next) && Grown(fs, gs)
  {
    hide UpsOk, Distinct, BlocksOk, CaptureOk;
    var id := fs[k].vars[i].id;
    FlaggedUps(fs, gs, k, gs[k].blocks);
    GrownDistinct(fs, gs, next);
    OneDecl(fs, next, k, i);
    forall j | 0 <= j < |gs| ensures BlocksOk(gs[j], captured + {id}) {
      AllOk(fs, j);
      if j == k { Flagged(fs[k], captured, i, b); } else { CapturedElsewhere(fs[j], captured, id); }
    }
    forall h: nat, u: nat | 1 <= h < |gs| && u < |gs[h].ups| ensures CaptureOk(gs, captured + {id}, h, u) {
      assert CaptureOk(fs, captured, h, u);
      CaptureStays(fs, captured, gs, id, h, u);
    }
  }

  lemma AllOk(fs: seq<Func>, j: nat)
    requires UpsOk(fs) && j < |fs|
    ensures FuncOk(fs[j])
  {
  }

  lemma CaptureStays(fs: seq<Func>, captured: set<nat>, gs: seq<Func>, id: nat, h: nat, u: nat)
    requires 1 <= h < |fs| == |gs| && u < |fs[h].ups| && CaptureOk(fs, captured, h, u) && gs[h].ups == fs[h].ups
    requires gs[h - 1].vars == fs[h - 1].vars
    ensures CaptureOk(gs, captured + {id}, h, u)
  {
  }

  /** `newupvalue`. */
  lemma NewUpOk(fs: seq<Func>, captured: set<nat>, next: nat, k: nat, d: Upvaldesc, gs: seq<Func>)
    requires Consistent(fs, captured, next) && 2 <= k <= |fs| && |fs[k - 1].ups| < MAXUPVAL
    requires gs == fs[k - 1 := fs[k - 1].(ups := fs[k - 1].ups + [d])]
    requires UpDecl(gs, k, |fs[k - 1].ups|).Some? && FuncsOk(fs)
    requires UpDecl(gs, k, |fs[k - 1].ups|) == Visible(fs, k - 1, d.name)
    requires d.instack ==> d.idx < |fs[k - 2].vars| && fs[k - 2].vars[d.idx].id in captured
    ensures Consistent(gs, captured, next) && Grown(fs, gs)
  {
    hide UpsOk, Distinct, BlocksOk, UpDecl, Visible;
    AddedUp(fs, gs, k, d);
    GrownDistinct(fs, gs, next);
    forall j | 0 <= j < |gs| ensures BlocksOk(gs[j], captured) { SameBlocks(fs[j], gs[j], captured); }
    forall h: nat, u: nat | 1 <= h < |gs| && u < |gs[h].ups| ensures CaptureOk(gs, captured, h, u) {
      if h != k - 1 || u < |fs[k - 1].ups| { assert CaptureOk(fs, captured, h, u); }
    }
  }

  lemma SameBlocks(f: Func, g: Func, captured: set<nat>)
    requires BlocksOk(f, captured) && g == f.(ups := g.ups)
    ensures BlocksOk(g, captured)
  {
    forall i: nat | i < |f.vars| ensures IsCaptured(g, captured, i) == IsCaptured(f, captured, i) {}
    forall a: nat | a < |g.blocks| ensures BlockOk(g, a) && FlagExact(g, captured, a) {
      assert BlockOk(f, a) && FlagExact(f, captured, a) && BlockEnd(g, a) == BlockEnd(f, a);
    }
  }

  /** What is known of a consistent state. */
  lemma Facts(fs: seq<Func>, captured: set<nat>, next: nat)
    requires Consistent(fs, captured, next)
    ensures |fs| >= 1 && FuncsOk(fs)
  {
  }

  lemma FactsAt(fs: seq<Func>, captured: set<nat>, next: nat, k: nat)
    requires Consistent(fs, captured, next) && k < |fs|
    ensures FuncOk(fs[k]) && BlocksOk(fs[k], captured)
  {
  }

  lemma VisibleStep(fs: seq<Func>, k: nat, name: Name)
    requires FuncsOk(fs) && k <= |fs|
    ensures Visible(fs, k, name) ==
      if k == 0 then if name == ENV then Some(ENV_DECL) else None
      else
        var i := LastDecl(fs[k - 1].vars, fs[k - 1].nactvar, name);
        if i.Some? then Some(fs[k - 1].vars[i.value]) else Visible(fs, k - 1, name)
  {
  }

  /** An upvalue that is there already means the same. */
  lemma OldUpvalue(fs: seq<Func>, captured: set<nat>, next: nat, k: nat, u: nat)
    requires Consistent(fs, captured, next) && 1 <= k <= |fs| && u < |fs[k - 1].ups| && FuncsOk(fs)
    ensures UpDecl(fs, k, u).Some? && UpDecl(fs, k, u) == Visible(fs, k - 1, fs[k - 1].ups[u].name)
  {
    hide UpDecl, Visible;
    assert UpOk(fs, k, u);
  }

  /** The environment is found in the main function at the latest. */
  lemma EnvironmentIsFound(fs: seq<Func>, captured: set<nat>, next: nat)
    requires Consistent(fs, captured, next)
    ensures |fs| >= 1 && |fs[0].ups| >= 1 && fs[0].ups[0].name == ENV
  {
  }

  /** The index of an upvalue fits into a byte. */
  lemma IndexFits(fs: seq<Func>, k: nat, v: Var)
    requires FuncsOk(fs) && k <= |fs| && VarDecl(fs, k, v).Some?
    ensures match v case VVoid => false case VLocal(i) => i < 256 case VUpval(u) => u < 256
  {
    assert k > 0;
    assert FuncOk(fs[k - 1]);
  }

  /** A new upvalue leads to what the enclosing function has found. */
  lemma NewMeans(fs: seq<Func>, gs: seq<Func>, k: nat, d: Upvaldesc, v: Var)
    requires 2 <= k <= |fs| && gs == fs[k - 1 := fs[k - 1].(ups := fs[k - 1].ups + [d])] && VarDecl(fs, k - 1, v).Some?
    requires d.instack == v.VLocal? && d.idx == if v.VLocal? then v.i else v.u
    ensures UpDecl(gs, k, |fs[k - 1].ups|) == VarDecl(fs, k - 1, v)
  {
    if v.VUpval? { SameUpDecl(fs, gs, k - 1, v.u); }
  }

  class LexState {
    /** The functions that are being compiled, the main function first. */
    var fs: seq<Func>
    var next: nat
    ghost var captured: set<nat>

    ghost predicate Valid()
      reads this
    {
      Consistent(fs, captured, next)
    }

    // ---- looking names up ----

    /** `searchvar`. */
    method SearchVar(k: nat, name: Name) returns (r: Option<nat>)
      requires k < |fs| && FuncOk(fs[k])
      ensures r == LastDecl(fs[k].vars, fs[k].nactvar, name)
    {
      var i: int := fs[k].nactvar - 1;
      while i >= 0
        invariant -1 <= i < fs[k].nactvar <= |fs[k].vars|
        invariant LastDecl(fs[k].vars, i + 1, name) == LastDecl(fs[k].vars, fs[k].nactvar, name)
      {
        if fs[k].vars[i].name == name {
          return Some(i);
        }
        i := i - 1;
      }
      return None;
    }

    /** `searchupvalue`. */
    method SearchUpvalue(k: nat, name: Name) returns (r: Option<nat>)
      requires k < |fs|
      ensures r.Some? ==> r.value < |fs[k].ups| && fs[k].ups[r.value].name == name
      ensures forall u :: 0 <= u < (if r.Some? then r.value else |fs[k].ups|) ==> fs[k].ups[u].name != name
    {
      for i := 0 to |fs[k].ups|
        invariant forall u :: 0 <= u < i ==> fs[k].ups[u].name != name
      {
        if fs[k].ups[i].name == name {
          return Some(i);
        }
      }
      return None;
    }

    /** `markupval`: the innermost block that starts at or before a local is the one that declares it. */
    method MarkUpval(k: nat, level: nat)
      requires Valid() && k < |fs| && level < fs[k].nactvar
      modifies this
      ensures Valid() && Grown(old(fs), fs) && next == old(next) && level < |fs[k].vars|
      ensures forall j :: 0 <= j < |fs| ==> fs[j].ups == old(fs)[j].ups
      ensures captured == old(captured) + {fs[k].vars[level].id}
    {
      hide Consistent;
      FactsAt(fs, captured, next, k);
      var bl: int := |fs[k].blocks| - 1;
      while fs[k].blocks[bl].nactvar > level
        invariant 0 <= bl < |fs[k].blocks| && level < BlockEnd(fs[k], bl)
        decreases bl
      {
        bl := bl - 1;
      }
      ghost var f := fs;
      fs := fs[k := fs[k].(blocks := fs[k].blocks[bl := fs[k].blocks[bl].(upval := true)])];
      captured := captured + {fs[k].vars[level].id};
      MarkOk(f, old(captured), next, k, level, bl, fs);
    }

    /** `newupvalue`: v is what the enclosing function found. */
    method NewUpvalue(k: nat, name: Name, v: Var) returns (r: Outcome<nat>)
      requires Valid() && 2 <= k <= |fs| && !v.VVoid? && FuncsOk(fs) && VarDecl(fs, k - 1, v).Some?
      requires VarDecl(fs, k - 1, v) == Visible(fs, k - 1, name)
      requires v.VLocal? ==> v.i < |fs[k - 2].vars| && fs[k - 2].vars[v.i].id in captured
      modifies this`fs
      ensures r.Ok? ==> Valid() && Grown(old(fs), fs) && UpDecl(fs, k, r.value) == Visible(old(fs), k - 1, name)
      ensures r.TooMany? <==> |old(fs)[k - 1].ups| >= MAXUPVAL
      ensures forall j :: 0 <= j < |fs| == |old(fs)| && j != k - 1 ==> fs[j] == old(fs)[j]
    {
      hide Consistent, Visible;
      Facts(fs, captured, next);
      if |fs[k - 1].ups| + 1 > MAXUPVAL {
        return TooMany;
      }
      var d := Upvaldesc(name, v.VLocal?, (if v.VLocal? then v.i else v.u) % 256);
      IndexFits(fs, k - 1, v);
      ghost var f := fs;
      var u := |fs[k - 1].ups|;
      fs := fs[k - 1 := fs[k - 1].(ups := fs[k - 1].ups + [d])];
      NewMeans(f, fs, k, d, v);
      NewUpOk(f, captured, next, k, d, fs);
      return Ok(u);
    }

    /** `singlevaraux`, in the outermost k functions: what it finds is what is visible there, and every function on the
        way gets an upvalue for it. */
    method SingleVarAux(k: nat, name: Name, base: bool) returns (r: Outcome<Var>)
      requires Valid() && k <= |fs| && (k == 0 ==> name != ENV)
      modifies this
      ensures r.Ok? ==> Valid() && Grown(old(fs), fs) && next == old(next) && old(captured) <= captured
      ensures r.Ok? ==> FuncsOk(old(fs)) && k <= |fs|
      ensures r.Ok? ==> VarDecl(fs, k, r.value) == Visible(old(fs), k, name)
      ensures r.Ok? ==> (r.value.VVoid? <==> Visible(old(fs), k, name).None?)
      ensures r.Ok? && r.value.VLocal? ==> k >= 1 && r.value.i < |fs[k - 1].vars|
      ensures r.Ok? && r.value.VLocal? ==> (!base ==> fs[k - 1].vars[r.value.i].id in captured)
      ensures r.Ok? && r.value.VVoid? ==> fs == old(fs)
      ensures r.Ok? ==> forall j :: k <= j < |fs| == |old(fs)| ==> fs[j].ups == old(fs)[j].ups
      ensures FuncsOk(old(fs)) && (r.TooMany? <==> NoRoom(old(fs), k, name))
      decreases k
    {
      hide Consistent, UpDecl, Visible, Grown, NoRoom;
      Facts(fs, captured, next);
      VisibleStep(fs, k, name);
      NoRoomStep(fs, k, name);
      GrownSelf(fs);
      if k == 0 {
        return Ok(VVoid);
      }
      var i := SearchVar(k - 1, name);
      if i.Some? {
        if !base {
          MarkUpval(k - 1, i.value);
          GrownVars(old(fs), fs, k - 1);
        }
        return Ok(VLocal(i.value));
      }
      var idx := SearchUpvalue(k - 1, name);
      if idx.Some? {
        OldUpvalue(fs, captured, next, k, idx.value);
        return Ok(VUpval(idx.value));
      }
      EnvironmentIsFound(fs, captured, next);
      var x :- SingleVarAux(k - 1, name, false);
      GrownVars(old(fs), fs, k - 1);
      if x.VVoid? {
        return Ok(VVoid);
      }
      ghost var f := fs;
      Facts(f, captured, next);
      GrownVisible(old(fs), f, k - 1, name);
      VisibleStep(f, k - 1, name);
      var u :- NewUpvalue(k, name, x);
      GrownTrans(old(fs), f, fs);
      return Ok(VUpval(u));
    }

    /** `singlevar`: a name is the innermost declaration that is visible, or a field of the environment. */
    method SingleVar(name: Name) returns (r: Outcome<(Var, bool)>)
      requires Valid()
      modifies this
      ensures r.Ok? ==> Valid() && Grown(old(fs), fs) && old(captured) <= captured && FuncsOk(old(fs))
      ensures r.Ok? ==> |fs| == |old(fs)|
      ensures r.Ok? ==> var (v, global) := r.value; var d := Visible(old(fs), |old(fs)|, name);
        global == d.None? && VarDecl(fs, |fs|, v) == if global then Visible(old(fs), |old(fs)|, ENV) else d
      ensures FuncsOk(old(fs))
      ensures r.TooMany? <==>
                (NoRoom(old(fs), |old(fs)|, name) ||
                 (Visible(old(fs), |old(fs)|, name).None? && NoRoom(old(fs), |old(fs)|, ENV)))
    {
      hide Consistent, UpDecl, Visible, Grown, NoRoom;
      Facts(fs, captured, next);
      var v :- SingleVarAux(|fs|, name, true);
      GrownVars(old(fs), fs, 0);
      if !v.VVoid? {
        return Ok((v, false));
      }
      ghost var f := fs;
      Facts(f, captured, next);
      v :- SingleVarAux(|fs|, ENV, true);
      GrownVars(f, fs, 0);
      GrownTrans(old(fs), f, fs);
      GrownVisible(old(fs), f, |f|, ENV);
      return Ok((v, true));
    }

    // ---- declarations ----

    /** `new_localvar`: the name is not visible yet. */
    method NewLocalVar(name: Name) returns (r: Outcome<()>)
      requires Valid()
      modifies this`fs, this`next
      ensures r.Ok? ==> Valid() && |fs| == |old(fs)| && next == old(next) + 1
      ensures r.Ok? ==>
                var n := |old(fs)| - 1;
                fs == old(fs)[n := old(fs)[n].(vars := old(fs)[n].vars + [Decl(name, old(next))])]
      ensures r.TooMany? <==> |old(fs)| > 0 && |old(fs)[|old(fs)| - 1].vars| >= MAXVARS
    {
      hide Consistent;
      Facts(fs, captured, next);
      var n := |fs| - 1;
      if |fs[n].vars| + 1 > MAXVARS {
        return TooMany;
      }
      ghost var f := fs;
      fs := fs[n := fs[n].(vars := fs[n].vars + [Decl(name, next)])];
      next := next + 1;
      DeclaredOk(f, captured, old(next), name, fs);
      return Ok(());
    }

    /** `adjustlocalvars`: the next names that have been declared become visible. */
    method AdjustLocalVars(nvars: nat)
      requires Valid() && fs[|fs| - 1].nactvar + nvars <= |fs[|fs| - 1].vars|
      modifies this`fs
      ensures Valid() && var n := |old(fs)| - 1; fs == old(fs)[n := old(fs)[n].(nactvar := old(fs)[n].nactvar + nvars)]
    {
      hide Consistent;
      Facts(fs, captured, next);
      ghost var f := fs;
      var n := |fs| - 1;
      fs := fs[n := fs[n].(nactvar := fs[n].nactvar + nvars)];
      AdjustedOk(f, captured, next, nvars, fs);
    }

    // ---- blocks and functions ----

    /** `enterblock`. */
    method EnterBlock()
      requires Valid()
      modifies this`fs
      ensures Valid()
      ensures var n := |old(fs)| - 1;
              fs == old(fs)[n := old(fs)[n].(blocks := old(fs)[n].blocks + [Block(old(fs)[n].nactvar, false)])]
    {
      hide Consistent;
      Facts(fs, captured, next);
      ghost var f := fs;
      var n := |fs| - 1;
      fs := fs[n := fs[n].(blocks := fs[n].blocks + [Block(fs[n].nactvar, false)])];
      EnteredOk(f, captured, next, fs);
    }

    /** `leaveblock` of an inner block: code to close upvalues is needed exactly if one of its locals is captured, and
        all its locals go out of sight. */
    method LeaveBlock() returns (close: bool)
      requires Valid() && var f := fs[|fs| - 1]; |f.blocks| >= 2 && |f.vars| == f.nactvar
      modifies this`fs
      ensures Valid() && var n := |old(fs)| - 1; var f := old(fs)[n];
        var level := f.blocks[|f.blocks| - 1].nactvar;
        level <= |f.vars| &&
        fs == old(fs)[n := f.(vars := f.vars[..level], nactvar := level, blocks := f.blocks[..|f.blocks| - 1])] &&
        (close <==> exists i: nat :: level <= i < |f.vars| && IsCaptured(f, captured, i))
    {
      hide Consistent;
      Facts(fs, captured, next);
      FactsAt(fs, captured, next, |fs| - 1);
      ghost var f := fs;
      var n := |fs| - 1;
      var bl := fs[n].blocks[|fs[n].blocks| - 1];
      close := bl.upval;
      LastBlock(fs[n], captured);
      fs := fs[n := fs[n].(blocks := fs[n].blocks[..|fs[n].blocks| - 1])];
      fs := fs[n := fs[n].(vars := fs[n].vars[..|fs[n].vars| - (fs[n].nactvar - bl.nactvar)], nactvar := bl.nactvar)];
      LeftOk(f, captured, next, fs);
    }

    /** `open_func`. */
    method OpenFunc()
      requires Valid()
      modifies this`fs
      ensures Valid() && fs == old(fs) + [Func([], 0, [], [Block(0, false)])]
    {
      hide Consistent;
      ghost var f := fs;
      fs := fs + [Func([], 0, [], [Block(0, false)])];
      OpenedOk(f, captured, next, fs);
    }

    /** `close_func`: what is left of a function are its upvalue descriptions. */
    method CloseFunc() returns (ups: seq<Upvaldesc>)
      requires Valid() && |fs| >= 2
      modifies this`fs
      ensures Valid() && fs == old(fs)[..|old(fs)| - 1] && ups == old(fs)[|old(fs)| - 1].ups
    {
      hide Consistent;
      ghost var f := fs;
      ups := fs[|fs| - 1].ups;
      fs := fs[..|fs| - 1];
      ClosedOk(f, captured, next, fs);
    }

    /** `mainfunc`: a function with the environment as upvalue. */
    constructor ()
      ensures Valid() && captured == {} && next == 1
      ensures fs == [Func([], 0, [Upvaldesc(ENV, true, 0)], [Block(0, false)])]
    {
      fs, next, captured := [Func([], 0, [Upvaldesc(ENV, true, 0)], [Block(0, false)])], 1, {};
      new;
      InitialOk(fs);
    }
  }

  lemma GrownSelf(fs: seq<Func>)
    ensures Grown(fs, fs)
  {
  }

  lemma GrownVars(fs: seq<Func>, gs: seq<Func>, k: nat)
    requires Grown(fs, gs) && k < |fs|
    ensures |gs| == |fs| && gs[k].vars == fs[k].vars
  {
    assert GrownAt(fs, gs, k);
  }

  // ---- declarations, blocks and functions keep the state consistent ----

  /** The innermost function changes; its upvalues do not. */
  lemma TopConsistent(fs: seq<Func>, captured: set<nat>, next: nat, gs: seq<Func>, next': nat)
    requires Consistent(fs, captured, next) && |gs| == |fs| && gs[..|fs| - 1] == fs[..|fs| - 1] && next <= next'
    requires var f, g := fs[|fs| - 1], gs[|fs| - 1];
             g.ups == f.ups && FuncOk(g) && BlocksOk(g, captured) && Distinct(gs, next')
    ensures Consistent(gs, captured, next')
  {
    hide UpsOk, Distinct, BlocksOk, CaptureOk;
    var n := |fs| - 1;
    TopChanged(fs, gs);
    forall j | 0 <= j < n ensures gs[j] == fs[j] { assert gs[..n][j] == fs[..n][j]; }
    forall h: nat, u: nat | 1 <= h < |gs| && u < |gs[h].ups| ensures CaptureOk(gs, captured, h, u) {
      assert CaptureOk(fs, captured, h, u);
      CaptureStays(fs, captured, gs, 0, h, u);
      CaptureOther(gs, captured, fs, h, u);
    }
  }

  lemma CaptureOther(gs: seq<Func>, captured: set<nat>, fs: seq<Func>, h: nat, u: nat)
    requires 1 <= h < |fs| == |gs| && u < |fs[h].ups| && CaptureOk(fs, captured, h, u) && gs[h].ups == fs[h].ups
    requires gs[h - 1].vars == fs[h - 1].vars
    ensures CaptureOk(gs, captured, h, u)
  {
  }

  lemma DeclaredOk(fs: seq<Func>, captured: set<nat>, next: nat, name: Name, gs: seq<Func>)
    requires Consistent(fs, captured, next) && |fs[|fs| - 1].vars| < MAXVARS
    requires var n := |fs| - 1; gs == fs[n := fs[n].(vars := fs[n].vars + [Decl(name, next)])]
    ensures Consistent(gs, captured, next + 1)
  {
    var n := |fs| - 1;
    var f, g := fs[n], gs[n];
    hide UpsOk, UpDecl, Visible;
    FactsAt(fs, captured, next, n);
    PositiveNext(fs, captured, next);
    DeclaredDistinct(fs, next, Decl(name, next), gs);
    forall i: nat | i < |f.vars| ensures IsCaptured(g, captured, i) == IsCaptured(f, captured, i) {}
    forall b: nat | b < |g.blocks| ensures BlockOk(g, b) && FlagExact(g, captured, b) {
      assert BlockOk(f, b) && FlagExact(f, captured, b) && BlockEnd(g, b) == BlockEnd(f, b);
      BlockInside(f, captured, b);
    }
    forall i: nat | g.nactvar <= i < |g.vars| ensures !IsCaptured(g, captured, i) {}
    TopConsistent(fs, captured, next, gs, next + 1);
  }

  lemma PositiveNext(fs: seq<Func>, captured: set<nat>, next: nat)
    requires Consistent(fs, captured, next)
    ensures next !in captured && next > 0
  {
  }

  lemma BlockInside(f: Func, captured: set<nat>, b: nat)
    requires BlocksOk(f, captured) && b < |f.blocks|
    ensures BlockEnd(f, b) <= f.nactvar
  {
    if b + 1 < |f.blocks| {
      BlocksOrdered(f, captured, b + 1, |f.blocks| - 1);
      assert BlockOk(f, |f.blocks| - 1);
    }
  }

  lemma DeclaredDistinct(fs: seq<Func>, next: nat, d: Decl, gs: seq<Func>)
    requires Distinct(fs, next) && |fs| >= 1 && d.id == next && next > 0
    requires var n := |fs| - 1; gs == fs[n := fs[n].(vars := fs[n].vars + [d])]
    ensures Distinct(gs, next + 1)
  {
    forall j, i, k, h | 0 <= j < |gs| && 0 <= k < |gs| && 0 <= i < |gs[j].vars| && 0 <= h < |gs[k].vars| &&
        (j != k || i != h)
      ensures Differ(gs, j, i, k, h)
    {
      if i < |fs[j].vars| && h < |fs[k].vars| { assert Differ(fs, j, i, k, h); }
    }
  }

  lemma AdjustedOk(fs: seq<Func>, captured: set<nat>, next: nat, nvars: nat, gs: seq<Func>)
    requires Consistent(fs, captured, next)
    requires var n := |fs| - 1;
             fs[n].nactvar + nvars <= |fs[n].vars| && gs == fs[n := fs[n].(nactvar := fs[n].nactvar + nvars)]
    ensures Consistent(gs, captured, next)
  {
    var n := |fs| - 1;
    var f, g := fs[n], gs[n];
    hide UpsOk, UpDecl, Visible, Distinct;
    FactsAt(fs, captured, next, n);
    SameDistinct(fs, gs, next);
    forall i: nat | i < |f.vars| ensures IsCaptured(g, captured, i) == IsCaptured(f, captured, i) {}
    forall b: nat | b < |g.blocks| ensures BlockOk(g, b) && FlagExact(g, captured, b) {
      assert BlockOk(f, b) && FlagExact(f, captured, b);
      if f.blocks[b].upval {
        var i: nat :| f.blocks[b].nactvar <= i < BlockEnd(f, b) && i < |f.vars| && IsCaptured(f, captured, i);
        assert IsCaptured(g, captured, i);
      }
    }
    TopConsistent(fs, captured, next, gs, next);
  }

  lemma SameDistinct(fs: seq<Func>, gs: seq<Func>, next: nat)
    requires Distinct(fs, next) && |gs| == |fs| && forall j :: 0 <= j < |fs| ==> gs[j].vars <= fs[j].vars
    ensures Distinct(gs, next)
  {
    forall j, i | 0 <= j < |gs| && 0 <= i < |gs[j].vars| ensures gs[j].vars[i] == fs[j].vars[i] &&
      0 < gs[j].vars[i].id < next {}
    forall j, i, k, h | 0 <= j < |gs| && 0 <= k < |gs| && 0 <= i < |gs[j].vars| && 0 <= h < |gs[k].vars| &&
        (j != k || i != h)
      ensures Differ(gs, j, i, k, h)
    {
      assert Differ(fs, j, i, k, h);
    }
  }

  /** A function without variables more, or some function less. */
  lemma OtherDistinct(fs: seq<Func>, gs: seq<Func>, next: nat)
    requires Distinct(fs, next) && forall j :: 0 <= j < |gs| && gs[j].vars != [] ==> j < |fs| && gs[j] == fs[j]
    ensures Distinct(gs, next)
  {
    forall j, i, k, h | 0 <= j < |gs| && 0 <= k < |gs| && 0 <= i < |gs[j].vars| && 0 <= h < |gs[k].vars| &&
        (j != k || i != h)
      ensures Differ(gs, j, i, k, h)
    {
      assert Differ(fs, j, i, k, h);
    }
  }

  lemma EnteredOk(fs: seq<Func>, captured: set<nat>, next: nat, gs: seq<Func>)
    requires Consistent(fs, captured, next)
    requires var n := |fs| - 1; gs == fs[n := fs[n].(blocks := fs[n].blocks + [Block(fs[n].nactvar, false)])]
    ensures Consistent(gs, captured, next)
  {
    var n := |fs| - 1;
    var f, g := fs[n], gs[n];
    hide UpsOk, UpDecl, Visible, Distinct;
    FactsAt(fs, captured, next, n);
    SameDistinct(fs, gs, next);
    forall i: nat | i < |f.vars| ensures IsCaptured(g, captured, i) == IsCaptured(f, captured, i) {}
    forall b: nat | b < |g.blocks| ensures BlockOk(g, b) && FlagExact(g, captured, b) {
      if b < |f.blocks| { assert BlockOk(f, b) && FlagExact(f, captured, b) && BlockEnd(g, b) == BlockEnd(f, b); }
    }
    TopConsistent(fs, captured, next, gs, next);
  }

  /** The last block reaches to the last variable. */
  lemma LastBlock(f: Func, captured: set<nat>)
    requires BlocksOk(f, captured) && |f.vars| == f.nactvar
    ensures var bl := f.blocks[|f.blocks| - 1];
      bl.nactvar <= |f.vars| &&
      (bl.upval <==> exists i: nat :: bl.nactvar <= i < |f.vars| && IsCaptured(f, captured, i))
  {
    assert BlockOk(f, |f.blocks| - 1) && FlagExact(f, captured, |f.blocks| - 1);
  }

  lemma LeftOk(fs: seq<Func>, captured: set<nat>, next: nat, gs: seq<Func>)
    requires Consistent(fs, captured, next) && var f := fs[|fs| - 1]; |f.blocks| >= 2 && |f.vars| == f.nactvar
    requires var n := |fs| - 1; var f := fs[n]; var level := f.blocks[|f.blocks| - 1].nactvar;
      level <= |f.vars| &&
      gs == fs[n := f.(vars := f.vars[..level], nactvar := level, blocks := f.blocks[..|f.blocks| - 1])]
    ensures Consistent(gs, captured, next)
  {
    var n := |fs| - 1;
    var f, g := fs[n], gs[n];
    hide UpsOk, UpDecl, Visible, Distinct;
    FactsAt(fs, captured, next, n);
    SameDistinct(fs, gs, next);
    forall i: nat | i < |g.vars| ensures IsCaptured(g, captured, i) == IsCaptured(f, captured, i) {}
    forall b: nat | b < |g.blocks| ensures BlockOk(g, b) && FlagExact(g, captured, b) {
      assert BlockOk(f, b) && FlagExact(f, captured, b) && BlockEnd(g, b) == BlockEnd(f, b);
      BlocksOrdered(f, captured, b + 1, |f.blocks| - 1);
      if f.blocks[b].upval {
        var i: nat :| f.blocks[b].nactvar <= i < BlockEnd(f, b) && i < |f.vars| && IsCaptured(f, captured, i);
        assert IsCaptured(g, captured, i);
      }
    }
    TopConsistent(fs, captured, next, gs, next);
  }

  lemma OpenedOk(fs: seq<Func>, captured: set<nat>, next: nat, gs: seq<Func>)
    requires Consistent(fs, captured, next) && gs == fs + [Func([], 0, [], [Block(0, false)])]
    ensures Consistent(gs, captured, next)
  {
    hide UpsOk, CaptureOk;
    Longer(fs, Func([], 0, [], [Block(0, false)]));
    forall b: nat | b < 1 ensures FlagExact(gs[|fs|], captured, b) {}
    OtherDistinct(fs, gs, next);
    forall h: nat, u: nat | 1 <= h < |gs| && u < |gs[h].ups| ensures CaptureOk(gs, captured, h, u) {
      assert CaptureOk(fs, captured, h, u);
      SameCapture(fs, gs, captured, h, u);
    }
  }

  lemma SameCapture(fs: seq<Func>, gs: seq<Func>, captured: set<nat>, h: nat, u: nat)
    requires 1 <= h < |fs| && h < |gs| && u < |fs[h].ups| && CaptureOk(fs, captured, h, u) && gs[h] == fs[h]
    requires gs[h - 1] == fs[h - 1]
    ensures CaptureOk(gs, captured, h, u)
  {
  }

  lemma ClosedOk(fs: seq<Func>, captured: set<nat>, next: nat, gs: seq<Func>)
    requires Consistent(fs, captured, next) && |fs| >= 2 && gs == fs[..|fs| - 1]
    ensures Consistent(gs, captured, next)
  {
    hide UpsOk, CaptureOk;
    Shorter(fs, gs);
    OtherDistinct(fs, gs, next);
    forall h: nat, u: nat | 1 <= h < |gs| && u < |gs[h].ups| ensures CaptureOk(gs, captured, h, u) {
      assert CaptureOk(fs, captured, h, u);
      SameCapture(fs, gs, captured, h, u);
    }
  }

  lemma InitialOk(fs: seq<Func>)
    requires fs == [Func([], 0, [Upvaldesc(ENV, true, 0)], [Block(0, false)])]
    ensures Consistent(fs, {}, 1)
  {
    assert UpOk(fs, 1, 0);
  }
}
