/** Binary chunks: the bytes that a function is dumped to, how they are read back, and why that gives the function
    again. */
module ChunkFormat {
  import opened Shared

  type byte = n: nat | n < 256

  type Bytes = seq<byte>

  // ---- numbers as bytes ----

  function Bound(n: nat): (b: nat)
    ensures b > 0
  {
    if n == 0 then 1 else 256 * Bound(n - 1)
  }

  function Little(n: nat, x: nat): (b: Bytes)
    ensures |b| == n
  {
    if n == 0 then [] else [x % 256] + Little(n - 1, x / 256)
  }

  function FromLittle(b: Bytes): nat { if b == [] then 0 else b[0] + 256 * FromLittle(b[1..]) }

  function Reversed(b: Bytes): Bytes { seq(|b|, i requires 0 <= i < |b| => b[|b| - 1 - i]) }

  /** The bytes in the order of the machine. */
  function Ordered(b: Bytes, big: bool): (r: Bytes)
    ensures |r| == |b|
  {
    if big then Reversed(b) else b
  }

  lemma {:induction false} LittleBack(n: nat, x: nat)
    requires x < Bound(n)
    ensures FromLittle(Little(n, x)) == x
  {
    if n > 0 {
      assert x / 256 < Bound(n - 1);
      LittleBack(n - 1, x / 256);
      assert Little(n, x)[1..] == Little(n - 1, x / 256);
    }
  }

  function Unsigned(n: nat, x: nat, big: bool): (b: Bytes)
    ensures |b| == n
  {
    Ordered(Little(n, x), big)
  }

  function FromUnsigned(b: Bytes, big: bool): nat { FromLittle(Ordered(b, big)) }

  lemma UnsignedBack(n: nat, x: nat, big: bool)
    requires x < Bound(n)
    ensures FromUnsigned(Unsigned(n, x, big), big) == x
  {
    LittleBack(n, x);
    assert Reversed(Reversed(Little(n, x))) == Little(n, x);
  }

  /** Two's complement. */
  predicate FitsSigned(n: nat, x: int) { 0 - Bound(n) <= 2 * x < Bound(n) }

  function Signed(n: nat, x: int, big: bool): (b: Bytes)
    requires FitsSigned(n, x)
    ensures |b| == n
  {
    Unsigned(n, if x < 0 then x + Bound(n) else x, big)
  }

  function FromSigned(b: Bytes, big: bool): int {
    var x := FromUnsigned(b, big);
    if 2 * x >= Bound(|b|) then x - Bound(|b|) else x
  }

  lemma SignedBack(n: nat, x: int, big: bool)
    requires FitsSigned(n, x)
    ensures FromSigned(Signed(n, x, big), big) == x
  {
    hide Bound, Unsigned, FromUnsigned;
    UnsignedBack(n, if x < 0 then x + Bound(n) else x, big);
  }

  // ---- the machine ----

  /** What a binary chunk depends on: the sizes of int, size_t, instructions, integers and numbers, the order of
      bytes, and the form of the number 370.5. */
  datatype Machine = Machine(ints: nat, sizes: nat, instructions: nat, integers: nat, numbers: nat, big: bool,
      num: Bytes)

  predicate IsMachine(m: Machine) {
    2 <= m.ints < 256 && 2 <= m.sizes < 256 && 4 <= m.instructions < 256 && 8 <= m.integers < 256 &&
    1 <= m.numbers < 256 && |m.num| == m.numbers
  }

  // ---- functions ----

  /** A string object. The same object has the same contents. */
  datatype TString = TString(id: nat, s: Bytes)

  datatype Konst<S> = KNil | KBool(b: bool) | KFlt(bits: Bytes) | KInt(i: int) | KStr(s: S)

  datatype Upval<S> = Upval(instack: byte, idx: byte, name: Option<S>)

  datatype LocVar<S> = LocVar(name: Option<S>, startpc: int, endpc: int)

  datatype Proto<S> = Proto(source: Option<S>, linedefined: int, lastlinedefined: int,
                            numparams: byte, isVararg: byte, maxstacksize: byte,
                            code: seq<nat>, k: seq<Konst<S>>, upvalues: seq<Upval<S>>, p: seq<Proto<S>>,
                            lineinfo: seq<int>, locvars: seq<LocVar<S>>)

  function Text(s: Option<TString>): Option<Bytes> { if s.Some? then Some(s.value.s) else None }

  function KonstText(k: Konst<TString>): Konst<Bytes> {
    match k
    case KNil => KNil
    case KBool(b) => KBool(b)
    case KFlt(bits) => KFlt(bits)
    case KInt(i) => KInt(i)
    case KStr(s) => KStr(s.s)
  }

  function UpvalText(u: Upval<TString>): Upval<Bytes> { Upval(u.instack, u.idx, Text(u.name)) }

  function LocVarText(v: LocVar<TString>): LocVar<Bytes> { LocVar(Text(v.name), v.startpc, v.endpc) }

  function Map<A, B>(f: A -> B, xs: seq<A>): (ys: seq<B>)
    ensures |ys| == |xs| && forall i :: 0 <= i < |xs| ==> ys[i] == f(xs[i])
  {
    seq(|xs|, i requires 0 <= i < |xs| => f(xs[i]))
  }

  // ---- what fits into the types of the machine ----

  predicate FitsString(m: Machine, s: Option<TString>) { s.Some? ==> |s.value.s| + 1 < Bound(m.sizes) }

  predicate FitsKonst(m: Machine, k: Konst<TString>) {
    match k
    case KFlt(bits) => |bits| == m.numbers
    case KInt(i) => FitsSigned(m.integers, i)
    case KStr(s) => FitsString(m, Some(s))
    case _ => true
  }

  predicate FitsLocVar(m: Machine, v: LocVar<TString>) {
    FitsString(m, v.name) && FitsSigned(m.ints, v.startpc) && FitsSigned(m.ints, v.endpc)
  }

  /** Everything but the nested functions. */
  predicate FitsOne(m: Machine, f: Proto<TString>) {
    FitsString(m, f.source) && FitsSigned(m.ints, f.linedefined) && FitsSigned(m.ints, f.lastlinedefined) &&
    FitsSigned(m.ints, |f.code|) && FitsSigned(m.ints, |f.k|) && FitsSigned(m.ints, |f.upvalues|) &&
    FitsSigned(m.ints, |f.p|) && FitsSigned(m.ints, |f.lineinfo|) && FitsSigned(m.ints, |f.locvars|) &&
    |f.upvalues| < 256 &&
    (forall i :: 0 <= i < |f.code| ==> f.code[i] < Bound(m.instructions)) &&
    (forall i :: 0 <= i < |f.k| ==> FitsKonst(m, f.k[i])) &&
    (forall i :: 0 <= i < |f.upvalues| ==> FitsString(m, f.upvalues[i].name)) &&
    (forall i :: 0 <= i < |f.lineinfo| ==> FitsSigned(m.ints, f.lineinfo[i])) &&
    (forall i :: 0 <= i < |f.locvars| ==> FitsLocVar(m, f.locvars[i]))
  }

  predicate Fits(m: Machine, f: Proto<TString>) {
    FitsOne(m, f) && forall i :: 0 <= i < |f.p| ==> Fits(m, f.p[i])
  }

  // ---- dumping ----

  function DumpedInt(m: Machine, x: int): Bytes
    requires FitsSigned(m.ints, x)
  {
    Signed(m.ints, x, m.big)
  }

  /** Zero for no string; otherwise the length and one, in a byte or behind 255 as a size, and the contents. */
  function DumpedString(m: Machine, s: Option<Bytes>): Bytes {
    match s
    case None => [0]
    case Some(t) => (if |t| + 1 < 255 then [|t| + 1] else [255] + Unsigned(m.sizes, |t| + 1, m.big)) + t
  }

  const MAXSHORTLEN := 40

  function DumpedKonst(m: Machine, k: Konst<TString>): Bytes
    requires FitsKonst(m, k)
  {
    match k
    case KNil => [0]
    case KBool(b) => [1, if b then 1 else 0]
    case KFlt(bits) => [3] + bits
    case KInt(i) => [19] + Signed(m.integers, i, m.big)
    case KStr(s) => [if |s.s| <= MAXSHORTLEN then 4 else 20] + DumpedString(m, Some(s.s))
  }

  function DumpedUpval(u: Upval<TString>): Bytes { [u.instack, u.idx] }

  function DumpedLocVar(m: Machine, v: LocVar<TString>): Bytes
    requires FitsLocVar(m, v)
  {
    DumpedString(m, Text(v.name)) + (DumpedInt(m, v.startpc) + DumpedInt(m, v.endpc))
  }

  /** One after the other. */
  function All<T>(xs: seq<T>, d: T --> Bytes): Bytes
    requires forall i :: 0 <= i < |xs| ==> d.requires(xs[i])
  {
    if xs == [] then [] else d(xs[0]) + All(xs[1..], d)
  }

  /** A count, and the elements. */
  function DumpedList<T>(m: Machine, xs: seq<T>, d: T --> Bytes): Bytes
    requires FitsSigned(m.ints, |xs|) && forall i :: 0 <= i < |xs| ==> d.requires(xs[i])
  {
    DumpedInt(m, |xs|) + All(xs, d)
  }

  // How the elements of lists are written.

  function CodeWriter(m: Machine): nat -> Bytes { x => Unsigned(m.instructions, x, m.big) }

  function LineWriter(m: Machine): int --> Bytes { x requires FitsSigned(m.ints, x) => DumpedInt(m, x) }

  function KonstWriter(m: Machine): Konst<TString> --> Bytes { k requires FitsKonst(m, k) => DumpedKonst(m, k) }

  function LocVarWriter(m: Machine): LocVar<TString> --> Bytes { v requires FitsLocVar(m, v) => DumpedLocVar(m, v) }

  function NameWriter(m: Machine): Upval<TString> -> Bytes { (u: Upval<TString>) => DumpedString(m, Text(u.name)) }

  function DumpedCode(m: Machine, code: seq<nat>): Bytes
    requires FitsSigned(m.ints, |code|)
  {
    DumpedList(m, code, CodeWriter(m))
  }

  function DumpedLines(m: Machine, lines: seq<int>): Bytes
    requires FitsSigned(m.ints, |lines|) && forall i :: 0 <= i < |lines| ==> FitsSigned(m.ints, lines[i])
  {
    DumpedList(m, lines, LineWriter(m))
  }

  function DumpedKonsts(m: Machine, ks: seq<Konst<TString>>): Bytes
    requires FitsSigned(m.ints, |ks|) && forall i :: 0 <= i < |ks| ==> FitsKonst(m, ks[i])
  {
    DumpedList(m, ks, KonstWriter(m))
  }

  function DumpedUpvals(m: Machine, us: seq<Upval<TString>>): Bytes
    requires FitsSigned(m.ints, |us|)
  {
    DumpedList(m, us, DumpedUpval)
  }

  function DumpedLocVars(m: Machine, vs: seq<LocVar<TString>>): Bytes
    requires FitsSigned(m.ints, |vs|) && forall i :: 0 <= i < |vs| ==> FitsLocVar(m, vs[i])
  {
    DumpedList(m, vs, LocVarWriter(m))
  }

  function DumpedNames(m: Machine, us: seq<Upval<TString>>): Bytes
    requires FitsSigned(m.ints, |us|)
  {
    DumpedList(m, us, NameWriter(m))
  }

  function DumpedDebug(m: Machine, f: Proto<TString>, strip: bool): Bytes
    requires FitsOne(m, f)
  {
    DumpedLines(m, if strip then [] else f.lineinfo) +
    (DumpedLocVars(m, if strip then [] else f.locvars) + DumpedNames(m, if strip then [] else f.upvalues))
  }

  /** The source is left out when stripping, and when it is that of the enclosing function. */
  function DumpedSource(m: Machine, source: Option<TString>, psource: Option<TString>, strip: bool): Bytes {
    DumpedString(m, if strip || source == psource then None else Text(source))
  }

  function DumpedLimits(f: Proto<TString>): Bytes { [f.numparams, f.isVararg, f.maxstacksize] }

  function DumpedFunction(m: Machine, f: Proto<TString>, psource: Option<TString>, strip: bool): Bytes
    requires Fits(m, f)
    decreases f
  {
    DumpedSource(m, f.source, psource, strip) + (DumpedInt(m, f.linedefined) + (DumpedInt(m, f.lastlinedefined) +
    (DumpedLimits(f) + (DumpedCode(m, f.code) + (DumpedKonsts(m, f.k) + (DumpedUpvals(m, f.upvalues) +
    (DumpedInt(m, |f.p|) + (DumpedProtos(m, f.p, f.source, strip) + DumpedDebug(m, f, strip)))))))))
  }

  function DumpedProtos(m: Machine, ps: seq<Proto<TString>>, source: Option<TString>, strip: bool): Bytes
    requires forall i :: 0 <= i < |ps| ==> Fits(m, ps[i])
    decreases ps
  {
    if ps == [] then [] else DumpedFunction(m, ps[0], source, strip) + DumpedProtos(m, ps[1..], source, strip)
  }

  const SIGNATURE: Bytes := [27, 76, 117, 97]
  const VERSION: byte := 83
  const FORMAT: byte := 0
  const DATA: Bytes := [25, 147, 13, 10, 26, 10]
  const CHECKINT := 0x5678

  lemma CheckIntFits(m: Machine)
    requires IsMachine(m)
    ensures FitsSigned(m.integers, CHECKINT)
  {
    BoundGrows(m.integers);
  }

  lemma {:induction false} BoundGrows(n: nat)
    requires n >= 3
    ensures Bound(n) >= 0x100_0000
  {
    if n > 3 {
      BoundGrows(n - 1);
    } else {
      assert Bound(3) == 256 * Bound(2) && Bound(2) == 256 * Bound(1);
    }
  }

  function DumpedSizes(m: Machine): Bytes
    requires IsMachine(m)
  {
    [m.ints, m.sizes, m.instructions, m.integers, m.numbers]
  }

  function DumpedHeader(m: Machine): Bytes
    requires IsMachine(m)
  {
    CheckIntFits(m);
    SIGNATURE + ([VERSION, FORMAT] + (DATA + (DumpedSizes(m) + (Signed(m.integers, CHECKINT, m.big) + m.num))))
  }

  /** A whole chunk. */
  function Dumped(m: Machine, f: Proto<TString>, strip: bool): Bytes
    requires IsMachine(m) && Fits(m, f)
  {
    DumpedHeader(m) + ([|f.upvalues|] + DumpedFunction(m, f, None, strip))
  }

  // ---- loading ----

  /** Untrusted: input that no dump contains, on which the loader would use memory that it does not own. */
  datatype LoadError = Truncated | Mismatch | NoMemory | Untrusted

  datatype Parsed<T> = Got(v: T, rest: Bytes) | Failed(e: LoadError) {
    predicate IsFailure() { Failed? }

    function PropagateFailure<U>(): Parsed<U>
      requires Failed?
    {
      Failed(e)
    }

    function Extract(): (T, Bytes)
      requires Got?
    {
      (v, rest)
    }
  }

  function ReadBlock(n: nat, s: Bytes): Parsed<Bytes> { if |s| < n then Failed(Truncated) else Got(s[..n], s[n..]) }

  function ReadByte(s: Bytes): Parsed<byte> { if s == [] then Failed(Truncated) else Got(s[0], s[1..]) }

  function ReadInt(m: Machine, s: Bytes): Parsed<int> {
    var (b, r) :- ReadBlock(m.ints, s);
    Got(FromSigned(b, m.big), r)
  }

  function ReadInteger(m: Machine, s: Bytes): Parsed<int> {
    var (b, r) :- ReadBlock(m.integers, s);
    Got(FromSigned(b, m.big), r)
  }

  function ReadSize(m: Machine, s: Bytes): Parsed<nat> {
    var (b, r) :- ReadBlock(m.sizes, s);
    Got(FromUnsigned(b, m.big), r)
  }

  function ReadString(m: Machine, s: Bytes): Parsed<Option<Bytes>> {
    var (b, r) :- ReadByte(s);
    var (size, r1) :- if b == 255 then ReadSize(m, r) else Got(b as nat, r);
    if size == 0 then Got(None, r1)
    else
      var (t, r2) :- ReadBlock(size - 1, r1);
      Got(Some(t), r2)
  }

  function ReadKonst(m: Machine, s: Bytes): Parsed<Konst<Bytes>> {
    var (t, r) :- ReadByte(s);
    if t == 1 then
      var (b, r1) :- ReadByte(r);
      Got(KBool(b != 0), r1)
    else if t == 3 then
      var (b, r1) :- ReadBlock(m.numbers, r);
      Got(KFlt(b), r1)
    else if t == 19 then
      var (i, r1) :- ReadInteger(m, r);
      Got(KInt(i), r1)
    else if t == 4 || t == 20 then
      var (x, r1) :- ReadString(m, r);
      if x.None? then Failed(Untrusted) else Got(KStr(x.value), r1)
    else Got(KNil, r)
  }

  function ReadUpval(s: Bytes): Parsed<Upval<Bytes>> {
    var (a, r) :- ReadByte(s);
    var (b, r1) :- ReadByte(r);
    Got(Upval(a, b, None), r1)
  }

  function ReadLocVar(m: Machine, s: Bytes): Parsed<LocVar<Bytes>> {
    var (x, r) :- ReadString(m, s);
    var (a, r1) :- ReadInt(m, r);
    var (b, r2) :- ReadInt(m, r1);
    Got(LocVar(x, a, b), r2)
  }

  function Many<T>(n: nat, read: Bytes -> Parsed<T>, s: Bytes): Parsed<seq<T>> {
    if n == 0 then Got([], s)
    else
      var (x, r) :- read(s);
      var (xs, r1) :- Many(n - 1, read, r);
      Got([x] + xs, r1)
  }

  function ReadList<T>(m: Machine, read: Bytes -> Parsed<T>, s: Bytes): Parsed<seq<T>> {
    var (n, r) :- ReadInt(m, s);
    if n < 0 then Failed(NoMemory) else Many(n, read, r)
  }

  /** The elements of an array that was read as one block. */
  function Split<T>(n: nat, size: nat, b: Bytes, from: Bytes -> T): seq<T>
    requires |b| == n * size
  {
    if n == 0 then []
    else
      assert n * size == size + (n - 1) * size;
      [from(b[..size])] + Split(n - 1, size, b[size..], from)
  }

  function ReadVector<T>(m: Machine, size: nat, from: Bytes -> T, s: Bytes): Parsed<seq<T>> {
    var (n, r) :- ReadInt(m, s);
    if n < 0 then Failed(NoMemory)
    else
      var (b, r1) :- ReadBlock(n * size, r);
      Got(Split(n, size, b, from), r1)
  }

  // How the elements of lists are read.

  function CodeFrom(m: Machine): Bytes -> nat { b => FromUnsigned(b, m.big) }

  function LineFrom(m: Machine): Bytes -> int { b => FromSigned(b, m.big) }

  function KonstReader(m: Machine): Bytes -> Parsed<Konst<Bytes>> { b => ReadKonst(m, b) }

  function LocVarReader(m: Machine): Bytes -> Parsed<LocVar<Bytes>> { b => ReadLocVar(m, b) }

  function NameReader(m: Machine): Bytes -> Parsed<Option<Bytes>> { b => ReadString(m, b) }

  function ReadCode(m: Machine, s: Bytes): Parsed<seq<nat>> { ReadVector(m, m.instructions, CodeFrom(m), s) }

  function ReadLines(m: Machine, s: Bytes): Parsed<seq<int>> { ReadVector(m, m.ints, LineFrom(m), s) }

  function ReadNames(m: Machine, k: nat, s: Bytes): Parsed<seq<Option<Bytes>>> {
    var (n, r) :- ReadInt(m, s);
    if n < 0 then Got([], r) else if n > k then Failed(Untrusted) else Many(n, NameReader(m), r)
  }

  function Named(us: seq<Upval<Bytes>>, names: seq<Option<Bytes>>): seq<Upval<Bytes>> {
    seq(|us|, i requires 0 <= i < |us| => us[i].(name := if i < |names| then names[i] else None))
  }

  datatype Debug = Debug(lineinfo: seq<int>, locvars: seq<LocVar<Bytes>>, names: seq<Option<Bytes>>)

  function ReadDebug(m: Machine, k: nat, s: Bytes): Parsed<Debug> {
    var (ls, r) :- ReadLines(m, s);
    var (vs, r1) :- ReadList(m, LocVarReader(m), r);
    var (ns, r2) :- ReadNames(m, k, r1);
    Got(Debug(ls, vs, ns), r2)
  }

  /** A function before its nested functions and its debug information. */
  datatype Front = Front(source: Option<Bytes>, linedefined: int, lastlinedefined: int,
                         numparams: byte, isVararg: byte, maxstacksize: byte,
                         code: seq<nat>, k: seq<Konst<Bytes>>, upvalues: seq<Upval<Bytes>>)

  function ReadFront(m: Machine, inherited: Option<Bytes>, s: Bytes): Parsed<Front> {
    var (x, r) :- ReadString(m, s);
    var (a, r1) :- ReadInt(m, r);
    var (b, r2) :- ReadInt(m, r1);
    var (l, r3) :- ReadBlock(3, r2);
    var (c, r4) :- ReadCode(m, r3);
    var (k, r5) :- ReadList(m, KonstReader(m), r4);
    var (u, r6) :- ReadList(m, ReadUpval, r5);
    Got(Front(if x.None? then inherited else x, a, b, l[0], l[1], l[2], c, k, u), r6)
  }

  function Whole(f: Front, ps: seq<Proto<Bytes>>, d: Debug): Proto<Bytes> {
    Proto(f.source, f.linedefined, f.lastlinedefined, f.numparams, f.isVararg, f.maxstacksize, f.code, f.k,
          Named(f.upvalues, d.names), ps, d.lineinfo, d.locvars)
  }

  /** A missing source is taken from the enclosing function. */
  function ReadFunction(m: Machine, inherited: Option<Bytes>, s: Bytes): (p: Parsed<Proto<Bytes>>)
    ensures p.Got? ==> |p.rest| < |s|
    decreases |s|, 0
  {
    var (f, r) :- ReadFront(m, inherited, s);
    FrontConsumes(m, inherited, s);
    var (n, r1) :- ReadInt(m, r);
    if n < 0 then Failed(NoMemory)
    else
      var (ps, r2) :- ReadProtos(m, n, f.source, r1);
      var (d, r3) :- ReadDebug(m, |f.upvalues|, r2);
      DebugConsumes(m, |f.upvalues|, r2);
      Got(Whole(f, ps, d), r3)
  }

  function ReadProtos(m: Machine, n: nat, source: Option<Bytes>, s: Bytes): (p: Parsed<seq<Proto<Bytes>>>)
    ensures p.Got? ==> |p.rest| <= |s|
    decreases |s|, n
  {
    if n == 0 then Got([], s)
    else
      var (f, r) :- ReadFunction(m, source, s);
      var (fs, r1) :- ReadProtos(m, n - 1, source, r);
      Got([f] + fs, r1)
  }

  /** A byte that has to have this value. */
  function Expect(x: nat, s: Bytes): Parsed<()> {
    var (b, r) :- ReadByte(s);
    if b == x then Got((), r) else Failed(Mismatch)
  }

  function ExpectBlock(x: Bytes, s: Bytes): Parsed<()> {
    var (b, r) :- ReadBlock(|x|, s);
    if b == x then Got((), r) else Failed(Mismatch)
  }

  function ReadSizes(m: Machine, s: Bytes): Parsed<()> {
    var (_, r) :- Expect(m.ints, s);
    var (_, r1) :- Expect(m.sizes, r);
    var (_, r2) :- Expect(m.instructions, r1);
    var (_, r3) :- Expect(m.integers, r2);
    Expect(m.numbers, r3)
  }

  function ReadNumbers(m: Machine, s: Bytes): Parsed<()> {
    var (i, r) :- ReadInteger(m, s);
    if i == CHECKINT then ExpectBlock(m.num, r) else Failed(Mismatch)
  }

  /** The header behind its first byte, which has been looked at before. */
  function ReadHeader(m: Machine, s: Bytes): Parsed<()> {
    var (_, r) :- ExpectBlock(SIGNATURE[1..], s);
    var (_, r1) :- Expect(VERSION, r);
    var (_, r2) :- Expect(FORMAT, r1);
    var (_, r3) :- ExpectBlock(DATA, r2);
    var (_, r4) :- ReadSizes(m, r3);
    ReadNumbers(m, r4)
  }

  /** A chunk behind its first byte: the number of upvalues of the closure, and its function. */
  function ReadChunk(m: Machine, s: Bytes): Parsed<(byte, Proto<Bytes>)> {
    var (_, r) :- ReadHeader(m, s);
    var (n, r1) :- ReadByte(r);
    var (f, r2) :- ReadFunction(m, None, r1);
    Got((n, f), r2)
  }

  // ---- reading consumes ----

  lemma StringConsumes(m: Machine, s: Bytes)
    ensures var p := ReadString(m, s); p.Got? ==> |p.rest| < |s|
  {
  }

  lemma KonstConsumes(m: Machine, s: Bytes)
    ensures var p := ReadKonst(m, s); p.Got? ==> |p.rest| <= |s|
  {
  }

  lemma LocVarConsumes(m: Machine, s: Bytes)
    ensures var p := ReadLocVar(m, s); p.Got? ==> |p.rest| <= |s|
  {
  }

  lemma {:induction false} ManyConsumes<T>(n: nat, read: Bytes -> Parsed<T>, s: Bytes)
    requires forall s :: var p := read(s); p.Got? ==> |p.rest| <= |s|
    ensures var p := Many(n, read, s); p.Got? ==> |p.rest| <= |s|
    decreases n
  {
    if n > 0 && read(s).Got? { ManyConsumes(n - 1, read, read(s).rest); }
  }

  lemma FrontConsumes(m: Machine, inherited: Option<Bytes>, s: Bytes)
    ensures var p := ReadFront(m, inherited, s); p.Got? ==> |p.rest| < |s|
  {
    hide ReadString, ReadKonst, Many;
    forall s { StringConsumes(m, s); }
    forall s { KonstConsumes(m, s); }
    forall n, s { ManyConsumes(n, KonstReader(m), s); }
    forall n, s { ManyConsumes(n, ReadUpval, s); }
  }

  lemma DebugConsumes(m: Machine, k: nat, s: Bytes)
    ensures var p := ReadDebug(m, k, s); p.Got? ==> |p.rest| <= |s|
  {
    hide ReadString, ReadLocVar, Many, ReadLines, ReadList, ReadNames;
    var l := ReadLines(m, s);
    LinesConsume(m, s);
    if l.Got? {
      LocVarsConsume(m, l.rest);
      var v := ReadList(m, LocVarReader(m), l.rest);
      if v.Got? { NamesConsume(m, k, v.rest); }
    }
  }

  lemma LinesConsume(m: Machine, s: Bytes)
    ensures var p := ReadLines(m, s); p.Got? ==> |p.rest| <= |s|
  {
  }

  lemma LocVarsConsume(m: Machine, s: Bytes)
    ensures var p := ReadList(m, LocVarReader(m), s); p.Got? ==> |p.rest| <= |s|
  {
    hide ReadLocVar, Many;
    forall s { LocVarConsumes(m, s); }
    forall n, s { ManyConsumes(n, LocVarReader(m), s); }
  }

  lemma NamesConsume(m: Machine, k: nat, s: Bytes)
    ensures var p := ReadNames(m, k, s); p.Got? ==> |p.rest| <= |s|
  {
    hide ReadString, Many;
    forall s { StringConsumes(m, s); }
    forall n, s { ManyConsumes(n, NameReader(m), s); }
  }

  // ---- reading gives back what was written ----

  lemma Joined(a: Bytes, b: Bytes, c: Bytes)
    ensures (a + b) + c == a + (b + c)
  {
  }

  lemma BlockBack(b: Bytes, rest: Bytes)
    ensures ReadBlock(|b|, b + rest) == Got(b, rest)
  {
  }

  lemma IntBack(m: Machine, x: int, rest: Bytes)
    requires FitsSigned(m.ints, x)
    ensures ReadInt(m, DumpedInt(m, x) + rest) == Got(x, rest)
  {
    hide Signed, FromSigned, ReadBlock;
    BlockBack(Signed(m.ints, x, m.big), rest);
    SignedBack(m.ints, x, m.big);
  }

  lemma IntegerBack(m: Machine, x: int, rest: Bytes)
    requires FitsSigned(m.integers, x)
    ensures ReadInteger(m, Signed(m.integers, x, m.big) + rest) == Got(x, rest)
  {
    hide Signed, FromSigned, ReadBlock;
    BlockBack(Signed(m.integers, x, m.big), rest);
    SignedBack(m.integers, x, m.big);
  }

  lemma SizeBack(m: Machine, x: nat, rest: Bytes)
    requires x < Bound(m.sizes)
    ensures ReadSize(m, Unsigned(m.sizes, x, m.big) + rest) == Got(x, rest)
  {
    hide Unsigned, FromUnsigned, ReadBlock;
    BlockBack(Unsigned(m.sizes, x, m.big), rest);
    UnsignedBack(m.sizes, x, m.big);
  }

  lemma StringBack(m: Machine, s: Option<TString>, rest: Bytes)
    requires FitsString(m, s)
    ensures ReadString(m, DumpedString(m, Text(s)) + rest) == Got(Text(s), rest)
  {
    hide ReadSize, ReadBlock, Unsigned, Bound;
    if s.Some? {
      var t := s.value.s;
      BlockBack(t, rest);
      if |t| + 1 < 255 {
        assert ([|t| + 1] + t) + rest == [|t| + 1] + (t + rest);
      } else {
        var u := Unsigned(m.sizes, |t| + 1, m.big);
        SizeBack(m, |t| + 1, t + rest);
        assert ([255] + u + t) + rest == [255] + (u + (t + rest));
      }
    }
  }

  lemma KonstBack(m: Machine, k: Konst<TString>, rest: Bytes)
    requires FitsKonst(m, k)
    ensures ReadKonst(m, DumpedKonst(m, k) + rest) == Got(KonstText(k), rest)
  {
    hide ReadString, DumpedString, ReadInteger, Signed, ReadBlock, FitsSigned, FitsString;
    match k {
      case KFlt(bits) =>
        BlockBack(bits, rest);
        Joined([3], bits, rest);
      case KInt(i) =>
        IntegerBack(m, i, rest);
        Joined([19], Signed(m.integers, i, m.big), rest);
      case KStr(s) =>
        StringBack(m, Some(s), rest);
        Joined([if |s.s| <= MAXSHORTLEN then 4 else 20], DumpedString(m, Some(s.s)), rest);
      case _ =>
    }
  }

  lemma LocVarBack(m: Machine, v: LocVar<TString>, rest: Bytes)
    requires FitsLocVar(m, v)
    ensures ReadLocVar(m, DumpedLocVar(m, v) + rest) == Got(LocVarText(v), rest)
  {
    hide ReadString, DumpedString, ReadInt, DumpedInt, FitsSigned, FitsString;
    var a, b := DumpedInt(m, v.startpc), DumpedInt(m, v.endpc);
    Joined(DumpedString(m, Text(v.name)), a + b, rest);
    Joined(a, b, rest);
    StringBack(m, v.name, a + (b + rest));
    IntBack(m, v.startpc, b + rest);
    IntBack(m, v.endpc, rest);
  }

  /** Reading an element inverts writing it, whatever comes behind. */
  ghost predicate Inverts<A, B>(x: A, write: A --> Bytes, read: Bytes -> Parsed<B>, y: B)
    requires write.requires(x)
  {
    forall rest: Bytes :: read(write(x) + rest) == Got(y, rest)
  }

  lemma {:induction false} ManyBack<A, B>(xs: seq<A>, write: A --> Bytes, read: Bytes -> Parsed<B>, ys: seq<B>,
                                          rest: Bytes)
    requires |ys| == |xs| && forall i :: 0 <= i < |xs| ==> write.requires(xs[i])
    requires forall i :: 0 <= i < |xs| ==> Inverts(xs[i], write, read, ys[i])
    ensures Many(|xs|, read, All(xs, write) + rest) == Got(ys, rest)
    decreases |xs|
  {
    if xs != [] {
      assert Inverts(xs[0], write, read, ys[0]);
      Joined(write(xs[0]), All(xs[1..], write), rest);
      forall i | 0 <= i < |xs| - 1 ensures Inverts(xs[1..][i], write, read, ys[1..][i]) {
        assert Inverts(xs[i + 1], write, read, ys[i + 1]);
      }
      ManyBack(xs[1..], write, read, ys[1..], rest);
      assert [ys[0]] + ys[1..] == ys;
    }
  }

  lemma ListBack<A, B>(m: Machine, xs: seq<A>, write: A --> Bytes, read: Bytes -> Parsed<B>, ys: seq<B>, rest: Bytes)
    requires FitsSigned(m.ints, |xs|) && |ys| == |xs| && forall i :: 0 <= i < |xs| ==> write.requires(xs[i])
    requires forall i :: 0 <= i < |xs| ==> Inverts(xs[i], write, read, ys[i])
    ensures ReadList(m, read, DumpedList(m, xs, write) + rest) == Got(ys, rest)
  {
    hide ReadInt, DumpedInt, Many, All, Inverts, FitsSigned;
    Joined(DumpedInt(m, |xs|), All(xs, write), rest);
    IntBack(m, |xs|, All(xs, write) + rest);
    ManyBack(xs, write, read, ys, rest);
  }

  /** The elements of an array are its bytes, one block after the other. */
  ghost predicate Fixed<A>(x: A, write: A --> Bytes, size: nat, from: Bytes -> A)
    requires write.requires(x)
  {
    |write(x)| == size && from(write(x)) == x
  }

  lemma {:induction false} SplitBack<A>(xs: seq<A>, size: nat, write: A --> Bytes, from: Bytes -> A)
    requires forall i :: 0 <= i < |xs| ==> write.requires(xs[i])
    requires forall i :: 0 <= i < |xs| ==> Fixed(xs[i], write, size, from)
    ensures |All(xs, write)| == |xs| * size && Split(|xs|, size, All(xs, write), from) == xs
  {
    if xs != [] {
      assert Fixed(xs[0], write, size, from);
      forall i | 0 <= i < |xs| - 1 ensures Fixed(xs[1..][i], write, size, from) {
        assert Fixed(xs[i + 1], write, size, from);
      }
      SplitBack(xs[1..], size, write, from);
      assert |xs| * size == size + (|xs| - 1) * size;
      assert All(xs, write)[..size] == write(xs[0]) && All(xs, write)[size..] == All(xs[1..], write);
    }
  }

  lemma VectorBack<A>(m: Machine, xs: seq<A>, size: nat, write: A --> Bytes, from: Bytes -> A, rest: Bytes)
    requires FitsSigned(m.ints, |xs|) && forall i :: 0 <= i < |xs| ==> write.requires(xs[i])
    requires forall i :: 0 <= i < |xs| ==> Fixed(xs[i], write, size, from)
    ensures ReadVector(m, size, from, DumpedList(m, xs, write) + rest) == Got(xs, rest)
  {
    hide ReadInt, DumpedInt, Split, All, Fixed, FitsSigned, ReadBlock;
    Joined(DumpedInt(m, |xs|), All(xs, write), rest);
    IntBack(m, |xs|, All(xs, write) + rest);
    SplitBack(xs, size, write, from);
    BlockBack(All(xs, write), rest);
  }

  lemma CodeBack(m: Machine, code: seq<nat>, rest: Bytes)
    requires FitsSigned(m.ints, |code|) && forall i :: 0 <= i < |code| ==> code[i] < Bound(m.instructions)
    ensures ReadCode(m, DumpedCode(m, code) + rest) == Got(code, rest)
  {
    hide FitsSigned, ReadVector, DumpedList, Bound;
    forall i | 0 <= i < |code| ensures Fixed(code[i], CodeWriter(m), m.instructions, CodeFrom(m)) {
      UnsignedBack(m.instructions, code[i], m.big);
    }
    VectorBack(m, code, m.instructions, CodeWriter(m), CodeFrom(m), rest);
  }

  lemma LinesBack(m: Machine, lines: seq<int>, rest: Bytes)
    requires FitsSigned(m.ints, |lines|) && forall i :: 0 <= i < |lines| ==> FitsSigned(m.ints, lines[i])
    ensures ReadLines(m, DumpedLines(m, lines) + rest) == Got(lines, rest)
  {
    hide ReadVector, DumpedList, FitsSigned;
    forall i | 0 <= i < |lines| ensures Fixed(lines[i], LineWriter(m), m.ints, LineFrom(m)) {
      SignedBack(m.ints, lines[i], m.big);
    }
    VectorBack(m, lines, m.ints, LineWriter(m), LineFrom(m), rest);
  }

  lemma KonstsBack(m: Machine, ks: seq<Konst<TString>>, rest: Bytes)
    requires FitsSigned(m.ints, |ks|) && forall i :: 0 <= i < |ks| ==> FitsKonst(m, ks[i])
    ensures ReadList(m, KonstReader(m), DumpedKonsts(m, ks) + rest) == Got(Map(KonstText, ks), rest)
  {
    hide FitsSigned, FitsKonst, ReadKonst, DumpedKonst, ReadList, DumpedList;
    forall i | 0 <= i < |ks| ensures Inverts(ks[i], KonstWriter(m), KonstReader(m), KonstText(ks[i])) {
      forall rest: Bytes { KonstBack(m, ks[i], rest); }
    }
    ListBack(m, ks, KonstWriter(m), KonstReader(m), Map(KonstText, ks), rest);
  }

  /** Upvalues are dumped without their names. */
  function Bare(u: Upval<TString>): Upval<Bytes> { Upval(u.instack, u.idx, None) }

  lemma UpvalsBack(m: Machine, us: seq<Upval<TString>>, rest: Bytes)
    requires FitsSigned(m.ints, |us|)
    ensures ReadList(m, ReadUpval, DumpedUpvals(m, us) + rest) == Got(Map(Bare, us), rest)
  {
    hide FitsSigned, ReadList, DumpedList;
    forall i | 0 <= i < |us| ensures Inverts(us[i], DumpedUpval, ReadUpval, Bare(us[i])) {}
    ListBack(m, us, DumpedUpval, ReadUpval, Map(Bare, us), rest);
  }

  lemma LocVarsBack(m: Machine, vs: seq<LocVar<TString>>, rest: Bytes)
    requires FitsSigned(m.ints, |vs|) && forall i :: 0 <= i < |vs| ==> FitsLocVar(m, vs[i])
    ensures ReadList(m, LocVarReader(m), DumpedLocVars(m, vs) + rest) == Got(Map(LocVarText, vs), rest)
  {
    hide FitsSigned, FitsLocVar, ReadLocVar, DumpedLocVar, ReadList, DumpedList;
    forall i | 0 <= i < |vs| ensures Inverts(vs[i], LocVarWriter(m), LocVarReader(m), LocVarText(vs[i])) {
      forall rest: Bytes { LocVarBack(m, vs[i], rest); }
    }
    ListBack(m, vs, LocVarWriter(m), LocVarReader(m), Map(LocVarText, vs), rest);
  }

  function NameOf(u: Upval<TString>): Option<Bytes> { Text(u.name) }

  lemma NamesBack(m: Machine, us: seq<Upval<TString>>, k: nat, rest: Bytes)
    requires FitsSigned(m.ints, |us|) && |us| <= k && forall i :: 0 <= i < |us| ==> FitsString(m, us[i].name)
    ensures ReadNames(m, k, DumpedNames(m, us) + rest) == Got(Map(NameOf, us), rest)
  {
    hide FitsSigned, FitsString, ReadString, DumpedString, Many, All, ReadInt, DumpedInt;
    forall i | 0 <= i < |us| ensures Inverts(us[i], NameWriter(m), NameReader(m), NameOf(us[i])) {
      forall rest: Bytes { StringBack(m, us[i].name, rest); }
    }
    var b := All(us, NameWriter(m));
    Joined(DumpedInt(m, |us|), b, rest);
    IntBack(m, |us|, b + rest);
    ManyBack(us, NameWriter(m), NameReader(m), Map(NameOf, us), rest);
  }

  /** The debug information that is kept. */
  function DebugOf(f: Proto<TString>, strip: bool): Debug {
    if strip then Debug([], [], []) else Debug(f.lineinfo, Map(LocVarText, f.locvars), Map(NameOf, f.upvalues))
  }

  lemma DebugBack(m: Machine, f: Proto<TString>, strip: bool, rest: Bytes)
    requires FitsOne(m, f)
    ensures ReadDebug(m, |f.upvalues|, DumpedDebug(m, f, strip) + rest) == Got(DebugOf(f, strip), rest)
  {
    hide ReadLines, ReadList, ReadNames, DumpedLines, DumpedLocVars, DumpedNames;
    var ls, vs, us := if strip then [] else f.lineinfo, if strip then [] else f.locvars, if strip then []
      else f.upvalues;
    var a, b, c := DumpedLines(m, ls), DumpedLocVars(m, vs), DumpedNames(m, us);
    Joined(a, b + c, rest);
    Joined(b, c, rest);
    LinesBack(m, ls, b + (c + rest));
    LocVarsBack(m, vs, c + rest);
    NamesBack(m, us, |f.upvalues|, rest);
  }

  /** What loading makes of a dumped function: strings by contents, the source of the enclosing function where it was
      left out or missing, and no debug information if that was stripped. */
  function Loaded(f: Proto<TString>, inherited: Option<Bytes>, strip: bool): Proto<Bytes>
    decreases f
  {
    var source := if strip || f.source.None? then inherited else Text(f.source);
    Whole(FrontOf(f, source), LoadedAll(f.p, source, strip), DebugOf(f, strip))
  }

  function LoadedAll(ps: seq<Proto<TString>>, source: Option<Bytes>, strip: bool): (r: seq<Proto<Bytes>>)
    ensures |r| == |ps|
    decreases ps
  {
    if ps == [] then [] else [Loaded(ps[0], source, strip)] + LoadedAll(ps[1..], source, strip)
  }

  function FrontOf(f: Proto<TString>, source: Option<Bytes>): Front {
    Front(source, f.linedefined, f.lastlinedefined, f.numparams, f.isVararg, f.maxstacksize, f.code,
          Map(KonstText, f.k), Map(Bare, f.upvalues))
  }

  /** What the loader takes for the source of the enclosing function. */
  predicate Inherits(psource: Option<TString>, inherited: Option<Bytes>, strip: bool) {
    !strip && psource.Some? ==> inherited == Text(psource)
  }

  lemma NothingFits(m: Machine)
    ensures FitsString(m, None)
  {
  }

  lemma FrontBack(m: Machine, f: Proto<TString>, psource: Option<TString>, inherited: Option<Bytes>, strip: bool,
                  rest: Bytes)
    requires FitsOne(m, f) && Inherits(psource, inherited, strip)
    ensures ReadFront(m, inherited, DumpedSource(m, f.source, psource, strip) + (DumpedInt(m, f.linedefined) +
      (DumpedInt(m, f.lastlinedefined) + (DumpedLimits(f) + (DumpedCode(m, f.code) + (DumpedKonsts(m, f.k) +
      (DumpedUpvals(m, f.upvalues) + rest))))))) ==
      Got(FrontOf(f, if strip || f.source.None? then inherited else Text(f.source)), rest)
  {
    hide ReadString, DumpedString, ReadInt, DumpedInt, ReadCode, DumpedCode, ReadList, DumpedKonsts, DumpedUpvals,
      ReadBlock, FitsSigned, FitsString;
    var b6 := DumpedUpvals(m, f.upvalues) + rest;
    var b5 := DumpedKonsts(m, f.k) + b6;
    var b4 := DumpedCode(m, f.code) + b5;
    var b3 := DumpedLimits(f) + b4;
    var b2 := DumpedInt(m, f.lastlinedefined) + b3;
    var b1 := DumpedInt(m, f.linedefined) + b2;
    var x: Option<TString> := if strip || f.source == psource then None else f.source;
    NothingFits(m);
    StringBack(m, x, b1);
    IntBack(m, f.linedefined, b2);
    IntBack(m, f.lastlinedefined, b3);
    BlockBack(DumpedLimits(f), b4);
    CodeBack(m, f.code, b5);
    KonstsBack(m, f.k, b6);
    UpvalsBack(m, f.upvalues, rest);
  }

  lemma FitsParts(m: Machine, f: Proto<TString>)
    requires Fits(m, f)
    ensures FitsOne(m, f) && forall i :: 0 <= i < |f.p| ==> Fits(m, f.p[i])
  {
  }

  /** The parts of a dumped function, with what comes behind. */
  lemma FunctionParts(m: Machine, f: Proto<TString>, psource: Option<TString>, strip: bool, rest: Bytes)
    requires Fits(m, f)
    ensures DumpedFunction(m, f, psource, strip) + rest ==
      DumpedSource(m, f.source, psource, strip) + (DumpedInt(m, f.linedefined) + (DumpedInt(m, f.lastlinedefined) +
      (DumpedLimits(f) + (DumpedCode(m, f.code) + (DumpedKonsts(m, f.k) + (DumpedUpvals(m, f.upvalues) +
      (DumpedInt(m, |f.p|) + (DumpedProtos(m, f.p, f.source, strip) + (DumpedDebug(m, f, strip) + rest)))))))))
  {
    hide DumpedSource, DumpedInt, DumpedLimits, DumpedCode, DumpedKonsts, DumpedUpvals, DumpedProtos, DumpedDebug,
      FitsSigned, FitsKonst, Fits, FitsString;
    FitsParts(m, f);
    var x8 := DumpedProtos(m, f.p, f.source, strip) + DumpedDebug(m, f, strip);
    var x7 := DumpedInt(m, |f.p|) + x8;
    var x6 := DumpedUpvals(m, f.upvalues) + x7;
    var x5 := DumpedKonsts(m, f.k) + x6;
    var x4 := DumpedCode(m, f.code) + x5;
    var x3 := DumpedLimits(f) + x4;
    var x2 := DumpedInt(m, f.lastlinedefined) + x3;
    var x1 := DumpedInt(m, f.linedefined) + x2;
    Joined(DumpedSource(m, f.source, psource, strip), x1, rest);
    Joined(DumpedInt(m, f.linedefined), x2, rest);
    Joined(DumpedInt(m, f.lastlinedefined), x3, rest);
    Joined(DumpedLimits(f), x4, rest);
    Joined(DumpedCode(m, f.code), x5, rest);
    Joined(DumpedKonsts(m, f.k), x6, rest);
    Joined(DumpedUpvals(m, f.upvalues), x7, rest);
    Joined(DumpedInt(m, |f.p|), x8, rest);
    Joined(DumpedProtos(m, f.p, f.source, strip), DumpedDebug(m, f, strip), rest);
  }

  /** Loading a dumped function gives that function, and stops right behind it. */
  lemma {:induction false} FunctionBack(m: Machine, f: Proto<TString>, psource: Option<TString>,
                                        inherited: Option<Bytes>, strip: bool, rest: Bytes)
    requires Fits(m, f) && Inherits(psource, inherited, strip)
    ensures ReadFunction(m, inherited, DumpedFunction(m, f, psource, strip) + rest) ==
              Got(Loaded(f, inherited, strip), rest)
    decreases f
  {
    hide ReadFront, ReadInt, ReadDebug, DumpedSource, DumpedInt, DumpedLimits, DumpedCode, DumpedKonsts, DumpedUpvals,
      DumpedProtos, DumpedDebug, DumpedFunction, FrontOf, DebugOf, Whole, FitsSigned, FitsString, FitsKonst;
    var source := if strip || f.source.None? then inherited else Text(f.source);
    var b3 := DumpedDebug(m, f, strip) + rest;
    var b2 := DumpedProtos(m, f.p, f.source, strip) + b3;
    var b1 := DumpedInt(m, |f.p|) + b2;
    FunctionParts(m, f, psource, strip, rest);
    FrontBack(m, f, psource, inherited, strip, b1);
    CountFits(m, f);
    IntBack(m, |f.p|, b2);
    ProtosBack(m, f.p, f.source, source, strip, b3);
    DebugBack(m, f, strip, rest);
    FrontKeeps(f, source);
  }

  lemma CountFits(m: Machine, f: Proto<TString>)
    requires FitsOne(m, f)
    ensures FitsSigned(m.ints, |f.p|)
  {
  }

  lemma FrontKeeps(f: Proto<TString>, source: Option<Bytes>)
    ensures FrontOf(f, source).source == source && |FrontOf(f, source).upvalues| == |f.upvalues|
  {
  }

  lemma {:induction false} ProtosBack(m: Machine, ps: seq<Proto<TString>>, psource: Option<TString>,
                                      inherited: Option<Bytes>, strip: bool, rest: Bytes)
    requires (forall i :: 0 <= i < |ps| ==> Fits(m, ps[i])) && Inherits(psource, inherited, strip)
    ensures ReadProtos(m, |ps|, inherited, DumpedProtos(m, ps, psource, strip) + rest) ==
            Got(LoadedAll(ps, inherited, strip), rest)
    decreases ps
  {
    hide ReadFunction, DumpedFunction, Loaded, Fits;
    if ps != [] {
      var tail := DumpedProtos(m, ps[1..], psource, strip);
      Joined(DumpedFunction(m, ps[0], psource, strip), tail, rest);
      FunctionBack(m, ps[0], psource, inherited, strip, tail + rest);
      ProtosBack(m, ps[1..], psource, inherited, strip, rest);
    }
  }

  // ---- headers ----

  lemma {:induction false} FromLittleBack(b: Bytes)
    ensures FromLittle(b) < Bound(|b|) && Little(|b|, FromLittle(b)) == b
  {
    if b != [] {
      FromLittleBack(b[1..]);
      assert FromLittle(b) % 256 == b[0] && FromLittle(b) / 256 == FromLittle(b[1..]);
    }
  }

  lemma FromUnsignedBack(b: Bytes, big: bool)
    ensures FromUnsigned(b, big) < Bound(|b|) && Unsigned(|b|, FromUnsigned(b, big), big) == b
  {
    hide FromLittle, Little, Bound;
    FromLittleBack(Ordered(b, big));
    assert Reversed(Reversed(b)) == b;
  }

  /** The number 0x5678 reads differently in the other order of bytes. */
  lemma OrderShows(n: nat, big: bool)
    requires n >= 8 && FitsSigned(n, CHECKINT)
    ensures FromSigned(Signed(n, CHECKINT, big), !big) != CHECKINT
  {
    hide Bound, FromLittle, Little;
    var b := Signed(n, CHECKINT, big);
    FromUnsignedBack(b, !big);
    LowBytes(n);
    assert b[0] != Unsigned(n, CHECKINT, !big)[0];
  }

  lemma LowBytes(n: nat)
    requires n >= 8
    ensures Little(n, CHECKINT)[0] == 0x78 && Little(n, CHECKINT)[n - 1] == 0
  {
    assert Little(n, CHECKINT) == [0x78] + ([0x56] + Little(n - 2, 0));
    Zeros(n - 2);
  }

  lemma {:induction false} Zeros(n: nat)
    requires n > 0
    ensures Little(n, 0)[n - 1] == 0
  {
    if n > 1 { Zeros(n - 1); }
  }

  lemma HeaderParts(m: Machine, rest: Bytes)
    requires IsMachine(m)
    ensures FitsSigned(m.integers, CHECKINT)
    ensures DumpedHeader(m) + rest == [SIGNATURE[0]] + (SIGNATURE[1..] + ([VERSION, FORMAT] + (DATA + (DumpedSizes(m) +
      (Signed(m.integers, CHECKINT, m.big) + (m.num + rest))))))
  {
    CheckIntFits(m);
    hide DumpedSizes, Signed;
    var c := Signed(m.integers, CHECKINT, m.big);
    Joined(SIGNATURE, [VERSION, FORMAT] + (DATA + (DumpedSizes(m) + (c + m.num))), rest);
    Joined([VERSION, FORMAT], DATA + (DumpedSizes(m) + (c + m.num)), rest);
    Joined(DATA, DumpedSizes(m) + (c + m.num), rest);
    Joined(DumpedSizes(m), c + m.num, rest);
    Joined(c, m.num, rest);
    assert SIGNATURE == [SIGNATURE[0]] + SIGNATURE[1..];
    Joined([SIGNATURE[0]], SIGNATURE[1..], [VERSION, FORMAT] + (DATA + (DumpedSizes(m) + (c + (m.num + rest)))));
  }

  predicate SameSizes(m: Machine, m': Machine) {
    m'.ints == m.ints && m'.sizes == m.sizes && m'.instructions == m.instructions && m'.integers == m.integers &&
    m'.numbers == m.numbers
  }

  lemma SizesDecide(m: Machine, m': Machine, rest: Bytes)
    requires IsMachine(m) && IsMachine(m')
    ensures ReadSizes(m', DumpedSizes(m) + rest) == if SameSizes(m, m') then Got((), rest) else Failed(Mismatch)
  {
    var s := DumpedSizes(m) + rest;
    assert s[1..][1..] == s[2..] && s[2..][1..] == s[3..] && s[3..][1..] == s[4..] && s[4..][1..] == rest;
  }

  lemma NumbersDecide(m: Machine, m': Machine, rest: Bytes)
    requires IsMachine(m) && IsMachine(m') && SameSizes(m, m') && FitsSigned(m.integers, CHECKINT)
    ensures ReadNumbers(m', Signed(m.integers, CHECKINT, m.big) + (m.num + rest)) ==
            if m' == m then Got((), rest) else Failed(Mismatch)
  {
    hide Signed, FromSigned, FitsSigned;
    var c := Signed(m.integers, CHECKINT, m.big);
    BlockBack(c, m.num + rest);
    BlockBack(m.num, rest);
    SignedBack(m.integers, CHECKINT, m.big);
    if m'.big != m.big { OrderShows(m.integers, m.big); }
  }

  /** A chunk is accepted by exactly the machines that write numbers and instructions the same way. */
  lemma HeaderDecides(m: Machine, m': Machine, rest: Bytes)
    requires IsMachine(m) && IsMachine(m')
    ensures DumpedHeader(m) != [] && DumpedHeader(m)[0] == SIGNATURE[0]
    ensures ReadHeader(m', DumpedHeader(m)[1..] + rest) == if m' == m then Got((), rest) else Failed(Mismatch)
  {
    hide ReadSizes, ReadNumbers, DumpedSizes, Signed, FitsSigned, DumpedHeader;
    HeaderParts(m, rest);
    HeaderParts(m, []);
    var b3 := DumpedSizes(m) + (Signed(m.integers, CHECKINT, m.big) + (m.num + rest));
    var b2 := DATA + b3;
    var b1 := [VERSION, FORMAT] + b2;
    assert DumpedHeader(m) + [] == DumpedHeader(m);
    assert DumpedHeader(m)[1..] + rest == (DumpedHeader(m) + rest)[1..] == SIGNATURE[1..] + b1;
    BlockBack(SIGNATURE[1..], b1);
    assert b1[1..][1..] == b2;
    BlockBack(DATA, b3);
    SizesDecide(m, m', Signed(m.integers, CHECKINT, m.big) + (m.num + rest));
    if SameSizes(m, m') { NumbersDecide(m, m', rest); }
  }

  /** The round trip: a dumped function is loaded as Loaded says, by the machines that it was dumped for, and the loader
      stops right behind it. */
  lemma ChunkBack(m: Machine, f: Proto<TString>, strip: bool, m': Machine, rest: Bytes)
    requires IsMachine(m) && IsMachine(m') && Fits(m, f)
    ensures Dumped(m, f, strip) != [] && Dumped(m, f, strip)[0] == SIGNATURE[0] && |f.upvalues| < 256
    ensures ReadChunk(m', Dumped(m, f, strip)[1..] + rest) ==
            if m' == m then Got((|f.upvalues|, Loaded(f, None, strip)), rest) else Failed(Mismatch)
  {
    hide ReadHeader, DumpedHeader, DumpedFunction, ReadFunction, Loaded;
    var b := DumpedFunction(m, f, None, strip);
    HeaderDecides(m, m', [|f.upvalues|] + (b + rest));
    assert Dumped(m, f, strip)[1..] + rest == DumpedHeader(m)[1..] + ([|f.upvalues|] + (b + rest));
    FunctionBack(m, f, None, None, strip, rest);
  }

  // ---- when that is the same function ----

  /** The function with its strings by contents. */
  function AsText(f: Proto<TString>): Proto<Bytes>
    decreases f
  {
    Proto(Text(f.source), f.linedefined, f.lastlinedefined, f.numparams, f.isVararg, f.maxstacksize, f.code,
          Map(KonstText, f.k), Map(UpvalText, f.upvalues), AsTexts(f.p), f.lineinfo, Map(LocVarText, f.locvars))
  }

  function AsTexts(ps: seq<Proto<TString>>): (r: seq<Proto<Bytes>>)
    ensures |r| == |ps|
    decreases ps
  {
    if ps == [] then [] else [AsText(ps[0])] + AsTexts(ps[1..])
  }

  /** Without debug information. */
  function Stripped(f: Proto<TString>): Proto<TString>
    decreases f
  {
    f.(source := None, upvalues := Map(Nameless, f.upvalues), p := AllStripped(f.p), lineinfo := [], locvars := [])
  }

  function AllStripped(ps: seq<Proto<TString>>): (r: seq<Proto<TString>>)
    ensures |r| == |ps|
    decreases ps
  {
    if ps == [] then [] else [Stripped(ps[0])] + AllStripped(ps[1..])
  }

  function Nameless(u: Upval<TString>): Upval<TString> { u.(name := None) }

  /** A nested function lacks a source only if the one around it does. */
  predicate Sourced(f: Proto<TString>)
    decreases f
  {
    AllSourced(f.p, f.source)
  }

  predicate AllSourced(ps: seq<Proto<TString>>, source: Option<TString>)
    decreases ps
  {
    ps != [] ==> (ps[0].source.None? ==> source.None?) && Sourced(ps[0]) && AllSourced(ps[1..], source)
  }

  lemma NamesReturn(us: seq<Upval<TString>>)
    ensures Named(Map(Bare, us), Map(NameOf, us)) == Map(UpvalText, us)
    ensures Named(Map(Bare, us), []) == Map(UpvalText, Map(Nameless, us))
  {
  }

  /** Without stripping, loading gives the same function if and only if no nested function alone lacks a source. */
  lemma {:induction false} LoadedExactly(f: Proto<TString>, inherited: Option<Bytes>)
    ensures Loaded(f, inherited, false) == AsText(f) <==> (f.source.None? ==> inherited.None?) && Sourced(f)
    decreases f
  {
    hide Map, Named;
    NamesReturn(f.upvalues);
    LoadedAllExactly(f.p, if f.source.None? then inherited else Text(f.source), f.source);
  }

  lemma {:induction false} LoadedAllExactly(ps: seq<Proto<TString>>, source: Option<Bytes>, source0: Option<TString>)
    ensures (source.None? <==> source0.None?) ==>
              (LoadedAll(ps, source, false) == AsTexts(ps) <==> AllSourced(ps, source0))
    decreases ps
  {
    hide Loaded, AsText;
    if ps != [] {
      LoadedExactly(ps[0], source);
      LoadedAllExactly(ps[1..], source, source0);
      var a, b := LoadedAll(ps, source, false), AsTexts(ps);
      assert a[0] == Loaded(ps[0], source, false) && a[1..] == LoadedAll(ps[1..], source, false);
      assert b[0] == AsText(ps[0]) && b[1..] == AsTexts(ps[1..]);
      assert a == [a[0]] + a[1..] && b == [b[0]] + b[1..];
    }
  }

  /** With stripping, it gives the function without its debug information. */
  lemma {:induction false} LoadedStripped(f: Proto<TString>)
    ensures Loaded(f, None, true) == AsText(Stripped(f))
    decreases f
  {
    hide Map, Named;
    NamesReturn(f.upvalues);
    NothingNamed();
    LoadedAllStripped(f.p);
  }

  lemma NothingNamed()
    ensures Map(LocVarText, []) == []
  {
  }

  lemma {:induction false} LoadedAllStripped(ps: seq<Proto<TString>>)
    ensures LoadedAll(ps, None, true) == AsTexts(AllStripped(ps))
    decreases ps
  {
    hide Loaded, AsText, Stripped;
    if ps != [] {
      LoadedStripped(ps[0]);
      LoadedAllStripped(ps[1..]);
      assert AllStripped(ps)[1..] == AllStripped(ps[1..]);
    }
  }

  // ---- truncated chunks ----

  /** A beginning of a + b, but not all of it, is one of a, or a and a beginning of b. */
  lemma Beginnings(t: Bytes, a: Bytes, b: Bytes)
    requires t < a + b
    ensures t < a || (|a| <= |t| && t == a + t[|a|..] && t[|a|..] < b)
  {
    if |t| >= |a| {
      assert forall i :: 0 <= i < |a| ==> t[i] == (a + b)[i];
      assert forall i :: 0 <= i < |t| - |a| ==> t[|a|..][i] == (a + b)[|a| + i];
    }
  }

  lemma BlockShort(b: Bytes, t: Bytes)
    requires t < b
    ensures ReadBlock(|b|, t) == Failed(Truncated)
  {
  }

  lemma IntShort(m: Machine, x: int, t: Bytes)
    requires FitsSigned(m.ints, x) && t < DumpedInt(m, x)
    ensures ReadInt(m, t) == Failed(Truncated)
  {
  }

  lemma StringShort(m: Machine, s: Option<TString>, t: Bytes)
    requires FitsString(m, s) && t < DumpedString(m, Text(s))
    ensures ReadString(m, t) == Failed(Truncated)
  {
    hide Bound, Unsigned;
    if s.Some? && t != [] {
      var x := s.value.s;
      if |x| + 1 < 255 {
        Beginnings(t, [|x| + 1], x);
        BlockShort(x, t[1..]);
      } else {
        var u := Unsigned(m.sizes, |x| + 1, m.big);
        Joined([255], u, x);
        Beginnings(t, [255], u + x);
        Beginnings(t[1..], u, x);
        if t[1..] < u {
          BlockShort(u, t[1..]);
        } else {
          var t2 := t[1..][|u|..];
          SizeBack(m, |x| + 1, t2);
          BlockShort(x, t2);
        }
      }
    }
  }

  lemma KonstShort(m: Machine, k: Konst<TString>, t: Bytes)
    requires FitsKonst(m, k) && t < DumpedKonst(m, k)
    ensures ReadKonst(m, t) == Failed(Truncated)
  {
    hide ReadString, DumpedString, FitsSigned, FitsString, Signed;
    if t != [] {
      match k {
        case KFlt(bits) =>
          Beginnings(t, [3], bits);
          BlockShort(bits, t[1..]);
        case KInt(i) =>
          Beginnings(t, [19], Signed(m.integers, i, m.big));
          BlockShort(Signed(m.integers, i, m.big), t[1..]);
        case KStr(s) =>
          Beginnings(t, [if |s.s| <= MAXSHORTLEN then 4 else 20], DumpedString(m, Some(s.s)));
          StringShort(m, Some(s), t[1..]);
        case _ =>
      }
    }
  }

  lemma LocVarShort(m: Machine, v: LocVar<TString>, t: Bytes)
    requires FitsLocVar(m, v) && t < DumpedLocVar(m, v)
    ensures ReadLocVar(m, t) == Failed(Truncated)
  {
    hide ReadString, DumpedString, ReadInt, DumpedInt, FitsSigned, FitsString;
    var a, b, c := DumpedString(m, Text(v.name)), DumpedInt(m, v.startpc), DumpedInt(m, v.endpc);
    Beginnings(t, a, b + c);
    if t < a {
      StringShort(m, v.name, t);
    } else {
      var t1 := t[|a|..];
      StringBack(m, v.name, t1);
      Beginnings(t1, b, c);
      if t1 < b {
        IntShort(m, v.startpc, t1);
      } else {
        IntBack(m, v.startpc, t1[|b|..]);
        IntShort(m, v.endpc, t1[|b|..]);
      }
    }
  }

  /** Reading an element fails on any beginning of what was written. */
  ghost predicate Misses<A, B>(x: A, write: A --> Bytes, read: Bytes -> Parsed<B>)
    requires write.requires(x)
  {
    forall t: Bytes :: t < write(x) ==> read(t) == Failed(Truncated)
  }

  lemma {:induction false} ManyShort<A, B>(xs: seq<A>, write: A --> Bytes, read: Bytes -> Parsed<B>, ys: seq<B>,
                                           t: Bytes)
    requires |ys| == |xs| && (forall i :: 0 <= i < |xs| ==> write.requires(xs[i])) && t < All(xs, write)
    requires forall i :: 0 <= i < |xs| ==> Inverts(xs[i], write, read, ys[i]) && Misses(xs[i], write, read)
    ensures Many(|xs|, read, t) == Failed(Truncated)
    decreases |xs|
  {
    var a := write(xs[0]);
    Beginnings(t, a, All(xs[1..], write));
    assert Inverts(xs[0], write, read, ys[0]) && Misses(xs[0], write, read);
    if !(t < a) {
      var t1 := t[|a|..];
      assert read(a + t1) == Got(ys[0], t1);
      forall i | 0 <= i < |xs| - 1
        ensures Inverts(xs[1..][i], write, read, ys[1..][i]) && Misses(xs[1..][i], write, read)
      {
        assert Inverts(xs[i + 1], write, read, ys[i + 1]) && Misses(xs[i + 1], write, read);
      }
      ManyShort(xs[1..], write, read, ys[1..], t1);
    }
  }

  lemma ListShort<A, B>(m: Machine, xs: seq<A>, write: A --> Bytes, read: Bytes -> Parsed<B>, ys: seq<B>, t: Bytes)
    requires FitsSigned(m.ints, |xs|) && |ys| == |xs| && forall i :: 0 <= i < |xs| ==> write.requires(xs[i])
    requires forall i :: 0 <= i < |xs| ==> Inverts(xs[i], write, read, ys[i]) && Misses(xs[i], write, read)
    requires t < DumpedList(m, xs, write)
    ensures ReadList(m, read, t) == Failed(Truncated)
  {
    hide ReadInt, DumpedInt, Many, All, Inverts, Misses, FitsSigned;
    var a := DumpedInt(m, |xs|);
    Beginnings(t, a, All(xs, write));
    if t < a {
      IntShort(m, |xs|, t);
    } else {
      IntBack(m, |xs|, t[|a|..]);
      ManyShort(xs, write, read, ys, t[|a|..]);
    }
  }

  lemma VectorShort<A>(m: Machine, xs: seq<A>, size: nat, write: A --> Bytes, from: Bytes -> A, t: Bytes)
    requires FitsSigned(m.ints, |xs|) && forall i :: 0 <= i < |xs| ==> write.requires(xs[i])
    requires forall i :: 0 <= i < |xs| ==> Fixed(xs[i], write, size, from)
    requires t < DumpedList(m, xs, write)
    ensures ReadVector(m, size, from, t) == Failed(Truncated)
  {
    hide ReadInt, DumpedInt, Split, All, Fixed, FitsSigned;
    var a := DumpedInt(m, |xs|);
    Beginnings(t, a, All(xs, write));
    if t < a {
      IntShort(m, |xs|, t);
    } else {
      IntBack(m, |xs|, t[|a|..]);
      SplitBack(xs, size, write, from);
      BlockShort(All(xs, write), t[|a|..]);
    }
  }

  lemma CodeShort(m: Machine, code: seq<nat>, t: Bytes)
    requires FitsSigned(m.ints, |code|) && forall i :: 0 <= i < |code| ==> code[i] < Bound(m.instructions)
    requires t < DumpedCode(m, code)
    ensures ReadCode(m, t) == Failed(Truncated)
  {
    hide FitsSigned, ReadVector, DumpedList, Bound;
    forall i | 0 <= i < |code| ensures Fixed(code[i], CodeWriter(m), m.instructions, CodeFrom(m)) {
      UnsignedBack(m.instructions, code[i], m.big);
    }
    VectorShort(m, code, m.instructions, CodeWriter(m), CodeFrom(m), t);
  }

  lemma LinesShort(m: Machine, lines: seq<int>, t: Bytes)
    requires FitsSigned(m.ints, |lines|) && forall i :: 0 <= i < |lines| ==> FitsSigned(m.ints, lines[i])
    requires t < DumpedLines(m, lines)
    ensures ReadLines(m, t) == Failed(Truncated)
  {
    hide ReadVector, DumpedList, FitsSigned;
    forall i | 0 <= i < |lines| ensures Fixed(lines[i], LineWriter(m), m.ints, LineFrom(m)) {
      SignedBack(m.ints, lines[i], m.big);
    }
    VectorShort(m, lines, m.ints, LineWriter(m), LineFrom(m), t);
  }

  lemma KonstsShort(m: Machine, ks: seq<Konst<TString>>, t: Bytes)
    requires FitsSigned(m.ints, |ks|) && forall i :: 0 <= i < |ks| ==> FitsKonst(m, ks[i])
    requires t < DumpedKonsts(m, ks)
    ensures ReadList(m, KonstReader(m), t) == Failed(Truncated)
  {
    hide FitsSigned, FitsKonst, ReadKonst, DumpedKonst, ReadList, DumpedList;
    forall i | 0 <= i < |ks|
      ensures Inverts(ks[i], KonstWriter(m), KonstReader(m), KonstText(ks[i]))
      ensures Misses(ks[i], KonstWriter(m), KonstReader(m))
    {
      forall rest: Bytes { KonstBack(m, ks[i], rest); }
      forall t: Bytes | t < DumpedKonst(m, ks[i]) { KonstShort(m, ks[i], t); }
    }
    ListShort(m, ks, KonstWriter(m), KonstReader(m), Map(KonstText, ks), t);
  }

  lemma UpvalsShort(m: Machine, us: seq<Upval<TString>>, t: Bytes)
    requires FitsSigned(m.ints, |us|) && t < DumpedUpvals(m, us)
    ensures ReadList(m, ReadUpval, t) == Failed(Truncated)
  {
    hide FitsSigned, ReadList, DumpedList;
    forall i | 0 <= i < |us|
      ensures Inverts(us[i], DumpedUpval, ReadUpval, Bare(us[i])) && Misses(us[i], DumpedUpval, ReadUpval)
    {}
    ListShort(m, us, DumpedUpval, ReadUpval, Map(Bare, us), t);
  }

  lemma LocVarsShort(m: Machine, vs: seq<LocVar<TString>>, t: Bytes)
    requires FitsSigned(m.ints, |vs|) && forall i :: 0 <= i < |vs| ==> FitsLocVar(m, vs[i])
    requires t < DumpedLocVars(m, vs)
    ensures ReadList(m, LocVarReader(m), t) == Failed(Truncated)
  {
    hide FitsSigned, FitsLocVar, ReadLocVar, DumpedLocVar, ReadList, DumpedList;
    forall i | 0 <= i < |vs|
      ensures Inverts(vs[i], LocVarWriter(m), LocVarReader(m), LocVarText(vs[i]))
      ensures Misses(vs[i], LocVarWriter(m), LocVarReader(m))
    {
      forall rest: Bytes { LocVarBack(m, vs[i], rest); }
      forall t: Bytes | t < DumpedLocVar(m, vs[i]) { LocVarShort(m, vs[i], t); }
    }
    ListShort(m, vs, LocVarWriter(m), LocVarReader(m), Map(LocVarText, vs), t);
  }

  lemma NamesShort(m: Machine, us: seq<Upval<TString>>, k: nat, t: Bytes)
    requires FitsSigned(m.ints, |us|) && |us| <= k && forall i :: 0 <= i < |us| ==> FitsString(m, us[i].name)
    requires t < DumpedNames(m, us)
    ensures ReadNames(m, k, t) == Failed(Truncated)
  {
    hide FitsSigned, FitsString, ReadString, DumpedString, Many, All, ReadInt, DumpedInt;
    forall i | 0 <= i < |us|
      ensures Inverts(us[i], NameWriter(m), NameReader(m), NameOf(us[i])) && Misses(us[i], NameWriter(m), NameReader(m))
    {
      forall rest: Bytes { StringBack(m, us[i].name, rest); }
      forall t: Bytes | t < DumpedString(m, Text(us[i].name)) { StringShort(m, us[i].name, t); }
    }
    var a := DumpedInt(m, |us|);
    Beginnings(t, a, All(us, NameWriter(m)));
    if t < a {
      IntShort(m, |us|, t);
    } else {
      IntBack(m, |us|, t[|a|..]);
      ManyShort(us, NameWriter(m), NameReader(m), Map(NameOf, us), t[|a|..]);
    }
  }

  lemma DebugShort(m: Machine, f: Proto<TString>, strip: bool, t: Bytes)
    requires FitsOne(m, f) && t < DumpedDebug(m, f, strip)
    ensures ReadDebug(m, |f.upvalues|, t) == Failed(Truncated)
  {
    hide ReadLines, ReadList, ReadNames, DumpedLines, DumpedLocVars, DumpedNames;
    var ls, vs := if strip then [] else f.lineinfo, if strip then [] else f.locvars;
    var us := if strip then [] else f.upvalues;
    var a, b, c := DumpedLines(m, ls), DumpedLocVars(m, vs), DumpedNames(m, us);
    Beginnings(t, a, b + c);
    if t < a {
      LinesShort(m, ls, t);
    } else {
      var t1 := t[|a|..];
      LinesBack(m, ls, t1);
      Beginnings(t1, b, c);
      if t1 < b {
        LocVarsShort(m, vs, t1);
      } else {
        LocVarsBack(m, vs, t1[|b|..]);
        NamesShort(m, us, |f.upvalues|, t1[|b|..]);
      }
    }
  }

  /** The last three lists before the nested functions. */
  lemma ListsShort(m: Machine, f: Proto<TString>, t: Bytes)
    requires FitsOne(m, f) && t < DumpedCode(m, f.code) + (DumpedKonsts(m, f.k) + DumpedUpvals(m, f.upvalues))
    ensures var c := ReadCode(m, t);
            c == Failed(Truncated) ||
            (c.Got? && var k := ReadList(m, KonstReader(m), c.rest);
                       k == Failed(Truncated) || (k.Got? && ReadList(m, ReadUpval, k.rest) == Failed(Truncated)))
  {
    hide ReadCode, ReadList, DumpedCode, DumpedKonsts, DumpedUpvals;
    var a, b, c := DumpedCode(m, f.code), DumpedKonsts(m, f.k), DumpedUpvals(m, f.upvalues);
    Beginnings(t, a, b + c);
    if t < a {
      CodeShort(m, f.code, t);
    } else {
      var t1 := t[|a|..];
      CodeBack(m, f.code, t1);
      Beginnings(t1, b, c);
      if t1 < b {
        KonstsShort(m, f.k, t1);
      } else {
        KonstsBack(m, f.k, t1[|b|..]);
        UpvalsShort(m, f.upvalues, t1[|b|..]);
      }
    }
  }

  /** A dumped function up to the nested functions. */
  function DumpedFront(m: Machine, f: Proto<TString>, psource: Option<TString>, strip: bool): Bytes
    requires FitsOne(m, f)
  {
    DumpedSource(m, f.source, psource, strip) + (DumpedInt(m, f.linedefined) + (DumpedInt(m, f.lastlinedefined) +
    (DumpedLimits(f) + (DumpedCode(m, f.code) + (DumpedKonsts(m, f.k) + DumpedUpvals(m, f.upvalues))))))
  }

  lemma FrontShort(m: Machine, f: Proto<TString>, psource: Option<TString>, inherited: Option<Bytes>, strip: bool,
                   t: Bytes)
    requires FitsOne(m, f) && t < DumpedFront(m, f, psource, strip)
    ensures ReadFront(m, inherited, t) == Failed(Truncated)
  {
    hide ReadString, DumpedString, ReadInt, DumpedInt, ReadCode, DumpedCode, ReadList, DumpedKonsts, DumpedUpvals,
      ReadBlock, FitsSigned, FitsString, FitsKonst, FitsLocVar;
    var x: Option<TString> := if strip || f.source == psource then None else f.source;
    var b0 := DumpedSource(m, f.source, psource, strip);
    var b1, b2 := DumpedInt(m, f.linedefined), DumpedInt(m, f.lastlinedefined);
    var b4 := DumpedCode(m, f.code) + (DumpedKonsts(m, f.k) + DumpedUpvals(m, f.upvalues));
    var b3 := DumpedLimits(f);
    NothingFits(m);
    Beginnings(t, b0, b1 + (b2 + (b3 + b4)));
    if t < b0 {
      StringShort(m, x, t);
    } else {
      var t1 := t[|b0|..];
      StringBack(m, x, t1);
      Beginnings(t1, b1, b2 + (b3 + b4));
      if t1 < b1 {
        IntShort(m, f.linedefined, t1);
      } else {
        var t2 := t1[|b1|..];
        IntBack(m, f.linedefined, t2);
        Beginnings(t2, b2, b3 + b4);
        if t2 < b2 {
          IntShort(m, f.lastlinedefined, t2);
        } else {
          var t3 := t2[|b2|..];
          IntBack(m, f.lastlinedefined, t3);
          Beginnings(t3, b3, b4);
          if t3 < b3 {
            BlockShort(b3, t3);
          } else {
            BlockBack(b3, t3[|b3|..]);
            ListsShort(m, f, t3[|b3|..]);
          }
        }
      }
    }
  }

  lemma FrontAndRest(m: Machine, f: Proto<TString>, psource: Option<TString>, strip: bool)
    requires Fits(m, f) && FitsSigned(m.ints, |f.p|)
    ensures DumpedFront(m, f, psource, strip) +
            (DumpedInt(m, |f.p|) + (DumpedProtos(m, f.p, f.source, strip) + DumpedDebug(m, f, strip))) ==
            DumpedFunction(m, f, psource, strip)
  {
    hide DumpedSource, DumpedInt, DumpedLimits, DumpedCode, DumpedKonsts, DumpedUpvals, DumpedProtos, DumpedDebug,
      FitsSigned, FitsKonst, Fits, FitsString;
    FitsParts(m, f);
    var rest := DumpedInt(m, |f.p|) + (DumpedProtos(m, f.p, f.source, strip) + DumpedDebug(m, f, strip));
    FrontThen(m, f, psource, strip, rest);
  }

  lemma FrontThen(m: Machine, f: Proto<TString>, psource: Option<TString>, strip: bool, rest: Bytes)
    requires FitsOne(m, f)
    ensures DumpedFront(m, f, psource, strip) + rest ==
            DumpedSource(m, f.source, psource, strip) +
            (DumpedInt(m, f.linedefined) + (DumpedInt(m, f.lastlinedefined) + (DumpedLimits(f) +
            (DumpedCode(m, f.code) + (DumpedKonsts(m, f.k) + (DumpedUpvals(m, f.upvalues) + rest))))))
  {
    hide DumpedSource, DumpedInt, DumpedLimits, DumpedCode, DumpedKonsts, DumpedUpvals, FitsSigned, FitsKonst,
      FitsString;
    var x5 := DumpedKonsts(m, f.k) + DumpedUpvals(m, f.upvalues);
    var x4 := DumpedCode(m, f.code) + x5;
    var x3 := DumpedLimits(f) + x4;
    var x2 := DumpedInt(m, f.lastlinedefined) + x3;
    var x1 := DumpedInt(m, f.linedefined) + x2;
    Joined(DumpedSource(m, f.source, psource, strip), x1, rest);
    Joined(DumpedInt(m, f.linedefined), x2, rest);
    Joined(DumpedInt(m, f.lastlinedefined), x3, rest);
    Joined(DumpedLimits(f), x4, rest);
    Joined(DumpedCode(m, f.code), x5, rest);
    Joined(DumpedKonsts(m, f.k), DumpedUpvals(m, f.upvalues), rest);
  }

  lemma {:induction false} FunctionShort(m: Machine, f: Proto<TString>, psource: Option<TString>,
                                         inherited: Option<Bytes>, strip: bool, t: Bytes)
    requires Fits(m, f) && Inherits(psource, inherited, strip) && t < DumpedFunction(m, f, psource, strip)
    ensures ReadFunction(m, inherited, t) == Failed(Truncated)
    decreases f
  {
    hide ReadFront, ReadInt, ReadDebug, ReadProtos, DumpedInt, DumpedFront, DumpedProtos, DumpedDebug, DumpedFunction,
      FrontOf, FitsSigned, FitsString, FitsKonst;
    FitsParts(m, f);
    CountFits(m, f);
    FrontAndRest(m, f, psource, strip);
    var source := if strip || f.source.None? then inherited else Text(f.source);
    var a, b := DumpedFront(m, f, psource, strip), DumpedInt(m, |f.p|);
    var c, e := DumpedProtos(m, f.p, f.source, strip), DumpedDebug(m, f, strip);
    Beginnings(t, a, b + (c + e));
    if t < a {
      FrontShort(m, f, psource, inherited, strip, t);
    } else {
      var t1 := t[|a|..];
      FrontThen(m, f, psource, strip, t1);
      FrontBack(m, f, psource, inherited, strip, t1);
      FrontKeeps(f, source);
      Beginnings(t1, b, c + e);
      if t1 < b {
        IntShort(m, |f.p|, t1);
      } else {
        var t2 := t1[|b|..];
        IntBack(m, |f.p|, t2);
        Beginnings(t2, c, e);
        if t2 < c {
          ProtosShort(m, f.p, f.source, source, strip, t2);
        } else {
          ProtosBack(m, f.p, f.source, source, strip, t2[|c|..]);
          DebugShort(m, f, strip, t2[|c|..]);
        }
      }
    }
  }

  lemma {:induction false} ProtosShort(m: Machine, ps: seq<Proto<TString>>, psource: Option<TString>,
                                       inherited: Option<Bytes>, strip: bool, t: Bytes)
    requires (forall i :: 0 <= i < |ps| ==> Fits(m, ps[i])) && Inherits(psource, inherited, strip)
    requires t < DumpedProtos(m, ps, psource, strip)
    ensures ReadProtos(m, |ps|, inherited, t) == Failed(Truncated)
    decreases ps
  {
    hide ReadFunction, DumpedFunction, Loaded, Fits;
    var a := DumpedFunction(m, ps[0], psource, strip);
    Beginnings(t, a, DumpedProtos(m, ps[1..], psource, strip));
    if t < a {
      FunctionShort(m, ps[0], psource, inherited, strip, t);
    } else {
      FunctionBack(m, ps[0], psource, inherited, strip, t[|a|..]);
      ProtosShort(m, ps[1..], psource, inherited, strip, t[|a|..]);
    }
  }

  /** A header that ends too early. */
  lemma HeaderShort(m: Machine, t: Bytes)
    requires IsMachine(m) && t < DumpedHeader(m)[1..]
    ensures ReadHeader(m, t) == Failed(Truncated)
  {
    hide Signed, FitsSigned, DumpedHeader, ReadSizes, ReadNumbers, ReadBlock, DumpedSizes;
    HeaderParts(m, []);
    var c := Signed(m.integers, CHECKINT, m.big);
    assert m.num + [] == m.num;
    var b4 := c + m.num;
    var b3 := DumpedSizes(m) + b4;
    var b2 := DATA + b3;
    assert DumpedHeader(m) + [] == DumpedHeader(m);
    assert DumpedHeader(m)[1..] == SIGNATURE[1..] + ([VERSION, FORMAT] + b2);
    Beginnings(t, SIGNATURE[1..], [VERSION, FORMAT] + b2);
    if t < SIGNATURE[1..] {
      BlockShort(SIGNATURE[1..], t);
    } else {
      var t1 := t[3..];
      BlockBack(SIGNATURE[1..], t1);
      Beginnings(t1, [VERSION, FORMAT], b2);
      if !(t1 < [VERSION, FORMAT]) {
        var t2 := t1[2..];
        assert t1[1..][1..] == t2;
        Beginnings(t2, DATA, b3);
        if t2 < DATA {
          BlockShort(DATA, t2);
        } else {
          BlockBack(DATA, t2[|DATA|..]);
          SizesShort(m, b4, t2[|DATA|..]);
        }
      }
    }
  }

  /** The same behind the data. */
  lemma SizesShort(m: Machine, b: Bytes, t: Bytes)
    requires IsMachine(m) && FitsSigned(m.integers, CHECKINT) && b == Signed(m.integers, CHECKINT, m.big) + m.num
    requires t < DumpedSizes(m) + b
    ensures var p := ReadSizes(m, t); p == Failed(Truncated) || (p.Got? && ReadNumbers(m, p.rest) == Failed(Truncated))
  {
    hide Signed, FitsSigned, FromSigned;
    Beginnings(t, DumpedSizes(m), b);
    if |t| >= 5 {
      var t1 := t[5..];
      SizesDecide(m, m, t1);
      var c := Signed(m.integers, CHECKINT, m.big);
      Beginnings(t1, c, m.num);
      if t1 < c {
        BlockShort(c, t1);
      } else {
        BlockBack(c, t1[|c|..]);
        SignedBack(m.integers, CHECKINT, m.big);
        BlockShort(m.num, t1[|c|..]);
      }
    } else {
      FewSizes(m, t);
    }
  }

  lemma FewSizes(m: Machine, t: Bytes)
    requires IsMachine(m) && t < DumpedSizes(m)
    ensures ReadSizes(m, t) == Failed(Truncated)
  {
    assert |t| >= 1 ==> t[0] == m.ints;
    assert |t| >= 2 ==> t[1..][0] == m.sizes;
    assert |t| >= 3 ==> t[1..][1..][0] == m.instructions;
    assert |t| >= 4 ==> t[1..][1..][1..][0] == m.integers;
  }

  /** A chunk that ends too early is refused, wherever it ends. */
  lemma ChunkShort(m: Machine, f: Proto<TString>, strip: bool, t: Bytes)
    requires IsMachine(m) && Fits(m, f) && t < Dumped(m, f, strip)[1..]
    ensures ReadChunk(m, t) == Failed(Truncated)
  {
    hide ReadHeader, DumpedHeader, DumpedFunction, ReadFunction, Fits;
    var b := DumpedFunction(m, f, None, strip);
    FitsParts(m, f);
    HeaderDecides(m, m, []);
    assert Dumped(m, f, strip)[1..] == DumpedHeader(m)[1..] + ([|f.upvalues|] + b);
    Beginnings(t, DumpedHeader(m)[1..], [|f.upvalues|] + b);
    if t < DumpedHeader(m)[1..] {
      HeaderShort(m, t);
    } else {
      var t1 := t[|DumpedHeader(m)[1..]|..];
      HeaderDecides(m, m, t1);
      Beginnings(t1, [|f.upvalues|], b);
      if t1 != [] { FunctionShort(m, f, None, None, strip, t1[1..]); }
    }
  }
}
