/** Binary chunks byte by byte, as a machine with 64 bits and the low byte first writes them. */
module ChunkMeaning {
  import opened Shared
  import opened ChunkFormat

  /** The number 370.5 in double precision. */
  const NUM: Bytes := [0, 0, 0, 0, 0, 40, 119, 64]

  const M64 := Machine(4, 8, 4, 8, 8, false, NUM)

  lemma Bounds()
    ensures Bound(4) == 0x1_0000_0000 && Bound(8) == 0x1_0000_0000_0000_0000
  {
    assert Bound(2) == 0x1_0000 && Bound(4) == 0x1_0000 * Bound(2);
    assert Bound(6) == 0x1_0000 * Bound(4) && Bound(8) == 0x1_0000 * Bound(6);
  }

  /** Counts and line numbers are four bytes, with the low one first. */
  lemma IntsMean(x: nat)
    requires x < 0x8000_0000
    ensures FitsSigned(4, x)
    ensures DumpedInt(M64, x) == [x % 256, x / 0x100 % 256, x / 0x1_0000 % 256, x / 0x100_0000]
    ensures DumpedInt(M64.(big := true), x) == [x / 0x100_0000, x / 0x1_0000 % 256, x / 0x100 % 256, x % 256]
  {
    Bounds();
    FourBytes(x);
  }

  lemma FourBytes(x: nat)
    requires x < 0x1_0000_0000
    ensures Little(4, x) == [x % 256, x / 0x100 % 256, x / 0x1_0000 % 256, x / 0x100_0000]
    ensures Reversed(Little(4, x)) == [x / 0x100_0000, x / 0x1_0000 % 256, x / 0x100 % 256, x % 256]
  {
    assert x / 256 / 256 == x / 0x1_0000 && x / 0x1_0000 / 256 == x / 0x100_0000 && x / 0x100_0000 / 256 == 0;
    assert Little(1, x / 0x100_0000) == [x / 0x100_0000];
    assert Little(2, x / 0x1_0000) == [x / 0x1_0000 % 256, x / 0x100_0000];
    assert Little(3, x / 0x100) == [x / 0x100 % 256, x / 0x1_0000 % 256, x / 0x100_0000];
    assert Little(4, x) == [x % 256, x / 0x100 % 256, x / 0x1_0000 % 256, x / 0x100_0000];
  }

  lemma {:induction false} FullBytes(n: nat)
    ensures Little(n, 0) == seq(n, i => 0) && Little(n, Bound(n) - 1) == seq(n, i => 255)
  {
    if n > 0 {
      FullBytes(n - 1);
      assert (Bound(n) - 1) / 256 == Bound(n - 1) - 1 && (Bound(n) - 1) % 256 == 255;
    }
  }

  lemma LowBytes(x: nat)
    requires x < 0x1_0000
    ensures Little(8, x) == [x % 256, x / 256, 0, 0, 0, 0, 0, 0]
  {
    FullBytes(6);
    assert Little(6, 0) == [0, 0, 0, 0, 0, 0];
    assert Little(7, x / 256) == [x / 256] + Little(6, 0);
  }

  lemma TwoLess(b: nat)
    requires b > 0
    ensures (256 * b - 2) / 256 == b - 1 && (256 * b - 2) % 256 == 254
  {
  }

  lemma MinusTwo()
    ensures Little(8, Bound(8) - 2) == [254, 255, 255, 255, 255, 255, 255, 255]
  {
    FullBytes(7);
    assert Bound(8) == 256 * Bound(7);
    hide Bound;
    TwoLess(Bound(7));
    assert Little(8, Bound(8) - 2) == [254] + Little(7, Bound(7) - 1);
    hide Little;
    assert Little(7, Bound(7) - 1) == [255, 255, 255, 255, 255, 255, 255];
  }

  /** Integers are eight bytes, in two's complement. */
  lemma IntegersMean()
    ensures FitsSigned(8, 1) && FitsSigned(8, -2) && FitsSigned(8, 0x5678)
    ensures Signed(8, 1, false) == [1, 0, 0, 0, 0, 0, 0, 0]
    ensures Signed(8, -2, false) == [254, 255, 255, 255, 255, 255, 255, 255]
    ensures Signed(8, 0x5678, false) == [0x78, 0x56, 0, 0, 0, 0, 0, 0]
  {
    hide Little, Bound;
    Bounds();
    LowBytes(1);
    LowBytes(0x5678);
    MinusTwo();
  }

  /** A string has its length and one in front: in a byte, or behind 255 in eight bytes; no string is a zero. */
  lemma StringsMean(s: Bytes)
    ensures DumpedString(M64, None) == [0]
    ensures |s| < 254 ==> DumpedString(M64, Some(s)) == [|s| + 1] + s
    ensures 254 <= |s| < 0xFFFF ==>
              DumpedString(M64, Some(s)) == [255, (|s| + 1) % 256, (|s| + 1) / 256, 0, 0, 0, 0, 0, 0] + s
  {
    hide Little;
    if 254 <= |s| < 0xFFFF {
      LowBytes(|s| + 1);
      assert [255] + Unsigned(8, |s| + 1, false) == [255, (|s| + 1) % 256, (|s| + 1) / 256, 0, 0, 0, 0, 0, 0];
    }
  }

  /** Every constant begins with its type: nil, boolean, float, integer, short string, long string. */
  lemma ConstantsMean(bits: Bytes, short: TString, long: TString)
    requires |bits| == 8 && |short.s| == 40 && |long.s| == 41
    ensures FitsKonst(M64, KFlt(bits)) && FitsKonst(M64, KInt(-2))
    ensures FitsKonst(M64, KStr(short)) && FitsKonst(M64, KStr(long))
    ensures DumpedKonst(M64, KNil) == [0]
    ensures DumpedKonst(M64, KBool(false)) == [1, 0] && DumpedKonst(M64, KBool(true)) == [1, 1]
    ensures DumpedKonst(M64, KFlt(bits)) == [3] + bits
    ensures DumpedKonst(M64, KInt(-2)) == [19, 254, 255, 255, 255, 255, 255, 255, 255]
    ensures DumpedKonst(M64, KStr(short)) == [4, 41] + short.s
    ensures DumpedKonst(M64, KStr(long)) == [20, 42] + long.s
  {
    hide DumpedString, Signed, Bound;
    Bounds();
    IntegersMean();
    StringsMean(short.s);
    StringsMean(long.s);
    assert [4] + ([41] + short.s) == [4, 41] + short.s && [20] + ([42] + long.s) == [20, 42] + long.s;
  }

  /** What `luac` writes in front: the signature `ESC Lua`, version 5.3, format 0, the bytes that text modes would
      damage, the sizes, and the integer and the number that show how those are kept. */
  lemma HeaderMeans()
    ensures IsMachine(M64)
    ensures DumpedHeader(M64) ==
            [0x1B, 0x4C, 0x75, 0x61, 0x53, 0x00, 0x19, 0x93, 0x0D, 0x0A, 0x1A, 0x0A, 4, 8, 4, 8, 8,
             0x78, 0x56, 0, 0, 0, 0, 0, 0, 0, 0, 0, 0, 0, 0x28, 0x77, 0x40]
  {
    hide Signed, Bound;
    IntegersMean();
    assert DumpedHeader(M64) ==
           [0x1B, 0x4C, 0x75, 0x61] + ([0x53, 0] + ([0x19, 0x93, 0x0D, 0x0A, 0x1A, 0x0A] + ([4, 8, 4, 8, 8] +
           ([0x78, 0x56, 0, 0, 0, 0, 0, 0] + NUM))));
  }

  /** The function of the chunk `@x` that only returns, compiled from one empty line. */
  function EmptyMain(source: TString, env: TString): Proto<TString> {
    Proto(Some(source), 0, 0, 0, 1, 2, [0x80_0026], [], [Upval(1, 0, Some(env))], [], [1], [])
  }

  lemma MainFits(source: TString, env: TString)
    requires source.s == [64, 120] && env.s == [95, 69, 78, 86]
    ensures Fits(M64, EmptyMain(source, env))
  {
    Bounds();
    hide Bound;
    assert FitsOne(M64, EmptyMain(source, env));
  }

  lemma PartsMean(source: TString, env: TString)
    requires source.s == [64, 120] && env.s == [95, 69, 78, 86]
    ensures DumpedString(M64, Some(source.s)) == [3, 64, 120] && DumpedString(M64, Some(env.s)) == [5, 95, 69, 78, 86]
    ensures FitsSigned(4, 0) && FitsSigned(4, 1)
    ensures DumpedInt(M64, 0) == [0, 0, 0, 0] && DumpedInt(M64, 1) == [1, 0, 0, 0]
    ensures DumpedCode(M64, [0x80_0026]) == [1, 0, 0, 0, 0x26, 0, 0x80, 0]
  {
    hide DumpedInt, Bound, DumpedString, Little;
    IntsMean(0);
    IntsMean(1);
    StringsMean(source.s);
    StringsMean(env.s);
    FourBytes(0x80_0026);
    var code: seq<nat> := [0x80_0026];
    OneOf(code, CodeWriter(M64));
  }

  lemma OneOf<T>(xs: seq<T>, d: T --> Bytes)
    requires |xs| == 1 && d.requires(xs[0])
    ensures All(xs, d) == d(xs[0])
  {
    assert All(xs[1..], d) == [];
  }

  /** Its fields, in the order in which they are written: source, lines of definition, parameters, whether there are
      more arguments, stack size, code, constants, upvalues, inner functions, lines, locals and names of upvalues. */
  lemma FunctionMeans(source: TString, env: TString)
    requires source.s == [64, 120] && env.s == [95, 69, 78, 86]
    ensures Fits(M64, EmptyMain(source, env))
    ensures DumpedFunction(M64, EmptyMain(source, env), None, false) ==
            [3, 64, 120] + ([0, 0, 0, 0] + ([0, 0, 0, 0] + ([0, 1, 2] + ([1, 0, 0, 0, 0x26, 0, 0x80, 0] +
            ([0, 0, 0, 0] + ([1, 0, 0, 0, 1, 0] + ([0, 0, 0, 0] + ([] + ([1, 0, 0, 0, 1, 0, 0, 0] + ([0, 0, 0, 0] +
            [1, 0, 0, 0, 5, 95, 69, 78, 86]))))))))))
  {
    hide DumpedInt, Bound, DumpedString, DumpedCode, Fits, FitsOne;
    MainFits(source, env);
    PartsMean(source, env);
    var f := EmptyMain(source, env);
    OneOf(f.upvalues, DumpedUpval);
    OneOf(f.upvalues, NameWriter(M64));
    OneOf(f.lineinfo, LineWriter(M64));
  }

  /** The whole file: the header, the number of upvalues, and the function. */
  lemma FileMeans(source: TString, env: TString)
    requires source.s == [64, 120] && env.s == [95, 69, 78, 86]
    ensures Fits(M64, EmptyMain(source, env)) && IsMachine(M64)
    ensures Dumped(M64, EmptyMain(source, env), false) ==
            DumpedHeader(M64) + ([1] + DumpedFunction(M64, EmptyMain(source, env), None, false))
  {
    hide DumpedFunction, DumpedHeader, Fits;
    MainFits(source, env);
  }

  /** Without debug information, three counts of zero are left of it, and no source. */
  lemma StripMeans(f: Proto<TString>, psource: Option<TString>)
    requires FitsOne(M64, f)
    ensures DumpedDebug(M64, f, true) == seq(12, i => 0) && DumpedSource(M64, f.source, psource, true) == [0]
    ensures DumpedSource(M64, f.source, f.source, false) == [0]
  {
    hide DumpedInt, FitsOne;
    IntsMean(0);
  }
}
