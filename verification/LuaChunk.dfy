/** Dumping functions to a writer, and loading them from a stream that a reader delivers piece by piece. */
module LuaChunk {
  import opened Shared
  import opened ChunkFormat

  const EOZ: int := -1

  /** What a reader will deliver: an empty piece is the end. */
  function Delivered(chunks: seq<Bytes>): Bytes {
    if chunks == [] || chunks[0] == [] then [] else chunks[0] + Delivered(chunks[1..])
  }

  /** Some bytes of the current piece, and all further pieces. */
  function Unread(buffer: Bytes, p: nat, n: nat, chunks: seq<Bytes>): Bytes
    requires p + n <= |buffer|
  {
    buffer[p..p + n] + Delivered(chunks)
  }

  lemma Taken(buffer: Bytes, p: nat, n: nat, chunks: seq<Bytes>, m: nat)
    requires p + n <= |buffer| && m <= n
    ensures Unread(buffer, p, n, chunks) == buffer[p..p + m] + Unread(buffer, p + m, n - m, chunks)
  {
    hide Delivered;
  }

  lemma NothingUnread(buffer: Bytes, p: nat, chunks: seq<Bytes>)
    requires p <= |buffer|
    ensures Unread(buffer, p, 0, chunks) == if chunks == [] || chunks[0] == [] then []
            else Unread(chunks[0], 0, |chunks[0]|, chunks[1..])
  {
    if chunks != [] { assert chunks[0][0..|chunks[0]|] == chunks[0]; }
  }

  /** Reading goes on: a has been read of s, then b. */
  lemma ReadMore(s: Bytes, a: Bytes, b: Bytes, t: Bytes)
    requires s == a + (b + t)
    ensures s == (a + b) + t
  {
    Joined(a, b, t);
  }

  lemma AllRead(s: Bytes, a: Bytes, t: Bytes)
    requires s == a + t
    ensures s[..|a|] == a && s[|a|..] == t
  {
  }

  /** Buffered streams (`Zio`): n bytes from p on are still unread. */
  class Zio {
    var n: nat
    var p: nat
    var buffer: Bytes
    var chunks: seq<Bytes>

    predicate Valid()
      reads this
    {
      p + n <= |buffer|
    }

    /** All bytes that are still to come. */
    ghost function Stream(): Bytes
      requires Valid()
      reads this
    {
      Unread(buffer, p, n, chunks)
    }

    /** `luaZ_init`, with what the reader is going to deliver. */
    constructor (chunks: seq<Bytes>)
      ensures Valid() && Stream() == Delivered(chunks)
    {
      n, p, buffer := 0, 0, [];
      this.chunks := chunks;
    }

    /** `luaZ_fill`: asks the reader for the next piece, and takes its first byte. */
    method Fill() returns (c: int)
      requires Valid() && n == 0
      modifies this
      ensures Valid() && (c == EOZ <==> old(Stream()) == [])
      ensures c != EOZ ==> 0 <= c < 256 && old(Stream()) == [c] + Stream()
      ensures c != EOZ ==> p > 0 && Unread(buffer, p - 1, n + 1, chunks) == old(Stream()) && |chunks| < |old(chunks)|
    {
      hide Unread;
      NothingUnread(buffer, p, chunks);
      if chunks == [] {
        return EOZ;
      }
      var buff := chunks[0];
      chunks := chunks[1..];
      if buff == [] {
        return EOZ;
      }
      n := |buff| - 1;
      buffer := buff;
      p := 1;
      Taken(buff, 0, |buff|, chunks, 1);
      assert buff[0..0 + 1] == [buff[0]];
      return buff[0];
    }

    /** `zgetc`, when there is another byte. */
    method GetC() returns (c: int)
      requires Valid()
      modifies this
      ensures Valid() && (c == EOZ <==> old(Stream()) == [])
      ensures c != EOZ ==> 0 <= c < 256 && old(Stream()) == [c] + Stream()
    {
      hide Unread;
      if n > 0 {
        Taken(buffer, p, n, chunks, 1);
        c := buffer[p];
        assert buffer[p..p + 1] == [c];
        n, p := n - 1, p + 1;
      } else {
        c := Fill();
      }
    }

    /** The `memcpy` of `luaZ_read`: at most k bytes of the current piece. */
    method Copy(k: nat) returns (b: Bytes)
      requires Valid() && n > 0 && k > 0
      modifies this
      ensures Valid() && 0 < |b| <= k && old(Stream()) == b + Stream()
    {
      hide Unread;
      var m := if k <= n then k else n;
      Taken(buffer, p, n, chunks, m);
      b := buffer[p..p + m];
      n, p := n - m, p + m;
    }

    /** `luaZ_read`: the next k bytes, and how many of them are missing. */
    method Read(k: nat) returns (b: Bytes, missing: nat)
      requires Valid()
      modifies this
      ensures Valid() && missing == if |old(Stream())| < k then k - |old(Stream())| else 0
      ensures missing == 0 ==> b == old(Stream())[..k] && Stream() == old(Stream())[k..]
    {
      hide Unread;
      ghost var s := Stream();
      var rest: nat := k;
      b := [];
      assert s == b + Stream();
      while rest > 0
        invariant Valid() && rest <= k && |b| == k - rest && s == b + Stream()
        decreases rest
      {
        if n == 0 {
          var c := Fill();
          if c == EOZ {
            return b, rest;
          }
          n, p := n + 1, p - 1;
        }
        var x := Copy(rest);
        ReadMore(s, b, x, Stream());
        b := b + x;
        rest := rest - |x|;
      }
      AllRead(s, b, Stream());
      return b, 0;
    }
  }

  // ---- dumping ----

  /** The writer has been given b, or, if it has failed, no more than the beginning of b. A writer that has failed is
      not called again. */
  ghost predicate Wrote(out0: Bytes, status0: int, out: Bytes, status: int, b: Bytes) {
    if status0 != 0 then out == out0 && status == status0
    else if status == 0 then out == out0 + b
    else exists k: nat :: Beginning(out0, out, b, k)
  }

  predicate Beginning(out0: Bytes, out: Bytes, b: Bytes, k: nat) { k <= |b| && out == out0 + b[..k] }

  lemma WroteNothing(out: Bytes, status: int)
    ensures Wrote(out, status, out, status, [])
  {
    assert out + [] == out;
  }

  lemma WroteThen(out0: Bytes, status0: int, out1: Bytes, status1: int, a: Bytes, out2: Bytes, status2: int, b: Bytes)
    requires Wrote(out0, status0, out1, status1, a) && Wrote(out1, status1, out2, status2, b)
    ensures Wrote(out0, status0, out2, status2, a + b)
  {
    if status0 == 0 && status1 != 0 {
      var k: nat :| Beginning(out0, out1, a, k);
      assert (a + b)[..k] == a[..k];
      assert Beginning(out0, out2, a + b, k);
    } else if status0 == 0 && status2 != 0 {
      var k: nat :| Beginning(out1, out2, b, k);
      assert (a + b)[..|a| + k] == a + b[..k];
      Joined(out0, a, b[..k]);
      assert Beginning(out0, out2, a + b, |a| + k);
    } else if status0 == 0 {
      Joined(out0, a, b);
    }
  }

  /** Some elements of a list, and the next one. */
  lemma {:induction false} AllMore<T>(xs: seq<T>, i: nat, write: T --> Bytes)
    requires i < |xs| && forall j :: 0 <= j < |xs| ==> write.requires(xs[j])
    ensures All(xs[..i + 1], write) == All(xs[..i], write) + write(xs[i])
    decreases i
  {
    if i == 0 {
      assert xs[..1][1..] == [] && xs[..0] == [];
    } else {
      AllMore(xs[1..], i - 1, write);
      assert xs[..i + 1][1..] == xs[1..][..i] && xs[..i][1..] == xs[1..][..i - 1];
      Joined(write(xs[0]), All(xs[1..][..i - 1], write), write(xs[i]));
    }
  }

  class DumpState {
    const m: Machine
    const strip: bool
    /** The status that the writer gives at its n-th call. */
    const writer: nat -> int
    var calls: nat
    var out: Bytes
    var status: int

    constructor (m: Machine, strip: bool, writer: nat -> int)
      ensures this.m == m && this.strip == strip && this.writer == writer && out == [] && status == 0
    {
      this.m, this.strip, this.writer := m, strip, writer;
      calls, out, status := 0, [], 0;
    }

    twostate predicate Added(b: Bytes)
      reads this
    {
      Wrote(old(out), old(status), out, status, b)
    }

    /** `DumpBlock`. */
    method DumpBlock(b: Bytes)
      modifies this
      ensures Added(b)
    {
      if status == 0 && |b| > 0 {
        out := out + b;
        status := writer(calls);
        calls := calls + 1;
        assert b[..|b|] == b;
        assert Beginning(old(out), out, b, |b|);
      } else {
        assert out + [] == out && (b == [] ==> Beginning(old(out), out, b, 0));
      }
    }

    method DumpByte(y: byte)
      modifies this
      ensures Added([y])
    {
      DumpBlock([y]);
    }

    method DumpInt(x: int)
      requires FitsSigned(m.ints, x)
      modifies this
      ensures Added(DumpedInt(m, x))
    {
      DumpBlock(Signed(m.ints, x, m.big));
    }

    /** `DumpString`. */
    method DumpString(s: Option<TString>)
      modifies this
      ensures Added(DumpedString(m, Text(s)))
    {
      hide Wrote, Unsigned;
      if s.None? {
        DumpByte(0);
        return;
      }
      var size := |s.value.s| + 1;
      if size < 0xFF {
        DumpByte(size);
      } else {
        DumpByte(0xFF);
        ghost var out1, status1 := out, status;
        DumpBlock(Unsigned(m.sizes, size, m.big));
        WroteThen(old(out), old(status), out1, status1, [255], out, status, Unsigned(m.sizes, size, m.big));
      }
      ghost var out2, status2 := out, status;
      DumpBlock(s.value.s);
      WroteThen(old(out), old(status), out2, status2,
                if size < 0xFF then [size] else [255] + Unsigned(m.sizes, size, m.big), out, status, s.value.s);
    }

    /** `DumpCode`, and the first part of `DumpDebug`: an array is written as one block. */
    method DumpVector<T>(xs: seq<T>, write: T --> Bytes)
      requires FitsSigned(m.ints, |xs|) && forall i :: 0 <= i < |xs| ==> write.requires(xs[i])
      modifies this
      ensures Added(DumpedList(m, xs, write))
    {
      hide Wrote, All, DumpedInt;
      DumpInt(|xs|);
      ghost var out1, status1 := out, status;
      DumpBlock(All(xs, write));
      WroteThen(old(out), old(status), out1, status1, DumpedInt(m, |xs|), out, status, All(xs, write));
    }

    /** One round of `DumpConstants`. */
    method DumpConstant(k: Konst<TString>)
      requires FitsKonst(m, k)
      modifies this
      ensures Added(DumpedKonst(m, k))
    {
      hide Wrote, DumpedString, Signed;
      var t: byte := match k
        case KNil => 0
        case KBool(_) => 1
        case KFlt(_) => 3
        case KInt(_) => 19
        case KStr(s) => if |s.s| <= MAXSHORTLEN then 4 else 20;
      DumpByte(t);
      ghost var out1, status1, b := out, status, [];
      WroteNothing(out, status);
      match k {
        case KNil =>
        case KBool(v) =>
          b := [if v then 1 else 0];
          DumpByte(if v then 1 else 0);
        case KFlt(bits) =>
          b := bits;
          DumpBlock(bits);
        case KInt(i) =>
          b := Signed(m.integers, i, m.big);
          DumpBlock(Signed(m.integers, i, m.big));
        case KStr(s) =>
          b := DumpedString(m, Some(s.s));
          DumpString(Some(s));
      }
      WroteThen(old(out), old(status), out1, status1, [t], out, status, b);
      assert DumpedKonst(m, k) == [t] + b;
    }

    /** `DumpConstants`. */
    method DumpConstants(ks: seq<Konst<TString>>)
      requires FitsSigned(m.ints, |ks|) && forall i :: 0 <= i < |ks| ==> FitsKonst(m, ks[i])
      modifies this
      ensures Added(DumpedKonsts(m, ks))
    {
      hide Wrote, All, DumpedInt, DumpedKonst, FitsKonst, FitsSigned;
      DumpInt(|ks|);
      ghost var w := KonstWriter(m);
      ghost var b := DumpedInt(m, |ks|);
      NothingMore(b, ks, w);
      for i := 0 to |ks|
        invariant Wrote(old(out), old(status), out, status, b + All(ks[..i], w))
      {
        ghost var out1, status1 := out, status;
        DumpConstant(ks[i]);
        WroteThen(old(out), old(status), out1, status1, b + All(ks[..i], w), out, status, w(ks[i]));
        AllMore(ks, i, w);
        Joined(b, All(ks[..i], w), w(ks[i]));
      }
      assert ks[..|ks|] == ks;
    }

    /** `DumpUpvalues`. */
    method DumpUpvalues(us: seq<Upval<TString>>)
      requires FitsSigned(m.ints, |us|)
      modifies this
      ensures Added(DumpedUpvals(m, us))
    {
      hide Wrote, All, DumpedInt, FitsSigned;
      DumpInt(|us|);
      ghost var b := DumpedInt(m, |us|);
      NothingMore(b, us, DumpedUpval);
      for i := 0 to |us|
        invariant Wrote(old(out), old(status), out, status, b + All(us[..i], DumpedUpval))
      {
        ghost var out1, status1 := out, status;
        DumpByte(us[i].instack);
        ghost var out2, status2 := out, status;
        DumpByte(us[i].idx);
        WroteThen(out1, status1, out2, status2, [us[i].instack], out, status, [us[i].idx]);
        assert DumpedUpval(us[i]) == [us[i].instack] + [us[i].idx];
        WroteThen(old(out), old(status), out1, status1, b + All(us[..i], DumpedUpval), out, status, DumpedUpval(us[i]));
        AllMore(us, i, DumpedUpval);
        Joined(b, All(us[..i], DumpedUpval), DumpedUpval(us[i]));
      }
      assert us[..|us|] == us;
    }

    method DumpLocVars(vs: seq<LocVar<TString>>)
      requires FitsSigned(m.ints, |vs|) && forall i :: 0 <= i < |vs| ==> FitsLocVar(m, vs[i])
      modifies this
      ensures Added(DumpedLocVars(m, vs))
    {
      hide Wrote, All, DumpedInt, FitsSigned, FitsString, DumpedString;
      DumpInt(|vs|);
      ghost var w := LocVarWriter(m);
      ghost var b := DumpedInt(m, |vs|);
      NothingMore(b, vs, w);
      for i := 0 to |vs|
        invariant Wrote(old(out), old(status), out, status, b + All(vs[..i], w))
      {
        ghost var out1, status1 := out, status;
        DumpLocVar(vs[i]);
        WroteThen(old(out), old(status), out1, status1, b + All(vs[..i], w), out, status, w(vs[i]));
        AllMore(vs, i, w);
        Joined(b, All(vs[..i], w), w(vs[i]));
      }
      assert vs[..|vs|] == vs;
    }

    method DumpLocVar(v: LocVar<TString>)
      requires FitsLocVar(m, v)
      modifies this
      ensures Added(DumpedLocVar(m, v))
    {
      hide Wrote, DumpedInt, FitsSigned, FitsString, DumpedString;
      DumpString(v.name);
      ghost var out1, status1 := out, status;
      DumpInt(v.startpc);
      ghost var out2, status2 := out, status;
      DumpInt(v.endpc);
      WroteThen(out1, status1, out2, status2, DumpedInt(m, v.startpc), out, status, DumpedInt(m, v.endpc));
      WroteThen(old(out), old(status), out1, status1, DumpedString(m, Text(v.name)), out, status,
                DumpedInt(m, v.startpc) + DumpedInt(m, v.endpc));
    }

    method DumpNames(us: seq<Upval<TString>>)
      requires FitsSigned(m.ints, |us|)
      modifies this
      ensures Added(DumpedNames(m, us))
    {
      hide Wrote, All, DumpedInt, FitsSigned, DumpedString;
      DumpInt(|us|);
      ghost var w := NameWriter(m);
      ghost var b := DumpedInt(m, |us|);
      NothingMore(b, us, w);
      for i := 0 to |us|
        invariant Wrote(old(out), old(status), out, status, b + All(us[..i], w))
      {
        ghost var out1, status1 := out, status;
        DumpString(us[i].name);
        WroteThen(old(out), old(status), out1, status1, b + All(us[..i], w), out, status, w(us[i]));
        AllMore(us, i, w);
        Joined(b, All(us[..i], w), w(us[i]));
      }
      assert us[..|us|] == us;
    }

    /** `DumpDebug`. */
    method DumpDebug(f: Proto<TString>)
      requires FitsOne(m, f)
      modifies this
      ensures Added(DumpedDebug(m, f, strip))
    {
      hide Wrote, DumpedList, FitsSigned, FitsLocVar, FitsKonst, FitsString;
      ghost var ls, vs, us := if strip then [] else f.lineinfo, if strip then [] else f.locvars, if strip then []
        else f.upvalues;
      NothingFitsInt(m);
      DumpVector(if strip then [] else f.lineinfo, LineWriter(m));
      ghost var out1, status1 := out, status;
      DumpLocVars(if strip then [] else f.locvars);
      ghost var out2, status2 := out, status;
      DumpNames(if strip then [] else f.upvalues);
      WroteThen(out1, status1, out2, status2, DumpedLocVars(m, vs), out, status, DumpedNames(m, us));
      WroteThen(old(out), old(status), out1, status1, DumpedLines(m, ls), out, status,
          DumpedLocVars(m, vs) + DumpedNames(m, us));
    }

    /** `DumpFunction`, up to the nested functions. */
    method DumpFront(f: Proto<TString>, psource: Option<TString>)
      requires FitsOne(m, f)
      modifies this
      ensures Added(DumpedFront(m, f, psource, strip))
    {
      hide Wrote, DumpedList, FitsLocVar, FitsKonst, FitsString, DumpedString, DumpedInt, DumpedKonsts, DumpedUpvals;
      if strip || f.source == psource {
        DumpString(None);
      } else {
        DumpString(f.source);
      }
      ghost var out1, status1 := out, status;
      DumpInt(f.linedefined);
      ghost var out2, status2 := out, status;
      DumpInt(f.lastlinedefined);
      ghost var out3, status3 := out, status;
      DumpLimits(f);
      ghost var out4, status4 := out, status;
      DumpVector(f.code, CodeWriter(m));
      ghost var out5, status5 := out, status;
      DumpConstants(f.k);
      ghost var out6, status6 := out, status;
      DumpUpvalues(f.upvalues);
      WroteThen(out5, status5, out6, status6, DumpedKonsts(m, f.k), out, status, DumpedUpvals(m, f.upvalues));
      ghost var b := DumpedKonsts(m, f.k) + DumpedUpvals(m, f.upvalues);
      WroteThen(out4, status4, out5, status5, DumpedCode(m, f.code), out, status, b);
      b := DumpedCode(m, f.code) + b;
      WroteThen(out3, status3, out4, status4, DumpedLimits(f), out, status, b);
      b := DumpedLimits(f) + b;
      WroteThen(out2, status2, out3, status3, DumpedInt(m, f.lastlinedefined), out, status, b);
      b := DumpedInt(m, f.lastlinedefined) + b;
      WroteThen(out1, status1, out2, status2, DumpedInt(m, f.linedefined), out, status, b);
      b := DumpedInt(m, f.linedefined) + b;
      WroteThen(old(out), old(status), out1, status1, DumpedSource(m, f.source, psource, strip), out, status, b);
    }

    method DumpLimits(f: Proto<TString>)
      modifies this
      ensures Added(DumpedLimits(f))
    {
      hide Wrote;
      DumpByte(f.numparams);
      ghost var out1, status1 := out, status;
      DumpByte(f.isVararg);
      ghost var out2, status2 := out, status;
      DumpByte(f.maxstacksize);
      WroteThen(out1, status1, out2, status2, [f.isVararg], out, status, [f.maxstacksize]);
      WroteThen(old(out), old(status), out1, status1, [f.numparams], out, status, [f.isVararg] + [f.maxstacksize]);
      assert DumpedLimits(f) == [f.numparams] + ([f.isVararg] + [f.maxstacksize]);
    }

    /** `DumpFunction`. */
    method DumpFunction(f: Proto<TString>, psource: Option<TString>)
      requires Fits(m, f)
      modifies this
      ensures Added(DumpedFunction(m, f, psource, strip))
      decreases f, 0
    {
      hide Wrote, DumpedFront, DumpedProtos, DumpedDebug, DumpedFunction, FitsSigned, DumpedInt;
      FitsParts(m, f);
      CountFits(m, f);
      DumpFront(f, psource);
      ghost var out1, status1 := out, status;
      DumpInt(|f.p|);
      ghost var out2, status2 := out, status;
      DumpProtos(f.p, f.source);
      ghost var out3, status3 := out, status;
      DumpDebug(f);
      ghost var b := DumpedProtos(m, f.p, f.source, strip) + DumpedDebug(m, f, strip);
      WroteThen(out2, status2, out3, status3, DumpedProtos(m, f.p, f.source, strip), out, status,
          DumpedDebug(m, f, strip));
      WroteThen(out1, status1, out2, status2, DumpedInt(m, |f.p|), out, status, b);
      WroteThen(old(out), old(status), out1, status1, DumpedFront(m, f, psource, strip), out, status,
          DumpedInt(m, |f.p|) + b);
      FrontAndRest(m, f, psource, strip);
    }

    /** `DumpProtos`, behind the count. */
    method DumpProtos(ps: seq<Proto<TString>>, source: Option<TString>)
      requires forall i :: 0 <= i < |ps| ==> Fits(m, ps[i])
      modifies this
      ensures Added(DumpedProtos(m, ps, source, strip))
      decreases ps
    {
      hide Wrote, DumpedProtos, DumpedFunction, Fits;
      ghost var all := DumpedProtos(m, ps, source, strip);
      ghost var b: Bytes := [];
      WroteNothing(out, status);
      assert ps[0..] == ps && [] + all == all;
      for i := 0 to |ps|
        invariant Wrote(old(out), old(status), out, status, b) && b + DumpedProtos(m, ps[i..], source, strip) == all
      {
        ghost var out1, status1 := out, status;
        DumpFunction(ps[i], source);
        ghost var x := DumpedFunction(m, ps[i], source, strip);
        WroteThen(old(out), old(status), out1, status1, b, out, status, x);
        OneProto(m, ps, i, source, strip);
        Joined(b, x, DumpedProtos(m, ps[i + 1..], source, strip));
        b := b + x;
      }
      NoProto(m, ps, source, strip);
      assert b + [] == b;
    }

    /** `DumpHeader`. */
    method DumpHeader()
      requires IsMachine(m)
      modifies this
      ensures Added(DumpedHeader(m))
    {
      hide Wrote, FitsSigned, Signed;
      CheckIntFits(m);
      DumpBlock(SIGNATURE);
      ghost var out1, status1 := out, status;
      DumpByte(VERSION);
      ghost var out2, status2 := out, status;
      DumpByte(FORMAT);
      WroteThen(out1, status1, out2, status2, [VERSION], out, status, [FORMAT]);
      ghost var out3, status3 := out, status;
      DumpBlock(DATA);
      ghost var out4, status4 := out, status;
      DumpSizes();
      ghost var out5, status5 := out, status;
      DumpBlock(Signed(m.integers, CHECKINT, m.big));
      ghost var out6, status6 := out, status;
      DumpBlock(m.num);
      ghost var c := Signed(m.integers, CHECKINT, m.big);
      WroteThen(out5, status5, out6, status6, c, out, status, m.num);
      WroteThen(out4, status4, out5, status5, DumpedSizes(m), out, status, c + m.num);
      WroteThen(out3, status3, out4, status4, DATA, out, status, DumpedSizes(m) + (c + m.num));
      assert [VERSION] + [FORMAT] == [VERSION, FORMAT];
      WroteThen(out1, status1, out3, status3, [VERSION, FORMAT], out, status, DATA + (DumpedSizes(m) + (c + m.num)));
      WroteThen(old(out), old(status), out1, status1, SIGNATURE, out, status,
                [VERSION, FORMAT] + (DATA + (DumpedSizes(m) + (c + m.num))));
    }

    /** The sizes of the types, in bytes. */
    method DumpSizes()
      requires IsMachine(m)
      modifies this
      ensures Added(DumpedSizes(m))
    {
      hide Wrote;
      DumpByte(m.ints);
      ghost var out1, status1 := out, status;
      DumpByte(m.sizes);
      ghost var out2, status2 := out, status;
      DumpByte(m.instructions);
      ghost var out3, status3 := out, status;
      DumpByte(m.integers);
      ghost var out4, status4 := out, status;
      DumpByte(m.numbers);
      WroteThen(out3, status3, out4, status4, [m.integers], out, status, [m.numbers]);
      WroteThen(out2, status2, out3, status3, [m.instructions], out, status, [m.integers] + [m.numbers]);
      WroteThen(out1, status1, out2, status2, [m.sizes], out, status, [m.instructions] + ([m.integers] + [m.numbers]));
      WroteThen(old(out), old(status), out1, status1, [m.ints], out, status,
                [m.sizes] + ([m.instructions] + ([m.integers] + [m.numbers])));
      assert DumpedSizes(m) == [m.ints] + ([m.sizes] + ([m.instructions] + ([m.integers] + [m.numbers])));
    }

    /** `luaU_dump`: the writer gets the whole chunk, or a beginning of it if it fails. */
    method Dump(f: Proto<TString>) returns (result: int)
      requires IsMachine(m) && Fits(m, f) && status == 0
      modifies this
      ensures result == status && Added(Dumped(m, f, strip))
    {
      hide Wrote, DumpedHeader, DumpedFunction;
      FitsParts(m, f);
      DumpHeader();
      ghost var out1, status1 := out, status;
      DumpByte(|f.upvalues|);
      ghost var out2, status2 := out, status;
      DumpFunction(f, None);
      WroteThen(out1, status1, out2, status2, [|f.upvalues|], out, status, DumpedFunction(m, f, None, strip));
      WroteThen(old(out), old(status), out1, status1, DumpedHeader(m), out, status,
                [|f.upvalues|] + DumpedFunction(m, f, None, strip));
      return status;
    }
  }

  lemma NothingMore<T>(b: Bytes, xs: seq<T>, write: T --> Bytes)
    requires forall j :: 0 <= j < |xs| ==> write.requires(xs[j])
    ensures b + All(xs[..0], write) == b
  {
  }

  lemma OneProto(m: Machine, ps: seq<Proto<TString>>, i: nat, source: Option<TString>, strip: bool)
    requires i < |ps| && forall i :: 0 <= i < |ps| ==> Fits(m, ps[i])
    ensures DumpedProtos(m, ps[i..], source, strip) ==
            DumpedFunction(m, ps[i], source, strip) + DumpedProtos(m, ps[i + 1..], source, strip)
  {
    assert ps[i..][1..] == ps[i + 1..];
  }

  lemma NoProto(m: Machine, ps: seq<Proto<TString>>, source: Option<TString>, strip: bool)
    requires forall i :: 0 <= i < |ps| ==> Fits(m, ps[i])
    ensures DumpedProtos(m, ps[|ps|..], source, strip) == []
  {
  }

  lemma NothingFitsInt(m: Machine)
    ensures FitsSigned(m.ints, 0)
  {
  }

  // ---- loading ----

  datatype Outcome<T> = Ok(value: T) | Error(e: LoadError) {
    predicate IsFailure() { Error? }

    function PropagateFailure<U>(): Outcome<U>
      requires Error?
    {
      Error(e)
    }

    function Extract(): T
      requires Ok?
    {
      value
    }
  }

  /** What was read, and what is left, are as the format says. */
  ghost predicate Reads<T>(o: Outcome<T>, s: Bytes, p: Parsed<T>) {
    match p
    case Got(v, rest) => o == Ok(v) && s == rest
    case Failed(e) => o == Error(e)
  }

  class LoadState {
    const m: Machine
    const Z: Zio

    constructor (m: Machine, Z: Zio)
      ensures this.m == m && this.Z == Z
    {
      this.m, this.Z := m, Z;
    }

    /** `LoadBlock`. */
    method LoadBlock(size: nat) returns (o: Outcome<Bytes>)
      requires Z.Valid()
      modifies Z
      ensures Z.Valid() && Reads(o, Z.Stream(), ReadBlock(size, old(Z.Stream())))
    {
      var b, missing := Z.Read(size);
      if missing != 0 {
        return Error(Truncated);
      }
      return Ok(b);
    }

    method LoadByte() returns (o: Outcome<byte>)
      requires Z.Valid()
      modifies Z
      ensures Z.Valid() && Reads(o, Z.Stream(), ReadByte(old(Z.Stream())))
    {
      var b :- LoadBlock(1);
      return Ok(b[0]);
    }

    method LoadInt() returns (o: Outcome<int>)
      requires Z.Valid()
      modifies Z
      ensures Z.Valid() && Reads(o, Z.Stream(), ReadInt(m, old(Z.Stream())))
    {
      hide FromSigned;
      var b :- LoadBlock(m.ints);
      return Ok(FromSigned(b, m.big));
    }

    method LoadInteger() returns (o: Outcome<int>)
      requires Z.Valid()
      modifies Z
      ensures Z.Valid() && Reads(o, Z.Stream(), ReadInteger(m, old(Z.Stream())))
    {
      hide FromSigned;
      var b :- LoadBlock(m.integers);
      return Ok(FromSigned(b, m.big));
    }

    /** `LoadString`. (Short strings are shared with others of the same contents.) */
    method LoadString() returns (o: Outcome<Option<Bytes>>)
      requires Z.Valid()
      modifies Z
      ensures Z.Valid() && Reads(o, Z.Stream(), ReadString(m, old(Z.Stream())))
    {
      hide FromUnsigned;
      var x :- LoadByte();
      var size: nat := x;
      if size == 0xFF {
        var b :- LoadBlock(m.sizes);
        size := FromUnsigned(b, m.big);
      }
      if size == 0 {
        return Ok(None);
      }
      var t :- LoadBlock(size - 1);
      return Ok(Some(t));
    }

    /** `LoadCode`, and the first half of `LoadDebug`: an array of fixed-size elements is read as one block. */
    method LoadVector<T>(size: nat, from: Bytes -> T) returns (o: Outcome<seq<T>>)
      requires Z.Valid()
      modifies Z
      ensures Z.Valid() && Reads(o, Z.Stream(), ReadVector(m, size, from, old(Z.Stream())))
    {
      hide ReadInt;
      var n :- LoadInt();
      if n < 0 {
        return Error(NoMemory);
      }
      var b :- LoadBlock(n * size);
      return Ok(Split(n, size, b, from));
    }

    /** One round of `LoadConstants`. A tag that is none leaves the constant nil. */
    method LoadConstant() returns (o: Outcome<Konst<Bytes>>)
      requires Z.Valid()
      modifies Z
      ensures Z.Valid() && Reads(o, Z.Stream(), ReadKonst(m, old(Z.Stream())))
    {
      hide ReadString, ReadInteger, ReadBlock;
      var t :- LoadByte();
      match t {
        case 1 =>
          var b :- LoadByte();
          return Ok(KBool(b != 0));
        case 3 =>
          var b :- LoadBlock(m.numbers);
          return Ok(KFlt(b));
        case 19 =>
          var i :- LoadInteger();
          return Ok(KInt(i));
        case 4 | 20 =>
          var x :- LoadString();
          if x.None? {
            return Error(Untrusted);
          }
          return Ok(KStr(x.value));
        case _ =>
          return Ok(KNil);
      }
    }

    /** `LoadConstants`. */
    method LoadConstants() returns (o: Outcome<seq<Konst<Bytes>>>)
      requires Z.Valid()
      modifies Z
      ensures Z.Valid() && Reads(o, Z.Stream(), ReadList(m, KonstReader(m), old(Z.Stream())))
    {
      hide Many, ReadInt, ReadKonst, Prepend;
      var n :- LoadInt();
      if n < 0 {
        return Error(NoMemory);
      }
      ghost var s := Z.Stream();
      var ks, i: nat := [], 0;
      PrependNothing(Many(n, KonstReader(m), s));
      while i < n
        invariant Z.Valid() && i <= n
        invariant Many(n, KonstReader(m), s) == Prepend(ks, Many(n - i, KonstReader(m), Z.Stream()))
      {
        ManyStep(n, KonstReader(m), s, i, ks, Z.Stream());
        var k :- LoadConstant();
        ks, i := ks + [k], i + 1;
      }
      ManyNone(KonstReader(m), ks, Z.Stream());
      return Ok(ks);
    }

    /** `LoadUpvalues`. */
    method LoadUpvalues() returns (o: Outcome<seq<Upval<Bytes>>>)
      requires Z.Valid()
      modifies Z
      ensures Z.Valid() && Reads(o, Z.Stream(), ReadList(m, ReadUpval, old(Z.Stream())))
    {
      hide Many, ReadInt, ReadByte, Prepend;
      var n :- LoadInt();
      if n < 0 {
        return Error(NoMemory);
      }
      ghost var s := Z.Stream();
      var us, i: nat := [], 0;
      PrependNothing(Many(n, ReadUpval, s));
      while i < n
        invariant Z.Valid() && i <= n && Many(n, ReadUpval, s) == Prepend(us, Many(n - i, ReadUpval, Z.Stream()))
      {
        ManyStep(n, ReadUpval, s, i, us, Z.Stream());
        var instack :- LoadByte();
        var idx :- LoadByte();
        us, i := us + [Upval(instack, idx, None)], i + 1;
      }
      ManyNone(ReadUpval, us, Z.Stream());
      return Ok(us);
    }

    method LoadLocVars() returns (o: Outcome<seq<LocVar<Bytes>>>)
      requires Z.Valid()
      modifies Z
      ensures Z.Valid() && Reads(o, Z.Stream(), ReadList(m, LocVarReader(m), old(Z.Stream())))
    {
      hide Many, ReadInt, ReadString, Prepend;
      var n :- LoadInt();
      if n < 0 {
        return Error(NoMemory);
      }
      ghost var s := Z.Stream();
      var vs, i: nat := [], 0;
      PrependNothing(Many(n, LocVarReader(m), s));
      while i < n
        invariant Z.Valid() && i <= n
        invariant Many(n, LocVarReader(m), s) == Prepend(vs, Many(n - i, LocVarReader(m), Z.Stream()))
      {
        ManyStep(n, LocVarReader(m), s, i, vs, Z.Stream());
        var name :- LoadString();
        var startpc :- LoadInt();
        var endpc :- LoadInt();
        vs, i := vs + [LocVar(name, startpc, endpc)], i + 1;
      }
      ManyNone(LocVarReader(m), vs, Z.Stream());
      return Ok(vs);
    }

    /** The names of the k upvalues. */
    method LoadNames(k: nat) returns (o: Outcome<seq<Option<Bytes>>>)
      requires Z.Valid()
      modifies Z
      ensures Z.Valid() && Reads(o, Z.Stream(), ReadNames(m, k, old(Z.Stream())))
    {
      hide Many, ReadInt, ReadString, Prepend;
      var n :- LoadInt();
      if n > k {
        return Error(Untrusted);
      }
      ghost var s := Z.Stream();
      var ns: seq<Option<Bytes>>, i: int := [], 0;
      if n >= 0 { PrependNothing(Many(n, NameReader(m), s)); }
      while i < n
        invariant Z.Valid() && 0 <= i && (n < 0 ==> i == 0 && ns == [] && Z.Stream() == s)
        invariant n >= 0 ==> i <= n && Many(n, NameReader(m), s) == Prepend(ns, Many(n - i, NameReader(m), Z.Stream()))
      {
        ManyStep(n, NameReader(m), s, i, ns, Z.Stream());
        var name :- LoadString();
        ns, i := ns + [name], i + 1;
      }
      if n >= 0 { ManyNone(NameReader(m), ns, Z.Stream()); }
      return Ok(ns);
    }

    /** `LoadDebug`. */
    method LoadDebug(k: nat) returns (o: Outcome<Debug>)
      requires Z.Valid()
      modifies Z
      ensures Z.Valid() && Reads(o, Z.Stream(), ReadDebug(m, k, old(Z.Stream())))
    {
      hide ReadList, ReadNames, ReadVector;
      var ls :- LoadVector(m.ints, LineFrom(m));
      var vs :- LoadLocVars();
      var ns :- LoadNames(k);
      return Ok(Debug(ls, vs, ns));
    }

    /** The numbers of parameters and registers, and whether there are more arguments. */
    method LoadLimits() returns (o: Outcome<Bytes>)
      requires Z.Valid()
      modifies Z
      ensures Z.Valid() && Reads(o, Z.Stream(), ReadBlock(3, old(Z.Stream())))
    {
      ThreeBytes(Z.Stream());
      var numparams :- LoadByte();
      var isVararg :- LoadByte();
      var maxstacksize :- LoadByte();
      return Ok([numparams, isVararg, maxstacksize]);
    }

    /** `LoadFunction`, up to the nested functions. */
    method LoadFront(psource: Option<Bytes>) returns (o: Outcome<Front>)
      requires Z.Valid()
      modifies Z
      ensures Z.Valid() && Reads(o, Z.Stream(), ReadFront(m, psource, old(Z.Stream())))
    {
      hide ReadString, ReadInt, ReadVector, ReadList, KonstReader, CodeFrom;
      var source :- LoadString();
      if source.None? {
        source := psource;
      }
      var linedefined :- LoadInt();
      var lastlinedefined :- LoadInt();
      var l :- LoadLimits();
      var code :- LoadVector(m.instructions, CodeFrom(m));
      var k :- LoadConstants();
      var upvalues :- LoadUpvalues();
      return Ok(Front(source, linedefined, lastlinedefined, l[0], l[1], l[2], code, k, upvalues));
    }

    /** `LoadFunction`. */
    method LoadFunction(psource: Option<Bytes>) returns (o: Outcome<Proto<Bytes>>)
      requires Z.Valid()
      modifies Z
      ensures Z.Valid() && Reads(o, Z.Stream(), ReadFunction(m, psource, old(Z.Stream())))
      decreases |Z.Stream()|, 0
    {
      hide ReadFront, ReadDebug, ReadInt, ReadProtos;
      FrontConsumes(m, psource, Z.Stream());
      var f :- LoadFront(psource);
      IntConsumes(m, Z.Stream());
      var n :- LoadInt();
      if n < 0 {
        return Error(NoMemory);
      }
      var ps :- LoadProtos(n, f.source);
      var d :- LoadDebug(|f.upvalues|);
      return Ok(Whole(f, ps, d));
    }

    /** `LoadProtos`. */
    method LoadProtos(n: nat, source: Option<Bytes>) returns (o: Outcome<seq<Proto<Bytes>>>)
      requires Z.Valid()
      modifies Z
      ensures Z.Valid() && Reads(o, Z.Stream(), ReadProtos(m, n, source, old(Z.Stream())))
      decreases |Z.Stream()|, 1
    {
      hide ReadFunction, ReadProtos, Prepend;
      ghost var s := Z.Stream();
      var ps, i: nat := [], 0;
      PrependNothing(ReadProtos(m, n, source, s));
      while i < n
        invariant Z.Valid() && i <= n && |Z.Stream()| <= |s|
        invariant ReadProtos(m, n, source, s) == Prepend(ps, ReadProtos(m, n - i, source, Z.Stream()))
      {
        ProtosStep(m, n, source, s, i, ps, Z.Stream());
        var f :- LoadFunction(source);
        ps, i := ps + [f], i + 1;
      }
      ProtosNone(m, source, ps, Z.Stream());
      return Ok(ps);
    }

    // ---- headers ----

    /** `checkliteral`. */
    method CheckLiteral(x: Bytes) returns (o: Outcome<()>)
      requires Z.Valid()
      modifies Z
      ensures Z.Valid() && Reads(o, Z.Stream(), ExpectBlock(x, old(Z.Stream())))
    {
      var buff :- LoadBlock(|x|);
      if buff != x {
        return Error(Mismatch);
      }
      return Ok(());
    }

    /** `fchecksize`, and the checks of version and format. */
    method CheckByte(x: nat) returns (o: Outcome<()>)
      requires Z.Valid()
      modifies Z
      ensures Z.Valid() && Reads(o, Z.Stream(), Expect(x, old(Z.Stream())))
    {
      var b :- LoadByte();
      if b != x {
        return Error(Mismatch);
      }
      return Ok(());
    }

    /** `checkHeader`. */
    method CheckHeader() returns (o: Outcome<()>)
      requires Z.Valid()
      modifies Z
      ensures Z.Valid() && Reads(o, Z.Stream(), ReadHeader(m, old(Z.Stream())))
    {
      hide Expect, ExpectBlock, ReadInteger;
      var _ :- CheckLiteral(SIGNATURE[1..]);
      var _ :- CheckByte(VERSION);
      var _ :- CheckByte(FORMAT);
      var _ :- CheckLiteral(DATA);
      var _ :- CheckByte(m.ints);
      var _ :- CheckByte(m.sizes);
      var _ :- CheckByte(m.instructions);
      var _ :- CheckByte(m.integers);
      var _ :- CheckByte(m.numbers);
      var i :- LoadInteger();
      if i != CHECKINT {
        return Error(Mismatch);
      }
      var _ :- CheckLiteral(m.num);
      return Ok(());
    }

    /** `luaU_undump`: the number of upvalues of the closure, and its function. */
    method Undump() returns (o: Outcome<(byte, Proto<Bytes>)>)
      requires Z.Valid()
      modifies Z
      ensures Z.Valid() && Reads(o, Z.Stream(), ReadChunk(m, old(Z.Stream())))
    {
      hide ReadHeader, ReadFunction;
      var _ :- CheckHeader();
      var n :- LoadByte();
      var f :- LoadFunction(None);
      return Ok((n, f));
    }
  }

  // ---- lists that are read by loops ----

  function Prepend<T>(xs: seq<T>, p: Parsed<seq<T>>): Parsed<seq<T>> {
    if p.Got? then Got(xs + p.v, p.rest) else p
  }

  lemma PrependNothing<T>(p: Parsed<seq<T>>)
    ensures p == Prepend([], p)
  {
    if p.Got? { assert [] + p.v == p.v; }
  }

  lemma PrependMore<T>(xs: seq<T>, x: T, p: Parsed<seq<T>>)
    ensures Prepend(xs, Prepend([x], p)) == Prepend(xs + [x], p)
  {
    if p.Got? { assert xs + ([x] + p.v) == (xs + [x]) + p.v; }
  }

  lemma ManyNone<T>(read: Bytes -> Parsed<T>, xs: seq<T>, s: Bytes)
    ensures Prepend(xs, Many(0, read, s)) == Got(xs, s)
  {
    assert xs + [] == xs;
  }

  lemma ManyStep<T>(n: nat, read: Bytes -> Parsed<T>, s0: Bytes, i: nat, xs: seq<T>, s: Bytes)
    requires i < n && Many(n, read, s0) == Prepend(xs, Many(n - i, read, s))
    ensures read(s).Failed? ==> Many(n, read, s0) == Failed(read(s).e)
    ensures read(s).Got? ==> Many(n, read, s0) == Prepend(xs + [read(s).v], Many(n - i - 1, read, read(s).rest))
  {
    if read(s).Got? {
      assert Many(n - i, read, s) == Prepend([read(s).v], Many(n - i - 1, read, read(s).rest));
      PrependMore(xs, read(s).v, Many(n - i - 1, read, read(s).rest));
    }
  }

  lemma ProtosNone(m: Machine, source: Option<Bytes>, ps: seq<Proto<Bytes>>, s: Bytes)
    ensures Prepend(ps, ReadProtos(m, 0, source, s)) == Got(ps, s)
  {
    assert ps + [] == ps;
  }

  lemma ProtosStep(m: Machine, n: nat, source: Option<Bytes>, s0: Bytes, i: nat, ps: seq<Proto<Bytes>>, s: Bytes)
    requires i < n && ReadProtos(m, n, source, s0) == Prepend(ps, ReadProtos(m, n - i, source, s))
    ensures var f := ReadFunction(m, source, s);
            (f.Failed? ==> ReadProtos(m, n, source, s0) == Failed(f.e)) &&
            (f.Got? ==>
                  |f.rest| < |s| &&
                  ReadProtos(m, n, source, s0) == Prepend(ps + [f.v], ReadProtos(m, n - i - 1, source, f.rest)))
  {
    hide ReadFunction;
    var f := ReadFunction(m, source, s);
    if f.Got? {
      assert ReadProtos(m, n - i, source, s) == Prepend([f.v], ReadProtos(m, n - i - 1, source, f.rest));
      PrependMore(ps, f.v, ReadProtos(m, n - i - 1, source, f.rest));
    }
  }

  lemma IntConsumes(m: Machine, s: Bytes)
    ensures var p := ReadInt(m, s); p.Got? ==> |p.rest| <= |s|
  {
  }

  /** Three bytes are a block of three. */
  lemma ThreeBytes(s: Bytes)
    ensures |s| >= 3 ==> ReadBlock(3, s) == Got([s[0], s[1], s[2]], s[1..][1..][1..]) && s[1..][0] == s[1]
    ensures |s| >= 3 ==> s[1..][1..][0] == s[2]
  {
    if |s| >= 3 { assert s[..3] == [s[0], s[1], s[2]] && s[3..] == s[1..][1..][1..]; }
  }

  // ---- both ----

  lemma SameTail(c: int, s: Bytes, x: byte, t: Bytes)
    requires 0 <= c < 256 && [c] + s == [x] + t
    ensures c == x && s == t
  {
    assert ([c] + s)[0] == c && ([c] + s)[1..] == s && ([x] + t)[1..] == t;
  }

  /** What a writer has got of a chunk. */
  lemma WroteBeginning(out: Bytes, status: int, b: Bytes)
    requires Wrote([], 0, out, status, b)
    ensures out <= b && (status == 0 ==> out == b)
  {
    assert [] + b == b;
    if status != 0 {
      var k: nat :| Beginning([], out, b, k);
      assert [] + b[..k] == b[..k];
    }
  }

  /** A function is dumped, and what the writer got is loaded again, by a machine that may be another one and through a
      reader that may split it anywhere and have more behind it (`f_parser`; input that does not begin like a chunk is
      left to the parser, and is a mismatch here). If the writer has got everything, the result is as the round trip
      says, and the loader has taken exactly what was dumped. If it has failed before, and nothing else follows, the
      loader says that the chunk is truncated. */
  method DumpAndLoad(m: Machine, f: Proto<TString>, strip: bool, writer: nat -> int, m': Machine,
                     split: Bytes -> seq<Bytes>, ghost more: Bytes)
    returns (status: int, o: Outcome<(byte, Proto<Bytes>)>, ghost out: Bytes, ghost left: Bytes)
    requires IsMachine(m) && IsMachine(m') && Fits(m, f) && forall b :: Delivered(split(b)) == b + more
    ensures out <= Dumped(m, f, strip) && (status == 0 ==> out == Dumped(m, f, strip)) && |f.upvalues| < 256
    ensures m' == m && out == Dumped(m, f, strip) ==> o == Ok((|f.upvalues|, Loaded(f, None, strip))) && left == more
    ensures m' != m && out == Dumped(m, f, strip) ==> o == Error(Mismatch)
    ensures m' == m && 0 < |out| < |Dumped(m, f, strip)| && more == [] ==> o == Error(Truncated)
  {
    hide Dumped, Loaded, ReadChunk, Delivered, Wrote;
    ChunkBack(m, f, strip, m', more);
    var d := new DumpState(m, strip, writer);
    status := d.Dump(f);
    ghost var b := Dumped(m, f, strip);
    out := d.out;
    WroteBeginning(out, status, b);
    var z := new Zio(split(d.out));
    ghost var s := z.Stream();
    o, left := Error(Mismatch), [];
    var c := z.GetC();
    if out != [] {
      assert out[0] == b[0] && s == [out[0]] + (out[1..] + more);
      SameTail(c, z.Stream(), out[0], out[1..] + more);
      if m' == m && out < b && more == [] {
        assert out[1..] + more == out[1..] && out[1..] < b[1..];
        ChunkShort(m, f, strip, out[1..]);
      }
    }
    if c == SIGNATURE[0] {
      var l := new LoadState(m', z);
      o := l.Undump();
      left := z.Stream();
    }
  }
}
