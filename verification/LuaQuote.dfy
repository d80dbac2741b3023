/** `%q` of `string.format`, and the scanner's reading of string literals. */
module LuaQuote {

  type byte = n: nat | n < 256

  const EOZ: int := -1
  const MAX_INT: nat := 0x7FFF_FFFF
  const QUOTE: byte := 34
  const APOSTROPHE: byte := 39
  const BACKSLASH: byte := 92
  const LF: byte := 10
  const CR: byte := 13

  predicate IsDigit(c: int) { 48 <= c <= 57 }

  predicate IsXDigit(c: int) { IsDigit(c) || 65 <= c <= 70 || 97 <= c <= 102 }

  predicate IsSpace(c: int) { 9 <= c <= 13 || c == 32 }

  predicate IsNewline(c: int) { c == LF || c == CR }

  function HexValue(c: int): (v: nat)
    requires IsXDigit(c)
    ensures v < 16
  {
    if IsDigit(c) then c - 48 else if c >= 97 then c - 97 + 10 else c - 65 + 10
  }

  // ---- writing ----

  /** A number in decimal, as the formats `%d` and `%03d` write it. */
  function Dec(c: byte): seq<byte> {
    if c < 10 then [48 + c] else if c < 100 then [48 + c / 10, 48 + c % 10] else Dec3(c)
  }

  function Dec3(c: byte): seq<byte> { [48 + c / 100, 48 + c / 10 % 10, 48 + c % 10] }

  /** How a byte is written, when next is the byte behind it. */
  function Item(control: byte -> bool, c: byte, next: int): seq<byte> {
    if c == QUOTE || c == BACKSLASH || c == LF then [BACKSLASH, c]
    else if control(c) then [BACKSLASH] + if IsDigit(next) then Dec3(c) else Dec(c)
    else [c]
  }

  /** Strings end with a zero. */
  function HeadOr0(s: seq<byte>): int { if s == [] then 0 else s[0] }

  function Body(control: byte -> bool, s: seq<byte>): seq<byte> {
    if s == [] then [] else Item(control, s[0], HeadOr0(s[1..])) + Body(control, s[1..])
  }

  /** `addquoted`; control is the C library's `iscntrl`. */
  method AddQuoted(s: seq<byte>, control: byte -> bool) returns (b: seq<byte>)
    ensures b == [QUOTE] + Body(control, s) + [QUOTE]
  {
    hide Body, Item, IsDigit, Dec, Dec3;
    b := [QUOTE];
    var i := 0;
    BodyFrom(control, s, i, b);
    while i < |s|
      invariant 0 <= i <= |s| && b + Body(control, s[i..]) == [QUOTE] + Body(control, s)
    {
      ghost var was := b;
      if s[i] == QUOTE || s[i] == BACKSLASH || s[i] == LF {
        b := b + [BACKSLASH];
        b := b + [s[i]];
      } else if control(s[i]) {
        if !IsDigit(if i + 1 < |s| then s[i + 1] else 0) {
          b := b + ([BACKSLASH] + Dec(s[i]));
        } else {
          b := b + ([BACKSLASH] + Dec3(s[i]));
        }
      } else {
        b := b + [s[i]];
      }
      BodyStep(control, s, i, was, b);
      i := i + 1;
    }
    BodyEnd(control, s, b);
    return b + [QUOTE];
  }

  lemma BodyFrom(control: byte -> bool, s: seq<byte>, i: nat, b: seq<byte>)
    requires i == 0
    ensures b + Body(control, s[i..]) == b + Body(control, s)
  {
    assert s[0..] == s;
  }

  lemma BodyEnd(control: byte -> bool, s: seq<byte>, b: seq<byte>)
    ensures b + Body(control, s[|s|..]) == b
  {
  }

  lemma BodyStep(control: byte -> bool, s: seq<byte>, i: nat, was: seq<byte>, b: seq<byte>)
    requires i < |s| && var c := s[i];
      b == if c == QUOTE || c == BACKSLASH || c == LF then was + [BACKSLASH] + [c]
           else if control(c) then
               was + ([BACKSLASH] + if IsDigit(if i + 1 < |s| then s[i + 1] else 0) then Dec3(c) else Dec(c))
           else was + [c]
    ensures b + Body(control, s[i + 1..]) == was + Body(control, s[i..])
  {
    hide IsDigit, Dec, Dec3;
    var item := Item(control, s[i], HeadOr0(s[i + 1..]));
    BodyAt(control, s, i);
    Regroup(was, item, Body(control, s[i + 1..]));
    Regroup(was, [BACKSLASH], [s[i]]);
  }

  lemma BodyAt(control: byte -> bool, s: seq<byte>, i: nat)
    requires i < |s|
    ensures Body(control, s[i..]) == Item(control, s[i], HeadOr0(s[i + 1..])) + Body(control, s[i + 1..])
    ensures HeadOr0(s[i + 1..]) == if i + 1 < |s| then s[i + 1] else 0
  {
    hide Item;
    assert s[i..][1..] == s[i + 1..];
  }

  lemma Regroup(a: seq<byte>, b: seq<byte>, c: seq<byte>)
    ensures a + b + c == a + (b + c)
  {
  }

  // ---- what a literal means ----

  datatype LexError =
    | Unfinished | InvalidEscape | HexExpected | MissingBrace | Utf8TooLarge | DecimalTooLarge | TooManyLines

  /** The bytes of an escape sequence, what comes behind it, and the line number there. */
  datatype Esc = Emit(bs: seq<byte>, rest: seq<byte>, line: nat) | Bad(e: LexError)

  /** The letters that stand for control characters. */
  function Letter(c: byte): int {
    match c
    case 97 => 7
    case 98 => 8
    case 102 => 12
    case 110 => 10
    case 114 => 13
    case 116 => 9
    case 118 => 11
    case _ => -1
  }

  /** A newline is one or two different newline characters. */
  function BehindNewline(ts: seq<byte>): (r: seq<byte>)
    requires ts != []
    ensures |r| < |ts|
  {
    if |ts| >= 2 && IsNewline(ts[1]) && ts[1] != ts[0] then ts[2..] else ts[1..]
  }

  /** Up to n leading digits. */
  function Digits(ts: seq<byte>, n: nat): (k: nat)
    ensures k <= n && k <= |ts|
  {
    if n == 0 || ts == [] || !IsDigit(ts[0]) then 0 else 1 + Digits(ts[1..], n - 1)
  }

  function DecValue(ts: seq<byte>, k: nat): nat
    requires k <= Digits(ts, 3)
  {
    if k == 0 then 0 else DecDigit(ts, k - 1); 10 * DecValue(ts, k - 1) + ts[k - 1] - 48
  }

  lemma {:induction false} DecDigit(ts: seq<byte>, k: nat)
    requires k < Digits(ts, 3)
    ensures IsDigit(ts[k])
  {
    if k == 1 { assert Digits(ts[1..], 2) > 0; }
    if k == 2 { assert Digits(ts[1..], 2) > 1 && Digits(ts[1..][1..], 1) > 0; }
  }

  function DecimalEscape(ts: seq<byte>, line: nat): Esc {
    var k := Digits(ts, 3);
    if DecValue(ts, k) < 256 then Emit([DecValue(ts, k)], ts[k..], line) else Bad(DecimalTooLarge)
  }

  /** White space behind `\z`. */
  function Zap(ts: seq<byte>, line: nat): Esc
    decreases |ts|
  {
    if ts == [] || !IsSpace(ts[0]) then Emit([], ts, line)
    else if IsNewline(ts[0]) then if line + 1 >= MAX_INT then Bad(TooManyLines) else Zap(BehindNewline(ts), line + 1)
    else Zap(ts[1..], line)
  }

  /** `luaO_utf8esc`: continuation bytes in front of what is there, until the rest fits behind the marks of the first
      byte. */
  function Utf8(x: nat): seq<byte>
    requires x <= 0x10_FFFF
  {
    if x < 0x80 then [x] else Utf8More(x, 0x3f, [])
  }

  function Utf8More(x: nat, mfb: nat, bs: seq<byte>): seq<byte>
    requires mfb < 0x40
    decreases x
  {
    var b, x1, mfb1 := [0x80 + x % 64] + bs, x / 64, mfb / 2;
    if x1 > mfb1 then Utf8More(x1, mfb1, b) else [254 - 2 * mfb1 + x1] + b
  }

  /** Hexadecimal digits up to the closing brace. */
  function Utf8Digits(ts: seq<byte>, r: nat, line: nat): Esc
    requires r <= 0x10_FFFF
  {
    if ts == [] then Bad(MissingBrace)
    else if IsXDigit(ts[0]) then
      var r1 := r * 16 + HexValue(ts[0]);
      if r1 <= 0x10_FFFF then Utf8Digits(ts[1..], r1, line) else Bad(Utf8TooLarge)
    else if ts[0] == 125 then Emit(Utf8(r), ts[1..], line)
    else Bad(MissingBrace)
  }

  /** What stands behind a backslash. */
  function Escape(ts: seq<byte>, line: nat): Esc {
    if ts == [] then Bad(Unfinished)
    else
      var c := ts[0];
      if Letter(c) >= 0 then Emit([Letter(c)], ts[1..], line)
      else if c == 120 then
        if |ts| >= 2 && IsXDigit(ts[1]) && |ts| >= 3 && IsXDigit(ts[2]) then
            Emit([HexValue(ts[1]) * 16 + HexValue(ts[2])], ts[3..], line) else Bad(HexExpected)
      else if c == 117 then
        if |ts| < 2 || ts[1] != 123 then Bad(MissingBrace)
        else if |ts| < 3 || !IsXDigit(ts[2]) then Bad(HexExpected)
        else Utf8Digits(ts[3..], HexValue(ts[2]), line)
      else if IsNewline(c) then if line + 1 >= MAX_INT then Bad(TooManyLines)
        else Emit([LF], BehindNewline(ts), line + 1)
      else if c == BACKSLASH || c == QUOTE || c == APOSTROPHE then Emit([c], ts[1..], line)
      else if c == 122 then Zap(ts[1..], line)
      else if IsDigit(c) then DecimalEscape(ts, line)
      else Bad(InvalidEscape)
  }

  datatype Scanned = String(s: seq<byte>, rest: seq<byte>, line: nat) | Error(e: LexError)

  /** The rest of a literal that del ends, behind the bytes in acc (section 3.1 of the Lua 5.3 Reference Manual). */
  function Scan(ts: seq<byte>, del: byte, line: nat, acc: seq<byte>): Scanned
    decreases |ts|
  {
    if ts == [] then Error(Unfinished)
    else if ts[0] == del then String(acc, ts[1..], line)
    else if IsNewline(ts[0]) then Error(Unfinished)
    else if ts[0] == BACKSLASH then
      var e := Escape(ts[1..], line);
      if e.Bad? then Error(e.e) else EscapeShorter(ts[1..], line); Scan(e.rest, del, e.line, acc + e.bs)
    else Scan(ts[1..], del, line, acc + [ts[0]])
  }

  lemma EscapeShorter(ts: seq<byte>, line: nat)
    ensures var e := Escape(ts, line); e.Emit? ==> |e.rest| < |ts|
  {
    if ts != [] {
      if ts[0] == 117 && |ts| >= 3 && IsXDigit(ts[2]) {
        Utf8Shorter(ts[3..], HexValue(ts[2]), line);
      } else if ts[0] == 122 {
        ZapShorter(ts[1..], line);
      } else if IsDigit(ts[0]) {
        assert Digits(ts, 3) >= 1;
      }
    }
  }

  lemma {:induction false} Utf8Shorter(ts: seq<byte>, r: nat, line: nat)
    requires r <= 0x10_FFFF
    ensures var e := Utf8Digits(ts, r, line); e.Emit? ==> |e.rest| < |ts|
  {
    if ts != [] && IsXDigit(ts[0]) && r * 16 + HexValue(ts[0]) <= 0x10_FFFF {
      Utf8Shorter(ts[1..], r * 16 + HexValue(ts[0]), line);
    }
  }

  lemma {:induction false} ZapShorter(ts: seq<byte>, line: nat)
    ensures var e := Zap(ts, line); e.Emit? ==> |e.rest| <= |ts|
    decreases |ts|
  {
    if ts != [] && IsSpace(ts[0]) {
      if IsNewline(ts[0]) { ZapShorter(BehindNewline(ts), line + 1); } else { ZapShorter(ts[1..], line); }
    }
  }

  // ---- reading back ----

  function Newlines(s: seq<byte>): nat { if s == [] then 0 else (if s[0] == LF then 1 else 0) + Newlines(s[1..]) }

  /** What comes behind a written byte: never a bare newline character, and no digit unless the next byte is one. */
  lemma BodyHead(control: byte -> bool, s: seq<byte>, rest: seq<byte>)
    requires control(CR)
    ensures var ts := Body(control, s) + [QUOTE] + rest;
            ts != [] && !IsNewline(ts[0]) && (IsDigit(ts[0]) ==> IsDigit(HeadOr0(s)))
  {
  }

  lemma DecReads(c: byte, three: bool, rest: seq<byte>, line: nat)
    requires !three ==> rest != [] && !IsDigit(rest[0])
    ensures DecimalEscape((if three then Dec3(c) else Dec(c)) + rest, line) == Emit([c], rest, line)
  {
    hide DecValue, Digits;
    var ds := if three then Dec3(c) else Dec(c);
    var ts := ds + rest;
    DecIs(c);
    DigitsAre(ts, |ds|);
    ValueIs(ts, |ds|);
    assert ts[|ds|..] == rest;
  }

  function Digit(c: byte): int { c as int - 48 }

  /** What the digits are worth. */
  lemma DecIs(c: byte)
    ensures 100 * (c / 100) + 10 * (c / 10 % 10) + c % 10 == c
    ensures forall i :: 0 <= i < 3 ==> IsDigit(Dec3(c)[i])
    ensures forall i :: 0 <= i < |Dec(c)| ==> IsDigit(Dec(c)[i])
  {
    assert c / 10 % 10 + 10 * (c / 100) == c / 10;
  }

  lemma DigitsAre(ts: seq<byte>, k: nat)
    requires 1 <= k <= 3 && k <= |ts| && (forall i :: 0 <= i < k ==> IsDigit(ts[i]))
    requires k < 3 ==> k < |ts| && !IsDigit(ts[k])
    ensures Digits(ts, 3) == k
  {
    hide IsDigit;
    var t1 := ts[1..];
    if k == 1 {
      assert t1[0] == ts[1];
    } else {
      var t2 := t1[1..];
      assert t1[0] == ts[1];
      if k == 2 {
        assert t2[0] == ts[2] && Digits(t2, 1) == 0;
      } else {
        assert t2[0] == ts[2] && Digits(t2[1..], 0) == 0;
        assert Digits(t2, 1) == 1;
      }
      assert Digits(t1, 2) == k - 1;
    }
  }

  lemma ValueIs(ts: seq<byte>, k: nat)
    requires 1 <= k <= 3 && Digits(ts, 3) == k && k <= |ts| && forall i :: 0 <= i < k ==> 48 <= ts[i]
    ensures DecValue(ts, k) ==
      if k == 1 then Digit(ts[0]) else if k == 2 then 10 * Digit(ts[0]) + Digit(ts[1])
        else 100 * Digit(ts[0]) + 10 * Digit(ts[1]) + Digit(ts[2])
  {
    hide Digits;
    assert DecValue(ts, 0) == 0;
    assert DecValue(ts, 1) == ts[0] - 48;
    if k > 1 { assert DecValue(ts, 2) == 10 * DecValue(ts, 1) + ts[1] - 48; }
    if k > 2 { assert DecValue(ts, 3) == 10 * DecValue(ts, 2) + ts[2] - 48; }
  }

  /** One written byte is read as that byte. */
  lemma ItemReads(control: byte -> bool, s: seq<byte>, rest: seq<byte>, line: nat, acc: seq<byte>)
    requires control(CR) && s != [] && line + Newlines(s) < MAX_INT
    ensures var tail := Body(control, s[1..]) + [QUOTE] + rest;
      Scan(Item(control, s[0], HeadOr0(s[1..])) + tail, QUOTE, line, acc) ==
          Scan(tail, QUOTE, line + if s[0] == LF then 1 else 0, acc + [s[0]])
  {
    hide Scan, Body, Dec, Dec3, Escape, Newlines;
    var c, tail := s[0], Body(control, s[1..]) + [QUOTE] + rest;
    BodyHead(control, s[1..], rest);
    NewlinesHead(s);
    if c == QUOTE || c == BACKSLASH || c == LF {
      SpecialEscape(c, tail, line);
      assert [BACKSLASH, c] == [BACKSLASH] + [c];
      Regroup([BACKSLASH], [c], tail);
      BackslashReads([c] + tail, line, acc);
    } else if control(c) {
      var three := IsDigit(HeadOr0(s[1..]));
      var ds := if three then Dec3(c) else Dec(c);
      DecReads(c, three, tail, line);
      DecHead(c, three, tail);
      DigitEscape(ds + tail, line);
      Regroup([BACKSLASH], ds, tail);
      BackslashReads(ds + tail, line, acc);
    } else {
      PlainReads(c, tail, line, acc);
    }
  }

  lemma BackslashReads(ts: seq<byte>, line: nat, acc: seq<byte>)
    ensures var e := Escape(ts, line);
            e.Emit? ==> Scan([BACKSLASH] + ts, QUOTE, line, acc) == Scan(e.rest, QUOTE, e.line, acc + e.bs)
  {
    hide Scan, Escape;
    assert ([BACKSLASH] + ts)[1..] == ts;
    ScanStep([BACKSLASH] + ts, QUOTE, line, acc);
  }

  lemma PlainReads(c: byte, ts: seq<byte>, line: nat, acc: seq<byte>)
    requires c != QUOTE && c != BACKSLASH && !IsNewline(c)
    ensures Scan([c] + ts, QUOTE, line, acc) == Scan(ts, QUOTE, line, acc + [c])
  {
    hide Scan;
    assert ([c] + ts)[1..] == ts;
    ScanStep([c] + ts, QUOTE, line, acc);
  }

  lemma SpecialEscape(c: byte, ts: seq<byte>, line: nat)
    requires (c == QUOTE || c == BACKSLASH || c == LF) && ts != [] && !IsNewline(ts[0])
    requires c == LF ==> line + 1 < MAX_INT
    ensures Escape([c] + ts, line) == Emit([c], ts, line + if c == LF then 1 else 0)
  {
    hide DecimalEscape, Zap, Utf8Digits;
    assert ([c] + ts)[1..] == ts;
  }

  lemma DigitEscape(ts: seq<byte>, line: nat)
    requires ts != [] && IsDigit(ts[0])
    ensures Escape(ts, line) == DecimalEscape(ts, line)
  {
    hide DecimalEscape, Zap, Utf8Digits;
  }

  lemma NewlinesHead(s: seq<byte>)
    requires s != []
    ensures Newlines(s) >= if s[0] == LF then 1 else 0
  {
  }

  /** A number starts with a digit, which is no other escape. */
  lemma DecHead(c: byte, three: bool, rest: seq<byte>)
    ensures var ts := (if three then Dec3(c) else Dec(c)) + rest; ts != [] && IsDigit(ts[0])
  {
  }

  lemma ScanStep(ts: seq<byte>, del: byte, line: nat, acc: seq<byte>)
    requires ts != [] && ts[0] != del && !IsNewline(ts[0])
    ensures Scan(ts, del, line, acc) ==
      if ts[0] == BACKSLASH then
        var e := Escape(ts[1..], line);
        if e.Bad? then Error(e.e) else Scan(e.rest, del, e.line, acc + e.bs)
      else Scan(ts[1..], del, line, acc + [ts[0]])
  {
  }

  /** Reading what has been written gives the string, however it goes on behind. */
  lemma {:induction false} ReadsBack(control: byte -> bool, s: seq<byte>, rest: seq<byte>, line: nat, acc: seq<byte>)
    requires control(CR) && line + Newlines(s) < MAX_INT
    ensures Scan(Body(control, s) + [QUOTE] + rest, QUOTE, line, acc) == String(acc + s, rest, line + Newlines(s))
  {
    hide Item;
    if s == [] {
      assert Body(control, s) + [QUOTE] + rest == [QUOTE] + rest;
    } else {
      var tail := Body(control, s[1..]) + [QUOTE] + rest;
      var item := Item(control, s[0], HeadOr0(s[1..]));
      Regroup(item, Body(control, s[1..]), [QUOTE]);
      Regroup(item, Body(control, s[1..]) + [QUOTE], rest);
      ItemReads(control, s, rest, line, acc);
      ReadsBack(control, s[1..], rest, line + if s[0] == LF then 1 else 0, acc + [s[0]]);
      Regroup(acc, [s[0]], s[1..]);
      assert [s[0]] + s[1..] == s;
    }
  }

  predicate RoundTrips(control: byte -> bool, s: seq<byte>, line: nat) {
    Scan(Body(control, s) + [QUOTE], QUOTE, line, []) == String(s, [], line + Newlines(s))
  }

  /** All strings can be read back, while there are not too many lines, exactly if the carriage return counts as a
      control character, as it does in every C locale. */
  lemma QuotingRoundTrips(control: byte -> bool)
    ensures (forall s: seq<byte>, line: nat :: line + Newlines(s) < MAX_INT ==> RoundTrips(control, s, line)) <==>
            control(CR)
  {
    if control(CR) {
      forall s: seq<byte>, line: nat | line + Newlines(s) < MAX_INT ensures RoundTrips(control, s, line) {
        ReadsBack(control, s, [], line, []);
        assert Body(control, s) + [QUOTE] + [] == Body(control, s) + [QUOTE];
        assert [] + s == s;
      }
    } else {
      assert Newlines([CR]) == 0;
      assert Body(control, [CR]) + [QUOTE] == [CR, QUOTE];
      assert !RoundTrips(control, [CR], 1);
    }
  }

  /** `iscntrl` of the C library that the program is linked with. */
  predicate IsCntrl(b: byte) { b < 32 || b == 127 }

  /** With it, every string is read back, whatever comes behind it. */
  lemma EveryStringIsReadBack(s: seq<byte>, rest: seq<byte>, line: nat)
    requires line + Newlines(s) < MAX_INT
    ensures Scan(Body(IsCntrl, s) + [QUOTE] + rest, QUOTE, line, []) == String(s, rest, line + Newlines(s))
  {
    ReadsBack(IsCntrl, s, rest, line, []);
    assert [] + s == s;
  }

  // ---- the scanner ----

  datatype Maybe<T> = Got(value: T) | Failed(e: LexError)

  class LexState {
    var current: int
    var z: seq<byte>
    var linenumber: nat
    var buff: seq<byte>

    ghost predicate Valid()
      reads this
    {
      EOZ <= current < 256 && (current == EOZ ==> z == [])
    }

    /** What is left of the input. */
    ghost function Input(): seq<byte>
      requires Valid()
      reads this
    {
      if current == EOZ then [] else [current] + z
    }

    constructor (z: seq<byte>, line: nat)
      ensures Valid() && Input() == z && linenumber == line && buff == []
    {
      current := if z == [] then EOZ else z[0];
      this.z := if z == [] then [] else z[1..];
      linenumber, buff := line, [];
    }

    /** `next`. */
    method Advance()
      requires Valid()
      modifies this`current, this`z
      ensures Valid() && Input() == if old(Input()) == [] then [] else old(Input())[1..]
    {
      if z == [] {
        current := EOZ;
      } else {
        current, z := z[0], z[1..];
      }
    }

    /** `save_and_next`. */
    method SaveAndNext()
      requires Valid() && current != EOZ
      modifies this`current, this`z, this`buff
      ensures Valid() && Input() == old(Input())[1..] && buff == old(buff) + [old(current)]
    {
      buff := buff + [current];
      Advance();
    }

    /** `luaZ_buffremove`. */
    method Remove(n: nat)
      requires n <= |buff|
      modifies this`buff
      ensures buff == old(buff)[..|old(buff)| - n]
    {
      buff := buff[..|buff| - n];
    }

    /** `inclinenumber`. */
    method IncLineNumber() returns (ok: bool)
      requires Valid() && IsNewline(current)
      modifies this`current, this`z, this`linenumber
      ensures Valid() && linenumber == old(linenumber) + 1 && ok == (linenumber < MAX_INT)
      ensures Input() == BehindNewline(old(Input()))
    {
      var was := current;
      Advance();
      if IsNewline(current) && current != was {
        Advance();
      }
      linenumber := linenumber + 1;
      return linenumber < MAX_INT;
    }

    /** `gethexa`. */
    method GetHexa() returns (r: Maybe<nat>)
      requires Valid() && current != EOZ
      modifies this`current, this`z, this`buff
      ensures Valid() && Input() == old(Input())[1..] && buff == old(buff) + [old(current)]
      ensures r == if current != EOZ && IsXDigit(current) then Got(HexValue(current)) else Failed(HexExpected)
    {
      SaveAndNext();
      if !IsXDigit(current) {
        return Failed(HexExpected);
      }
      return Got(HexValue(current));
    }

    /** What reading an escape sequence does, where the buffer holds more bytes than before the backslash. */
    ghost predicate Did(e: Esc, before: seq<byte>, r: Maybe<byte>)
      requires Valid()
      reads this
    {
      if r.Failed? then e == Bad(r.e) else e == Emit([r.value], Input(), linenumber) && buff == before
    }

    /** `readhexaesc`, and the step behind it. */
    method ReadHexaEsc() returns (r: Maybe<byte>)
      requires Valid() && current == 120
      modifies this`current, this`z, this`buff
      ensures Valid() && Did(Escape(old(Input()), linenumber), old(buff), r)
    {
      ghost var ts := Input();
      var a := GetHexa();
      assert ts[1..] == Input();
      if a.Failed? {
        return Failed(a.e);
      }
      var b := GetHexa();
      Drops(ts);
      if b.Failed? {
        return Failed(b.e);
      }
      Remove(2);
      Advance();
      return Got(a.value * 16 + b.value);
    }

    /** `readutf8esc`: the backslash goes, too. */
    method ReadUtf8Esc() returns (r: Maybe<nat>)
      requires Valid() && current == 117 && buff != []
      modifies this`current, this`z, this`buff
      ensures Valid() && var e := Escape(old(Input()), linenumber);
        if r.Failed? then e == Bad(r.e)
        else
          r.value <= 0x10_FFFF && e == Emit(Utf8(r.value), Input(), linenumber) &&
          buff == old(buff)[..|old(buff)| - 1]
    {
      hide Escape, Utf8Digits, IsXDigit, Utf8;
      ghost var ts := Input();
      SaveAndNext();
      Utf8Open(ts, linenumber);
      if current != 123 {
        return Failed(MissingBrace);
      }
      var h := GetHexa();
      Drops(ts);
      if h.Failed? {
        return Failed(h.e);
      }
      SaveAndNext();
      r := Utf8Rest(h.value, |old(buff)| - 1);
    }

    /** The loop of `readutf8esc`; from counts what is to stay in the buffer. */
    method Utf8Rest(x0: nat, ghost from: nat) returns (r: Maybe<nat>)
      requires Valid() && x0 <= 0x10_FFFF && |buff| == from + 4
      modifies this`current, this`z, this`buff
      ensures Valid() && var e := Utf8Digits(old(Input()), x0, linenumber);
        if r.Failed? then e == Bad(r.e)
          else r.value <= 0x10_FFFF && e == Emit(Utf8(r.value), Input(), linenumber) && buff == old(buff)[..from]
    {
      hide Utf8;
      var x: nat, i: nat := x0, 4;
      while IsXDigit(current)
        invariant Valid() && x <= 0x10_FFFF && i >= 4 && |buff| == from + i && buff[..from] == old(buff)[..from]
        invariant Utf8Digits(Input(), x, linenumber) == Utf8Digits(old(Input()), x0, linenumber)
        decreases |Input()|
      {
        i := i + 1;
        x := x * 16 + HexValue(current);
        if x > 0x10_FFFF {
          return Failed(Utf8TooLarge);
        }
        ghost var ts := Input();
        SaveAndNext();
        assert ts[1..] == Input();
      }
      if current != 125 {
        return Failed(MissingBrace);
      }
      ghost var ts := Input();
      Advance();
      Remove(i);
      return Got(x);
    }

    /** `readdecesc`. */
    method ReadDecEsc() returns (r: Maybe<byte>)
      requires Valid() && IsDigit(current)
      modifies this`current, this`z, this`buff
      ensures Valid() && Did(DecimalEscape(old(Input()), linenumber), old(buff), r)
    {
      ghost var ts := Input();
      var i: nat, x: nat := 0, 0;
      while i < 3 && IsDigit(current)
        invariant 0 <= i <= 3 && Valid() && i + Digits(Input(), 3 - i) == Digits(ts, 3) && x == DecValue(ts, i)
        invariant ts[i..] == Input()
        invariant |buff| == |old(buff)| + i && buff[..|old(buff)|] == old(buff)
      {
        x := 10 * x + current - 48;
        SaveAndNext();
        i := i + 1;
      }
      if x > 255 {
        return Failed(DecimalTooLarge);
      }
      Remove(i);
      return Got(x);
    }

    /** The span behind `\z` in `read_string`. */
    method SkipSpace() returns (ok: bool)
      requires Valid()
      modifies this`current, this`z, this`linenumber
      ensures Valid()
      ensures Zap(old(Input()), old(linenumber)) == if ok then Emit([], Input(), linenumber) else Bad(TooManyLines)
    {
      while IsSpace(current)
        invariant Valid() && Zap(Input(), linenumber) == Zap(old(Input()), old(linenumber))
        decreases |Input()|
      {
        if IsNewline(current) {
          ok := IncLineNumber();
          if !ok {
            return;
          }
        } else {
          Advance();
        }
      }
      return true;
    }

    /** The escape sequences of `read_string`; the backslash is in the buffer, and what it means replaces it. */
    method ReadEscape() returns (e: Maybe<()>)
      requires Valid() && buff != []
      modifies this
      ensures Valid() && var x := Escape(old(Input()), old(linenumber));
        if e.Failed? then x == Bad(e.e)
          else x.Emit? && x.rest == Input() && x.line == linenumber && buff == old(buff)[..|old(buff)| - 1] + x.bs
    {
      hide Zap, DecimalEscape, Utf8Digits, Utf8, BehindNewline;
      ghost var ts := Input();
      if current == EOZ {
        return Failed(Unfinished);
      }
      var c: byte;
      if Letter(current) >= 0 {
        c := Letter(current);
        Advance();
      } else if current == 120 {
        var r := ReadHexaEsc();
        if r.Failed? {
          return Failed(r.e);
        }
        c := r.value;
      } else if current == 117 {
        var r := ReadUtf8Esc();
        if r.Failed? {
          return Failed(r.e);
        }
        buff := buff + Utf8(r.value);
        return Got(());
      } else if IsNewline(current) {
        var ok := IncLineNumber();
        if !ok {
          return Failed(TooManyLines);
        }
        c := LF;
      } else if current == BACKSLASH || current == QUOTE || current == APOSTROPHE {
        c := current;
        Advance();
      } else if current == 122 {
        Remove(1);
        Advance();
        assert ts[1..] == Input();
        var ok := SkipSpace();
        return if ok then Got(()) else Failed(TooManyLines);
      } else {
        if !IsDigit(current) {
          return Failed(InvalidEscape);
        }
        var r := ReadDecEsc();
        if r.Failed? {
          return Failed(r.e);
        }
        c := r.value;
      }
      Remove(1);
      buff := buff + [c];
      return Got(());
    }

    /** `read_string`: the buffer keeps the delimiters, which the result leaves off. */
    method ReadString(del: byte) returns (r: Maybe<seq<byte>>)
      requires Valid() && current == del && !IsNewline(del) && del != BACKSLASH && buff == []
      modifies this
      ensures Valid() && var x := Scan(old(Input())[1..], del, old(linenumber), []);
        if r.Failed? then x == Error(r.e) else x == String(r.value, Input(), linenumber)
    {
      hide Scan, Escape, IsNewline;
      ghost var ts := Input()[1..];
      SaveAndNext();
      assert Input() == ts && buff[1..] == [];
      while current != del
        invariant Valid() && |buff| >= 1
        invariant Scan(Input(), del, linenumber, buff[1..]) == Scan(ts, del, old(linenumber), [])
        decreases |Input()|
      {
        ScanCases(Input(), del, linenumber, buff[1..]);
        if current == EOZ || IsNewline(current) {
          return Failed(Unfinished);
        } else if current == BACKSLASH {
          var e := ReadBackslash();
          if e.Failed? {
            return Failed(e.e);
          }
        } else {
          SaveOne();
        }
      }
      ScanCases(Input(), del, linenumber, buff[1..]);
      ghost var was := buff;
      SaveAndNext();
      assert buff[1..|buff| - 1] == was[1..];
      return Got(buff[1..|buff| - 1]);
    }

    method SaveOne()
      requires Valid() && current != EOZ && |buff| >= 1
      modifies this`current, this`z, this`buff
      ensures Valid() && |buff| >= 1 && Input() == old(Input())[1..] && buff[1..] == old(buff)[1..] + [old(Input())[0]]
    {
      ghost var now, was := Input(), buff;
      SaveAndNext();
      assert now[1..] == Input() && buff[1..] == was[1..] + [now[0]];
    }

    /** A backslash goes to the buffer for error messages, and leaves it with the rest of the sequence. */
    method ReadBackslash() returns (e: Maybe<()>)
      requires Valid() && current == BACKSLASH && |buff| >= 1
      modifies this
      ensures Valid() && (e.Got? ==> |Input()| < |old(Input())|) && var x := Escape(old(Input())[1..], old(linenumber));
        if e.Failed? then x == Bad(e.e)
        else x.Emit? && x.rest == Input() && x.line == linenumber && |buff| >= 1 && buff[1..] == old(buff)[1..] + x.bs
    {
      hide Escape;
      ghost var now, was := Input(), buff;
      SaveAndNext();
      assert now[1..] == Input();
      EscapeShorter(now[1..], linenumber);
      e := ReadEscape();
      if e.Got? { Replaced(was, buff, Escape(now[1..], old(linenumber)).bs); }
    }
  }

  lemma Drops(ts: seq<byte>)
    ensures |ts| >= 2 ==> ts[1..][1..] == ts[2..]
    ensures |ts| >= 3 ==> ts[2..][1..] == ts[3..]
  {
  }

  lemma Utf8Open(ts: seq<byte>, line: nat)
    requires ts != [] && ts[0] == 117
    ensures Escape(ts, line) ==
      if |ts| < 2 || ts[1] != 123 then Bad(MissingBrace)
      else if |ts| < 3 || !IsXDigit(ts[2]) then Bad(HexExpected)
      else Utf8Digits(ts[3..], HexValue(ts[2]), line)
  {
    hide Utf8Digits;
  }

  lemma Replaced(was: seq<byte>, buff: seq<byte>, bs: seq<byte>)
    requires |was| >= 1 && buff == (was + [BACKSLASH])[..|was|] + bs
    ensures buff[1..] == was[1..] + bs
  {
    assert (was + [BACKSLASH])[..|was|] == was;
  }

  lemma ScanCases(ts: seq<byte>, del: byte, line: nat, acc: seq<byte>)
    requires !IsNewline(del) && del != BACKSLASH
    ensures (ts == [] || (ts[0] != del && IsNewline(ts[0])) ==> Scan(ts, del, line, acc) == Error(Unfinished))
    ensures ts != [] && ts[0] == del ==> Scan(ts, del, line, acc) == String(acc, ts[1..], line)
    ensures ts != [] && ts[0] != del && !IsNewline(ts[0]) ==>
      (Scan(ts, del, line, acc) ==
       if ts[0] == BACKSLASH then
         var e := Escape(ts[1..], line);
         if e.Bad? then Error(e.e) else Scan(e.rest, del, e.line, acc + e.bs)
       else Scan(ts[1..], del, line, acc + [ts[0]]))
  {
    hide Escape;
  }
}
