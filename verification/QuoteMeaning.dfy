/** Escape sequences and quoted strings, byte by byte. */
module QuoteMeaning {
  import opened LuaQuote

  /** `\a \b \f \n \r \t \v`, and the characters that stand for themselves. */
  lemma LettersMean(rest: seq<byte>, line: nat)
    ensures Escape([97] + rest, line) == Emit([7], rest, line)
    ensures Escape([98] + rest, line) == Emit([8], rest, line)
    ensures Escape([102] + rest, line) == Emit([12], rest, line)
    ensures Escape([110] + rest, line) == Emit([10], rest, line)
    ensures Escape([114] + rest, line) == Emit([13], rest, line)
    ensures Escape([116] + rest, line) == Emit([9], rest, line)
    ensures Escape([118] + rest, line) == Emit([11], rest, line)
    ensures Escape([92] + rest, line) == Emit([92], rest, line)
    ensures Escape([34] + rest, line) == Emit([34], rest, line)
    ensures Escape([39] + rest, line) == Emit([39], rest, line)
  {
    Behind(97, rest);
    Behind(98, rest);
    Behind(102, rest);
    Behind(110, rest);
    Behind(114, rest);
    Behind(116, rest);
    Behind(118, rest);
    Behind(92, rest);
    Behind(34, rest);
    Behind(39, rest);
  }

  lemma Behind(c: byte, rest: seq<byte>)
    ensures ([c] + rest)[1..] == rest
  {
  }

  /** The digits of `\xXX`: capital and small letters are ten to fifteen. */
  lemma HexMeans(a: nat, b: nat, rest: seq<byte>, line: nat)
    requires a < 16 && b < 16
    ensures Escape([120, Hex(a, true), Hex(b, false)] + rest, line) == Emit([16 * a + b], rest, line)
    ensures Escape([120, Hex(a, false), Hex(b, true)] + rest, line) == Emit([16 * a + b], rest, line)
  {
    assert ([120, Hex(a, true), Hex(b, false)] + rest)[3..] == rest;
    assert ([120, Hex(a, false), Hex(b, true)] + rest)[3..] == rest;
  }

  function Hex(d: nat, capital: bool): byte
    requires d < 16
  {
    if d < 10 then 48 + d else if capital then 65 + d - 10 else 97 + d - 10
  }

  /** Three decimal digits; fewer, if something else comes next. */
  lemma DecimalsMean(a: nat, b: nat, c: nat, rest: seq<byte>, line: nat)
    requires a < 10 && b < 10 && c < 10
    ensures var n := 100 * a + 10 * b + c;
            Escape([48 + a, 48 + b, 48 + c] + rest, line) ==
            if n < 256 then Emit([n], rest, line) else Bad(DecimalTooLarge)
    ensures rest != [] && !IsDigit(rest[0]) ==>
              Escape([48 + a, 48 + b] + rest, line) == Emit([10 * a + b], rest, line) &&
              Escape([48 + a] + rest, line) == Emit([a], rest, line)
  {
    ThreeDigits(a, b, c, rest);
    if rest != [] && !IsDigit(rest[0]) { FewDigits(a, b, rest); }
  }

  lemma ThreeDigits(a: nat, b: nat, c: nat, rest: seq<byte>)
    requires a < 10 && b < 10 && c < 10
    ensures var ts := [48 + a, 48 + b, 48 + c] + rest;
            Digits(ts, 3) == 3 && DecValue(ts, 3) == 100 * a + 10 * b + c && ts[3..] == rest
  {
    var ts := [48 + a, 48 + b, 48 + c] + rest;
    assert ts[1..][1..] == ts[2..] && ts[2..][0] == 48 + c;
    assert Digits(ts[2..], 1) == 1 && Digits(ts[1..], 2) == 2;
    assert DecValue(ts, 1) == a && DecValue(ts, 2) == 10 * a + b;
  }

  lemma FewDigits(a: nat, b: nat, rest: seq<byte>)
    requires a < 10 && b < 10 && rest != [] && !IsDigit(rest[0])
    ensures var ts := [48 + a, 48 + b] + rest; Digits(ts, 3) == 2 && DecValue(ts, 2) == 10 * a + b && ts[2..] == rest
    ensures var ts := [48 + a] + rest; Digits(ts, 3) == 1 && DecValue(ts, 1) == a && ts[1..] == rest
  {
    var ts, us := [48 + a, 48 + b] + rest, [48 + a] + rest;
    assert ts[1..][1..] == rest && us[1..] == rest && Digits(rest, 1) == 0 && Digits(rest, 2) == 0;
    assert Digits(ts[1..], 2) == 1;
    assert DecValue(ts, 1) == a && DecValue(us, 1) == a;
  }

  /** UTF-8: one byte up to 7F, two up to 7FF, three up to FFFF, and four beyond (section 3 of RFC 3629). */
  lemma Utf8Means(x: nat)
    requires x <= 0x10_FFFF
    ensures Utf8(x) ==
            if x < 0x80 then [x]
            else if x < 0x800 then [0xC0 + x / 64, 0x80 + x % 64]
            else if x < 0x1_0000 then [0xE0 + x / 4096, 0x80 + x / 64 % 64, 0x80 + x % 64]
            else [0xF0 + x / 262144, 0x80 + x / 4096 % 64, 0x80 + x / 64 % 64, 0x80 + x % 64]
  {
    hide Utf8More;
    var y, z := x / 64, x / 4096;
    Quotients(x);
    Round(x, 0x3f, []);
    assert [0x80 + x % 64] + [] == [0x80 + x % 64];
    if 0x800 <= x {
      Round(y, 0x1f, [0x80 + x % 64]);
      assert [0x80 + y % 64] + [0x80 + x % 64] == [0x80 + y % 64, 0x80 + x % 64];
      if 0x1_0000 <= x {
        Round(z, 0xf, [0x80 + y % 64, 0x80 + x % 64]);
        assert [0x80 + z % 64] + [0x80 + y % 64, 0x80 + x % 64] == [0x80 + z % 64, 0x80 + y % 64, 0x80 + x % 64];
      }
    }
  }

  lemma Quotients(x: nat)
    ensures x / 64 / 64 == x / 4096 && x / 4096 / 64 == x / 262144
  {
  }

  lemma Round(x: nat, mfb: nat, bs: seq<byte>)
    requires mfb < 0x40
    ensures Utf8More(x, mfb, bs) ==
            if x / 64 > mfb / 2 then Utf8More(x / 64, mfb / 2, [0x80 + x % 64] + bs)
            else [254 - 2 * (mfb / 2) + x / 64] + ([0x80 + x % 64] + bs)
  {
  }

  /** `\u{20AC}`, the sign of the euro. */
  lemma EuroMeans(rest: seq<byte>, line: nat)
    ensures Escape([117, 123, 50, 48, 65, 67, 125] + rest, line) == Emit([0xE2, 0x82, 0xAC], rest, line)
  {
    hide Utf8;
    Utf8Means(0x20AC);
    var ts := [117, 123, 50, 48, 65, 67, 125] + rest;
    assert ts[3..] == [48, 65, 67, 125] + rest;
    assert ts[6..] == [125] + rest && ts[5..] == [67, 125] + rest && ts[4..] == [65, 67, 125] + rest;
    Behind(125, rest);
    Behind(67, ts[6..]);
    Behind(65, ts[5..]);
    Behind(48, ts[4..]);
    assert Utf8Digits(ts[6..], 0x20AC, line) == Emit([0xE2, 0x82, 0xAC], rest, line);
    assert Utf8Digits(ts[5..], 0x20A, line) == Utf8Digits(ts[6..], 0x20AC, line);
    assert Utf8Digits(ts[4..], 0x20, line) == Utf8Digits(ts[5..], 0x20A, line);
  }

  /** Newlines behind a backslash count as one. */
  lemma BreaksMean(rest: seq<byte>, line: nat)
    requires line < 1000 && rest != [] && !IsSpace(rest[0])
    ensures Escape([10] + rest, line) == Escape([13] + rest, line) == Emit([10], rest, line + 1)
    ensures Escape([13, 10] + rest, line) == Escape([10, 13] + rest, line) == Emit([10], rest, line + 1)
  {
    Behind(10, rest);
    Behind(13, rest);
    assert ([13, 10] + rest)[2..] == rest && ([10, 13] + rest)[2..] == rest;
  }

  /** `\z` skips white space, newlines included. */
  lemma ZapMeans(rest: seq<byte>, line: nat)
    requires line < 1000 && rest != [] && !IsSpace(rest[0])
    ensures Escape([122, 32, 10, 9] + rest, line) == Emit([], rest, line + 1)
  {
    Behind(122, [32, 10, 9] + rest);
    assert [122, 32, 10, 9] + rest == [122] + ([32, 10, 9] + rest);
    ZapSpaces(rest, line);
    hide Zap;
    assert Escape([122] + ([32, 10, 9] + rest), line) == Zap([32, 10, 9] + rest, line);
  }

  lemma ZapSpaces(rest: seq<byte>, line: nat)
    requires line < 1000 && rest != [] && !IsSpace(rest[0])
    ensures Zap([32, 10, 9] + rest, line) == Emit([], rest, line + 1)
  {
    var a, b := [10, 9] + rest, [9] + rest;
    assert ([32, 10, 9] + rest)[1..] == a && a[1..] == b && b[1..] == rest;
    assert Zap(b, line + 1) == Zap(rest, line + 1);
    assert BehindNewline(a) == b;
    assert Zap(a, line) == Zap(b, line + 1);
  }

  /** A letter, a quote, a backslash, a newline, a zero byte, a digit and another zero byte in the form of `%q`: the
      zero in front of the digit needs three digits. */
  method QuoteAll(control: byte -> bool) returns (b: seq<byte>)
    requires control(0) && !control(97) && !control(49)
    ensures b == [34, 97, 92, 34, 92, 92, 92, 10, 92, 48, 48, 48, 49, 92, 48, 34]
  {
    hide Body;
    var s: seq<byte> := [97, 34, 92, 10, 0, 49, 0];
    b := AddQuoted(s, control);
    Tails(control, s);
  }

  lemma Tails(control: byte -> bool, s: seq<byte>)
    requires control(0) && !control(97) && !control(49) && s == [97, 34, 92, 10, 0, 49, 0]
    ensures Body(control, s) == [97, 92, 34, 92, 92, 92, 10, 92, 48, 48, 48, 49, 92, 48]
  {
    hide Body;
    assert s[4..] == [0, 49, 0];
    LastTails(control, s[4..]);
    MoreTails(control, s);
    assert [97] + ([92, 34] + ([92, 92] + ([92, 10] + [92, 48, 48, 48, 49, 92, 48]))) ==
           [97, 92, 34, 92, 92, 92, 10, 92, 48, 48, 48, 49, 92, 48];
  }

  lemma LastTails(control: byte -> bool, s: seq<byte>)
    requires control(0) && !control(49) && s == [0, 49, 0]
    ensures Body(control, s) == [92, 48, 48, 48, 49, 92, 48]
  {
    assert s[1..] == [49, 0] && s[1..][1..] == [0] && s[1..][1..][1..] == [];
    assert Body(control, [0]) == [92, 48];
    assert Body(control, [49, 0]) == [49] + Body(control, [0]);
    assert Body(control, s) == [92, 48, 48, 48] + Body(control, [49, 0]);
  }

  lemma MoreTails(control: byte -> bool, s: seq<byte>)
    requires !control(97) && |s| >= 4 && s[..4] == [97, 34, 92, 10]
    ensures Body(control, s) == [97] + ([92, 34] + ([92, 92] + ([92, 10] + Body(control, s[4..]))))
  {
    var t1, t2, t3, t4 := s[1..], s[2..], s[3..], s[4..];
    assert t1[1..] == t2 && t2[1..] == t3 && t3[1..] == t4;
    assert s[..4][0] == s[0] && s[..4][1] == s[1] && s[..4][2] == s[2] && s[..4][3] == s[3];
    assert Body(control, t3) == [92, 10] + Body(control, t4);
    assert Body(control, t2) == [92, 92] + Body(control, t3);
    assert Body(control, t1) == [92, 34] + Body(control, t2);
  }
}
