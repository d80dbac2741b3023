/** What patterns written out as text find, in terms of the characters of the subject alone. */
module PatternMeaning {
  import opened Shared
  import opened PatternSpec
  import opened LuaMatch

  // ---- back references ----

  /** `%1` to `%9` name the captures from the first one: `%n` stands for the text of capture n. A capture that is
      missing or still open is an error, as is `%0`. */
  lemma BackReferenceMeans(env: Env, n: nat, s: nat, caps: seq<Cap>)
    requires n <= 9 && s <= |env.src|
    ensures var o := Take(env, Back((48 + n) as char), 1, s, caps);
            if n == 0 || n > |caps| || caps[n - 1].len == -1 then o == Fails(InvalidIndex)
            else
              var c := caps[n - 1];
              c.len >= 0 && c.init + c.len <= |env.src| ==>
                if s + c.len <= |env.src| && env.src[s..s + c.len] == env.src[c.init..c.init + c.len]
                then o == To(s + c.len, caps) else o == No
    ensures forall p: nat :: p + 1 < |env.pat| && env.pat[p] == '%' && env.pat[p + 1] == (48 + n) as char ==>
              ItemAt(env.pat, p) == Good((Back((48 + n) as char), p + 2))
  {
  }

  /** A character and the same one again. */
  lemma {:induction false} DoubledMeans(src: string, ct: Ctype, s: nat)
    requires s <= |src|
    ensures First(Env(src, "(.)%1", ct), 0, s, []) ==
            if s + 1 < |src| && src[s] == src[s + 1] then To(s + 2, [Cap(s, 1)]) else No
  {
    hide First;
    var env := Env(src, "(.)%1", ct);
    var open, closed := [Cap(s, CAP_UNFINISHED)], [Cap(s, 1)];
    FirstOne(env, 0, s, [], Open(CAP_UNFINISHED), 1);
    assert Take(env, Open(CAP_UNFINISHED), 1, s, []) == To(s, open);
    assert ItemAt(env.pat, 1) == Good((Rep(1, 2, 1, true, true), 2));
    if s == |src| {
      RepNone(env, 1, s, open);
    } else {
      RepOne(env, 1, s, open);
      FirstOne(env, 2, s + 1, open, Close, 3);
      assert Take(env, Close, 1, s + 1, open) == To(s + 1, closed);
      FirstOne(env, 3, s + 1, closed, Back('1'), 5);
      BackReferenceMeans(env, 1, s + 1, closed);
      assert src[s..s + 1] == [src[s]];
      if s + 1 < |src| {
        assert src[s + 1..s + 2] == [src[s + 1]];
        assert Take(env, Back('1'), 1, s + 1, closed) == if src[s + 1] == src[s] then To(s + 2, closed) else No;
        FirstAtEnd(env, 5, s + 2, closed);
      }
    }
  }

  /** The first place where a character is followed by itself, with its capture. */
  ghost predicate FirstDouble(r: Found, src: string, init: nat, caps: seq<Cap>) {
    (r.FoundAt? ==>
      init <= r.start < |src| - 1 && src[r.start] == src[r.start + 1] && r.end == r.start + 2 &&
      caps == [Cap(r.start, 1)]) &&
    !r.Stopped? && forall i :: init <= i < (if r.FoundAt? then r.start else |src| - 1) ==> src[i] != src[i + 1]
  }

  lemma FindsDoubled(src: string, ct: Ctype, init: nat, r: Found, caps: seq<Cap>)
    requires init <= |src| && FoundFirst(r, Env(src, "(.)%1", ct), init, caps) && r != Stopped(TooComplex)
    ensures FirstDouble(r, src, init, caps)
  {
    hide First;
    var env := Env(src, "(.)%1", ct);
    if r.Stopped? {
      var s: nat :| Leftmost(env, init, s) && StopsAt(env, s, r.error);
      DoubledMeans(src, ct, s);
    } else {
      if r.FoundAt? { DoubledMeans(src, ct, r.start); }
      forall i | init <= i < (if r.FoundAt? then r.start else |src| - 1) ensures src[i] != src[i + 1] {
        assert r.NotFound? ==> MayStart(env, init, i);
        assert NothingAt(env, i);
        DoubledMeans(src, ct, i);
      }
    }
  }

  /** The search for it. */
  method FindDouble(src: string, init: nat, ct: Ctype) returns (r: Found, ghost caps: seq<Cap>)
    requires init <= |src|
    ensures FirstDouble(r, src, init, caps)
  {
    hide First, FoundFirst, FirstDouble;
    var ms := new MatchState(src, "(.)%1", ct);
    r := ms.Find(init);
    caps := ms.Caps();
    FindsDoubled(src, ct, init, r, caps);
  }

  predicate XAt(src: string, i: int) { 0 <= i < |src| && src[i] == 'x' }

  /** Behind an anchor, only the first place counts. */
  method FindPrefix(src: string, init: nat, ct: Ctype) returns (r: Found)
    requires init <= |src|
    ensures r == if XAt(src, init) then FoundAt(init, init + 1) else NotFound
  {
    hide First;
    var ms := new MatchState(src, "^x", ct);
    r := ms.Find(init);
    var env := ms.E();
    assert Anchored(env.pat) && Leftmost(env, init, init);
    assert ItemAt(env.pat, 1) == Good((Rep(1, 2, 1, true, true), 2));
    if XAt(src, init) {
      RepOne(env, 1, init, []);
      FirstAtEnd(env, 2, init + 1, []);
    } else {
      RepNone(env, 1, init, []);
    }
  }

  // ---- single characters ----

  /** Whether a pattern matches the one character at s. */
  predicate Accepts(src: string, pat: string, ct: Ctype, s: nat, yes: bool) {
    First(Env(src, pat, ct), 0, s, []) == if yes then To(s + 1, []) else No
  }

  /** A pattern that is a single class. */
  lemma OneClass(src: string, pat: string, ct: Ctype, s: nat)
    requires pat != [] && ItemAt(pat, 0) == Good((Rep(0, |pat|, 1, true, true), |pat|))
    ensures Accepts(src, pat, ct, s, Single(Env(src, pat, ct), s, 0, |pat|))
  {
    hide First, ItemAt, Single;
    var env := Env(src, pat, ct);
    if Single(env, s, 0, |pat|) {
      RepOne(env, 0, s, []);
      FirstAtEnd(env, |pat|, s + 1, []);
    } else {
      RepNone(env, 0, s, []);
    }
  }

  /** Plain characters, any character, and escaped ones. */
  lemma CharactersMean(src: string, ct: Ctype, s: nat)
    requires (ct.lower)('.') == '.'
    ensures Accepts(src, "x", ct, s, s < |src| && src[s] == 'x')
    ensures Accepts(src, ".", ct, s, s < |src|)
    ensures Accepts(src, "%.", ct, s, s < |src| && src[s] == '.')
  {
    hide First;
    OneClass(src, "x", ct, s);
    OneClass(src, ".", ct, s);
    OneClass(src, "%.", ct, s);
  }

  /** A class letter stands for the class of the C library, and its capital for the complement. */
  lemma ClassesMean(src: string, ct: Ctype, s: nat, l: char, u: char)
    requires l in "acdglpsuwx" && (ct.lower)(l) == l && (ct.isLower)(l)
    requires u in "ACDGLPSUWX" && (ct.lower)(u) == l && !(ct.isLower)(u)
    ensures Accepts(src, ['%', l], ct, s, s < |src| && (ct.test)(l, src[s]))
    ensures Accepts(src, ['%', u], ct, s, s < |src| && !(ct.test)(l, src[s]))
  {
    hide First;
    OneClass(src, ['%', l], ct, s);
    OneClass(src, ['%', u], ct, s);
  }

  /** Sets: ranges with both ends, single characters, and complements. */
  lemma SetsMean(src: string, ct: Ctype, s: nat)
    ensures Accepts(src, "[a-cx]", ct, s, s < |src| && ('a' <= src[s] <= 'c' || src[s] == 'x'))
    ensures Accepts(src, "[^a-cx]", ct, s, s < |src| && !('a' <= src[s] <= 'c' || src[s] == 'x'))
  {
    hide First;
    assert SetEnd("[a-cx]", 4) == Some(6) && SetEnd("[^a-cx]", 5) == Some(7);
    assert SetEnd("[a-cx]", 2) == Some(6) && SetEnd("[^a-cx]", 3) == Some(7);
    OneClass(src, "[a-cx]", ct, s);
    OneClass(src, "[^a-cx]", ct, s);
    if s < |src| {
      RangeMeans("[a-cx]", 1, 5, ct, src[s]);
      RangeMeans("[^a-cx]", 2, 6, ct, src[s]);
    }
  }

  lemma RangeMeans(pat: string, q: nat, ec: nat, ct: Ctype, c: char)
    requires ec == q + 4 <= |pat| && pat[q..ec] == "a-cx" && At(pat, ec) != '-'
    ensures InElems(ct, Elems(pat, q, ec), c) <==> 'a' <= c <= 'c' || c == 'x'
  {
    assert forall i :: 0 <= i < 4 ==> pat[q + i] == "a-cx"[i];
    SetStep(ct, pat, q, ec, c);
    SetStep(ct, pat, q + 3, ec, c);
  }

  /** A closing bracket that comes first belongs to the set. */
  lemma BracketsMean(src: string, ct: Ctype, s: nat)
    ensures Accepts(src, "[]x]", ct, s, s < |src| && (src[s] == ']' || src[s] == 'x'))
  {
    hide First;
    OneClass(src, "[]x]", ct, s);
    if s < |src| {
      SetStep(ct, "[]x]", 1, 3, src[s]);
      SetStep(ct, "[]x]", 2, 3, src[s]);
    }
  }

  // ---- repetitions ----

  /** A match up to and with the x at e, which is the last one, or the first one, in a part of the subject. */
  ghost predicate MatchesX(src: string, from: nat, upto: nat, last: bool, r: Out) {
    if r.To? then
      0 < r.s && from <= r.s - 1 < upto && XAt(src, r.s - 1) && r.caps == [] &&
      forall i :: from <= i < upto && (if last then i > r.s - 1 else i < r.s - 1) ==> !XAt(src, i)
    else
      r == No && forall i :: from <= i < upto ==> !XAt(src, i)
  }

  lemma ThenX(src: string, pat: string, ct: Ctype, s: nat)
    requires |pat| == 3 && pat[2] == 'x'
    ensures First(Env(src, pat, ct), 2, s, []) == if XAt(src, s) then To(s + 1, []) else No
  {
    hide First;
    var env := Env(src, pat, ct);
    assert ItemAt(pat, 2) == Good((Rep(2, 3, 1, true, true), 3));
    if XAt(src, s) {
      RepOne(env, 2, s, []);
      FirstAtEnd(env, 3, s + 1, []);
    } else {
      RepNone(env, 2, s, []);
    }
  }

  lemma {:induction false} AnyLongest(src: string, pat: string, ct: Ctype, s: nat)
    requires pat != [] && pat[0] == '.' && s <= |src|
    ensures Longest(Env(src, pat, ct), s, 0, 1) == |src| - s
    decreases |src| - s
  {
    if s < |src| { AnyLongest(src, pat, ct, s + 1); }
  }

  lemma {:induction false} DownMeans(src: string, pat: string, ct: Ctype, s: nat, lo: nat, n: nat)
    requires |pat| == 3 && pat[2] == 'x' && lo <= 1
    requires ItemAt(pat, 0) == Good((Rep(0, 1, lo, false, true), 2))
    ensures MatchesX(src, s + lo, s + lo + n + 1, true, Down(Env(src, pat, ct), 0, s, [], lo + n))
  {
    hide First, Down, ItemAt;
    var env := Env(src, pat, ct);
    StepDown(env, 0, s, [], 1, lo, n);
    ThenX(src, pat, ct, s + lo + n);
    if n > 0 { DownMeans(src, pat, ct, s, lo, n - 1); }
  }

  /** `*` and `+` take as many characters as they can: the match ends with the last x. */
  lemma GreedyMeans(src: string, q: char, ct: Ctype, s: nat)
    requires q == '*' || q == '+'
    requires s <= |src|
    ensures var r := First(Env(src, ['.', q, 'x'], ct), 0, s, []);
            MatchesX(src, if q == '+' then s + 1 else s, |src|, true, r)
  {
    hide First, Down;
    var pat, lo := ['.', q, 'x'], if q == '+' then 1 else 0;
    var env := Env(src, pat, ct);
    assert ItemAt(pat, 0) == Good((Rep(0, 1, lo, false, true), 2));
    if s + lo > |src| {
      RepNone(env, 0, s, []);
    } else {
      AnyLongest(src, pat, ct, s + lo);
      StartsDown(env, 0, s, [], 1, lo, |src| - s - lo);
      DownMeans(src, pat, ct, s, lo, |src| - s - lo);
    }
  }

  lemma {:induction false} UpMeans(src: string, pat: string, ct: Ctype, s: nat, n: nat)
    requires |pat| == 3 && pat[0] == '.' && pat[2] == 'x' && s + n <= |src|
    requires ItemAt(pat, 0) == Good((Rep(0, 1, 0, false, false), 2))
    ensures MatchesX(src, s + n, |src|, false, Up(Env(src, pat, ct), 0, s, [], n))
    decreases |src| - s - n
  {
    hide First, Up, ItemAt;
    var env := Env(src, pat, ct);
    AnyLongest(src, pat, ct, s);
    StepUp(env, 0, s, [], 1, n);
    ThenX(src, pat, ct, s + n);
    if s + n < |src| { UpMeans(src, pat, ct, s, n + 1); }
  }

  /** `-` takes as few characters as it can: the match ends with the first x. */
  lemma LazyMeans(src: string, ct: Ctype, s: nat)
    requires s <= |src|
    ensures MatchesX(src, s, |src|, false, First(Env(src, ".-x", ct), 0, s, []))
  {
    hide First, Up;
    var pat := ".-x";
    assert ItemAt(pat, 0) == Good((Rep(0, 1, 0, false, false), 2));
    StartsUp(Env(src, pat, ct), 0, s, [], 1);
    UpMeans(src, pat, ct, s, 0);
  }

  /** `?` takes one character if the rest matches behind it, and otherwise none. */
  lemma OptionalMeans(src: string, ct: Ctype, s: nat)
    requires s <= |src|
    ensures First(Env(src, ".?x", ct), 0, s, []) ==
            if XAt(src, s + 1) then To(s + 2, []) else if XAt(src, s) then To(s + 1, []) else No
  {
    hide First;
    var pat := ".?x";
    var env := Env(src, pat, ct);
    assert ItemAt(pat, 0) == Good((Rep(0, 1, 0, true, true), 2));
    ThenX(src, pat, ct, s);
    ThenX(src, pat, ct, s + 1);
    if s < |src| { RepOptional(env, 0, s, []); } else { RepNone(env, 0, s, []); }
  }

  // ---- other items ----

  /** The end of the subject, elsewhere a plain character. */
  lemma EndMeans(src: string, ct: Ctype, s: nat)
    ensures First(Env(src, "$", ct), 0, s, []) == if s == |src| then To(s, []) else No
    ensures First(Env(src, "$x", ct), 0, s, []) ==
            if XAt(src, s + 1) && src[s] == '$' then To(s + 2, []) else No
  {
    hide First;
    var env, env2 := Env(src, "$", ct), Env(src, "$x", ct);
    FirstOne(env, 0, s, [], End, 1);
    FirstAtEnd(env, 1, s, []);
    assert ItemAt(env2.pat, 0) == Good((Rep(0, 1, 1, true, true), 1));
    assert ItemAt(env2.pat, 1) == Good((Rep(1, 2, 1, true, true), 2));
    if s < |src| && src[s] == '$' {
      RepOne(env2, 0, s, []);
      if XAt(src, s + 1) { RepOne(env2, 1, s + 1, []); } else { RepNone(env2, 1, s + 1, []); }
      FirstAtEnd(env2, 2, s + 2, []);
    } else {
      RepNone(env2, 0, s, []);
    }
  }

  /** A balanced pair of delimiters: the match ends where what opens at s is closed again. */
  lemma DelimitersMean(src: string, ct: Ctype, s: nat, e: nat)
    requires s <= |src|
    ensures First(Env(src, "%b()", ct), 0, s, []) == To(e, []) <==> Balanced(src, '(', ')', s, e)
  {
    hide First, BalanceEnd;
    var env := Env(src, "%b()", ct);
    FirstOne(env, 0, s, [], Balance('(', ')'), 4);
    if s < |src| && src[s] == '(' {
      assert Depth(src, '(', ')', s, s + 1) == 1;
      BalanceMeaning(src, '(', ')', s, s + 1);
      var r := BalanceEnd(src, '(', ')', s + 1, 1);
      if r.Some? {
        FirstAtEnd(env, 4, r.value, []);
        BalancedOnce(src, s, r.value, e);
      }
    }
  }

  lemma BalancedOnce(src: string, s: nat, e: nat, e': nat)
    requires Balanced(src, '(', ')', s, e)
    ensures Balanced(src, '(', ')', s, e') <==> e' == e
  {
    hide Depth;
  }

  /** The frontier between characters outside a set and characters in it; a zero stands before the subject and
      behind it. */
  lemma FrontierMeans(src: string, ct: Ctype, s: nat)
    requires s <= |src|
    ensures First(Env(src, "%f[x]", ct), 0, s, []) == if XAt(src, s) && !XAt(src, s - 1) then To(s, []) else No
  {
    hide First;
    var env := Env(src, "%f[x]", ct);
    FirstOne(env, 0, s, [], Frontier(2, 5), 5);
    FirstAtEnd(env, 5, s, []);
    forall c: char ensures InSet(env, 2, 4, c) <==> c == 'x' { SetStep(ct, env.pat, 3, 4, c); }
  }

  /** The text and the place of captures. */
  lemma CapturesMean(src: string, ct: Ctype, s: nat)
    ensures First(Env(src, "(x)()", ct), 0, s, []) ==
            if XAt(src, s) then To(s + 1, [Cap(s, 1), Cap(s + 1, CAP_POSITION)]) else No
  {
    hide First;
    var env := Env(src, "(x)()", ct);
    var open, closed := [Cap(s, CAP_UNFINISHED)], [Cap(s, 1)];
    FirstOne(env, 0, s, [], Open(CAP_UNFINISHED), 1);
    assert Take(env, Open(CAP_UNFINISHED), 1, s, []) == To(s, open);
    assert ItemAt(env.pat, 1) == Good((Rep(1, 2, 1, true, true), 2));
    if XAt(src, s) {
      RepOne(env, 1, s, open);
      FirstOne(env, 2, s + 1, open, Close, 3);
      assert Take(env, Close, 1, s + 1, open) == To(s + 1, closed);
      FirstOne(env, 3, s + 1, closed, Open(CAP_POSITION), 5);
      FirstAtEnd(env, 5, s + 1, closed + [Cap(s + 1, CAP_POSITION)]);
      assert closed + [Cap(s + 1, CAP_POSITION)] == [Cap(s, 1), Cap(s + 1, CAP_POSITION)];
    } else {
      RepNone(env, 1, s, open);
    }
  }

  /** What is wrong with patterns that are not well formed. */
  lemma MalformedMeans(src: string, ct: Ctype, s: nat)
    ensures First(Env(src, "%", ct), 0, s, []) == Fails(EndsWithEscape)
    ensures First(Env(src, "[x", ct), 0, s, []) == Fails(MissingBracket)
    ensures First(Env(src, "%f", ct), 0, s, []) == Fails(MissingSet)
    ensures First(Env(src, "%b(", ct), 0, s, []) == Fails(MissingArguments)
    ensures First(Env(src, ")", ct), 0, s, []) == Fails(InvalidCapture)
    ensures First(Env(src, "%1", ct), 0, s, []) == Fails(InvalidIndex)
  {
    hide First;
    FirstMalformed(Env(src, "%", ct), 0, s, []);
    FirstMalformed(Env(src, "[x", ct), 0, s, []);
    FirstMalformed(Env(src, "%f", ct), 0, s, []);
    FirstMalformed(Env(src, "%b(", ct), 0, s, []);
    FirstOne(Env(src, ")", ct), 0, s, [], Close, 1);
    FirstOne(Env(src, "%1", ct), 0, s, [], Back('1'), 2);
  }
}
