/** Lua's pattern matcher: backtracking over a table of captures, with a budget for recursion. */
module LuaMatch {
  import opened PatternSpec
  import opened Shared

  const MAXCCALLS: nat := 200

  datatype Result = Fail | EndsAt(e: nat) | Raise(error: Error)

  /** What the matcher returns, against what it must find. */
  predicate Reports(r: Result, o: Out, caps: seq<Cap>) {
    match o
    case No => r == Fail
    case Fails(e) => r == Raise(e)
    case To(e, c) => r == EndsAt(e) && caps == c
  }

  /** Captures begin before s, and those that are closed end in the subject. */
  predicate CapsUpTo(caps: seq<Cap>, s: nat, src: string) {
    forall i :: 0 <= i < |caps| ==> CapUpTo(caps[i], s, src)
  }

  predicate CapUpTo(c: Cap, s: nat, src: string) { c.len >= CAP_POSITION && c.init <= s && c.init + c.len <= |src| }

  lemma CapsLater(caps: seq<Cap>, s: nat, s': nat, src: string)
    requires CapsUpTo(caps, s, src) && s <= s'
    ensures CapsUpTo(caps, s', src)
  {
    forall i | 0 <= i < |caps| ensures CapUpTo(caps[i], s', src) { assert CapUpTo(caps[i], s, src); }
  }

  class MatchState {
    const src: string
    const pat: string
    const ct: Ctype
    const capture: array<Cap>
    var level: nat
    var matchdepth: nat

    /** `prepstate`. */
    constructor (src: string, pat: string, ct: Ctype)
      ensures Valid() && level == 0 && matchdepth == MAXCCALLS && fresh(capture) && this.src == src && this.pat == pat
      ensures this.ct == ct
    {
      this.src, this.pat, this.ct := src, pat, ct;
      capture := new Cap[MAXCAPTURES](i => Cap(0, 0));
      level, matchdepth := 0, MAXCCALLS;
    }

    ghost predicate Valid()
      reads this
    {
      capture.Length == MAXCAPTURES && level <= MAXCAPTURES
    }

    ghost function Caps(): seq<Cap>
      requires Valid()
      reads this, capture
    {
      capture[..level]
    }

    function E(): Env { Env(src, pat, ct) }

    // ---- classes ----

    /** `matchbracketclass`. */
    method MatchBracketClass(c: char, p0: nat, ec: nat) returns (b: bool)
      requires ec <= |pat|
      ensures b == InSet(E(), p0, ec, c)
    {
      hide InClass, Elems, InElems;
      var sig, p := true, p0;
      if At(pat, p + 1) == '^' {
        sig := false;
        p := p + 1;
      }
      p := p + 1;
      ghost var q0 := p;
      while p < ec
        invariant q0 <= p && (InElems(ct, Elems(pat, p, ec), c) <==> InElems(ct, Elems(pat, q0, ec), c))
        decreases ec - p
      {
        SetStep(ct, pat, p, ec, c);
        if At(pat, p) == '%' {
          p := p + 1;
          if InClass(ct, c, At(pat, p)) {
            return sig;
          }
        } else if At(pat, p + 1) == '-' && p + 2 < ec {
          p := p + 2;
          if At(pat, p - 2) <= c <= At(pat, p) {
            return sig;
          }
        } else if At(pat, p) == c {
          return sig;
        }
        p := p + 1;
      }
      SetDone(ct, pat, p, ec, c);
      return !sig;
    }

    /** `classend`. */
    method FindClassEnd(p0: nat) returns (r: Parsed<nat>)
      requires p0 < |pat|
      ensures r == ClassEnd(pat, p0)
    {
      var c, p := pat[p0], p0 + 1;
      if c == '%' {
        if p == |pat| {
          return Malformed(EndsWithEscape);
        }
        return Good(p + 1);
      } else if c == '[' {
        if At(pat, p) == '^' {
          p := p + 1;
        }
        ghost var q := p;
        while true
          invariant p0 < p <= |pat| && SetEnd(pat, p) == SetEnd(pat, q)
          decreases |pat| - p
        {
          if p == |pat| {
            return Malformed(MissingBracket);
          }
          var escape := pat[p] == '%';
          p := p + 1;
          if escape && p < |pat| {
            p := p + 1;
          }
          if At(pat, p) == ']' {
            return Good(p + 1);
          }
        }
      }
      return Good(p);
    }

    /** `singlematch`. */
    method SingleMatch(s: nat, p: nat, ep: nat) returns (b: bool)
      requires p < ep <= |pat|
      ensures b == Single(E(), s, p, ep)
    {
      if s >= |src| {
        return false;
      }
      if pat[p] == '.' {
        return true;
      } else if pat[p] == '%' {
        return InClass(ct, src[s], At(pat, p + 1));
      } else if pat[p] == '[' {
        b := MatchBracketClass(src[s], p, ep - 1);
        return b;
      }
      return pat[p] == src[s];
    }

    /** `matchbalance`. */
    method MatchBalance(s0: nat, p: nat) returns (r: Result)
      requires s0 <= |src|
      ensures if p + 1 >= |pat| then r == Raise(MissingArguments)
        else Reports(r, Take(E(), Balance(pat[p], pat[p + 1]), 1, s0, []), [])
    {
      if p + 1 >= |pat| {
        return Raise(MissingArguments);
      }
      if At(src, s0) != pat[p] {
        return Fail;
      }
      var b, e, cont := pat[p], pat[p + 1], 1;
      var s := s0 + 1;
      while s < |src|
        invariant s0 < s && cont > 0 && BalanceEnd(src, b, e, s, cont) == BalanceEnd(src, b, e, s0 + 1, 1)
        decreases |src| - s
      {
        if src[s] == e {
          cont := cont - 1;
          if cont == 0 {
            return EndsAt(s + 1);
          }
        } else if src[s] == b {
          cont := cont + 1;
        }
        s := s + 1;
      }
      return Fail;
    }

    // ---- captures ----

    /** `capture_to_close`. */
    method CaptureToClose() returns (r: Option<nat>)
      requires Valid()
      ensures r == LastOpen(Caps())
    {
      var l := level;
      while l > 0
        invariant 0 <= l <= level <= capture.Length && LastOpen(capture[..l]) == LastOpen(Caps())
      {
        l := l - 1;
        assert capture[..l + 1][..l] == capture[..l];
        if capture[l].len == CAP_UNFINISHED {
          return Some(l);
        }
      }
      return None;
    }

    /** `start_capture`: undone if the rest does not match. */
    method StartCapture(s: nat, p0: nat, p: nat, what: int) returns (r: Result)
      requires Valid() && s <= |src| && p0 < p <= |pat| && (what == CAP_POSITION || what == CAP_UNFINISHED)
      requires CapsUpTo(Caps(), s, src)
      requires ItemAt(pat, p0) == Good((Open(what), p))
      modifies this, capture
      ensures Valid() && Matched(r, First(E(), p0, s, old(Caps())), old(Caps()), old(matchdepth))
      ensures old(matchdepth) > |pat| - p ==> r != Raise(TooComplex)
      decreases |pat| - p0, 0, 0
    {
      hide First, ItemAt;
      FirstOne(E(), p0, s, Caps(), Open(what), p);
      if level >= MAXCAPTURES {
        return Raise(TooManyCaptures);
      }
      capture[level] := Cap(s, what);
      level := level + 1;
      assert Caps() == old(Caps()) + [Cap(s, what)];
      r := Match(s, p);
      if r == Fail {
        level := level - 1;
        assert Caps() == old(Caps());
      }
    }

    /** `end_capture`: undone if the rest does not match. */
    method EndCapture(s: nat, p0: nat, p: nat) returns (r: Result)
      requires Valid() && s <= |src| && p0 < p <= |pat| && CapsUpTo(Caps(), s, src)
      requires ItemAt(pat, p0) == Good((Close, p))
      modifies this, capture
      ensures Valid() && Matched(r, First(E(), p0, s, old(Caps())), old(Caps()), old(matchdepth))
      ensures old(matchdepth) > |pat| - p ==> r != Raise(TooComplex)
      decreases |pat| - p0, 0, 0
    {
      hide First, ItemAt;
      FirstOne(E(), p0, s, Caps(), Close, p);
      var l := CaptureToClose();
      if l.None? {
        return Raise(InvalidCapture);
      }
      var i := l.value;
      ghost var caps := Caps();
      capture[i] := Cap(capture[i].init, s - capture[i].init);
      assert Caps() == caps[i := Cap(caps[i].init, s - caps[i].init)];
      r := Match(s, p);
      if r == Fail {
        ghost var c := Caps();
        capture[i] := Cap(capture[i].init, CAP_UNFINISHED);
        assert Caps() == c[i := Cap(c[i].init, CAP_UNFINISHED)];
        assert Caps() == caps;
      }
    }

    /** `match_capture` and `check_capture`. */
    method MatchCapture(s: nat, d: char) returns (r: Result)
      requires Valid() && s <= |src| && CapsUpTo(Caps(), s, src)
      ensures Reports(r, Take(E(), Back(d), 1, s, Caps()), Caps())
    {
      var l := Digit(d);
      if l < 0 || l >= level || capture[l].len == CAP_UNFINISHED {
        return Raise(InvalidIndex);
      }
      var c := capture[l];
      assert c == Caps()[l] && CapUpTo(Caps()[l], s, src);
      // a position has length -2, which is huge as an unsigned number
      if c.len >= 0 && |src| - s >= c.len && src[c.init..c.init + c.len] == src[s..s + c.len] {
        return EndsAt(s + c.len);
      }
      return Fail;
    }

    // ---- repetitions ----

    /** A finished call: what it found, with everything undone if that is nothing. */
    ghost predicate Matched(r: Result, o: Out, caps: seq<Cap>, depth: nat)
      requires Valid()
      reads this, capture
    {
      (r == Raise(TooComplex) || Reports(r, o, Caps())) && (r == Fail ==> Caps() == caps) &&
      (!r.Raise? ==> matchdepth == depth)
    }

    /** `max_expand`, after `lo` repetitions that are already there. */
    method MaxExpand(s: nat, p: nat, ep: nat, lo: nat, ghost s0: nat) returns (r: Result)
      requires Valid() && s <= |src| && p < ep < |pat| && CapsUpTo(Caps(), s, src) && s == s0 + lo && lo <= 1
      requires ItemAt(pat, p) == Good((Rep(p, ep, lo, false, true), ep + 1)) && (lo == 1 ==> Single(E(), s0, p, ep))
      modifies this, capture
      ensures Valid() && Matched(r, First(E(), p, s0, old(Caps())), old(Caps()), old(matchdepth))
      ensures old(matchdepth) > |pat| - (ep + 1) ==> r != Raise(TooComplex)
      decreases |pat| - p, 0, 0
    {
      hide First, Down, ItemAt, Single;
      var i: int := 0;
      ghost var caps := Caps();
      var more := SingleMatch(s, p, ep);
      while more
        invariant Valid() && Caps() == caps && matchdepth == old(matchdepth)
        invariant 0 <= i && s + i <= |src| && more == Single(E(), s + i, p, ep)
        invariant Longest(E(), s, p, ep) == i + Longest(E(), s + i, p, ep)
        decreases |src| - i
      {
        i := i + 1;
        more := SingleMatch(s + i, p, ep);
      }
      StartsDown(E(), p, s0, caps, ep, lo, i);
      while i >= 0
        invariant -1 <= i <= Longest(E(), s, p, ep) && Valid() && Caps() == caps && matchdepth == old(matchdepth)
        invariant First(E(), p, s0, caps) == if i >= 0 then Down(E(), p, s0, caps, lo + i) else No
        decreases i
      {
        CapsLater(caps, s, s + i, src);
        r := Match(s + i, ep + 1);
        StepDown(E(), p, s0, caps, ep, lo, i);
        if r != Fail {
          return r;
        }
        i := i - 1;
      }
      return Fail;
    }

    /** `min_expand`. */
    method MinExpand(s0: nat, p: nat, ep: nat) returns (r: Result)
      requires Valid() && s0 <= |src| && p < ep < |pat| && CapsUpTo(Caps(), s0, src)
      requires ItemAt(pat, p) == Good((Rep(p, ep, 0, false, false), ep + 1))
      modifies this, capture
      ensures Valid() && Matched(r, First(E(), p, s0, old(Caps())), old(Caps()), old(matchdepth))
      ensures old(matchdepth) > |pat| - (ep + 1) ==> r != Raise(TooComplex)
      decreases |pat| - p, 0, 0
    {
      hide First, Up, ItemAt, Single;
      var s := s0;
      ghost var caps := Caps();
      StartsUp(E(), p, s0, caps, ep);
      while true
        invariant s0 <= s <= |src| && Valid() && Caps() == caps && matchdepth == old(matchdepth)
        invariant First(E(), p, s0, caps) == Up(E(), p, s0, caps, s - s0)
        invariant s - s0 <= Longest(E(), s0, p, ep) && Longest(E(), s0, p, ep) == s - s0 + Longest(E(), s, p, ep)
        decreases |src| - s
      {
        CapsLater(caps, s0, s, src);
        r := Match(s, ep + 1);
        StepUp(E(), p, s0, caps, ep, s - s0);
        if r != Fail {
          return r;
        }
        var more := SingleMatch(s, p, ep);
        if more {
          s := s + 1;
        } else {
          return Fail;
        }
      }
    }

    // ---- matching ----

    /** `match`: finds what the pattern from p means at s, in its order of preference, unless the budget is used up.
        A budget larger than the rest of the pattern always suffices. */
    method Match(s: nat, p: nat) returns (r: Result)
      requires Valid() && s <= |src| && p <= |pat| && CapsUpTo(Caps(), s, src)
      modifies this, capture
      ensures Valid() && Matched(r, First(E(), p, s, old(Caps())), old(Caps()), old(matchdepth))
      ensures old(matchdepth) > |pat| - p ==> r != Raise(TooComplex)
      decreases |pat| - p, 2, 0
    {
      if matchdepth == 0 {
        return Raise(TooComplex);
      }
      matchdepth := matchdepth - 1;
      r := MatchHere(s, p);
      if !r.Raise? {
        matchdepth := matchdepth + 1;
      }
    }

    /** A class with its suffix. */
    method MatchDefault(s: nat, p: nat) returns (r: Result, next: Option<(nat, nat)>)
      requires Valid() && s <= |src| && p < |pat| && CapsUpTo(Caps(), s, src) && IsDefault(pat, p)
      modifies this, capture
      ensures Valid() && GoesOn(r, next, s, p, old(Caps()), old(matchdepth))
      ensures old(matchdepth) >= |pat| - p ==> r != Raise(TooComplex)
      decreases |pat| - p, 0, 1
    {
      hide First, ItemAt, Single, Longest, IsDefault, Most;
      var e := FindClassEnd(p);
      DefaultItem(E(), p);
      if e.Malformed? {
        FirstMalformed(E(), p, s, Caps());
        return Raise(e.error), None;
      }
      var ep := e.value;
      var c := At(pat, ep);
      var once := SingleMatch(s, p, ep);
      if !once {
        RepNone(E(), p, s, Caps());
        if c == '*' || c == '?' || c == '-' {
          return Fail, Some((s, ep + 1));
        }
        return Fail, None;
      }
      SingleInside(E(), s, p, ep);
      if c == '?' {
        RepOptional(E(), p, s, Caps());
        CapsLater(Caps(), s, s + 1, src);
        r := Match(s + 1, ep + 1);
        if r != Fail {
          return r, None;
        }
        return Fail, Some((s, ep + 1));
      } else if c == '+' {
        CapsLater(Caps(), s, s + 1, src);
        r := MaxExpand(s + 1, p, ep, 1, s);
        return r, None;
      } else if c == '*' {
        r := MaxExpand(s, p, ep, 0, s);
        return r, None;
      } else if c == '-' {
        r := MinExpand(s, p, ep);
        return r, None;
      }
      RepOne(E(), p, s, Caps());
      return Fail, Some((s + 1, ep));
    }

    /** Either the item at p is decided, or the match goes on at another place with the same outcome. */
    ghost predicate GoesOn(r: Result, next: Option<(nat, nat)>, s: nat, p: nat, caps: seq<Cap>, depth: nat)
      requires Valid()
      reads this, capture
    {
      if next.None? then Matched(r, First(E(), p, s, caps), caps, depth)
      else
        r == Fail && Caps() == caps && matchdepth == depth && s <= next.value.0 <= |src| && p < next.value.1 <= |pat| &&
        First(E(), p, s, caps) == First(E(), next.value.1, next.value.0, caps)
    }

    /** The switch in `match`. */
    method MatchItem(s: nat, p: nat) returns (r: Result, next: Option<(nat, nat)>)
      requires Valid() && s <= |src| && p < |pat| && CapsUpTo(Caps(), s, src)
      modifies this, capture
      ensures Valid() && GoesOn(r, next, s, p, old(Caps()), old(matchdepth))
      ensures old(matchdepth) >= |pat| - p ==> r != Raise(TooComplex)
      decreases |pat| - p, 1, 0
    {
      hide First, Take;
      if pat[p] == '(' {
        if At(pat, p + 1) == ')' {
          r := StartCapture(s, p, p + 2, CAP_POSITION);
        } else {
          r := StartCapture(s, p, p + 1, CAP_UNFINISHED);
        }
        return r, None;
      } else if pat[p] == ')' {
        r := EndCapture(s, p, p + 1);
        return r, None;
      } else if pat[p] == '$' && p + 1 == |pat| {
        FirstOne(E(), p, s, Caps(), End, p + 1);
        TakeEnd(E(), s, Caps());
        FirstAtEnd(E(), p + 1, s, Caps());
        return if s == |src| then EndsAt(s) else Fail, None;
      } else if pat[p] == '%' && At(pat, p + 1) == 'b' {
        r, next := MatchB(s, p);
        return r, next;
      } else if pat[p] == '%' && At(pat, p + 1) == 'f' {
        r, next := MatchFrontier(s, p);
        return r, next;
      } else if pat[p] == '%' && '0' <= At(pat, p + 1) <= '9' {
        var d := At(pat, p + 1);
        FirstOne(E(), p, s, Caps(), Back(d), p + 2);
        r := MatchCapture(s, d);
        TakeBack(E(), d, s, Caps());
        if r.EndsAt? {
          return Fail, Some((r.e, p + 2));
        }
        return r, None;
      }
      r, next := MatchDefault(s, p);
    }

    method MatchB(s: nat, p: nat) returns (r: Result, next: Option<(nat, nat)>)
      requires Valid() && s <= |src| && p < |pat| && pat[p] == '%' && At(pat, p + 1) == 'b'
      ensures GoesOn(r, next, s, p, Caps(), matchdepth) && r != Raise(TooComplex)
    {
      hide First, Take;
      r := MatchBalance(s, p + 2);
      if p + 3 >= |pat| {
        FirstMalformed(E(), p, s, Caps());
        return r, None;
      }
      FirstOne(E(), p, s, Caps(), Balance(pat[p + 2], pat[p + 3]), p + 4);
      TakeBalance(E(), pat[p + 2], pat[p + 3], s, Caps());
      if r.EndsAt? {
        return Fail, Some((r.e, p + 4));
      }
      return r, None;
    }

    method MatchFrontier(s: nat, p: nat) returns (r: Result, next: Option<(nat, nat)>)
      requires Valid() && s <= |src| && p < |pat| && pat[p] == '%' && At(pat, p + 1) == 'f'
      ensures GoesOn(r, next, s, p, Caps(), matchdepth) && r != Raise(TooComplex)
    {
      hide First;
      if At(pat, p + 2) != '[' {
        FirstMalformed(E(), p, s, Caps());
        return Raise(MissingSet), None;
      }
      var e := FindClassEnd(p + 2);
      if e.Malformed? {
        FirstMalformed(E(), p, s, Caps());
        return Raise(e.error), None;
      }
      var ep := e.value;
      FirstOne(E(), p, s, Caps(), Frontier(p + 2, ep), ep);
      var previous := if s == 0 then '\0' else src[s - 1];
      var before := MatchBracketClass(previous, p + 2, ep - 1);
      var here := MatchBracketClass(At(src, s), p + 2, ep - 1);
      if !before && here {
        return Fail, Some((s, ep));
      }
      return Fail, None;
    }

    /** The loop in `match`, within one unit of the budget: most items go on to the next one without a call. */
    method MatchHere(s0: nat, p0: nat) returns (r: Result)
      requires Valid() && s0 <= |src| && p0 <= |pat| && CapsUpTo(Caps(), s0, src)
      modifies this, capture
      ensures Valid() && Matched(r, First(E(), p0, s0, old(Caps())), old(Caps()), old(matchdepth))
      ensures old(matchdepth) >= |pat| - p0 ==> r != Raise(TooComplex)
      decreases |pat| - p0, 1, 1
    {
      hide First, ItemAt, Take, Single, Longest;
      var s: nat, p: nat := s0, p0;
      ghost var caps := Caps();
      while p < |pat|
        invariant s <= |src| && p0 <= p <= |pat| && Valid() && Caps() == caps && matchdepth == old(matchdepth)
        invariant CapsUpTo(caps, s, src)
        invariant First(E(), p, s, caps) == First(E(), p0, s0, caps)
        decreases |pat| - p
      {
        var next;
        r, next := MatchItem(s, p);
        if next.None? {
          return r;
        }
        ghost var p1, s1 := p, s;
        s, p := next.value.0, next.value.1;
        CapsLater(caps, s1, s, src);
      }
      FirstAtEnd(E(), p, s, caps);
      return EndsAt(s);
    }

    /** `str_find_aux`, with a pattern: the first place from init on where the pattern matches, or only init itself
        behind an anchor. Unless the pattern is longer than the budget, it is never too complex. */
    method Find(init: nat) returns (r: Found)
      requires Valid() && init <= |src| && matchdepth == MAXCCALLS
      modifies this, capture
      ensures Valid() && FoundFirst(r, E(), init, Caps())
      ensures |pat| < MAXCCALLS ==> r != Stopped(TooComplex)
    {
      hide First, StopsAt, NothingAt;
      var s := init;
      var anchor := At(pat, 0) == '^';
      var p := if anchor then 1 else 0;
      while true
        invariant Leftmost(E(), init, s) && Valid() && matchdepth == MAXCCALLS
        decreases |src| - s
      {
        level := 0;
        assert Caps() == [];
        var x := Match(s, p);
        AtPlace(E(), s, x, Caps());
        if x.EndsAt? {
          return FoundAt(s, x.e);
        } else if x.Raise? {
          return Stopped(x.error);
        }
        if s >= |src| || anchor {
          return NotFound;
        }
        s := s + 1;
      }
    }
  }

  datatype Found = NotFound | FoundAt(start: nat, end: nat) | Stopped(error: Error)

  predicate Anchored(pat: string) { At(pat, 0) == '^' }

  /** Where the pattern itself starts. */
  function Body(pat: string): nat { if Anchored(pat) then 1 else 0 }

  /** A place where a match may start. */
  predicate MayStart(env: Env, init: nat, s: nat) { init <= s <= |env.src| && (Anchored(env.pat) ==> s == init) }

  predicate NothingAt(env: Env, s: nat) { First(env, Body(env.pat), s, []) == No }

  /** There is no match at a smaller place. */
  ghost predicate Leftmost(env: Env, init: nat, s: nat) {
    MayStart(env, init, s) && forall q: nat :: init <= q < s ==> NothingAt(env, q)
  }

  predicate StopsAt(env: Env, s: nat, x: Error) { First(env, Body(env.pat), s, []) == Fails(x) }

  /** The leftmost match, with its captures; or the error in the pattern that comes up before. */
  ghost predicate FoundFirst(r: Found, env: Env, init: nat, caps: seq<Cap>) {
    match r
    case NotFound => forall s: nat :: MayStart(env, init, s) ==> NothingAt(env, s)
    case FoundAt(s, e) => Leftmost(env, init, s) && First(env, Body(env.pat), s, []) == To(e, caps)
    case Stopped(x) => x == TooComplex || exists s: nat :: Leftmost(env, init, s) && StopsAt(env, s, x)
  }

  lemma AtPlace(env: Env, s: nat, x: Result, caps: seq<Cap>)
    ensures Reports(x, First(env, Body(env.pat), s, []), caps) ==> (x.Fail? ==> NothingAt(env, s))
    ensures Reports(x, First(env, Body(env.pat), s, []), caps) ==> (x.Raise? ==> StopsAt(env, s, x.error))
  {
  }

  // ---- plain search ----

  predicate Special(c: char) { c in "^$*+?.([%-" }

  predicate NoSpecials(pat: string) { forall i :: 0 <= i < |pat| ==> !Special(pat[i]) }

  predicate OccursAt(src: string, pat: string, s: nat) { s + |pat| <= |src| && src[s..s + |pat|] == pat }

  /** `nospecials`: piece by piece, as zeros end the strings that the C library looks at. */
  method HasNoSpecials(pat: string) returns (b: bool)
    ensures b == NoSpecials(pat)
  {
    var upto := 0;
    while upto <= |pat|
      invariant 0 <= upto <= |pat| + 1 && forall i :: 0 <= i < upto && i < |pat| ==> !Special(pat[i])
    {
      var i := upto;
      while At(pat, i) != '\0'
        invariant upto <= i <= |pat| && forall k :: 0 <= k < i ==> !Special(pat[k])
        decreases |pat| - i
      {
        if Special(pat[i]) {
          return false;
        }
        i := i + 1;
      }
      upto := i + 1;
    }
    return true;
  }

  /** `lmemfind`: looks for the first character, then for the rest behind it. */
  method MemFind(src: string, from: nat, pat: string) returns (r: Option<nat>)
    requires from <= |src|
    ensures r.Some? ==> from <= r.value && OccursAt(src, pat, r.value)
    ensures r.Some? ==> forall q :: from <= q < r.value ==> !OccursAt(src, pat, q)
    ensures r.None? ==> forall q: nat :: from <= q ==> !OccursAt(src, pat, q)
  {
    if |pat| == 0 {
      return Some(from);
    } else if |pat| > |src| - from {
      return None;
    }
    var l2 := |pat| - 1;
    var s1, l1 := from, |src| - from - l2;
    while l1 > 0
      invariant from <= s1 && l1 >= 0 && s1 + l1 + l2 == |src|
      invariant forall q: nat :: from <= q < s1 ==> !OccursAt(src, pat, q)
      decreases l1
    {
      var init := s1;
      while init < s1 + l1 && src[init] != pat[0]
        invariant s1 <= init <= s1 + l1 && forall q: nat :: from <= q < init ==> !OccursAt(src, pat, q)
      {
        init := init + 1;
      }
      if init == s1 + l1 {
        return None;
      }
      init := init + 1;
      if src[init..init + l2] == pat[1..] {
        assert src[init - 1..init - 1 + |pat|] == pat;
        return Some(init - 1);
      }
      NotHere(src, pat, init - 1);
      l1 := l1 - (init - s1);
      s1 := init;
    }
    return None;
  }

  lemma NotHere(src: string, pat: string, s: nat)
    requires pat != [] && s + |pat| <= |src| && src[s + 1..s + |pat|] != pat[1..]
    ensures !OccursAt(src, pat, s)
  {
    assert src[s..s + |pat|][1..] == src[s + 1..s + |pat|];
  }

  /** What a plain search at s says, as a match. */
  function PlainOut(src: string, pat: string, s: nat): Out { if OccursAt(src, pat, s) then To(s + |pat|, []) else No }

  predicate PlainAt(env: Env, s: nat) { First(env, 0, s, []) == PlainOut(env.src, env.pat, s) }

  /** Characters that are not special match themselves, but for the closing parenthesis. */
  lemma {:induction false} PlainRest(env: Env, p: nat, s: nat)
    requires p <= |env.pat| && s <= |env.src| && NoSpecials(env.pat)
    requires forall i :: p <= i < |env.pat| ==> env.pat[i] != ')'
    ensures First(env, p, s, []) == PlainOut(env.src, env.pat[p..], s)
    decreases |env.pat| - p
  {
    if p < |env.pat| {
      PlainItem(env.pat, p);
      assert !Special(env.pat[p]);
      OccursMore(env.src, env.pat[p..], s);
      assert env.pat[p..][1..] == env.pat[p + 1..];
      if Single(env, s, p, p + 1) {
        RepOne(env, p, s, []);
        PlainRest(env, p + 1, s + 1);
      } else {
        RepNone(env, p, s, []);
      }
    }
  }

  lemma OccursMore(src: string, pat: string, s: nat)
    requires pat != []
    ensures OccursAt(src, pat, s) <==> s < |src| && src[s] == pat[0] && OccursAt(src, pat[1..], s + 1)
  {
    if s + |pat| <= |src| {
      var t := src[s..s + |pat|];
      assert t[1..] == src[s + 1..s + |pat|] && t == [t[0]] + t[1..];
      assert pat == [pat[0]] + pat[1..];
    }
  }

  lemma PlainItem(pat: string, p: nat)
    requires p < |pat| && NoSpecials(pat) && pat[p] != ')'
    ensures ItemAt(pat, p) == Good((Rep(p, p + 1, 1, true, true), p + 1))
  {
    assert !Special(pat[p]) && (p + 1 < |pat| ==> !Special(pat[p + 1]));
  }

  /** `str_find_aux` searches plainly for patterns without special characters. That agrees with matching them,
      whatever the subject, exactly if they have no closing parenthesis, which is not among the special characters. */
  lemma PlainSearchAgrees(pat: string, ct: Ctype)
    requires NoSpecials(pat)
    ensures (forall src: string, s: nat :: s <= |src| ==> PlainAt(Env(src, pat, ct), s)) <==> ')' !in pat
  {
    if ')' in pat {
      var i := FirstParen(pat);
      var env := Env(pat[..i], pat, ct);
      ParenFails(env, i, 0);
      assert !PlainAt(env, 0);
    } else {
      forall src: string, s: nat | s <= |src| ensures PlainAt(Env(src, pat, ct), s) {
        PlainRest(Env(src, pat, ct), 0, s);
        assert pat[0..] == pat;
      }
    }
  }

  /** `posrelat`. */
  function PosRelat(pos: int, len: nat): int { if pos >= 0 then pos else if 0 - pos > len then 0 else len + pos + 1 }

  /** The first place, from zero, or a place behind the end. */
  function StartOf(pos: int, len: nat): nat {
    var init := PosRelat(pos, len);
    if init < 1 then 0 else init - 1
  }

  /** The first occurrence. */
  ghost predicate PlainFirst(r: Found, src: string, pat: string, init: nat) {
    match r
    case FoundAt(s, e) => init <= s && e == s + |pat| && OccursAt(src, pat, s) &&
      forall q: nat :: init <= q < s ==> !OccursAt(src, pat, q)
    case NotFound => forall q: nat :: init <= q ==> !OccursAt(src, pat, q)
    case Stopped(_) => false
  }

  /** `str_find_aux`: the plain search is a shortcut, which can only be told by a closing parenthesis in the pattern. */
  method StrFind(src: string, pat: string, pos: int, plain: bool, ct: Ctype) returns (r: Found, ghost caps: seq<Cap>)
    ensures var init := StartOf(pos, |src|);
      if init > |src| then r == NotFound
      else if plain then PlainFirst(r, src, pat, init)
      else !(NoSpecials(pat) && ')' in pat) ==> FoundFirst(r, Env(src, pat, ct), init, caps)
  {
    hide First;
    caps := [];
    var init := PosRelat(pos, |src|);
    if init < 1 {
      init := 1;
    } else if init > |src| + 1 {
      return NotFound, caps;
    }
    var shortcut := plain;
    if !shortcut {
      shortcut := HasNoSpecials(pat);
    }
    if shortcut {
      var s := MemFind(src, init - 1, pat);
      if !plain && ')' !in pat { PlainFound(Env(src, pat, ct), init - 1, s); }
      if s.Some? {
        return FoundAt(s.value, s.value + |pat|), caps;
      }
      return NotFound, caps;
    }
    var ms := new MatchState(src, pat, ct);
    r := ms.Find(init - 1);
    caps := ms.Caps();
  }

  lemma PlainFound(env: Env, init: nat, r: Option<nat>)
    requires NoSpecials(env.pat) && ')' !in env.pat && init <= |env.src|
    requires r.Some? ==> init <= r.value && OccursAt(env.src, env.pat, r.value)
    requires r.Some? ==> forall q: nat :: init <= q < r.value ==> !OccursAt(env.src, env.pat, q)
    requires r.None? ==> forall q: nat :: init <= q ==> !OccursAt(env.src, env.pat, q)
    ensures FoundFirst(if r.Some? then FoundAt(r.value, r.value + |env.pat|) else NotFound, env, init, [])
  {
    hide First;
    assert env.pat != [] ==> !Special(env.pat[0]);
    assert Body(env.pat) == 0 && env.pat[0..] == env.pat;
    forall s: nat | s <= |env.src| ensures PlainAt(env, s) { PlainRest(env, 0, s); }
    forall s: nat | s <= |env.src| && !OccursAt(env.src, env.pat, s)
      ensures NothingAt(env, s)
    {
      assert PlainAt(env, s);
    }
    if r.Some? { assert PlainAt(env, r.value); }
  }

  function FirstParen(pat: string): (i: nat)
    requires ')' in pat
    ensures i < |pat| && pat[i] == ')' && forall k :: 0 <= k < i ==> pat[k] != ')'
  {
    if pat[0] == ')' then 0 else 1 + FirstParen(pat[1..])
  }

  /** Up to the parenthesis the pattern matches itself, and then there is no capture to close. */
  lemma {:induction false} ParenFails(env: Env, i: nat, p: nat)
    requires NoSpecials(env.pat) && i < |env.pat| && env.pat[i] == ')' && p <= i && env.src == env.pat[..i]
    requires forall k :: 0 <= k < i ==> env.pat[k] != ')'
    ensures First(env, p, p, []) == Fails(InvalidCapture)
    decreases i - p
  {
    if p == i {
      FirstOne(env, p, p, [], Close, p + 1);
    } else {
      PlainItem(env.pat, p);
      assert !Special(env.pat[p]);
      RepOne(env, p, p, []);
      ParenFails(env, i, p + 1);
    }
  }

  // ---- steps of the search ----

  /** A character is in a set if the next element covers it, or if it is in the rest. */
  lemma SetStep(ct: Ctype, pat: string, p: nat, ec: nat, c: char)
    requires p < ec
    ensures var e := ElemAt(pat, p, ec);
            InElems(ct, Elems(pat, p, ec), c) <==> Covers(ct, e.0, c) || InElems(ct, Elems(pat, e.1, ec), c)
  {
    hide Covers;
    var e := ElemAt(pat, p, ec);
    var es, rest := Elems(pat, p, ec), Elems(pat, e.1, ec);
    if Covers(ct, e.0, c) { assert es[0] == e.0; }
    if InElems(ct, rest, c) {
      var i :| 0 <= i < |rest| && Covers(ct, rest[i], c);
      assert es[i + 1] == rest[i];
    }
    if InElems(ct, es, c) {
      var i :| 0 <= i < |es| && Covers(ct, es[i], c);
      if i > 0 { assert rest[i - 1] == es[i]; }
    }
  }

  lemma SetDone(ct: Ctype, pat: string, p: nat, ec: nat, c: char)
    requires p >= ec
    ensures !InElems(ct, Elems(pat, p, ec), c)
  {
  }

  lemma FirstAtEnd(env: Env, p: nat, s: nat, caps: seq<Cap>)
    requires p >= |env.pat|
    ensures First(env, p, s, caps) == To(s, caps)
  {
  }

  lemma FirstMalformed(env: Env, p: nat, s: nat, caps: seq<Cap>)
    requires p < |env.pat| && ItemAt(env.pat, p).Malformed?
    ensures First(env, p, s, caps) == Fails(ItemAt(env.pat, p).error)
  {
  }

  lemma FirstOne(env: Env, p: nat, s: nat, caps: seq<Cap>, it: Item, next: nat)
    requires p < |env.pat| && ItemAt(env.pat, p) == Good((it, next)) && !it.Rep?
    ensures var o := Take(env, it, 1, s, caps);
            First(env, p, s, caps) == if o.To? then First(env, next, o.s, o.caps) else o
  {
    hide Take;
  }

  lemma TakeEnd(env: Env, s: nat, caps: seq<Cap>)
    ensures Take(env, End, 1, s, caps) == if s == |env.src| then To(s, caps) else No
  {
  }

  /** These items leave the captures alone, and move forward within the subject. */
  lemma TakeBack(env: Env, d: char, s: nat, caps: seq<Cap>)
    ensures var o := Take(env, Back(d), 1, s, caps);
            (o.To? ==> o.caps == caps && s <= o.s <= |env.src|) && o != Fails(TooComplex)
  {
  }

  lemma TakeBalance(env: Env, x: char, y: char, s: nat, caps: seq<Cap>)
    ensures var o, o1 := Take(env, Balance(x, y), 1, s, caps), Take(env, Balance(x, y), 1, s, []);
      if o.To? then o1 == To(o.s, []) && o.caps == caps && s <= o.s <= |env.src| else o == o1 == No
  {
  }

  predicate IsDefault(pat: string, p: nat)
    requires p < |pat|
  {
    var c, d := pat[p], At(pat, p + 1);
    c != '(' && c != ')' && !(c == '$' && p + 1 == |pat|) && !(c == '%' && (d == 'b' || d == 'f' || '0' <= d <= '9'))
  }

  function RepItem(pat: string, p: nat, ep: nat): (Item, nat) {
    var c := At(pat, ep);
    (Rep(p, ep, if c == '+' || !(c in "*-?") then 1 else 0, !(c in "*+-"), c != '-'),
     if c in "*+-?" then ep + 1 else ep)
  }

  lemma DefaultItem(env: Env, p: nat)
    requires p < |env.pat| && IsDefault(env.pat, p)
    ensures var e := ClassEnd(env.pat, p);
            ItemAt(env.pat, p) == if e.Good? then Good(RepItem(env.pat, p, e.value)) else Malformed(e.error)
  {
  }

  lemma SingleInside(env: Env, s: nat, p: nat, ep: nat)
    requires Single(env, s, p, ep)
    ensures s + 1 <= |env.src|
  {
  }

  lemma RepNone(env: Env, p: nat, s: nat, caps: seq<Cap>)
    requires RepAt(env.pat, p) && var i := ItemAt(env.pat, p).value.0; !Single(env, s, i.p, i.ep)
    ensures var i := ItemAt(env.pat, p).value;
            First(env, p, s, caps) == if i.0.lo == 0 then First(env, i.1, s, caps) else No
  {
    hide ItemAt, Single;
    var i := ItemAt(env.pat, p).value;
    assert Most(env, i.0, s) == 0;
    if !i.0.greedy {
      assert Up(env, p, s, caps, 1) == No;
      LazyLow(env.pat, p);
    }
  }

  lemma RepOptional(env: Env, p: nat, s: nat, caps: seq<Cap>)
    requires RepAt(env.pat, p)
    requires var i := ItemAt(env.pat, p).value.0; Single(env, s, i.p, i.ep) && i.once && i.greedy && i.lo == 0
    ensures var i := ItemAt(env.pat, p).value; var r := First(env, i.1, s + 1, caps);
      First(env, p, s, caps) == if r != No then r else First(env, i.1, s, caps)
  {
    hide ItemAt, Single;
    var i := ItemAt(env.pat, p).value;
    assert Most(env, i.0, s) == 1;
    assert Down(env, p, s, caps, 0) == First(env, i.1, s, caps);
  }

  lemma RepOne(env: Env, p: nat, s: nat, caps: seq<Cap>)
    requires RepAt(env.pat, p)
    requires var i := ItemAt(env.pat, p).value.0; Single(env, s, i.p, i.ep) && i.once && i.greedy && i.lo == 1
    ensures First(env, p, s, caps) == First(env, ItemAt(env.pat, p).value.1, s + 1, caps)
  {
    hide ItemAt, Single;
    var i := ItemAt(env.pat, p).value;
    assert Most(env, i.0, s) == 1;
    assert Down(env, p, s, caps, 0) == No;
  }

  lemma StartsDown(env: Env, p: nat, s0: nat, caps: seq<Cap>, ep: nat, lo: nat, n: nat)
    requires p < |env.pat| && lo <= 1 && ItemAt(env.pat, p) == Good((Rep(p, ep, lo, false, true), ep + 1))
    requires lo == 1 ==> Single(env, s0, p, ep)
    requires n == Longest(env, s0 + lo, p, ep)
    ensures First(env, p, s0, caps) == Down(env, p, s0, caps, lo + n)
  {
    hide ItemAt, Single, Down;
    assert Longest(env, s0, p, ep) == lo + n;
  }

  lemma StepDown(env: Env, p: nat, s0: nat, caps: seq<Cap>, ep: nat, lo: nat, n: nat)
    requires p < |env.pat| && lo <= 1 && ItemAt(env.pat, p) == Good((Rep(p, ep, lo, false, true), ep + 1))
    ensures var r := First(env, ep + 1, s0 + lo + n, caps);
      Down(env, p, s0, caps, lo + n) == if r != No then r else if n == 0 then No else Down(env, p, s0, caps, lo + n - 1)
  {
    hide ItemAt, First;
  }

  lemma StartsUp(env: Env, p: nat, s: nat, caps: seq<Cap>, ep: nat)
    requires p < |env.pat| && ItemAt(env.pat, p) == Good((Rep(p, ep, 0, false, false), ep + 1))
    ensures First(env, p, s, caps) == Up(env, p, s, caps, 0)
  {
    hide ItemAt, Up;
  }

  lemma StepUp(env: Env, p: nat, s0: nat, caps: seq<Cap>, ep: nat, n: nat)
    requires p < |env.pat| && ItemAt(env.pat, p) == Good((Rep(p, ep, 0, false, false), ep + 1))
    requires n <= Longest(env, s0, p, ep)
    ensures var r := First(env, ep + 1, s0 + n, caps);
      Up(env, p, s0, caps, n) == if r != No then r else if n == Longest(env, s0, p, ep) then No
        else Up(env, p, s0, caps, n + 1)
  {
    hide ItemAt, First, Longest;
  }
}
