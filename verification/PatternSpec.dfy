/** What a Lua pattern means (section 6.4.1 of the Lua 5.3 Reference Manual), with its choices made explicit. */
module PatternSpec {
  import opened Shared

  /** The C library's character classes: membership in a class, and the case of class letters. */
  datatype Ctype = Ctype(test: (char, char) -> bool, lower: char -> char, isLower: char -> bool)

  /** A subject and a pattern. */
  datatype Env = Env(src: string, pat: string, ct: Ctype)

  const CAP_UNFINISHED: int := -1
  const CAP_POSITION: int := -2
  const MAXCAPTURES: nat := 32

  datatype Cap = Cap(init: nat, len: int)

  datatype Error = EndsWithEscape | MissingBracket | MissingSet | MissingArguments
    | InvalidIndex | InvalidCapture | TooManyCaptures | TooComplex

  datatype Parsed<T> = Good(value: T) | Malformed(error: Error)

  /** Strings end with a zero that can be read. */
  function At(x: string, i: nat): char { if i < |x| then x[i] else '\0' }

  // ---- single characters ----

  /** `match_class`. */
  predicate InClass(ct: Ctype, c: char, cl: char) {
    var l := (ct.lower)(cl);
    if l in "acdglpsuwxz" then (if l == 'z' then c == '\0' else (ct.test)(l, c)) == (ct.isLower)(cl) else cl == c
  }

  datatype Elem = Class(cl: char) | Range(lo: char, hi: char)

  predicate Covers(ct: Ctype, e: Elem, c: char) { if e.Class? then InClass(ct, c, e.cl) else e.lo <= c <= e.hi }

  /** The element of a set at q, and where the next one starts. */
  function ElemAt(pat: string, q: nat, ec: nat): (r: (Elem, nat))
    ensures q < r.1
  {
    if At(pat, q) == '%' then (Class(At(pat, q + 1)), q + 2)
    else if At(pat, q + 1) == '-' && q + 2 < ec then (Range(At(pat, q), At(pat, q + 2)), q + 3)
    else (Range(At(pat, q), At(pat, q)), q + 1)
  }

  /** What stands between the brackets of a set. */
  function Elems(pat: string, q: nat, ec: nat): seq<Elem>
    decreases ec - q
  {
    if q >= ec then [] else [ElemAt(pat, q, ec).0] + Elems(pat, ElemAt(pat, q, ec).1, ec)
  }

  predicate InElems(ct: Ctype, es: seq<Elem>, c: char) { exists i :: 0 <= i < |es| && Covers(ct, es[i], c) }

  /** The set at p, whose closing bracket is at ec. */
  predicate InSet(env: Env, p: nat, ec: nat, c: char) {
    if At(env.pat, p + 1) == '^' then !InElems(env.ct, Elems(env.pat, p + 2, ec), c)
    else InElems(env.ct, Elems(env.pat, p + 1, ec), c)
  }

  /** The end of a set: the first bracket that is not escaped, and not the first character. */
  function SetEnd(pat: string, q: nat): (r: Option<nat>)
    ensures r.Some? ==> q + 1 < r.value <= |pat| && pat[r.value - 1] == ']'
    decreases |pat| - q
  {
    if q >= |pat| then None
    else
      var q1 := if pat[q] == '%' && q + 1 < |pat| then q + 2 else q + 1;
      if At(pat, q1) == ']' then Some(q1 + 1) else SetEnd(pat, q1)
  }

  /** `classend`: where a single-character class ends. */
  function ClassEnd(pat: string, p: nat): (r: Parsed<nat>)
    requires p < |pat|
    ensures r.Good? ==> p < r.value <= |pat|
  {
    if pat[p] == '%' then if p + 1 == |pat| then Malformed(EndsWithEscape) else Good(p + 2)
    else if pat[p] == '[' then
      var e := SetEnd(pat, if At(pat, p + 1) == '^' then p + 2 else p + 1);
      if e.Some? then Good(e.value) else Malformed(MissingBracket)
    else Good(p + 1)
  }

  /** Whether the class from p to ep matches the character at s. */
  predicate Single(env: Env, s: nat, p: nat, ep: nat) {
    s < |env.src| &&
    var c := env.src[s];
    match At(env.pat, p)
    case '.' => true
    case '%' => InClass(env.ct, c, At(env.pat, p + 1))
    case '[' => ep >= 1 && InSet(env, p, ep - 1, c)
    case x => x == c
  }

  /** How often the class matches in a row. */
  function Longest(env: Env, s: nat, p: nat, ep: nat): (n: nat)
    ensures s <= |env.src| ==> s + n <= |env.src|
    decreases |env.src| - s
  {
    if Single(env, s, p, ep) then 1 + Longest(env, s + 1, p, ep) else 0
  }

  lemma {:induction false} LongestMeaning(env: Env, s: nat, p: nat, ep: nat, n: nat)
    ensures n <= Longest(env, s, p, ep) <==> forall i: nat :: i < n ==> SingleAt(env, s, p, ep, i)
    decreases n
  {
    if n > 0 {
      assert SingleAt(env, s, p, ep, 0) <==> Single(env, s, p, ep);
      if Single(env, s, p, ep) {
        LongestMeaning(env, s + 1, p, ep, n - 1);
        if n <= Longest(env, s, p, ep) {
          forall i: nat | i < n ensures SingleAt(env, s, p, ep, i) {
            if i > 0 { assert SingleAt(env, s + 1, p, ep, i - 1); }
          }
        } else {
          var i: nat :| i < n - 1 && !SingleAt(env, s + 1, p, ep, i);
          assert !SingleAt(env, s, p, ep, i + 1);
        }
      }
    }
  }

  predicate SingleAt(env: Env, s: nat, p: nat, ep: nat, i: nat) { Single(env, s + i, p, ep) }

  // ---- items ----

  /** The parts of a pattern; Rep is a class with its suffix. */
  datatype Item = Open(what: int) | Close | End | Balance(x: char, y: char) | Frontier(p: nat, ep: nat) | Back(d: char)
    | Rep(p: nat, ep: nat, lo: nat, once: bool, greedy: bool)

  /** The item at p, and where the next one starts. */
  function ItemAt(pat: string, p: nat): (r: Parsed<(Item, nat)>)
    requires p < |pat|
    ensures r.Good? ==> p < r.value.1 <= |pat|
  {
    var c, d := pat[p], At(pat, p + 1);
    if c == '(' then if d == ')' then Good((Open(CAP_POSITION), p + 2)) else Good((Open(CAP_UNFINISHED), p + 1))
    else if c == ')' then Good((Close, p + 1))
    else if c == '$' && p + 1 == |pat| then Good((End, p + 1))
    else if c == '%' && d == 'b' then
      if p + 3 >= |pat| then Malformed(MissingArguments) else Good((Balance(pat[p + 2], pat[p + 3]), p + 4))
    else if c == '%' && d == 'f' then
      if At(pat, p + 2) != '[' then Malformed(MissingSet)
      else
        var e := ClassEnd(pat, p + 2);
        if e.Good? then Good((Frontier(p + 2, e.value), e.value)) else Malformed(e.error)
    else if c == '%' && '0' <= d <= '9' then Good((Back(d), p + 2))
    else
      var e := ClassEnd(pat, p);
      if e.Malformed? then Malformed(e.error)
      else
        match At(pat, e.value)
        case '*' => Good((Rep(p, e.value, 0, false, true), e.value + 1))
        case '+' => Good((Rep(p, e.value, 1, false, true), e.value + 1))
        case '-' => Good((Rep(p, e.value, 0, false, false), e.value + 1))
        case '?' => Good((Rep(p, e.value, 0, true, true), e.value + 1))
        case _ => Good((Rep(p, e.value, 1, true, true), e.value))
  }

  /** What comes out of a part of a match. */
  datatype Out = No | Fails(error: Error) | To(s: nat, caps: seq<Cap>)

  /** `capture_to_close`: the last open capture. */
  function LastOpen(caps: seq<Cap>): (r: Option<nat>)
    ensures r.Some? ==> r.value < |caps| && caps[r.value].len == CAP_UNFINISHED
    ensures forall i :: (if r.Some? then r.value + 1 else 0) <= i < |caps| ==> caps[i].len != CAP_UNFINISHED
  {
    if caps == [] then None
    else if caps[|caps| - 1].len == CAP_UNFINISHED then Some(|caps| - 1)
    else LastOpen(caps[..|caps| - 1])
  }

  /** Opening delimiters that are not closed, after src[s..i], if src[s] opens and closing goes first. */
  function Depth(src: string, x: char, y: char, s: nat, i: nat): int
    requires s < i <= |src|
  {
    if i == s + 1 then 1
    else Depth(src, x, y, s, i - 1) + if src[i - 1] == y then -1 else if src[i - 1] == x then 1 else 0
  }

  /** `%b`: e is the first position at which what opens at s is closed again. */
  ghost predicate Balanced(src: string, x: char, y: char, s: nat, e: nat) {
    s < |src| && src[s] == x && s + 1 < e <= |src| && Depth(src, x, y, s, e) == 0 &&
    forall i :: s < i < e ==> Depth(src, x, y, s, i) > 0
  }

  function BalanceEnd(src: string, x: char, y: char, i: nat, open: nat): (r: Option<nat>)
    ensures r.Some? ==> i < r.value <= |src|
    decreases |src| - i
  {
    if i >= |src| then None
    else if src[i] == y then if open <= 1 then Some(i + 1) else BalanceEnd(src, x, y, i + 1, open - 1)
    else BalanceEnd(src, x, y, i + 1, if src[i] == x then open + 1 else open)
  }

  lemma {:induction false} BalanceMeaning(src: string, x: char, y: char, s: nat, i: nat)
    requires s < i <= |src| && src[s] == x && forall k :: s < k <= i ==> Depth(src, x, y, s, k) > 0
    ensures var r := BalanceEnd(src, x, y, i, Depth(src, x, y, s, i));
            if r.Some? then Balanced(src, x, y, s, r.value) else forall e: nat :: !Balanced(src, x, y, s, e)
    decreases |src| - i
  {
    if i < |src| {
      if Depth(src, x, y, s, i + 1) > 0 {
        BalanceMeaning(src, x, y, s, i + 1);
      }
    } else {
      forall e: nat ensures !Balanced(src, x, y, s, e) {
        if s < e <= |src| { assert Depth(src, x, y, s, e) > 0; }
      }
    }
  }

  function Digit(d: char): int { d as int - '1' as int }

  /** One item, n times. Only repetitions leave a choice. */
  function Take(env: Env, it: Item, n: nat, s: nat, caps: seq<Cap>): Out {
    match it
    case Rep(p, ep, lo, once, _) => if lo <= n <= Longest(env, s, p, ep) && (once ==> n <= 1) then To(s + n, caps)
      else No
    case Open(what) => if n != 1 then No else if |caps| >= MAXCAPTURES then Fails(TooManyCaptures)
      else To(s, caps + [Cap(s, what)])
    case Close =>
      var l := LastOpen(caps);
      if n != 1 then No else if l.None? then Fails(InvalidCapture)
        else To(s, caps[l.value := Cap(caps[l.value].init, s - caps[l.value].init)])
    case End => if n == 1 && s == |env.src| then To(s, caps) else No
    case Balance(x, y) =>
      if n != 1 || At(env.src, s) != x then No
      else
        var e := BalanceEnd(env.src, x, y, s + 1, 1);
        if e.Some? then To(e.value, caps) else No
    case Frontier(p, ep) =>
      if n == 1 && ep >= 1 && !InSet(env, p, ep - 1, if s == 0 then '\0' else At(env.src, s - 1)) &&
        InSet(env, p, ep - 1, At(env.src, s)) then To(s, caps) else No
    case Back(d) =>
      if n != 1 then No
      else if Digit(d) < 0 || Digit(d) >= |caps| || caps[Digit(d)].len == CAP_UNFINISHED then Fails(InvalidIndex)
      else
        var c := caps[Digit(d)];
        if 0 <= c.len && s + c.len <= |env.src| && c.init + c.len <= |env.src| &&
          env.src[c.init..c.init + c.len] == env.src[s..s + c.len]
        then To(s + c.len, caps) else No
  }

  // ---- the meaning of a pattern ----

  /** The rest of the pattern, where every item is taken as often as the choices say. An error ends the choices. */
  function Follow(env: Env, p: nat, s: nat, caps: seq<Cap>, ch: seq<nat>): Out
    decreases |ch|
  {
    if p >= |env.pat| then if ch == [] then To(s, caps) else No
    else
      var i := ItemAt(env.pat, p);
      if i.Malformed? then if ch == [] then Fails(i.error) else No
      else if ch == [] then
        var o := Take(env, i.value.0, 1, s, caps);
        if o.Fails? then o else No
      else
        var o := Take(env, i.value.0, ch[0], s, caps);
        if o.To? then Follow(env, i.value.1, o.s, o.caps, ch[1..]) else No
  }

  /** Choices a are tried before choices b: where they part, greedy items want more and the others less. */
  predicate Before(pat: string, p: nat, a: seq<nat>, b: seq<nat>)
    decreases |a|
  {
    p < |pat| && a != [] && b != [] &&
    var i := ItemAt(pat, p);
    i.Good? &&
    if a[0] == b[0] then Before(pat, i.value.1, a[1..], b[1..])
    else if i.value.0.Rep? && !i.value.0.greedy then a[0] < b[0]
    else a[0] > b[0]
  }

  /** ch leads to r, and all other choices that lead anywhere come after it. */
  ghost predicate Best(env: Env, p: nat, s: nat, caps: seq<Cap>, ch: seq<nat>, r: Out) {
    Follow(env, p, s, caps, ch) == r &&
    forall c :: Follow(env, p, s, caps, c) != No && c != ch ==> Before(env.pat, p, ch, c)
  }

  /** What a match must yield: the outcome of the best choices, and nothing only if no choices lead anywhere. */
  ghost predicate IsFirst(env: Env, p: nat, s: nat, caps: seq<Cap>, r: Out) {
    if r == No then forall c :: Follow(env, p, s, caps, c) == No else exists ch :: Best(env, p, s, caps, ch, r)
  }

  // ---- the search ----

  /** The outcome of the first choices, found by backtracking. */
  function First(env: Env, p: nat, s: nat, caps: seq<Cap>): Out
    decreases |env.pat| - p, 1, 0
  {
    if p >= |env.pat| then To(s, caps)
    else
      var i := ItemAt(env.pat, p);
      if i.Malformed? then Fails(i.error)
      else
        match i.value.0
        case Rep(q, ep, lo, once, greedy) =>
          var m := Most(env, i.value.0, s);
          if greedy then Down(env, p, s, caps, m) else Up(env, p, s, caps, 0)
        case _ =>
          var o := Take(env, i.value.0, 1, s, caps);
          if o.To? then First(env, i.value.1, o.s, o.caps) else o
  }

  /** The most repetitions there can be. */
  function Most(env: Env, it: Item, s: nat): (m: nat)
    requires it.Rep?
    ensures s <= |env.src| ==> s + m <= |env.src|
  {
    var l := Longest(env, s, it.p, it.ep);
    if it.once && l > 1 then 1 else l
  }

  predicate RepAt(pat: string, p: nat) { p < |pat| && ItemAt(pat, p).Good? && ItemAt(pat, p).value.0.Rep? }

  /** From n repetitions down. */
  function Down(env: Env, p: nat, s: nat, caps: seq<Cap>, n: nat): Out
    requires RepAt(env.pat, p)
    decreases |env.pat| - p, 0, n
  {
    var i := ItemAt(env.pat, p).value;
    if n < i.0.lo then No
    else
      var r := First(env, i.1, s + n, caps);
      if r != No then r else if n == 0 then No else Down(env, p, s, caps, n - 1)
  }

  /** From n repetitions up. */
  function Up(env: Env, p: nat, s: nat, caps: seq<Cap>, n: nat): Out
    requires RepAt(env.pat, p)
    decreases |env.pat| - p, 0, Most(env, ItemAt(env.pat, p).value.0, s) - n
  {
    var i := ItemAt(env.pat, p).value;
    if n > Most(env, i.0, s) then No
    else
      var r := First(env, i.1, s + n, caps);
      if r != No then r else Up(env, p, s, caps, n + 1)
  }

  /** One more choice in front. */
  lemma BestCons(env: Env, p: nat, s: nat, caps: seq<Cap>, n: nat, ch: seq<nat>, r: Out)
    requires p < |env.pat| && ItemAt(env.pat, p).Good? && r != No
    requires var i := ItemAt(env.pat, p).value;
      var o := Take(env, i.0, n, s, caps);
      o.To? && Best(env, i.1, o.s, o.caps, ch, r)
    requires forall m: nat :: BetterThan(env.pat, p, m, n) ==> Fruitless(env, p, s, caps, m)
    requires !Take(env, ItemAt(env.pat, p).value.0, 1, s, caps).Fails?
    ensures Best(env, p, s, caps, [n] + ch, r)
  {
    var i := ItemAt(env.pat, p).value;
    assert ([n] + ch)[1..] == ch;
    forall c | Follow(env, p, s, caps, c) != No && c != [n] + ch ensures Before(env.pat, p, [n] + ch, c) {
      assert c != [];
      assert c == [c[0]] + c[1..];
      if c[0] == n {
        assert c[1..] != ch;
      } else {
        assert BetterThan(env.pat, p, c[0], n) ==> Fruitless(env, p, s, caps, c[0]);
        FruitlessNo(env, p, s, caps, c);
      }
    }
  }

  lemma FruitlessNo(env: Env, p: nat, s: nat, caps: seq<Cap>, c: seq<nat>)
    requires p < |env.pat| && ItemAt(env.pat, p).Good? && c != []
    ensures Fruitless(env, p, s, caps, c[0]) ==> Follow(env, p, s, caps, c) == No
  {
  }

  /** m repetitions are tried before n. */
  predicate BetterThan(pat: string, p: nat, m: nat, n: nat)
    requires p < |pat| && ItemAt(pat, p).Good?
  {
    var it := ItemAt(pat, p).value.0;
    if it.Rep? && !it.greedy then m < n else m > n
  }

  /** With m repetitions, no further choices lead anywhere. */
  ghost predicate Fruitless(env: Env, p: nat, s: nat, caps: seq<Cap>, m: nat)
    requires p < |env.pat| && ItemAt(env.pat, p).Good?
  {
    var i := ItemAt(env.pat, p).value;
    var o := Take(env, i.0, m, s, caps);
    o.To? ==> forall c :: Follow(env, i.1, o.s, o.caps, c) == No
  }

  lemma AllFruitless(env: Env, p: nat, s: nat, caps: seq<Cap>)
    requires p < |env.pat| && ItemAt(env.pat, p).Good? && !Take(env, ItemAt(env.pat, p).value.0, 1, s, caps).Fails?
    requires forall m: nat :: Fruitless(env, p, s, caps, m)
    ensures IsFirst(env, p, s, caps, No)
  {
    forall c ensures Follow(env, p, s, caps, c) == No {
      if c != [] {
        var i := ItemAt(env.pat, p).value;
        assert Fruitless(env, p, s, caps, c[0]);
        var o := Take(env, i.0, c[0], s, caps);
        if o.To? { assert Follow(env, i.1, o.s, o.caps, c[1..]) == No; }
      }
    }
  }

  /** Backtracking finds what the meaning asks for. */
  lemma {:induction false} FirstIsBest(env: Env, p: nat, s: nat, caps: seq<Cap>)
    ensures IsFirst(env, p, s, caps, First(env, p, s, caps))
    decreases |env.pat| - p, 1, 0
  {
    if p >= |env.pat| || ItemAt(env.pat, p).Malformed? {
      assert Best(env, p, s, caps, [], First(env, p, s, caps));
    } else {
      var i := ItemAt(env.pat, p).value;
      if i.0.Rep? {
        if i.0.greedy {
          forall m: nat | m > Most(env, i.0, s) ensures Fruitless(env, p, s, caps, m) {}
          DownIsBest(env, p, s, caps, Most(env, i.0, s));
        } else {
          UpIsBest(env, p, s, caps, 0);
        }
      } else {
        OneIsBest(env, p, s, caps);
      }
    }
  }

  lemma {:induction false} OneIsBest(env: Env, p: nat, s: nat, caps: seq<Cap>)
    requires p < |env.pat| && ItemAt(env.pat, p).Good? && !RepAt(env.pat, p)
    ensures IsFirst(env, p, s, caps, First(env, p, s, caps))
    decreases |env.pat| - p, 0, 0
  {
    var i := ItemAt(env.pat, p).value;
    var o := Take(env, i.0, 1, s, caps);
    forall m: nat | m != 1 ensures Fruitless(env, p, s, caps, m) {}
    if o.To? {
      FirstIsBest(env, i.1, o.s, o.caps);
      var r := First(env, i.1, o.s, o.caps);
      if r == No {
        AllFruitless(env, p, s, caps);
      } else {
        var ch :| Best(env, i.1, o.s, o.caps, ch, r);
        BestCons(env, p, s, caps, 1, ch, r);
      }
    } else if o.No? {
      AllFruitless(env, p, s, caps);
    } else {
      forall c | c != [] ensures Follow(env, p, s, caps, c) == No {}
      assert Best(env, p, s, caps, [], o);
    }
  }

  lemma RepFruitless(env: Env, p: nat, s: nat, caps: seq<Cap>, n: nat)
    requires RepAt(env.pat, p) && IsFirst(env, ItemAt(env.pat, p).value.1, s + n, caps, No)
    ensures Fruitless(env, p, s, caps, n)
  {
    hide Follow, Longest, ItemAt;
  }

  lemma RepTooFew(env: Env, p: nat, s: nat, caps: seq<Cap>, n: nat)
    requires RepAt(env.pat, p) && (n < ItemAt(env.pat, p).value.0.lo || n > Most(env, ItemAt(env.pat, p).value.0, s))
    ensures Fruitless(env, p, s, caps, n)
  {
    hide Follow, ItemAt;
  }

  lemma RepBest(env: Env, p: nat, s: nat, caps: seq<Cap>, n: nat, r: Out)
    requires RepAt(env.pat, p)
    requires var i := ItemAt(env.pat, p).value;
             r != No && i.0.lo <= n <= Most(env, i.0, s) && IsFirst(env, i.1, s + n, caps, r)
    requires forall m: nat :: BetterThan(env.pat, p, m, n) ==> Fruitless(env, p, s, caps, m)
    ensures IsFirst(env, p, s, caps, r)
  {
    hide Follow, Before, ItemAt, Longest, Fruitless;
    var i := ItemAt(env.pat, p).value;
    var ch :| Best(env, i.1, s + n, caps, ch, r);
    assert Take(env, i.0, n, s, caps) == To(s + n, caps);
    BestCons(env, p, s, caps, n, ch, r);
  }

  lemma RepAllFruitless(env: Env, p: nat, s: nat, caps: seq<Cap>)
    requires RepAt(env.pat, p) && forall m: nat :: Fruitless(env, p, s, caps, m)
    ensures IsFirst(env, p, s, caps, No)
  {
    hide Follow, ItemAt, Fruitless, IsFirst;
    AllFruitless(env, p, s, caps);
  }

  lemma {:induction false} DownIsBest(env: Env, p: nat, s: nat, caps: seq<Cap>, n: nat)
    requires RepAt(env.pat, p) && ItemAt(env.pat, p).value.0.greedy && n <= Most(env, ItemAt(env.pat, p).value.0, s)
    requires forall m: nat :: m > n ==> Fruitless(env, p, s, caps, m)
    ensures IsFirst(env, p, s, caps, Down(env, p, s, caps, n))
    decreases |env.pat| - p, 0, n
  {
    hide Follow, Take, ItemAt, First, IsFirst, Most, Fruitless;
    var i := ItemAt(env.pat, p).value;
    if n < i.0.lo {
      forall m: nat ensures Fruitless(env, p, s, caps, m) { if m <= n { RepTooFew(env, p, s, caps, m); } }
      RepAllFruitless(env, p, s, caps);
    } else {
      FirstIsBest(env, i.1, s + n, caps);
      var r := First(env, i.1, s + n, caps);
      if r != No {
        RepBest(env, p, s, caps, n, r);
      } else {
        RepFruitless(env, p, s, caps, n);
        if n > 0 { DownIsBest(env, p, s, caps, n - 1); } else { RepAllFruitless(env, p, s, caps); }
      }
    }
  }

  lemma {:induction false} UpIsBest(env: Env, p: nat, s: nat, caps: seq<Cap>, n: nat)
    requires RepAt(env.pat, p) && !ItemAt(env.pat, p).value.0.greedy
    requires forall m: nat :: m < n ==> Fruitless(env, p, s, caps, m)
    ensures IsFirst(env, p, s, caps, Up(env, p, s, caps, n))
    decreases |env.pat| - p, 0, Most(env, ItemAt(env.pat, p).value.0, s) - n
  {
    hide Follow, Take, ItemAt, First, IsFirst, Most, Fruitless;
    var i := ItemAt(env.pat, p).value;
    LazyLow(env.pat, p);
    if n > Most(env, i.0, s) {
      forall m: nat ensures Fruitless(env, p, s, caps, m) { if m >= n { RepTooFew(env, p, s, caps, m); } }
      RepAllFruitless(env, p, s, caps);
    } else {
      FirstIsBest(env, i.1, s + n, caps);
      var r := First(env, i.1, s + n, caps);
      if r != No {
        RepBest(env, p, s, caps, n, r);
      } else {
        RepFruitless(env, p, s, caps, n);
        UpIsBest(env, p, s, caps, n + 1);
      }
    }
  }

  lemma LazyLow(pat: string, p: nat)
    requires RepAt(pat, p) && !ItemAt(pat, p).value.0.greedy
    ensures ItemAt(pat, p).value.0.lo == 0
  {
  }

  /** The best choices are unique, so the meaning determines the outcome. */
  lemma IsFirstUnique(env: Env, p: nat, s: nat, caps: seq<Cap>, r: Out)
    requires IsFirst(env, p, s, caps, r)
    ensures r == First(env, p, s, caps)
  {
    FirstIsBest(env, p, s, caps);
    var q := First(env, p, s, caps);
    if r != No && q != No {
      var a :| Best(env, p, s, caps, a, r);
      var b :| Best(env, p, s, caps, b, q);
      if a != b { NotBoth(env.pat, p, a, b); }
    }
  }

  lemma {:induction false} NotBoth(pat: string, p: nat, a: seq<nat>, b: seq<nat>)
    ensures !(Before(pat, p, a, b) && Before(pat, p, b, a))
    decreases |a|
  {
    if p < |pat| && a != [] && b != [] && ItemAt(pat, p).Good? && a[0] == b[0] {
      NotBoth(pat, ItemAt(pat, p).value.1, a[1..], b[1..]);
    }
  }
}
