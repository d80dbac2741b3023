/** Xiangqi in terms of rows and columns, of the material on the board, and of a player who wants the most and one who
    wants the least. */
module XqMeaning {
  import opened XqBoard
  import opened XqMoves
  import opened XqBounds
  import opened XqSearch
  import opened XqEngine

  // ---- how pieces move ----

  function Row(p: int): int { p / 16 }

  function Column(p: int): int { p % 16 }

  /** The square lies strictly between two others on a row or a column. */
  predicate Between(p: Square, q: Square, x: Square) {
    (Row(p) == Row(q) == Row(x) && (Column(p) < Column(x) < Column(q) || Column(q) < Column(x) < Column(p))) ||
    (Column(p) == Column(q) == Column(x) && (Row(p) < Row(x) < Row(q) || Row(q) < Row(x) < Row(p)))
  }

  predicate Aligned(p: Square, q: Square) { p != q && (Row(p) == Row(q) || Column(p) == Column(q)) }

  /** Nothing stands between two squares. */
  predicate Free(b: Board, p: Square, q: Square) { forall x: Square :: Between(p, q, x) ==> b[x] == 0 }

  /** Exactly one piece stands between two squares. */
  ghost predicate OneScreen(b: Board, p: Square, q: Square) {
    exists s: Square :: Between(p, q, s) && b[s] != 0 && forall x: Square :: Between(p, q, x) && x != s ==> b[x] == 0
  }

  function Abs(x: int): nat { if x < 0 then -x else x }

  function Sign(x: int): int { if x < 0 then -1 else if x > 0 then 1 else 0 }

  /** Red has the five rows at the bottom, which have the higher numbers. */
  predicate OwnRow(t: Side, r: int) { if t == RED then 8 <= r <= 12 else 3 <= r <= 7 }

  /** How a piece of side t moves, on the board of ten rows and nine columns. */
  ghost predicate Moves(b: Board, t: Side, kind: int, p: Square, q: Square) {
    var dr, dc := Row(q) - Row(p), Column(q) - Column(p);
    InBoard(q) &&
    match kind
    case 0 => InPalace(q) && Abs(dr) + Abs(dc) == 1
    case 1 => InPalace(q) && Abs(dr) == 1 && Abs(dc) == 1
    case 2 => OwnRow(t, Row(q)) && Abs(dr) == 2 && Abs(dc) == 2 && b[(p + q) / 2] == 0
    case 3 => (Abs(dr) == 2 && Abs(dc) == 1 && b[p + 16 * Sign(dr)] == 0) ||
              (Abs(dr) == 1 && Abs(dc) == 2 && b[p + Sign(dc)] == 0)
    case 4 => Aligned(p, q) && Free(b, p, q)
    case 5 => Aligned(p, q) && if b[q] == 0 then Free(b, p, q) else OneScreen(b, p, q)
    case 6 => (dc == 0 && dr == (if t == RED then -1 else 1)) || (dr == 0 && Abs(dc) == 1 && OwnRow(Other(t), Row(q)))
    case _ => false
  }

  lemma {:induction false} AlongLine(p: Square, i: nat, n: nat)
    requires i < 4 && Line(p, i, n)
    ensures (i < 2 ==> Row(At(p, i, n)) == Row(p)) && (i >= 2 ==> Column(At(p, i, n)) == Column(p))
    ensures i == 0 ==> Column(At(p, i, n)) == Column(p) - n
    ensures i == 1 ==> Column(At(p, i, n)) == Column(p) + n
    ensures i == 2 ==> Row(At(p, i, n)) == Row(p) - n
    ensures i == 3 ==> Row(At(p, i, n)) == Row(p) + n
  {
    assert InBoard(At(p, i, n)) && InBoard(At(p, i, 0));
    if n > 0 { AlongLine(p, i, n - 1); }
  }

  /** How far a square on a ray is from its start. */
  function Steps(p: Square, q: Square): nat {
    if Row(p) == Row(q) then Abs(Column(q) - Column(p)) else Abs(Row(q) - Row(p))
  }

  function Heading(p: Square, q: Square): (i: nat)
    ensures i < 4
  {
    if Row(p) == Row(q) then (if Column(q) < Column(p) then 0 else 1) else if Row(q) < Row(p) then 2 else 3
  }

  /** Two squares of the board on one line are the ends of a ray. */
  lemma RayOf(p: Square, q: Square)
    requires InBoard(p) && InBoard(q) && Aligned(p, q)
    ensures Steps(p, q) > 0 && At(p, Heading(p, q), Steps(p, q)) == q && Line(p, Heading(p, q), Steps(p, q))
  {
    var i, n := Heading(p, q), Steps(p, q);
    assert p == 16 * Row(p) + Column(p) && q == 16 * Row(q) + Column(q);
    forall k | 0 <= k <= n ensures InBoard(At(p, i, k)) {
      OnBoard(if i == 2 then Row(p) - k else if i == 3 then Row(p) + k else Row(p),
              if i == 0 then Column(p) - k else if i == 1 then Column(p) + k else Column(p));
    }
  }

  lemma OnBoard(r: int, c: int)
    requires 3 <= r <= 12 && 3 <= c <= 11
    ensures InBoard(16 * r + c) && Row(16 * r + c) == r && Column(16 * r + c) == c
  {
  }

  /** The squares between are those on the ray. */
  lemma BetweenRay(p: Square, i: nat, n: nat, x: Square)
    requires i < 4 && 0 < n && Line(p, i, n)
    ensures InBoard(p) && InBoard(At(p, i, n)) && Aligned(p, At(p, i, n))
    ensures Between(p, At(p, i, n), x) <==> exists k :: 0 < k < n && At(p, i, k) == x
  {
    hide InBoard, Row, Column;
    assert InBoard(At(p, i, 0)) && InBoard(At(p, i, n));
    AlongLine(p, i, n);
    forall k | 0 < k < n && At(p, i, k) == x ensures Between(p, At(p, i, n), x) { AlongLine(p, i, k); }
    if Between(p, At(p, i, n), x) { BetweenStep(p, i, n, x); }
  }

  lemma BetweenStep(p: Square, i: nat, n: nat, x: Square)
    requires i < 4 && 0 < n && Line(p, i, n) && InBoard(At(p, i, n)) && Between(p, At(p, i, n), x)
    ensures exists k :: 0 < k < n && At(p, i, k) == x
  {
    AlongLine(p, i, n);
    var k := Steps(p, x);
    assert p == 16 * Row(p) + Column(p) && x == 16 * Row(x) + Column(x);
    assert At(p, i, k) == x;
  }

  lemma ClearMeans(b: Board, p: Square, i: nat, n: nat)
    requires i < 4 && 0 < n && Line(p, i, n)
    ensures InBoard(At(p, i, n)) && (Clear(b, p, i, n) <==> Free(b, p, At(p, i, n)))
  {
    hide InBoard, Between;
    forall x: Square ensures Between(p, At(p, i, n), x) <==> exists k :: 0 < k < n && At(p, i, k) == x {
      BetweenRay(p, i, n, x);
    }
    assert InBoard(At(p, i, n));
    forall k | 0 < k < n ensures Between(p, At(p, i, n), At(p, i, k)) {}
  }

  lemma ScreenMeans(b: Board, p: Square, i: nat, n: nat)
    requires i < 4 && 0 < n && Line(p, i, n)
    ensures InBoard(At(p, i, n)) && ((exists s :: ScreenAt(b, p, i, n, s)) <==> OneScreen(b, p, At(p, i, n)))
  {
    hide InBoard, Between;
    assert InBoard(At(p, i, n));
    forall x: Square ensures Between(p, At(p, i, n), x) <==> exists k :: 0 < k < n && At(p, i, k) == x {
      BetweenRay(p, i, n, x);
    }
    var q: Square := At(p, i, n);
    if s :| ScreenAt(b, p, i, n, s) {
      OnRay(p, i, n);
      var x: Square := At(p, i, s);
      forall y: Square | Between(p, q, y) && y != x ensures b[y] == 0 {
        var k :| 0 < k < n && At(p, i, k) == y;
      }
      assert Between(p, q, x);
    }
    if OneScreen(b, p, q) {
      OnRay(p, i, n);
      var x: Square :| Between(p, q, x) && b[x] != 0 && forall y: Square :: Between(p, q, y) && y != x ==> b[y] == 0;
      var s :| 0 < s < n && At(p, i, s) == x;
      forall k | 0 < k < n && k != s ensures b[At(p, i, k)] == 0 {
        assert Between(p, q, At(p, i, k));
      }
      assert ScreenAt(b, p, i, n, s);
    }
  }

  lemma OnRay(p: Square, i: nat, n: nat)
    requires i < 4 && Line(p, i, n)
    ensures forall k :: 0 <= k <= n ==> 0 <= At(p, i, k) < 256
  {
  }

  /** A ray that ends at a square is the one that heads there. */
  lemma RayIs(p: Square, i: nat, n: nat, q: Square)
    requires i < 4 && 0 < n && Line(p, i, n) && At(p, i, n) == q
    ensures InBoard(q) && InBoard(p) && Aligned(p, q) && i == Heading(p, q) && n == Steps(p, q)
  {
    assert InBoard(At(p, i, 0)) && InBoard(At(p, i, n));
    AlongLine(p, i, n);
  }

  lemma ChariotMeans(b: Board, p: Square, q: Square)
    requires InBoard(p)
    ensures JuReach(b, p, q) <==> InBoard(q) && Aligned(p, q) && Free(b, p, q)
    ensures PaoReach(b, p, q) <==>
            InBoard(q) && Aligned(p, q) && if b[q] == 0 then Free(b, p, q) else OneScreen(b, p, q)
  {
    hide InBoard, Free, OneScreen, Aligned, Clear, ScreenAt, Steps, Heading;
    forall i: nat, n: int | i < 4 && 0 < n && Line(p, i, n) && At(p, i, n) == q
      ensures InBoard(q) && Aligned(p, q) && (Clear(b, p, i, n) <==> Free(b, p, q))
      ensures (exists s :: ScreenAt(b, p, i, n, s)) <==> OneScreen(b, p, q)
    {
      RayIs(p, i, n, q);
      ClearMeans(b, p, i, n);
      ScreenMeans(b, p, i, n);
    }
    if InBoard(q) && Aligned(p, q) { RayOf(p, q); }
  }

  /** Every step of a table is one of the moves, and every move is one of the steps. */
  lemma StepsMean(b: Board, t: Side, p: Square, q: Square)
    requires InBoard(p)
    ensures InPalace(q) && StepReach(JS_MOVE, p, q) <==> Moves(b, t, 0, p, q)
    ensures InPalace(q) && StepReach(SHI_MOVE, p, q) <==> Moves(b, t, 1, p, q)
    ensures BzReach(t, p, q) <==> Moves(b, t, 6, p, q)
  {
    var dr, dc := Row(q) - Row(p), Column(q) - Column(p);
    assert q == p + 16 * dr + dc;
    if Moves(b, t, 0, p, q) {
      assert JS_MOVE[0] == -1 && JS_MOVE[1] == 1 && JS_MOVE[2] == -16 && JS_MOVE[3] == 16;
    }
    if Moves(b, t, 1, p, q) {
      assert SHI_MOVE[0] == -15 && SHI_MOVE[1] == -17 && SHI_MOVE[2] == 15 && SHI_MOVE[3] == 17;
    }
  }

  lemma ElephantMeans(b: Board, t: Side, p: Square, q: Square)
    requires InBoard(p)
    ensures XiangReach(b, t, p, q) <==> Moves(b, t, 2, p, q)
  {
    var dr, dc := Row(q) - Row(p), Column(q) - Column(p);
    assert q == p + 16 * dr + dc;
    if Moves(b, t, 2, p, q) {
      var i := if dr < 0 then (if dc > 0 then 0 else 1) else if dc < 0 then 2 else 3;
      assert p + XIANG_MOVE[i] == q && p + XIANG_EYE[i] == (p + q) / 2;
    }
  }

  lemma HorseMeans(b: Board, t: Side, p: Square, q: Square)
    requires InBoard(p)
    ensures MaReach(b, p, q) <==> Moves(b, t, 3, p, q)
  {
    var dr, dc := Row(q) - Row(p), Column(q) - Column(p);
    assert q == p + 16 * dr + dc;
    if Moves(b, t, 3, p, q) {
      var i := if dr == -2 then (if dc == 1 then 0 else 1) else if dr == 2 then (if dc == -1 then 4 else 5)
               else if dr == -1 then (if dc == 2 then 2 else 3) else if dc == -2 then 6 else 7;
      assert p + MA_MOVE[i] == q;
    }
  }

  /** The moves of the program are those of the game. */
  lemma PieceMoveMeans(b: Board, t: Side, p: Square, q: Square)
    requires InBoard(p)
    ensures PieceMove(b, t, p, q) <==> Moves(b, t, KindOf(b[p]), p, q)
  {
    hide InBoard, InPalace, Free, OneScreen, Aligned, Row, Column, XiangReach, MaReach, JuReach, PaoReach, BzReach,
      StepReach;
    ChariotMeans(b, p, q);
    StepsMean(b, t, p, q);
    ElephantMeans(b, t, p, q);
    HorseMeans(b, t, p, q);
  }

  // ---- legal moves ----

  /** Red pieces have the codes from 8, black ones those from 16, in the order of the kinds. */
  predicate Owns(t: Side, code: int) { if t == RED then 8 <= code <= 14 else 16 <= code <= 22 }

  lemma FreeBack(b: Board, p: Square, q: Square)
    ensures Free(b, p, q) == Free(b, q, p) && Aligned(p, q) == Aligned(q, p)
  {
    assert forall x: Square :: Between(p, q, x) <==> Between(q, p, x);
  }

  lemma OwnsIs(b: Board, t: Side, p: Square)
    requires PlacedAt(b[p], p)
    ensures IsOf(t, b[p]) <==> Owns(t, b[p])
  {
  }

  lemma OnlyGeneral(b: Board, t: Side, q: Square)
    requires Placed(b) && General(b, t) < 256 && b[q] == (if t == RED then 8 else 16)
    ensures q == General(b, t)
  {
    hide PlacedAt;
    assert b[General(b, t)] == SideBase(t) + PIECE_JS;
  }

  lemma AttackMeans(b: Board, t: Side, p: Square, q: Square)
    requires PlacedAt(b[p], p)
    ensures Attacks(b, t, p, q) <==> InBoard(p) && Owns(t, b[p]) && Moves(b, t, KindOf(b[p]), p, q)
  {
    hide Moves, PieceMove, InBoard, IsOf, Owns, PlacedAt;
    OwnsIs(b, t, p);
    if InBoard(p) { PieceMoveMeans(b, t, p, q); }
  }

  lemma FacingMeans(b: Board, t: Side, g: Square, h: Square)
    requires Placed(b) && Generals(b) && g == General(b, t) && h == General(b, Other(t))
    ensures Facing(b) <==> Aligned(h, g) && Free(b, h, g)
  {
    hide General, Placed, Aligned, Free, JuReach, InPalace;
    GeneralPlace(b, RED);
    GeneralPlace(b, BLACK);
    ChariotMeans(b, General(b, RED), General(b, BLACK));
    FreeBack(b, g, h);
  }

  /** What threatens the general of side t from p. */
  ghost predicate ThreatFrom(b: Board, t: Side, g: Square, p: Square) {
    InBoard(p) && Owns(Other(t), b[p]) &&
    (Moves(b, Other(t), KindOf(b[p]), p, g) ||
     (b[p] == (if t == RED then 16 else 8) && Aligned(p, g) && Free(b, p, g)))
  }

  /** The general of side t could be taken: an enemy piece can move to it, or the enemy general faces it. */
  ghost predicate Threatened(b: Board, t: Side) {
    exists g: Square, p: Square :: b[g] == (if t == RED then 8 else 16) && ThreatFrom(b, t, g, p)
  }

  /** Check, in the words of the game. */
  lemma CheckMeans(b: Board, t: Side)
    requires Placed(b) && Generals(b)
    ensures InCheck(b, t) <==> Threatened(b, t)
  {
    hide InCheck, Moves, PieceMove, InBoard, General, Aligned, Free, IsOf, Owns, Facing, PlacedAt, Attacks;
    CheckIsExact(b, t);
    GeneralPlace(b, t);
    GeneralPlace(b, Other(t));
    var g, h: Square := General(b, t), General(b, Other(t));
    FacingMeans(b, t, g, h);
    forall p: Square ensures Attacks(b, Other(t), p, g) || (p == h && Facing(b)) <==> ThreatFrom(b, t, g, p) {
      FromMeans(b, t, g, h, p);
    }
    forall q: Square | b[q] == (if t == RED then 8 else 16) ensures q == g { OnlyGeneral(b, t, q); }
    if Facing(b) { assert ThreatFrom(b, t, g, h); }
  }

  lemma FromMeans(b: Board, t: Side, g: Square, h: Square, p: Square)
    requires Placed(b) && Generals(b) && g == General(b, t) && h == General(b, Other(t))
    ensures Attacks(b, Other(t), p, g) || (p == h && Facing(b)) <==> ThreatFrom(b, t, g, p)
  {
    hide Moves, General, Aligned, Free, Facing, Attacks, PlacedAt, InPalace;
    AttackMeans(b, Other(t), p, g);
    FacingMeans(b, t, g, h);
    GeneralPlace(b, Other(t));
    if b[p] == (if t == RED then 16 else 8) { OnlyGeneral(b, Other(t), p); }
  }

  /** A legal move: one's own piece moves as pieces of its kind do, not onto another one of one's own, and afterwards
      nothing threatens one's general. */
  ghost predicate Allowed(b: Board, t: Side, m: Move) {
    InBoard(m.from) && Owns(t, b[m.from]) && !Owns(t, b[m.to]) && Moves(b, t, KindOf(b[m.from]), m.from, m.to) &&
    !Threatened(b[m.to := b[m.from]][m.from := 0], t)
  }

  lemma LegalMeans(b: Board, t: Side, m: Move)
    requires Sane(b, t)
    ensures Legal(b, t, m) <==> Allowed(b, t, m)
  {
    hide InCheck, Moves, PieceMove, InBoard, IsOf, Owns, PlacedAt, Generals, Threatened;
    OwnsIs(b, t, m.from);
    OwnsIs(b, t, m.to);
    if InBoard(m.from) { PieceMoveMeans(b, t, m.from, m.to); }
    if MayMove(b, t, m) {
      GeneralsStay(b, t, m);
      CheckMeans(Apply(b, m), t);
    }
  }

  // ---- material ----

  /** What side t has on the first n squares, where each side looks at the board from its own end. */
  function MaterialUpTo(pv: ScoreTable, b: Board, t: Side, n: nat): int
    requires n <= 256
  {
    if n == 0 then 0
    else
      MaterialUpTo(pv, b, t, n - 1) +
      if Owns(t, b[n - 1]) then pv(b[n - 1] % 8, if t == RED then n - 1 else 255 - n) else 0
  }

  function Material(pv: ScoreTable, b: Board, t: Side): int { MaterialUpTo(pv, b, t, 256) }

  /** The score is what red has more than black. */
  lemma ScoreIsMaterial(pv: ScoreTable, b: Board)
    requires forall p: Square :: ValidCode(b[p])
    ensures Score(pv, b) == Material(pv, b, RED) - Material(pv, b, BLACK)
  {
    ScoreUpToIsMaterial(pv, b, 256);
  }

  lemma {:induction false} ScoreUpToIsMaterial(pv: ScoreTable, b: Board, n: nat)
    requires n <= 256 && forall p: Square :: ValidCode(b[p])
    ensures ScoreUpTo(pv, b, n) == MaterialUpTo(pv, b, RED, n) - MaterialUpTo(pv, b, BLACK, n)
  {
    if n > 0 {
      ScoreUpToIsMaterial(pv, b, n - 1);
      assert ValidCode(b[n - 1]);
    }
  }

  /** A search that ends in a position values it at what the mover has more than the other side, up to the start value
      of the score. */
  lemma LeafMeans(pv: ScoreTable, s: Pos, start: int)
    requires forall p: Square :: ValidCode(s.board[p])
    requires s.value == Score(pv, s.board) + start && s.depth > 11
    ensures var more := Material(pv, s.board, s.turn) - Material(pv, s.board, Other(s.turn));
            Quiet(pv, s) == Max(-12345, more + if s.turn == RED then start else -start)
  {
    ScoreIsMaterial(pv, s.board);
  }

  // ---- minimax ----

  /** What a position is worth to red, if the game stops there. */
  function Worth(pv: ScoreTable, start: int, b: Board): int {
    Material(pv, b, RED) - Material(pv, b, BLACK) + start
  }

  function Min(a: int, b: int): int { if a <= b then a else b }

  /** The better one for side t, where red wants more and black wants less. */
  function Better(t: Side, x: int, y: int): int { if t == RED then Max(x, y) else Min(x, y) }

  /** The worst value for side t. */
  function Lost(t: Side): int { if t == RED then -12345 else 12345 }

  /** Red's value of a position when only captures are looked at, and either side may stop. */
  function CaptureValue(pv: ScoreTable, start: int, b: Board, t: Side, depth: int): int
    decreases Max(0, 12 - depth), 1, 0
  {
    if depth > 11 then Better(t, Lost(t), Worth(pv, start, b))
    else BestCapture(pv, start, b, t, depth, AllMoves(b, t, true))
  }

  function BestCapture(pv: ScoreTable, start: int, b: Board, t: Side, depth: int, ms: seq<Move>): int
    requires depth <= 11
    decreases Max(0, 12 - depth), 0, |ms|
  {
    if ms == [] then Better(t, Lost(t), Worth(pv, start, b))
    else
      var m := ms[|ms| - 1];
      Better(t, BestCapture(pv, start, b, t, depth, ms[..|ms| - 1]),
             CaptureValue(pv, start, Apply(b, m), Other(t), depth + 1))
  }

  /** Red's value of a position when both sides look n moves ahead: red takes the move that is worth most and black the
      one that is worth least. A side without a move has lost. */
  function Minimax(pv: ScoreTable, start: int, b: Board, t: Side, depth: int, n: nat): int
    decreases n, 1, 0
  {
    if n == 0 then CaptureValue(pv, start, b, t, depth)
    else BestReply(pv, start, b, t, depth, n, AllMoves(b, t, false))
  }

  function BestReply(pv: ScoreTable, start: int, b: Board, t: Side, depth: int, n: nat, ms: seq<Move>): int
    requires n > 0
    decreases n, 0, |ms|
  {
    if ms == [] then Lost(t)
    else
      var m := ms[|ms| - 1];
      Better(t, BestReply(pv, start, b, t, depth, n, ms[..|ms| - 1]),
             Minimax(pv, start, Apply(b, m), Other(t), depth + 1, n - 1))
  }

  /** The value from the mover's side. */
  function ForMover(t: Side, v: int): int { if t == RED then v else -v }

  /** A position whose score is that of its pieces, but for the start value. */
  ghost predicate Kept(pv: ScoreTable, start: int, s: Pos) {
    Searchable(s) && s.value == Score(pv, s.board) + start
  }

  lemma KeptAfter(pv: ScoreTable, start: int, s: Pos, eat: bool, m: Move)
    requires Kept(pv, start, s) && m in AllMoves(s.board, s.turn, eat)
    ensures Kept(pv, start, Make(pv, s, m))
  {
    hide Searchable, AllMoves, Score, Make;
    SearchStaysSearchable(pv, s, eat, m);
    ScoreIsConserved(pv, s, m);
  }

  lemma StandPatMeans(pv: ScoreTable, start: int, s: Pos)
    requires Kept(pv, start, s)
    ensures Max(-SIQI_VALUE, StandPat(s)) == ForMover(s.turn, Better(s.turn, Lost(s.turn), Worth(pv, start, s.board)))
  {
    hide Score, Material, InCheck, Generals, AtMostInitial;
    forall p: Square ensures ValidCode(s.board[p]) { assert PlacedAt(s.board[p], p); }
    ScoreIsMaterial(pv, s.board);
  }

  /** Searching with signs turned is the same as one side maximizing and the other one minimizing. */
  lemma {:induction false} QuietIsMinimax(pv: ScoreTable, start: int, s: Pos)
    requires Kept(pv, start, s)
    ensures Quiet(pv, s) == ForMover(s.turn, CaptureValue(pv, start, s.board, s.turn, s.depth))
    decreases Max(0, 12 - s.depth), 1, 0
  {
    hide Kept, AllMoves, StandPat, Worth, Make;
    StandPatMeans(pv, start, s);
    if s.depth <= 11 { QuietListIsMinimax(pv, start, s, AllMoves(s.board, s.turn, true)); }
  }

  lemma {:induction false} QuietListIsMinimax(pv: ScoreTable, start: int, s: Pos, ms: seq<Move>)
    requires Kept(pv, start, s) && s.depth <= 11 && forall m :: m in ms ==> m in AllMoves(s.board, s.turn, true)
    ensures QuietBest(pv, s, ms) == ForMover(s.turn, BestCapture(pv, start, s.board, s.turn, s.depth, ms))
    decreases Max(0, 12 - s.depth), 0, |ms|
  {
    hide Kept, AllMoves, StandPat, Worth, Quiet, CaptureValue;
    StandPatMeans(pv, start, s);
    if ms != [] {
      var m := ms[|ms| - 1];
      QuietListIsMinimax(pv, start, s, ms[..|ms| - 1]);
      KeptAfter(pv, start, s, true, m);
      QuietIsMinimax(pv, start, Make(pv, s, m));
    }
  }

  lemma {:induction false} PlainIsMinimax(pv: ScoreTable, start: int, s: Pos, n: nat)
    requires Kept(pv, start, s)
    ensures Plain(pv, s, n) == ForMover(s.turn, Minimax(pv, start, s.board, s.turn, s.depth, n))
    decreases n, 1, 0
  {
    hide Kept, AllMoves, Make, Quiet, CaptureValue;
    if n == 0 {
      QuietIsMinimax(pv, start, s);
    } else {
      PlainListIsMinimax(pv, start, s, n, AllMoves(s.board, s.turn, false));
    }
  }

  lemma {:induction false} PlainListIsMinimax(pv: ScoreTable, start: int, s: Pos, n: nat, ms: seq<Move>)
    requires Kept(pv, start, s) && n > 0 && forall m :: m in ms ==> m in AllMoves(s.board, s.turn, false)
    ensures PlainBest(pv, s, n, ms) == ForMover(s.turn, BestReply(pv, start, s.board, s.turn, s.depth, n, ms))
    decreases n, 0, |ms|
  {
    hide Kept, AllMoves, Plain, Minimax;
    if ms != [] {
      var m := ms[|ms| - 1];
      PlainListIsMinimax(pv, start, s, n, ms[..|ms| - 1]);
      KeptAfter(pv, start, s, false, m);
      PlainIsMinimax(pv, start, Make(pv, s, m), n - 1);
    }
  }

  /** After the move m, two more moves are looked at. */
  function After(pv: ScoreTable, start: int, b: Board, t: Side, m: Move): int {
    Minimax(pv, start, Apply(b, m), Other(t), 1, 2)
  }

  /** A legal move after which the value is best for side t among all legal moves. */
  ghost predicate Wins(pv: ScoreTable, start: int, b: Board, t: Side, m: Move) {
    Allowed(b, t, m) &&
    forall x :: Allowed(b, t, x) ==>
      if t == RED then After(pv, start, b, t, x) <= After(pv, start, b, t, m)
      else After(pv, start, b, t, x) >= After(pv, start, b, t, m)
  }

  /** Table entries within a bound, and a start value, that leave every sum of 32 pieces inside the search window. */
  ghost predicate Small(pv: ScoreTable, start: int, bound: int) {
    bound >= 0 && 32 * bound + Abs(start) <= 12345 && forall k, p :: Within(pv, bound, k, p)
  }

  /** Side t has no legal move. */
  ghost predicate Stuck(b: Board, t: Side) { forall m :: !Allowed(b, t, m) }

  /** A turn of the program: it makes a legal move, a best one if scores are small, or gives up if it has none; the game
      is over if the side then to move has no legal move. */
  ghost predicate Turn(pv: ScoreTable, s: Pos, s': Pos, over: bool) {
    if Stuck(s.board, s.turn) then s' == s && over
    else
      (exists m :: MovedTo(pv, s, s', m)) && s'.turn == Other(s.turn) &&
      over == Stuck(s'.board, s'.turn)
  }

  ghost predicate MovedTo(pv: ScoreTable, s: Pos, s': Pos, m: Move) {
    var start := s.value - Score(pv, s.board);
    Allowed(s.board, s.turn, m) && s'.board == s.board[m.to := s.board[m.from]][m.from := 0] &&
    forall bound :: Small(pv, start, bound) ==> Wins(pv, start, s.board, s.turn, m)
  }

  lemma MembersMean(s: Pos, m: Move)
    requires Searchable(s)
    ensures m in AllMoves(s.board, s.turn, false) <==> Allowed(s.board, s.turn, m)
  {
    hide InCheck, AllMoves, PlacedAt, Legal, Allowed, Generals, AtMostInitial;
    GenerationIsExact(s.board, s.turn, false, m);
    LegalMeans(s.board, s.turn, m);
  }

  lemma NoneMeans(s: Pos)
    requires Searchable(s)
    ensures AllMoves(s.board, s.turn, false) == [] <==> Stuck(s.board, s.turn)
  {
    hide Searchable, AllMoves, Allowed;
    var ms := AllMoves(s.board, s.turn, false);
    if ms != [] { MembersMean(s, ms[0]); }
    forall m | m !in ms ensures !Allowed(s.board, s.turn, m) { MembersMean(s, m); }
  }

  lemma SmallIsBounded(pv: ScoreTable, s: Pos, start: int, bound: int)
    requires start == s.value - Score(pv, s.board) && Small(pv, start, bound)
    ensures Bounded(pv, s)
  {
    hide Score;
    assert ScoreFits(pv, bound, s);
  }

  /** A move that is best for the search with signs turned. */
  lemma BestWins(pv: ScoreTable, start: int, s: Pos, m: Move)
    requires Kept(pv, start, s) && s.depth == 0 && m in AllMoves(s.board, s.turn, false)
    requires IsBest(pv, s, AllMoves(s.board, s.turn, false), m)
    ensures Wins(pv, start, s.board, s.turn, m)
  {
    hide Searchable, AllMoves, Allowed, Plain, Minimax, Score;
    MembersMean(s, m);
    AfterMeans(pv, start, s, m);
    forall x | Allowed(s.board, s.turn, x)
      ensures -Plain(pv, Make(pv, s, x), 2) == ForMover(s.turn, After(pv, start, s.board, s.turn, x))
      ensures -Plain(pv, Make(pv, s, x), 2) <= -Plain(pv, Make(pv, s, m), 2)
    {
      MembersMean(s, x);
      AfterMeans(pv, start, s, x);
    }
  }

  lemma AfterMeans(pv: ScoreTable, start: int, s: Pos, m: Move)
    requires Kept(pv, start, s) && s.depth == 0 && m in AllMoves(s.board, s.turn, false)
    ensures -Plain(pv, Make(pv, s, m), 2) == ForMover(s.turn, After(pv, start, s.board, s.turn, m))
  {
    hide Kept, AllMoves, Plain, Minimax;
    KeptAfter(pv, start, s, false, m);
    PlainIsMinimax(pv, start, Make(pv, s, m), 2);
  }

  /** What the program plays, in the words of the game. */
  lemma PlayedMeans(pv: ScoreTable, s: Pos, s': Pos, over: bool)
    requires Searchable(s) && Searchable(s') && Played(pv, s, s', over)
    ensures Turn(pv, s, s', over)
  {
    hide Searchable, AllMoves, Allowed, IsBest, Score, Wins, Small, Bounded, Stuck;
    var ms, start := AllMoves(s.board, s.turn, false), s.value - Score(pv, s.board);
    NoneMeans(s);
    NoneMeans(s');
    if ms != [] {
      var m :| m in ms && MadeBest(pv, s.(depth := 0), ms, m, s');
      MembersMean(s, m);
      DepthIsFree(pv, s);
      forall bound | Small(pv, start, bound) ensures Wins(pv, start, s.board, s.turn, m) {
        SmallIsBounded(pv, s.(depth := 0), start, bound);
        BestWins(pv, start, s.(depth := 0), m);
      }
      assert MovedTo(pv, s, s', m);
    }
  }

  /** A turn of the program in any position that a game can reach. */
  method PlayTurn(e: Engine)
    requires e.Valid() && Searchable(e.State()) && !e.gameOver
    modifies e, e.board, e.history
    ensures e.Valid() && Searchable(e.State())
    ensures Turn(e.pv, old(e.State()), e.State(), e.gameOver)
  {
    hide Searchable, Played, Turn;
    ghost var s := e.State();
    e.ComputerPlay();
    PlayedMeans(e.pv, s, e.State(), e.gameOver);
  }
}
