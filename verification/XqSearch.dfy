/** The game tree of the xiangqi program on values: making a move, the incremental score,
    and the search without any pruning. */
module XqSearch {
  import opened Shared
  import opened XqBoard
  import opened XqMoves
  import opened XqBounds

  const SIQI_VALUE := 12345
  const QUIET_DEPTH := 11

  /** `position_value`: piece kind and square to score, from red's side. */
  type ScoreTable = (int, int) -> int

  /** `m_board`, `m_turn_to_play`, `m_value_of_board` and `m_search_depth`. */
  datatype Pos = Pos(board: Board, turn: Side, value: int, depth: int)

  function PieceValue(pv: ScoreTable, code: int, p: int): int {
    if code < 16 then pv(code - 8, p) else -pv(code - 16, 254 - p)
  }

  /** Score after the three updates of `move_piece`. */
  function ValueAfter(pv: ScoreTable, b: Board, v: int, m: Move): int {
    v - (if b[m.to] != 0 then PieceValue(pv, b[m.to], m.to) else 0)
      + PieceValue(pv, b[m.from], m.to) - PieceValue(pv, b[m.from], m.from)
  }

  /** `move_piece` followed by `change_side`. */
  function Make(pv: ScoreTable, s: Pos, m: Move): Pos {
    Pos(Apply(s.board, m), Other(s.turn), ValueAfter(pv, s.board, s.value, m), s.depth + 1)
  }

  function Max(a: int, b: int): int { if a >= b then a else b }

  function StandPat(s: Pos): int { if s.turn == RED then s.value else -s.value }

  // ---- the search without pruning ----

  /** `quiescent_search` with every cut removed. */
  function Quiet(pv: ScoreTable, s: Pos): int
    decreases Max(0, QUIET_DEPTH + 1 - s.depth), 1, 0
  {
    if s.depth > QUIET_DEPTH then Max(-SIQI_VALUE, StandPat(s))
    else QuietBest(pv, s, AllMoves(s.board, s.turn, true))
  }

  /** Best of standing pat and of the given captures. */
  function QuietBest(pv: ScoreTable, s: Pos, ms: seq<Move>): int
    requires s.depth <= QUIET_DEPTH
    decreases Max(0, QUIET_DEPTH + 1 - s.depth), 0, |ms|
  {
    if ms == [] then Max(-SIQI_VALUE, StandPat(s))
    else Max(QuietBest(pv, s, ms[..|ms| - 1]), -Quiet(pv, Make(pv, s, ms[|ms| - 1])))
  }

  /** `alpha_beta` with every cut removed. */
  function Plain(pv: ScoreTable, s: Pos, depth: nat): int
    decreases depth, 1, 0
  {
    if depth == 0 then Quiet(pv, s) else PlainBest(pv, s, depth, AllMoves(s.board, s.turn, false))
  }

  function PlainBest(pv: ScoreTable, s: Pos, depth: nat, ms: seq<Move>): int
    requires depth > 0
    decreases depth, 0, |ms|
  {
    if ms == [] then -SIQI_VALUE
    else Max(PlainBest(pv, s, depth, ms[..|ms| - 1]), -Plain(pv, Make(pv, s, ms[|ms| - 1]), depth - 1))
  }

  lemma {:induction false} QuietBestGrows(pv: ScoreTable, s: Pos, ms: seq<Move>, i: nat)
    requires s.depth <= QUIET_DEPTH && i <= |ms|
    ensures QuietBest(pv, s, ms[..i]) <= QuietBest(pv, s, ms)
  {
    hide Quiet, Make;
    if i < |ms| {
      var front := ms[..|ms| - 1];
      assert front[..i] == ms[..i];
      QuietBestGrows(pv, s, front, i);
    } else {
      assert ms[..i] == ms;
    }
  }

  lemma {:induction false} PlainBestGrows(pv: ScoreTable, s: Pos, depth: nat, ms: seq<Move>, i: nat)
    requires depth > 0 && i <= |ms|
    ensures PlainBest(pv, s, depth, ms[..i]) <= PlainBest(pv, s, depth, ms)
  {
    hide Plain, Make;
    if i < |ms| {
      var front := ms[..|ms| - 1];
      assert front[..i] == ms[..i];
      PlainBestGrows(pv, s, depth, front, i);
    } else {
      assert ms[..i] == ms;
    }
  }

  lemma {:induction false} PlainBestIsMaximum(pv: ScoreTable, s: Pos, depth: nat, ms: seq<Move>)
    requires depth > 0
    ensures PlainBest(pv, s, depth, ms) >= -SIQI_VALUE
    ensures forall m :: m in ms ==> -Plain(pv, Make(pv, s, m), depth - 1) <= PlainBest(pv, s, depth, ms)
    ensures PlainBest(pv, s, depth, ms) == -SIQI_VALUE ||
            exists m :: m in ms && -Plain(pv, Make(pv, s, m), depth - 1) == PlainBest(pv, s, depth, ms)
  {
    hide Plain, Make;
    if ms != [] {
      var front := ms[..|ms| - 1];
      PlainBestIsMaximum(pv, s, depth, front);
      assert ms == front + [ms[|ms| - 1]];
    }
  }

  /** The value of a list of moves does not depend on their order. */
  lemma OrderIsIrrelevant(pv: ScoreTable, s: Pos, depth: nat, ms: seq<Move>, sorted: seq<Move>)
    requires depth > 0 && forall m :: m in ms <==> m in sorted
    ensures PlainBest(pv, s, depth, ms) == PlainBest(pv, s, depth, sorted)
  {
    hide Plain, Make, PlainBest;
    PlainBestIsMaximum(pv, s, depth, ms);
    PlainBestIsMaximum(pv, s, depth, sorted);
  }

  // ---- fail-soft bounds ----

  /** What a fail-soft search result r for the window (alpha, beta) says about the true value v. */
  predicate Tells(r: int, alpha: int, beta: int, v: int) {
    (r <= alpha ==> v <= r) && (alpha < r < beta ==> v == r) && (r >= beta ==> v >= r)
  }

  /** One round of the move loop: the child result is right for its window, the running result for the
      moves before it, and the narrowed window never leaves what has been reached. */
  lemma LoopRound(alpha0: int, alpha: int, beta: int, best: int, value: int, before: int, child: int)
    requires alpha0 <= alpha < beta && alpha <= Max(alpha0, best)
    requires Tells(best, alpha0, beta, before)
    requires Tells(-value, -beta, -alpha, -child)
    ensures best < value && value >= beta ==> child >= value
    ensures value <= best || value < beta ==> Tells(Max(best, value), alpha0, beta, Max(before, child))
    ensures best < value < beta && alpha0 < value ==> child == value
  {
  }

  // ---- the incremental score ----

  function SquareScore(pv: ScoreTable, b: Board, p: Square): int {
    if b[p] == 0 then 0 else PieceValue(pv, b[p], p)
  }

  /** The score recomputed from the first n squares. */
  function ScoreUpTo(pv: ScoreTable, b: Board, n: nat): int
    requires n <= 256
  {
    if n == 0 then 0 else ScoreUpTo(pv, b, n - 1) + SquareScore(pv, b, n - 1)
  }

  function Score(pv: ScoreTable, b: Board): int { ScoreUpTo(pv, b, 256) }

  lemma {:induction false} ScoreOfUpdate(pv: ScoreTable, b: Board, p: Square, code: int, n: nat)
    requires n <= 256
    ensures ScoreUpTo(pv, b[p := code], n) == ScoreUpTo(pv, b, n) +
            (if p < n then SquareScore(pv, b[p := code], p) - SquareScore(pv, b, p) else 0)
  {
    if n > 0 {
      ScoreOfUpdate(pv, b, p, code, n - 1);
    }
  }

  /** The incremental score never drifts from the one recomputed from the board: their difference,
      fixed by the start value of `m_value_of_board`, is the same before and after every move. */
  lemma ScoreIsConserved(pv: ScoreTable, s: Pos, m: Move)
    requires m.from != m.to && s.board[m.from] != 0
    ensures Make(pv, s, m).value - Score(pv, Make(pv, s, m).board) == s.value - Score(pv, s.board)
  {
    var mid: Board := s.board[m.to := s.board[m.from]];
    ScoreOfUpdate(pv, s.board, m.to, s.board[m.from], 256);
    ScoreOfUpdate(pv, mid, m.from, 0, 256);
  }

  // ---- bounded scores ----

  /** Occupied squares among the first n. */
  function OccupiedUpTo(b: Board, n: nat): set<int>
    requires n <= 256
  {
    set p: int | 0 <= p < n && b[p] != 0
  }

  predicate Within(pv: ScoreTable, bound: int, k: int, p: int) { -bound <= pv(k, p) <= bound }

  lemma {:induction false} ScoreBound(pv: ScoreTable, b: Board, n: nat, bound: int)
    requires n <= 256 && bound >= 0 && forall k, p :: Within(pv, bound, k, p)
    ensures -bound * |OccupiedUpTo(b, n)| <= ScoreUpTo(pv, b, n) <= bound * |OccupiedUpTo(b, n)|
  {
    if n > 0 {
      ScoreBound(pv, b, n - 1, bound);
      var before, after := OccupiedUpTo(b, n - 1), OccupiedUpTo(b, n);
      if b[n - 1] != 0 {
        assert after == before + {n - 1};
        assert bound * (|before| + 1) == bound * |before| + bound;
        SquareScoreBound(pv, b, n - 1, bound);
      } else {
        assert after == before;
      }
    }
  }

  lemma SquareScoreBound(pv: ScoreTable, b: Board, p: Square, bound: int)
    requires bound >= 0 && forall k, q :: Within(pv, bound, k, q)
    ensures -bound <= SquareScore(pv, b, p) <= bound
  {
    assert Within(pv, bound, b[p] - 8, p) && Within(pv, bound, b[p] - 16, 254 - p);
  }

  function PiecesOfKinds(b: Board, t: Side, k: nat): set<int>
    requires k <= 7
  {
    if k == 0 then {} else PiecesOfKinds(b, t, k - 1) + Places(b, SideBase(t) + k - 1)
  }

  function InitialUpTo(k: nat): nat
    requires k <= 7
  {
    if k == 0 then 0 else InitialUpTo(k - 1) + INITIAL[k - 1]
  }

  lemma {:induction false} KindsBound(b: Board, t: Side, k: nat)
    requires k <= 7 && AtMostInitial(b)
    ensures |PiecesOfKinds(b, t, k)| <= InitialUpTo(k)
  {
    hide Places;
    if k > 0 {
      KindsBound(b, t, k - 1);
      UnionSize(PiecesOfKinds(b, t, k - 1), Places(b, SideBase(t) + k - 1));
    }
  }

  lemma {:induction false} KindsCover(b: Board, t: Side, k: nat, p: Square)
    requires k <= 7 && SideBase(t) <= b[p] < SideBase(t) + k
    ensures p in PiecesOfKinds(b, t, k)
  {
    if b[p] != SideBase(t) + k - 1 {
      KindsCover(b, t, k - 1, p);
    }
  }

  lemma UnionSize(x: set<int>, y: set<int>)
    ensures |x + y| <= |x| + |y|
  {
    assert x + y == x + (y - x);
    SubsetCard(y - x, y);
  }

  lemma AtMost32(b: Board)
    requires AtMostInitial(b) && forall p: Square :: PlacedAt(b[p], p)
    ensures |OccupiedUpTo(b, 256)| <= 32
  {
    KindsBound(b, RED, 7);
    KindsBound(b, BLACK, 7);
    assert InitialUpTo(7) == 16;
    var both := PiecesOfKinds(b, RED, 7) + PiecesOfKinds(b, BLACK, 7);
    forall p | p in OccupiedUpTo(b, 256) ensures p in both {
      assert PlacedAt(b[p], p);
      if b[p] < 16 { KindsCover(b, RED, 7, p); } else { KindsCover(b, BLACK, 7, p); }
    }
    UnionSize(PiecesOfKinds(b, RED, 7), PiecesOfKinds(b, BLACK, 7));
    SubsetCard(OccupiedUpTo(b, 256), both);
  }

  /** Table entries within the bound, and a start value of the incremental score that leaves room for 32 of them. */
  ghost predicate ScoreFits(pv: ScoreTable, bound: int, s: Pos) {
    bound >= 0 && (forall k, p :: Within(pv, bound, k, p)) &&
    -SIQI_VALUE <= s.value - Score(pv, s.board) - 32 * bound &&
    s.value - Score(pv, s.board) + 32 * bound <= SIQI_VALUE
  }

  /** Position of a search: nobody can take a general, and there are no more pieces than at the start. */
  ghost predicate Searchable(s: Pos) {
    Sane(s.board, s.turn) && AtMostInitial(s.board)
  }

  lemma StandPatFits(pv: ScoreTable, bound: int, s: Pos)
    requires Searchable(s) && ScoreFits(pv, bound, s)
    ensures -SIQI_VALUE <= StandPat(s) <= SIQI_VALUE
  {
    hide InCheck, AtMostInitial, PlacedAt, Generals, OccupiedUpTo, ScoreUpTo;
    AtMost32(s.board);
    ScoreBound(pv, s.board, 256, bound);
    var n := |OccupiedUpTo(s.board, 256)|;
    assert bound * n <= bound * 32;
  }

  /** Every position that the search visits is searchable again, and its score has as much room. */
  lemma SearchStaysSearchable(pv: ScoreTable, s: Pos, eat: bool, m: Move)
    requires Searchable(s) && m in AllMoves(s.board, s.turn, eat)
    ensures Searchable(Make(pv, s, m))
    ensures forall bound :: ScoreFits(pv, bound, s) ==> ScoreFits(pv, bound, Make(pv, s, m))
    ensures m.from != m.to && s.board[m.from] != 0
  {
    hide InCheck, PieceMove, AllMoves, PlacedAt, Safe, Generals, AtMostInitial, Score;
    GenerationIsExact(s.board, s.turn, eat, m);
    GeneralNotTaken(s.board, s.turn, m);
    GeneralsSurvive(s.board, s.turn, m);
    CountsNeverGrow(s.board, m);
    ScoreIsConserved(pv, s, m);
  }

  lemma {:induction false} QuietFits(pv: ScoreTable, bound: int, s: Pos, ms: seq<Move>)
    requires Searchable(s) && ScoreFits(pv, bound, s)
    requires s.depth <= QUIET_DEPTH && forall m :: m in ms ==> m in AllMoves(s.board, s.turn, true)
    ensures -SIQI_VALUE <= QuietBest(pv, s, ms) <= SIQI_VALUE
    decreases Max(0, QUIET_DEPTH + 1 - s.depth), |ms|
  {
    hide Searchable, AllMoves, Make, ScoreFits;
    StandPatFits(pv, bound, s);
    if ms != [] {
      var m := ms[|ms| - 1];
      QuietFits(pv, bound, s, ms[..|ms| - 1]);
      SearchStaysSearchable(pv, s, true, m);
      QuietLower(pv, Make(pv, s, m));
    }
  }

  lemma QuietLower(pv: ScoreTable, s: Pos)
    ensures Quiet(pv, s) >= -SIQI_VALUE
  {
    hide AllMoves;
    if s.depth <= QUIET_DEPTH {
      var ms := AllMoves(s.board, s.turn, true);
      QuietBestGrows(pv, s, ms, 0);
      assert QuietBest(pv, s, ms[..0]) >= -SIQI_VALUE;
    }
  }

  lemma PlainLower(pv: ScoreTable, s: Pos, depth: nat)
    ensures Plain(pv, s, depth) >= -SIQI_VALUE
  {
    hide AllMoves;
    if depth == 0 {
      QuietLower(pv, s);
    } else {
      PlainBestIsMaximum(pv, s, depth, AllMoves(s.board, s.turn, false));
    }
  }

  lemma {:induction false} PlainFits(pv: ScoreTable, bound: int, s: Pos, depth: nat)
    requires Searchable(s) && ScoreFits(pv, bound, s)
    ensures -SIQI_VALUE <= Plain(pv, s, depth) <= SIQI_VALUE
  {
    hide Searchable, AllMoves, Make, ScoreFits;
    PlainLower(pv, s, depth);
    if depth == 0 {
      StandPatFits(pv, bound, s);
      if s.depth <= QUIET_DEPTH {
        QuietFits(pv, bound, s, AllMoves(s.board, s.turn, true));
      }
    } else {
      var ms := AllMoves(s.board, s.turn, false);
      PlainBestIsMaximum(pv, s, depth, ms);
      forall m | m in ms ensures -Plain(pv, Make(pv, s, m), depth - 1) <= SIQI_VALUE {
        PlainLower(pv, Make(pv, s, m), depth - 1);
      }
    }
  }
}
