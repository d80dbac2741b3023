/** Move generation of the xiangqi program: what the generators list, in their own order,
    and what that list means. */
module XqMoves {
  import opened XqBoard

  function Apply(b: Board, m: Move): Board {
    b[m.to := b[m.from]][m.from := 0]
  }

  /** `test_move`: the mover is not in check afterwards. */
  predicate Safe(b: Board, t: Side, m: Move) { !InCheck(Apply(b, m), t) }

  /** A move of a piece of side t, to a square that no other one of its pieces takes. */
  ghost predicate MayMove(b: Board, t: Side, m: Move) {
    InBoard(m.from) && IsOf(t, b[m.from]) && !IsOf(t, b[m.to]) && PieceMove(b, t, m.from, m.to)
  }

  /** A legal move of side t, stated without the generators. */
  ghost predicate Legal(b: Board, t: Side, m: Move) { MayMove(b, t, m) && Safe(b, t, m) }

  // ---- the lists that the generators build ----

  /** Number of candidate steps of a piece kind that does not slide. */
  function StepCount(kind: int): nat {
    if kind == PIECE_MA then 8 else if kind == PIECE_BZ then 3 else 4
  }

  predicate IsStepper(kind: int) {
    kind == PIECE_JS || kind == PIECE_SHI || kind == PIECE_XIANG || kind == PIECE_MA || kind == PIECE_BZ
  }

  function StepTo(t: Side, kind: int, p: Square, i: nat): Square
    requires InBoard(p) && IsStepper(kind) && i < StepCount(kind)
  {
    if kind == PIECE_JS then p + JS_MOVE[i]
    else if kind == PIECE_SHI then p + SHI_MOVE[i]
    else if kind == PIECE_XIANG then p + XIANG_MOVE[i]
    else if kind == PIECE_MA then p + MA_MOVE[i]
    else if i == 0 then Forward(t, p) else if i == 1 then p + 1 else p - 1
  }

  /** The tests a generator makes on a step before looking at the piece on the target. */
  predicate StepOpen(b: Board, t: Side, kind: int, p: Square, i: nat)
    requires InBoard(p) && IsStepper(kind) && i < StepCount(kind)
  {
    var to := StepTo(t, kind, p, i);
    if kind == PIECE_JS || kind == PIECE_SHI then InPalace(to)
    else if kind == PIECE_XIANG then InBoard(to) && !AtOppositeSide(t, to) && b[p + XIANG_EYE[i]] == 0
    else if kind == PIECE_MA then InBoard(to) && b[p + MA_LEG[i]] == 0
    else InBoard(to) && (i == 0 || AtOppositeSide(t, p))
  }

  /** `is_opposite_piece` for the eating generators, `!is_self_piece` for the others. */
  predicate Target(t: Side, eat: bool, code: int) {
    if eat then IsOf(Other(t), code) else !IsOf(t, code)
  }

  function One(b: Board, t: Side, m: Move, wanted: bool): seq<Move> {
    if wanted && Safe(b, t, m) then [m] else []
  }

  /** Steps i, i + 1, ... of the piece on p. */
  function GenSteps(b: Board, t: Side, kind: int, p: Square, i: nat, eat: bool): seq<Move>
    requires InBoard(p) && IsStepper(kind) && i <= StepCount(kind)
    decreases StepCount(kind) - i
  {
    if i == StepCount(kind) then []
    else
      var to := StepTo(t, kind, p, i);
      One(b, t, Move(p, to), StepOpen(b, t, kind, p, i) && Target(t, eat, b[to])) +
      GenSteps(b, t, kind, p, i + 1, eat)
  }

  /** Squares n, n + 1, ... of one ray of a chariot. */
  function GenJuRay(b: Board, t: Side, p: Square, i: nat, n: nat, eat: bool): seq<Move>
    requires InBoard(p) && i < 4
    decreases 256 - n
  {
    var to := At(p, i, n);
    if !InBoard(to) then []
    else if b[to] == 0 then One(b, t, Move(p, to), !eat) + GenJuRay(b, t, p, i, n + 1, eat)
    else One(b, t, Move(p, to), IsOf(Other(t), b[to]))
  }

  /** Squares n, n + 1, ... of one ray of a cannon; flag says that the screen has been passed. */
  function GenPaoRay(b: Board, t: Side, p: Square, i: nat, n: nat, flag: bool, eat: bool): seq<Move>
    requires InBoard(p) && i < 4
    decreases 256 - n
  {
    var to := At(p, i, n);
    if !InBoard(to) then []
    else if b[to] == 0 then One(b, t, Move(p, to), !eat && !flag) + GenPaoRay(b, t, p, i, n + 1, flag, eat)
    else if !flag then GenPaoRay(b, t, p, i, n + 1, true, eat)
    else One(b, t, Move(p, to), IsOf(Other(t), b[to]))
  }

  function GenRays(b: Board, t: Side, kind: int, p: Square, i: nat, eat: bool): seq<Move>
    requires InBoard(p) && i <= 4
    decreases 4 - i
  {
    if i == 4 then []
    else (if kind == PIECE_JU then GenJuRay(b, t, p, i, 1, eat) else GenPaoRay(b, t, p, i, 1, false, eat)) +
         GenRays(b, t, kind, p, i + 1, eat)
  }

  function GenPiece(b: Board, t: Side, p: Square, eat: bool): seq<Move>
    requires InBoard(p)
  {
    var kind := b[p] - SideBase(t);
    if !IsOf(t, b[p]) then []
    else if IsStepper(kind) then GenSteps(b, t, kind, p, 0, eat)
    else if kind == PIECE_JU || kind == PIECE_PAO then GenRays(b, t, kind, p, 0, eat)
    else []
  }

  function SquareOf(x: int, y: int): Square
    requires 3 <= x <= 11 && 3 <= y <= 12
    ensures InBoard(SquareOf(x, y))
  {
    16 * y + x
  }

  /** The moves of the pieces on column x from row y on, and on the columns after it. */
  function GenFrom(b: Board, t: Side, x: int, y: int, eat: bool): seq<Move>
    requires 3 <= x <= 12 && 3 <= y <= 13
    decreases 12 - x, 13 - y
  {
    if x == 12 then []
    else if y == 13 then GenFrom(b, t, x + 1, 3, eat)
    else GenPiece(b, t, SquareOf(x, y), eat) + GenFrom(b, t, x, y + 1, eat)
  }

  /** `generate_all_moves`, and `generate_all_eat_moves` when eat is set. */
  function AllMoves(b: Board, t: Side, eat: bool): seq<Move> { GenFrom(b, t, 3, 3, eat) }

  // ---- membership ----

  ghost predicate StepMove(b: Board, t: Side, kind: int, p: Square, i: nat, eat: bool, m: Move)
    requires InBoard(p) && IsStepper(kind) && i < StepCount(kind)
  {
    m == Move(p, StepTo(t, kind, p, i)) && StepOpen(b, t, kind, p, i) && Target(t, eat, b[m.to]) && Safe(b, t, m)
  }

  lemma OneMember(b: Board, t: Side, m: Move, wanted: bool, x: Move)
    ensures x in One(b, t, m, wanted) <==> x == m && wanted && Safe(b, t, m)
  {
    hide Safe;
  }

  lemma {:induction false} StepMembers(b: Board, t: Side, kind: int, p: Square, i: nat, eat: bool, m: Move)
    requires InBoard(p) && IsStepper(kind) && i <= StepCount(kind)
    ensures m in GenSteps(b, t, kind, p, i, eat) <==>
            exists j :: i <= j < StepCount(kind) && StepMove(b, t, kind, p, j, eat, m)
    decreases StepCount(kind) - i
  {
    hide Safe, StepTo, StepOpen, Target, InBoard, One;
    if i < StepCount(kind) {
      StepMembers(b, t, kind, p, i + 1, eat, m);
      var to := StepTo(t, kind, p, i);
      OneMember(b, t, Move(p, to), StepOpen(b, t, kind, p, i) && Target(t, eat, b[to]), m);
      assert m in One(b, t, Move(p, to), StepOpen(b, t, kind, p, i) && Target(t, eat, b[to])) <==>
             StepMove(b, t, kind, p, i, eat, m);
    }
  }

  ghost predicate JuMove(b: Board, t: Side, p: Square, i: nat, n: nat, eat: bool, m: Move)
    requires InBoard(p) && i < 4
  {
    0 < n && Line(p, i, n) && Clear(b, p, i, n) && m == Move(p, At(p, i, n)) &&
    Target(t, eat, b[m.to]) && Safe(b, t, m)
  }

  lemma {:induction false} JuMembers(b: Board, t: Side, p: Square, i: nat, n: nat, eat: bool, m: Move)
    requires forall q: Square :: PlacedAt(b[q], q)
    requires InBoard(p) && i < 4 && 0 < n && Line(p, i, n - 1)
    requires forall k :: 0 < k < n ==> b[At(p, i, k)] == 0
    ensures m in GenJuRay(b, t, p, i, n, eat) <==> exists k: nat :: n <= k && JuMove(b, t, p, i, k, eat, m)
    decreases 256 - n
  {
    hide Safe, InBoard, InCheck;
    var to := At(p, i, n);
    if InBoard(to) {
      assert PlacedAt(b[to], to);
      assert Line(p, i, n) && Clear(b, p, i, n);
      if b[to] == 0 {
        JuMembers(b, t, p, i, n + 1, eat, m);
        assert m in One(b, t, Move(p, to), !eat) <==> JuMove(b, t, p, i, n, eat, m);
      } else {
        assert m in One(b, t, Move(p, to), IsOf(Other(t), b[to])) <==> JuMove(b, t, p, i, n, eat, m);
        forall k: nat | n < k ensures !JuMove(b, t, p, i, k, eat, m) {
        }
      }
    }
  }

  ghost predicate PaoMove(b: Board, t: Side, p: Square, i: nat, n: nat, eat: bool, m: Move)
    requires InBoard(p) && i < 4
  {
    0 < n && Line(p, i, n) && m == Move(p, At(p, i, n)) && Target(t, eat, b[m.to]) && Safe(b, t, m) &&
    if b[m.to] == 0 then Clear(b, p, i, n) else exists s :: ScreenAt(b, p, i, n, s)
  }

  lemma {:induction false} PaoOverMembers(b: Board, t: Side, p: Square, i: nat, n: nat, s: int, eat: bool, m: Move)
    requires forall q: Square :: PlacedAt(b[q], q)
    requires InBoard(p) && i < 4 && 0 < s < n && Line(p, i, n - 1) && b[At(p, i, s)] != 0
    requires forall k :: 0 < k < n && k != s ==> b[At(p, i, k)] == 0
    ensures m in GenPaoRay(b, t, p, i, n, true, eat) <==> exists k: nat :: n <= k && PaoMove(b, t, p, i, k, eat, m)
    decreases 256 - n
  {
    hide Safe, InBoard, InCheck;
    var to := At(p, i, n);
    if InBoard(to) {
      assert PlacedAt(b[to], to);
      assert Line(p, i, n) && ScreenAt(b, p, i, n, s);
      assert !Clear(b, p, i, n);
      if b[to] == 0 {
        PaoOverMembers(b, t, p, i, n + 1, s, eat, m);
      } else {
        assert m in One(b, t, Move(p, to), IsOf(Other(t), b[to])) <==> PaoMove(b, t, p, i, n, eat, m);
        forall k: nat | n < k ensures !PaoMove(b, t, p, i, k, eat, m) {
        }
      }
    }
  }

  lemma {:induction false} PaoMembers(b: Board, t: Side, p: Square, i: nat, n: nat, eat: bool, m: Move)
    requires forall q: Square :: PlacedAt(b[q], q)
    requires InBoard(p) && i < 4 && 0 < n && Line(p, i, n - 1)
    requires forall k :: 0 < k < n ==> b[At(p, i, k)] == 0
    ensures m in GenPaoRay(b, t, p, i, n, false, eat) <==> exists k: nat :: n <= k && PaoMove(b, t, p, i, k, eat, m)
    decreases 256 - n
  {
    hide Safe, InBoard, InCheck;
    var to := At(p, i, n);
    if InBoard(to) {
      assert PlacedAt(b[to], to);
      assert Line(p, i, n) && Clear(b, p, i, n);
      forall s ensures !ScreenAt(b, p, i, n, s) {
      }
      if b[to] == 0 {
        PaoMembers(b, t, p, i, n + 1, eat, m);
        assert m in One(b, t, Move(p, to), !eat) <==> PaoMove(b, t, p, i, n, eat, m);
      } else {
        PaoOverMembers(b, t, p, i, n + 1, n, eat, m);
        assert !PaoMove(b, t, p, i, n, eat, m);
      }
    }
  }

  ghost predicate RayMove(b: Board, t: Side, kind: int, p: Square, i: nat, n: nat, eat: bool, m: Move)
    requires InBoard(p) && i < 4
  {
    0 < n && if kind == PIECE_JU then JuMove(b, t, p, i, n, eat, m) else PaoMove(b, t, p, i, n, eat, m)
  }

  lemma RayMoveLine(b: Board, t: Side, kind: int, p: Square, i: nat, n: nat, eat: bool, m: Move)
    requires InBoard(p) && i < 4 && RayMove(b, t, kind, p, i, n, eat, m)
    ensures Line(p, i, n) && m.to == At(p, i, n)
  {
  }

  lemma {:induction false} RayMembers(b: Board, t: Side, kind: int, p: Square, i: nat, eat: bool, m: Move)
    requires forall q: Square :: PlacedAt(b[q], q)
    requires InBoard(p) && i <= 4
    ensures m in GenRays(b, t, kind, p, i, eat) <==>
            exists j: nat, n: nat :: i <= j < 4 && RayMove(b, t, kind, p, j, n, eat, m)
    decreases 4 - i
  {
    hide JuMove, PaoMove, GenJuRay, GenPaoRay, InBoard, Safe;
    if i < 4 {
      RayMembers(b, t, kind, p, i + 1, eat, m);
      assert InBoard(At(p, i, 0));
      assert Line(p, i, 0);
      if kind == PIECE_JU {
        JuMembers(b, t, p, i, 1, eat, m);
        forall n: nat | 1 <= n && JuMove(b, t, p, i, n, eat, m)
          ensures exists j: nat, n: nat :: i <= j < 4 && RayMove(b, t, kind, p, j, n, eat, m)
        {
          assert RayMove(b, t, kind, p, i, n, eat, m);
        }
      } else {
        PaoMembers(b, t, p, i, 1, eat, m);
        forall n: nat | 1 <= n && PaoMove(b, t, p, i, n, eat, m)
          ensures exists j: nat, n: nat :: i <= j < 4 && RayMove(b, t, kind, p, j, n, eat, m)
        {
          assert RayMove(b, t, kind, p, i, n, eat, m);
        }
      }
    }
  }

  ghost predicate OpenStep(b: Board, t: Side, kind: int, p: Square, to: Square)
    requires InBoard(p) && IsStepper(kind)
  {
    exists i :: 0 <= i < StepCount(kind) && to == StepTo(t, kind, p, i) && StepOpen(b, t, kind, p, i)
  }

  lemma TableStep(b: Board, t: Side, kind: int, p: Square, to: Square)
    requires InBoard(p) && (kind == PIECE_JS || kind == PIECE_SHI)
    ensures InPalace(to) && StepReach(if kind == PIECE_JS then JS_MOVE else SHI_MOVE, p, to) <==>
            OpenStep(b, t, kind, p, to)
  {
    hide InPalace;
    var table := if kind == PIECE_JS then JS_MOVE else SHI_MOVE;
    if InPalace(to) && StepReach(table, p, to) {
      var i :| 0 <= i < |table| && p + table[i] == to;
      assert StepOpen(b, t, kind, p, i);
    }
    if OpenStep(b, t, kind, p, to) {
      var i :| 0 <= i < 4 && to == StepTo(t, kind, p, i) && StepOpen(b, t, kind, p, i);
      assert p + table[i] == to;
    }
  }

  lemma XiangStep(b: Board, t: Side, p: Square, to: Square)
    requires InBoard(p)
    ensures XiangReach(b, t, p, to) <==> OpenStep(b, t, PIECE_XIANG, p, to)
  {
    if XiangReach(b, t, p, to) {
      var i :| 0 <= i < 4 && p + XIANG_MOVE[i] == to && b[p + XIANG_EYE[i]] == 0;
      assert StepOpen(b, t, PIECE_XIANG, p, i);
    }
    if OpenStep(b, t, PIECE_XIANG, p, to) {
      var i :| 0 <= i < 4 && to == StepTo(t, PIECE_XIANG, p, i) && StepOpen(b, t, PIECE_XIANG, p, i);
      assert p + XIANG_MOVE[i] == to;
    }
  }

  lemma MaStep(b: Board, t: Side, p: Square, to: Square)
    requires InBoard(p)
    ensures MaReach(b, p, to) <==> OpenStep(b, t, PIECE_MA, p, to)
  {
    if MaReach(b, p, to) {
      var i :| 0 <= i < 8 && p + MA_MOVE[i] == to && b[p + MA_LEG[i]] == 0;
      assert StepOpen(b, t, PIECE_MA, p, i);
    }
    if OpenStep(b, t, PIECE_MA, p, to) {
      var i :| 0 <= i < 8 && to == StepTo(t, PIECE_MA, p, i) && StepOpen(b, t, PIECE_MA, p, i);
      assert p + MA_MOVE[i] == to;
    }
  }

  lemma BzStep(b: Board, t: Side, p: Square, to: Square)
    requires InBoard(p)
    ensures BzReach(t, p, to) <==> OpenStep(b, t, PIECE_BZ, p, to)
  {
    if BzReach(t, p, to) {
      var i := if Forward(t, p) == to then 0 else if p + 1 == to then 1 else 2;
      assert to == StepTo(t, PIECE_BZ, p, i) && StepOpen(b, t, PIECE_BZ, p, i);
    }
  }

  /** A step of a non-sliding piece, found by its index, is its `can_piece_move`. */
  lemma StepIsPieceMove(b: Board, t: Side, kind: int, p: Square, to: Square)
    requires InBoard(p) && IsStepper(kind) && b[p] == SideBase(t) + kind
    ensures PieceMove(b, t, p, to) <==> OpenStep(b, t, kind, p, to)
  {
    hide OpenStep, XiangReach, MaReach, BzReach, StepReach, InBoard, InPalace;
    if kind == PIECE_JS || kind == PIECE_SHI { TableStep(b, t, kind, p, to); }
    else if kind == PIECE_XIANG { XiangStep(b, t, p, to); }
    else if kind == PIECE_MA { MaStep(b, t, p, to); }
    else { BzStep(b, t, p, to); }
  }

  lemma StepsOfPiece(b: Board, t: Side, kind: int, p: Square, eat: bool, m: Move)
    requires InBoard(p) && IsStepper(kind) && b[p] == SideBase(t) + kind
    ensures m in GenSteps(b, t, kind, p, 0, eat) <==>
            m.from == p && PieceMove(b, t, p, m.to) && Target(t, eat, b[m.to]) && Safe(b, t, m)
  {
    hide GenSteps, StepTo, StepOpen, Target, Safe, PieceMove, InBoard;
    StepMembers(b, t, kind, p, 0, eat, m);
    StepIsPieceMove(b, t, kind, p, m.to);
    if m.from == p && OpenStep(b, t, kind, p, m.to) && Target(t, eat, b[m.to]) && Safe(b, t, m) {
      var i: nat :| i < StepCount(kind) && m.to == StepTo(t, kind, p, i) && StepOpen(b, t, kind, p, i);
      assert StepMove(b, t, kind, p, i, eat, m);
    }
  }

  /** What a piece's generator lists: exactly the legal moves of that piece, or the captures among them. */
  lemma PieceMembers(b: Board, t: Side, p: Square, eat: bool, m: Move)
    requires forall q: Square :: PlacedAt(b[q], q)
    requires InBoard(p)
    ensures m in GenPiece(b, t, p, eat) <==> m.from == p && Legal(b, t, m) && (eat ==> b[m.to] != 0)
  {
    hide Safe, PieceMove, InBoard, GenSteps, GenRays, StepOpen, StepTo;
    assert PlacedAt(b[p], p) && PlacedAt(b[m.to], m.to);
    KindCode(b, t, p);
    KindCode(b, t, m.to);
    KindCode(b, Other(t), m.to);
    if IsOf(t, b[p]) {
      var kind := b[p] - SideBase(t);
      if IsStepper(kind) {
        StepsOfPiece(b, t, kind, p, eat, m);
      } else {
        RayMembers(b, t, kind, p, 0, eat, m);
        SlideIsPieceMove(b, t, kind, p, eat, m);
      }
    }
  }

  lemma SlideIsPieceMove(b: Board, t: Side, kind: int, p: Square, eat: bool, m: Move)
    requires InBoard(p) && (kind == PIECE_JU || kind == PIECE_PAO) && b[p] == SideBase(t) + kind
    ensures (exists i: nat, n: nat :: i < 4 && RayMove(b, t, kind, p, i, n, eat, m)) <==>
            m.from == p && PieceMove(b, t, p, m.to) && Target(t, eat, b[m.to]) && Safe(b, t, m)
  {
    forall i: nat, n: nat | i < 4 && RayMove(b, t, kind, p, i, n, eat, m)
      ensures PieceMove(b, t, p, m.to)
    {
    }
    if m.from == p && PieceMove(b, t, p, m.to) && Target(t, eat, b[m.to]) && Safe(b, t, m) {
      if kind == PIECE_JU {
        var i: nat, n: int :| i < 4 && 0 < n && Line(p, i, n) && At(p, i, n) == m.to && Clear(b, p, i, n);
        assert RayMove(b, t, kind, p, i, n, eat, m);
      } else {
        var i: nat, n: int :| i < 4 && 0 < n && Line(p, i, n) && At(p, i, n) == m.to &&
                              (if b[m.to] == 0 then Clear(b, p, i, n) else exists s :: ScreenAt(b, p, i, n, s));
        assert RayMove(b, t, kind, p, i, n, eat, m);
      }
    }
  }

  /** The squares from (x, y) on, in the order of the two loops. */
  predicate NotBefore(x: int, y: int, p: Square) {
    InBoard(p) && (p % 16 > x || (p % 16 == x && p / 16 >= y))
  }

  lemma NotBeforeStep(x: int, y: int, p: Square)
    requires 3 <= x <= 11 && 3 <= y <= 12
    ensures NotBefore(x, y, p) <==> p == SquareOf(x, y) || NotBefore(x, y + 1, p)
    ensures !NotBefore(x, y + 1, SquareOf(x, y))
  {
  }

  lemma NotBeforeTurn(x: int, y: int, p: Square)
    requires 3 <= x <= 11
    ensures NotBefore(x, 13, p) <==> NotBefore(x + 1, 3, p)
    ensures !NotBefore(12, y, p)
  {
  }

  lemma {:induction false} FromMembers(b: Board, t: Side, x: int, y: int, eat: bool, m: Move)
    requires forall q: Square :: PlacedAt(b[q], q)
    requires 3 <= x <= 12 && 3 <= y <= 13
    ensures m in GenFrom(b, t, x, y, eat) <==>
            NotBefore(x, y, m.from) && Legal(b, t, m) && (eat ==> b[m.to] != 0)
    decreases 12 - x, 13 - y
  {
    hide Legal, GenPiece, NotBefore, PlacedAt, SquareOf;
    if x == 12 {
      NotBeforeTurn(11, y, m.from);
    } else if y == 13 {
      NotBeforeTurn(x, y, m.from);
      FromMembers(b, t, x + 1, 3, eat, m);
    } else {
      NotBeforeStep(x, y, m.from);
      PieceMembers(b, t, SquareOf(x, y), eat, m);
      FromMembers(b, t, x, y + 1, eat, m);
    }
  }

  /** Move generation is sound and complete: it lists exactly the legal moves, and the eating
      generator exactly the legal captures. */
  lemma GenerationIsExact(b: Board, t: Side, eat: bool, m: Move)
    requires forall q: Square :: PlacedAt(b[q], q)
    ensures m in AllMoves(b, t, eat) <==> Legal(b, t, m) && (eat ==> b[m.to] != 0)
  {
    FromMembers(b, t, 3, 3, eat, m);
  }

  // ---- no duplicates ----

  ghost predicate Distinct(s: seq<Move>) { forall i, j :: 0 <= i < j < |s| ==> s[i] != s[j] }

  lemma DistinctConcat(s: seq<Move>, u: seq<Move>)
    requires Distinct(s) && Distinct(u) && forall m :: !(m in s && m in u)
    ensures Distinct(s + u)
  {
    forall i, j | 0 <= i < j < |s + u| ensures (s + u)[i] != (s + u)[j] {
      if i < |s| <= j {
        assert s[i] in s && u[j - |s|] in u;
      }
    }
  }

  lemma StepsDiffer(t: Side, kind: int, p: Square, i: nat, j: nat)
    requires InBoard(p) && IsStepper(kind) && i < j < StepCount(kind)
    ensures StepTo(t, kind, p, i) != StepTo(t, kind, p, j)
  {
    hide InBoard;
  }

  lemma {:induction false} StepsDistinct(b: Board, t: Side, kind: int, p: Square, i: nat, eat: bool)
    requires InBoard(p) && IsStepper(kind) && i <= StepCount(kind)
    ensures Distinct(GenSteps(b, t, kind, p, i, eat))
    decreases StepCount(kind) - i
  {
    hide Safe, StepTo, StepOpen, Target, InBoard;
    if i < StepCount(kind) {
      StepsDistinct(b, t, kind, p, i + 1, eat);
      var to := StepTo(t, kind, p, i);
      var head := One(b, t, Move(p, to), StepOpen(b, t, kind, p, i) && Target(t, eat, b[to]));
      forall m ensures !(m in head && m in GenSteps(b, t, kind, p, i + 1, eat)) {
        StepMembers(b, t, kind, p, i + 1, eat, m);
        forall j | i < j < StepCount(kind) ensures StepTo(t, kind, p, i) != StepTo(t, kind, p, j) {
          StepsDiffer(t, kind, p, i, j);
        }
      }
      DistinctConcat(head, GenSteps(b, t, kind, p, i + 1, eat));
    }
  }

  lemma {:induction false} JuRayDistinct(b: Board, t: Side, p: Square, i: nat, n: nat, eat: bool)
    requires InBoard(p) && i < 4
    ensures forall m :: m in GenJuRay(b, t, p, i, n, eat) ==> exists k: nat :: n <= k && m.to == At(p, i, k)
    ensures Distinct(GenJuRay(b, t, p, i, n, eat))
    decreases 256 - n
  {
    hide Safe, InCheck, InBoard;
    var to := At(p, i, n);
    if InBoard(to) && b[to] == 0 {
      JuRayDistinct(b, t, p, i, n + 1, eat);
      DistinctConcat(One(b, t, Move(p, to), !eat), GenJuRay(b, t, p, i, n + 1, eat));
    }
  }

  lemma {:induction false} PaoRayDistinct(b: Board, t: Side, p: Square, i: nat, n: nat, flag: bool, eat: bool)
    requires InBoard(p) && i < 4
    ensures forall m :: m in GenPaoRay(b, t, p, i, n, flag, eat) ==> exists k: nat :: n <= k && m.to == At(p, i, k)
    ensures Distinct(GenPaoRay(b, t, p, i, n, flag, eat))
    decreases 256 - n
  {
    hide Safe, InCheck, InBoard;
    var to := At(p, i, n);
    if InBoard(to) {
      if b[to] == 0 {
        PaoRayDistinct(b, t, p, i, n + 1, flag, eat);
        DistinctConcat(One(b, t, Move(p, to), !eat && !flag), GenPaoRay(b, t, p, i, n + 1, flag, eat));
      } else if !flag {
        PaoRayDistinct(b, t, p, i, n + 1, true, eat);
      }
    }
  }

  /** Number of board squares beyond p in direction i. */
  function RayLength(p: Square, i: nat): nat
    requires InBoard(p) && i < 4
  {
    if i == 0 then p % 16 - 3 else if i == 1 then 11 - p % 16 else if i == 2 then p / 16 - 3 else 12 - p / 16
  }

  lemma RayStaysOnLine(p: Square, i: nat, n: nat)
    requires InBoard(p) && i < 4 && Line(p, i, n)
    ensures n <= RayLength(p, i)
  {
    var k := RayLength(p, i) + 1;
    assert !InBoard(At(p, i, k));
  }

  lemma RaysDisjoint(p: Square, i: nat, n: nat, j: nat, k: nat)
    requires InBoard(p) && i < 4 && j < 4 && 0 < n && 0 < k && Line(p, i, n) && Line(p, j, k)
    requires At(p, i, n) == At(p, j, k)
    ensures i == j
  {
    RayStaysOnLine(p, i, n);
    RayStaysOnLine(p, j, k);
  }

  lemma {:induction false} RaysDistinct(b: Board, t: Side, kind: int, p: Square, i: nat, eat: bool)
    requires forall q: Square :: PlacedAt(b[q], q)
    requires InBoard(p) && i <= 4
    ensures Distinct(GenRays(b, t, kind, p, i, eat))
    decreases 4 - i
  {
    hide JuMove, PaoMove, GenJuRay, GenPaoRay, Safe, InBoard;
    if i < 4 {
      RaysDistinct(b, t, kind, p, i + 1, eat);
      assert InBoard(At(p, i, 0));
      assert Line(p, i, 0);
      var head := if kind == PIECE_JU then GenJuRay(b, t, p, i, 1, eat) else GenPaoRay(b, t, p, i, 1, false, eat);
      JuRayDistinct(b, t, p, i, 1, eat);
      PaoRayDistinct(b, t, p, i, 1, false, eat);
      forall m ensures !(m in head && m in GenRays(b, t, kind, p, i + 1, eat)) {
        if m in head && m in GenRays(b, t, kind, p, i + 1, eat) {
          if kind == PIECE_JU { JuMembers(b, t, p, i, 1, eat, m); } else { PaoMembers(b, t, p, i, 1, eat, m); }
          var n: nat :| 1 <= n &&
            if kind == PIECE_JU then JuMove(b, t, p, i, n, eat, m) else PaoMove(b, t, p, i, n, eat, m);
          RayMoveLine(b, t, kind, p, i, n, eat, m);
          RayMembers(b, t, kind, p, i + 1, eat, m);
          var j: nat, k: nat :| i + 1 <= j < 4 && RayMove(b, t, kind, p, j, k, eat, m);
          RayMoveLine(b, t, kind, p, j, k, eat, m);
          RaysDisjoint(p, i, n, j, k);
          assert false;
        }
      }
      DistinctConcat(head, GenRays(b, t, kind, p, i + 1, eat));
    }
  }

  lemma PieceDistinct(b: Board, t: Side, p: Square, eat: bool)
    requires forall q: Square :: PlacedAt(b[q], q)
    requires InBoard(p)
    ensures Distinct(GenPiece(b, t, p, eat))
  {
    hide GenSteps, GenRays, InBoard, PlacedAt, Distinct;
    assert Distinct([]) by { EmptyDistinct(); }
    var kind := b[p] - SideBase(t);
    if IsStepper(kind) {
      StepsDistinct(b, t, kind, p, 0, eat);
    } else {
      RaysDistinct(b, t, kind, p, 0, eat);
    }
  }

  lemma EmptyDistinct()
    ensures Distinct([])
  {
  }

  lemma {:induction false} FromDistinct(b: Board, t: Side, x: int, y: int, eat: bool)
    requires forall q: Square :: PlacedAt(b[q], q)
    requires 3 <= x <= 12 && 3 <= y <= 13
    ensures Distinct(GenFrom(b, t, x, y, eat))
    decreases 12 - x, 13 - y
  {
    hide Legal, GenPiece, PlacedAt, Distinct, NotBefore, SquareOf;
    if x == 12 {
      EmptyDistinct();
    } else if y == 13 {
      FromDistinct(b, t, x + 1, 3, eat);
    } else {
      var p := SquareOf(x, y);
      PieceDistinct(b, t, p, eat);
      FromDistinct(b, t, x, y + 1, eat);
      forall m ensures !(m in GenPiece(b, t, p, eat) && m in GenFrom(b, t, x, y + 1, eat)) {
        PieceMembers(b, t, p, eat, m);
        FromMembers(b, t, x, y + 1, eat, m);
        NotBeforeStep(x, y, p);
      }
      DistinctConcat(GenPiece(b, t, p, eat), GenFrom(b, t, x, y + 1, eat));
    }
  }

  /** No move is generated twice. */
  lemma GenerationIsDistinct(b: Board, t: Side, eat: bool)
    requires forall q: Square :: PlacedAt(b[q], q)
    ensures Distinct(AllMoves(b, t, eat))
  {
    FromDistinct(b, t, 3, 3, eat);
  }

  // ---- both generals survive ----

  /** The side to move cannot take the enemy general at once. */
  ghost predicate Sane(b: Board, t: Side) { Placed(b) && Generals(b) && !InCheck(b, Other(t)) }

  lemma StepperPlaced(b: Board, t: Side, kind: int, p: Square, to: Square)
    requires InBoard(p) && IsStepper(kind) && b[p] == SideBase(t) + kind && PlacedAt(b[p], p)
    requires OpenStep(b, t, kind, p, to)
    ensures PlacedAt(b[p], to)
  {
    var i :| 0 <= i < StepCount(kind) && to == StepTo(t, kind, p, i) && StepOpen(b, t, kind, p, i);
  }

  lemma MovedPlaced(b: Board, t: Side, m: Move)
    requires PlacedAt(b[m.from], m.from) && MayMove(b, t, m)
    ensures PlacedAt(b[m.from], m.to)
  {
    hide InCheck, AdvisorPoint, InPalace, OpenStep, Safe;
    KindCode(b, t, m.from);
    var kind := b[m.from] - SideBase(t);
    if IsStepper(kind) {
      StepIsPieceMove(b, t, kind, m.from, m.to);
      StepperPlaced(b, t, kind, m.from, m.to);
    }
  }

  lemma PlacedAfter(b: Board, t: Side, m: Move)
    requires Placed(b) && MayMove(b, t, m)
    ensures forall q: Square :: PlacedAt(Apply(b, m)[q], q)
  {
    hide InCheck, PieceMove, InBoard, InPalace, Safe, AdvisorPoint;
    MovedPlaced(b, t, m);
    forall q: Square ensures PlacedAt(Apply(b, m)[q], q) {
      assert PlacedAt(b[q], q);
    }
  }

  lemma OwnGeneralAfter(b: Board, t: Side, u: Side, m: Move)
    requires Placed(b) && General(b, u) < 256 && m.from != m.to
    requires b[m.to] != SideBase(u) + PIECE_JS
    ensures General(Apply(b, m), u) < 256
  {
    var g := General(b, u);
    var b' := Apply(b, m);
    var g': Square := if g == m.from then m.to else g;
    assert b'[g'] == SideBase(u) + PIECE_JS;
  }

  /** The enemy general is never captured, because the enemy is not in check. */
  lemma GeneralNotTaken(b: Board, t: Side, m: Move)
    requires Sane(b, t) && MayMove(b, t, m)
    ensures m.from != m.to && b[m.to] != SideBase(t) + PIECE_JS && b[m.to] != SideBase(Other(t)) + PIECE_JS
  {
    hide InCheck, PieceMove, InBoard, Facing, PlacedAt, Safe;
    CheckIsExact(b, Other(t));
    assert Other(Other(t)) == t;
    assert Attacks(b, t, m.from, m.to);
    assert m.to != General(b, Other(t));
  }

  /** Both generals stay on the board. */
  lemma GeneralsStay(b: Board, t: Side, m: Move)
    requires Sane(b, t) && MayMove(b, t, m)
    ensures Placed(Apply(b, m)) && Generals(Apply(b, m))
  {
    hide InCheck, PieceMove, InBoard, PlacedAt, General;
    GeneralNotTaken(b, t, m);
    OwnGeneralAfter(b, t, t, m);
    OwnGeneralAfter(b, t, Other(t), m);
    PlacedAfter(b, t, m);
  }

  /** Every move that is generated leaves both generals on the board, and the mover out of check. */
  lemma GeneralsSurvive(b: Board, t: Side, m: Move)
    requires Sane(b, t) && Legal(b, t, m)
    ensures Sane(Apply(b, m), Other(t))
  {
    hide InCheck, MayMove, Placed, Generals;
    GeneralsStay(b, t, m);
    assert Other(Other(t)) == t;
  }
}
