/** The move lists fit into the fixed arrays of the search: 128 entries for all moves
    and 64 for captures. */
module XqBounds {
  import opened Shared
  import opened XqBoard
  import opened XqMoves

  const MAX_MOVES := 128
  const MAX_EAT_MOVES := 64

  /** Pieces of each kind a side starts with. */
  const INITIAL := [1, 2, 2, 2, 2, 2, 5]

  function Places(b: Board, code: int): set<int> {
    set p: int | 0 <= p < 256 && b[p] == code
  }

  /** No side has more pieces of a kind than it started with. */
  ghost predicate AtMostInitial(b: Board) {
    forall t: Side, kind :: 0 <= kind < 7 ==> |Places(b, SideBase(t) + kind)| <= INITIAL[kind]
  }

  lemma CountShrinks(b: Board, m: Move, code: int)
    requires m.from != m.to && code != 0
    ensures |Places(Apply(b, m), code)| <= |Places(b, code)|
  {
    var before, after := Places(b, code), Places(Apply(b, m), code);
    if b[m.from] == code {
      assert after == (before - {m.from}) + {m.to};
    } else {
      assert after == before - {m.to};
    }
    CardinalityShrinks(after, before, m.from, m.to);
  }

  /** Moving and capturing never adds a piece, so the bound on their number is kept. */
  lemma CountsNeverGrow(b: Board, m: Move)
    requires AtMostInitial(b) && m.from != m.to
    ensures AtMostInitial(Apply(b, m))
  {
    hide Places, Apply;
    forall t: Side, kind | 0 <= kind < 7
      ensures |Places(Apply(b, m), SideBase(t) + kind)| <= INITIAL[kind]
    {
      CountShrinks(b, m, SideBase(t) + kind);
    }
  }

  lemma CardinalityShrinks(after: set<int>, before: set<int>, x: int, y: int)
    requires after == before - {y} || (x in before && after == (before - {x}) + {y})
    ensures |after| <= |before|
  {
    if after != before - {y} {
      assert |before - {x}| == |before| - 1;
    } else {
      SubsetCard(after, before);
    }
  }

  // ---- the longest list one piece can produce ----

  function Weight(kind: int, eat: bool): nat {
    if kind == PIECE_JS then 4
    else if kind == PIECE_SHI then 1
    else if kind == PIECE_XIANG then 4
    else if kind == PIECE_MA then 8
    else if kind == PIECE_JU || kind == PIECE_PAO then (if eat then 4 else 17)
    else if kind == PIECE_BZ then 3
    else 0
  }

  function WeightAt(b: Board, t: Side, p: Square, eat: bool): nat {
    if !IsOf(t, b[p]) then 0
    else Weight(b[p] - SideBase(t), eat) + (if b[p] == SideBase(t) + PIECE_SHI && PalaceCentre(p) then 3 else 0)
  }

  lemma {:induction false} StepsBound(b: Board, t: Side, kind: int, p: Square, i: nat, eat: bool)
    requires InBoard(p) && IsStepper(kind) && i <= StepCount(kind)
    ensures |GenSteps(b, t, kind, p, i, eat)| <= StepCount(kind) - i
    decreases StepCount(kind) - i
  {
    hide Safe, StepTo, StepOpen, Target, InBoard;
    if i < StepCount(kind) {
      StepsBound(b, t, kind, p, i + 1, eat);
    }
  }

  /** An advisor on a corner of its palace has one step, the one to the centre. */
  lemma CornerAdvisor(b: Board, t: Side, p: Square, eat: bool)
    requires InBoard(p) && InPalace(p) && AdvisorPoint(p) && !PalaceCentre(p)
    ensures |GenSteps(b, t, PIECE_SHI, p, 0, eat)| <= 1
  {
    hide Safe, Target;
    var s4 := GenSteps(b, t, PIECE_SHI, p, 4, eat);
    var s3 := GenSteps(b, t, PIECE_SHI, p, 3, eat);
    var s2 := GenSteps(b, t, PIECE_SHI, p, 2, eat);
    var s1 := GenSteps(b, t, PIECE_SHI, p, 1, eat);
    assert StepOpen(b, t, PIECE_SHI, p, 0) ==>
        !StepOpen(b, t, PIECE_SHI, p, 1) && !StepOpen(b, t, PIECE_SHI, p, 2) && !StepOpen(b, t, PIECE_SHI, p, 3);
    assert StepOpen(b, t, PIECE_SHI, p, 1) ==> !StepOpen(b, t, PIECE_SHI, p, 2) && !StepOpen(b, t, PIECE_SHI, p, 3);
    assert StepOpen(b, t, PIECE_SHI, p, 2) ==> !StepOpen(b, t, PIECE_SHI, p, 3);
    assert |s4| == 0;
  }

  lemma {:induction false} JuRayBound(b: Board, t: Side, p: Square, i: nat, n: nat, eat: bool)
    requires InBoard(p) && i < 4 && 0 < n && Line(p, i, n - 1)
    ensures |GenJuRay(b, t, p, i, n, eat)| <= (if eat then 1 else RayLength(p, i) - n + 1)
    decreases 256 - n
  {
    hide Safe, InCheck;
    RayStaysOnLine(p, i, n - 1);
    if InBoard(At(p, i, n)) {
      assert Line(p, i, n);
      RayStaysOnLine(p, i, n);
      if b[At(p, i, n)] == 0 {
        JuRayBound(b, t, p, i, n + 1, eat);
      }
    }
  }

  lemma {:induction false} PaoRayBound(b: Board, t: Side, p: Square, i: nat, n: nat, flag: bool, eat: bool)
    requires InBoard(p) && i < 4 && 0 < n && Line(p, i, n - 1)
    ensures |GenPaoRay(b, t, p, i, n, flag, eat)| <= (if eat then 1 else RayLength(p, i) - n + 1)
    decreases 256 - n
  {
    hide Safe, InCheck;
    RayStaysOnLine(p, i, n - 1);
    if InBoard(At(p, i, n)) {
      assert Line(p, i, n);
      RayStaysOnLine(p, i, n);
      if b[At(p, i, n)] == 0 {
        PaoRayBound(b, t, p, i, n + 1, flag, eat);
      } else if !flag {
        PaoRayBound(b, t, p, i, n + 1, true, eat);
      }
    }
  }

  lemma RaysBound(b: Board, t: Side, kind: int, p: Square, eat: bool)
    requires InBoard(p)
    ensures |GenRays(b, t, kind, p, 0, eat)| <= (if eat then 4 else 17)
  {
    hide Safe, GenJuRay, GenPaoRay;
    forall i: nat | i < 4
      ensures |GenJuRay(b, t, p, i, 1, eat)| <= (if eat then 1 else RayLength(p, i))
      ensures |GenPaoRay(b, t, p, i, 1, false, eat)| <= (if eat then 1 else RayLength(p, i))
    {
      assert Line(p, i, 0);
      JuRayBound(b, t, p, i, 1, eat);
      PaoRayBound(b, t, p, i, 1, false, eat);
    }
    assert RayLength(p, 0) + RayLength(p, 1) + RayLength(p, 2) + RayLength(p, 3) == 17;
    var r4 := GenRays(b, t, kind, p, 4, eat);
    var r3 := GenRays(b, t, kind, p, 3, eat);
    var r2 := GenRays(b, t, kind, p, 2, eat);
    var r1 := GenRays(b, t, kind, p, 1, eat);
    assert r4 == [];
  }

  lemma PieceBound(b: Board, t: Side, p: Square, eat: bool)
    requires InBoard(p) && PlacedAt(b[p], p)
    ensures |GenPiece(b, t, p, eat)| <= WeightAt(b, t, p, eat)
  {
    hide GenSteps, GenRays, InBoard, InPalace, AdvisorPoint, PalaceCentre;
    KindCode(b, t, p);
    var kind := b[p] - SideBase(t);
    if IsOf(t, b[p]) {
      if IsStepper(kind) {
        StepsBound(b, t, kind, p, 0, eat);
        if kind == PIECE_SHI && !PalaceCentre(p) {
          CornerAdvisor(b, t, p, eat);
        }
      } else {
        RaysBound(b, t, kind, p, eat);
      }
    }
  }

  // ---- summing over the board ----

  function PlacesFrom(b: Board, code: int, x: int, y: int): set<int> {
    set p: int | 0 <= p < 256 && NotBefore(x, y, p) && b[p] == code
  }

  /** Weighted number of the pieces of side t from square (x, y) on, kinds 0 to k - 1. */
  function KindSum(b: Board, t: Side, k: nat, x: int, y: int, eat: bool): nat
    requires k <= 7
  {
    if k == 0 then 0
    else KindSum(b, t, k - 1, x, y, eat) + Weight(k - 1, eat) * |PlacesFrom(b, SideBase(t) + k - 1, x, y)|
  }

  /** Advisors on the centre of their own palace, from square (x, y) on. */
  function CentreSum(b: Board, t: Side, x: int, y: int): nat {
    var c := if t == RED then 183 else 71;
    if NotBefore(x, y, c) && b[c] == SideBase(t) + PIECE_SHI then 3 else 0
  }

  lemma PlacesStep(b: Board, code: int, x: int, y: int)
    requires 3 <= x <= 11 && 3 <= y <= 12
    ensures |PlacesFrom(b, code, x, y)| ==
              |PlacesFrom(b, code, x, y + 1)| + (if b[SquareOf(x, y)] == code then 1 else 0)
  {
    var p := SquareOf(x, y);
    var here, rest := PlacesFrom(b, code, x, y), PlacesFrom(b, code, x, y + 1);
    forall q: int | 0 <= q < 256
      ensures NotBefore(x, y, q) <==> NotBefore(x, y + 1, q) || q == p
    {
    }
    assert p !in rest;
    if b[p] == code {
      assert here == rest + {p};
    } else {
      assert here == rest;
    }
  }

  lemma PlacesTurn(b: Board, code: int, x: int)
    requires 3 <= x <= 11
    ensures PlacesFrom(b, code, x, 13) == PlacesFrom(b, code, x + 1, 3)
  {
    forall q: int | 0 <= q < 256
      ensures NotBefore(x, 13, q) <==> NotBefore(x + 1, 3, q)
    {
    }
  }

  lemma {:induction false} KindSumStep(b: Board, t: Side, k: nat, x: int, y: int, eat: bool)
    requires 3 <= x <= 11 && 3 <= y <= 12 && k <= 7
    ensures KindSum(b, t, k, x, y, eat) ==
            KindSum(b, t, k, x, y + 1, eat) +
            (if 0 <= b[SquareOf(x, y)] - SideBase(t) < k then Weight(b[SquareOf(x, y)] - SideBase(t), eat) else 0)
  {
    hide PlacesFrom, Weight, SquareOf;
    if k > 0 {
      KindSumStep(b, t, k - 1, x, y, eat);
      PlacesStep(b, SideBase(t) + k - 1, x, y);
      var w, n := Weight(k - 1, eat), |PlacesFrom(b, SideBase(t) + k - 1, x, y + 1)|;
      assert w * (n + 1) == w * n + w;
    }
  }

  lemma {:induction false} KindSumTurn(b: Board, t: Side, k: nat, x: int, eat: bool)
    requires 3 <= x <= 11 && k <= 7
    ensures KindSum(b, t, k, x, 13, eat) == KindSum(b, t, k, x + 1, 3, eat)
  {
    if k > 0 {
      KindSumTurn(b, t, k - 1, x, eat);
      PlacesTurn(b, SideBase(t) + k - 1, x);
    }
  }

  lemma CentreStep(b: Board, t: Side, x: int, y: int)
    requires 3 <= x <= 11 && 3 <= y <= 12 && PlacedAt(b[SquareOf(x, y)], SquareOf(x, y))
    ensures CentreSum(b, t, x, y) == CentreSum(b, t, x, y + 1) +
            (if b[SquareOf(x, y)] == SideBase(t) + PIECE_SHI && PalaceCentre(SquareOf(x, y)) then 3 else 0)
  {
  }

  lemma SquareBound(b: Board, t: Side, x: int, y: int, eat: bool)
    requires 3 <= x <= 11 && 3 <= y <= 12 && PlacedAt(b[SquareOf(x, y)], SquareOf(x, y))
    ensures |GenPiece(b, t, SquareOf(x, y), eat)| + KindSum(b, t, 7, x, y + 1, eat) + CentreSum(b, t, x, y + 1)
            <= KindSum(b, t, 7, x, y, eat) + CentreSum(b, t, x, y)
  {
    hide GenPiece, Weight, KindSum, PlacedAt, PalaceCentre, InBoard, SquareOf, CentreSum;
    KindCode(b, t, SquareOf(x, y));
    PieceBound(b, t, SquareOf(x, y), eat);
    KindSumStep(b, t, 7, x, y, eat);
    CentreStep(b, t, x, y);
  }

  lemma {:induction false} FromBound(b: Board, t: Side, x: int, y: int, eat: bool)
    requires forall q: Square :: PlacedAt(b[q], q)
    requires 3 <= x <= 12 && 3 <= y <= 13
    ensures |GenFrom(b, t, x, y, eat)| <= KindSum(b, t, 7, x, y, eat) + CentreSum(b, t, x, y)
    decreases 12 - x, 13 - y
  {
    hide GenPiece, KindSum, CentreSum, PlacedAt, InBoard, SquareOf;
    if x < 12 {
      if y == 13 {
        FromBound(b, t, x + 1, 3, eat);
        KindSumTurn(b, t, 7, x, eat);
        CentreTurn(b, t, x);
      } else {
        assert PlacedAt(b[SquareOf(x, y)], SquareOf(x, y));
        SquareBound(b, t, x, y, eat);
        FromBound(b, t, x, y + 1, eat);
      }
    }
  }

  lemma CentreTurn(b: Board, t: Side, x: int)
    requires 3 <= x <= 11
    ensures CentreSum(b, t, x, 13) == CentreSum(b, t, x + 1, 3)
  {
  }

  lemma KindTotal(b: Board, t: Side, k: nat, eat: bool, sum: nat)
    requires 1 <= k <= 7 && |PlacesFrom(b, SideBase(t) + k - 1, 3, 3)| <= INITIAL[k - 1]
    requires k == 1 || KindSum(b, t, k - 1, 3, 3, eat) <= sum
    ensures KindSum(b, t, k, 3, 3, eat) <= sum + Weight(k - 1, eat) * INITIAL[k - 1]
  {
    hide PlacesFrom;
    var w, n := Weight(k - 1, eat), |PlacesFrom(b, SideBase(t) + k - 1, 3, 3)|;
    assert w * n <= w * INITIAL[k - 1];
    assert KindSum(b, t, 0, 3, 3, eat) == 0;
  }

  lemma WeightedTotal(b: Board, t: Side, eat: bool)
    requires AtMostInitial(b)
    ensures KindSum(b, t, 7, 3, 3, eat) <= (if eat then 61 else 113)
  {
    forall kind | 0 <= kind < 7
      ensures |PlacesFrom(b, SideBase(t) + kind, 3, 3)| <= INITIAL[kind]
    {
      SubsetCard(PlacesFrom(b, SideBase(t) + kind, 3, 3), Places(b, SideBase(t) + kind));
    }
    hide PlacesFrom, KindSum;
    KindTotal(b, t, 1, eat, 0);
    KindTotal(b, t, 2, eat, 4);
    KindTotal(b, t, 3, eat, 6);
    KindTotal(b, t, 4, eat, 14);
    KindTotal(b, t, 5, eat, 30);
    KindTotal(b, t, 6, eat, if eat then 38 else 64);
    KindTotal(b, t, 7, eat, if eat then 46 else 98);
  }

  /** The lists fit: at most 128 moves and at most 64 captures, whatever the position. */
  lemma ListsFit(b: Board, t: Side, eat: bool)
    requires AtMostInitial(b) && forall q: Square :: PlacedAt(b[q], q)
    ensures |AllMoves(b, t, eat)| <= (if eat then MAX_EAT_MOVES else MAX_MOVES)
  {
    hide GenFrom, KindSum;
    FromBound(b, t, 3, 3, eat);
    WeightedTotal(b, t, eat);
  }

  // ---- whole games ----

  /** The rows of `init_board`, from the left to the right. */
  const BACK_ROW := [PIECE_JU, PIECE_MA, PIECE_XIANG, PIECE_SHI, PIECE_JS, PIECE_SHI, PIECE_XIANG, PIECE_MA, PIECE_JU]

  /** `init_board` at one square. */
  function InitialCode(p: Square): int {
    var row, c := p / 16, p % 16 - 3;
    if c < 0 || c > 8 then 0
    else if row == 3 then SideBase(BLACK) + BACK_ROW[c]
    else if row == 5 then if c == 1 || c == 7 then SideBase(BLACK) + PIECE_PAO else 0
    else if row == 6 then if c % 2 == 0 then SideBase(BLACK) + PIECE_BZ else 0
    else if row == 9 then if c % 2 == 0 then SideBase(RED) + PIECE_BZ else 0
    else if row == 10 then if c == 1 || c == 7 then SideBase(RED) + PIECE_PAO else 0
    else if row == 12 then SideBase(RED) + BACK_ROW[c]
    else 0
  }

  function InitBoard(): Board { seq(256, p requires 0 <= p < 256 => InitialCode(p)) }

  /** The squares of a piece at the start. */
  function StartSquares(t: Side, kind: int): set<int>
    requires 0 <= kind < 7
  {
    var back := if t == RED then 195 else 51;
    if kind == PIECE_JS then {back + 4}
    else if kind == PIECE_SHI then {back + 3, back + 5}
    else if kind == PIECE_XIANG then {back + 2, back + 6}
    else if kind == PIECE_MA then {back + 1, back + 7}
    else if kind == PIECE_JU then {back, back + 8}
    else if kind == PIECE_PAO then if t == RED then {164, 170} else {84, 90}
    else if t == RED then {147, 149, 151, 153, 155} else {99, 101, 103, 105, 107}
  }

  lemma StartPlaces(t: Side, kind: int)
    requires 0 <= kind < 7
    ensures Places(InitBoard(), SideBase(t) + kind) <= StartSquares(t, kind)
    ensures |StartSquares(t, kind)| <= INITIAL[kind]
  {
    forall p | p in Places(InitBoard(), SideBase(t) + kind) ensures p in StartSquares(t, kind) {
      assert InitBoard()[p] == InitialCode(p);
    }
  }

  /** The game begins in a sane position with the pieces that each side has. */
  lemma StartIsSane()
    ensures Sane(InitBoard(), RED) && AtMostInitial(InitBoard())
  {
    var b := InitBoard();
    forall t: Side, kind | 0 <= kind < 7 ensures |Places(b, SideBase(t) + kind)| <= INITIAL[kind] {
      StartPlaces(t, kind);
      SubsetCard(Places(b, SideBase(t) + kind), StartSquares(t, kind));
    }
    StartIsPlaced();
    StartIsQuiet();
  }

  lemma StartIsPlaced()
    ensures Placed(InitBoard()) && Generals(InitBoard()) && General(InitBoard(), BLACK) == 55
  {
    var b := InitBoard();
    forall p: Square ensures PlacedAt(b[p], p) { assert b[p] == InitialCode(p); }
    assert b[55] == SideBase(BLACK) + PIECE_JS && b[199] == SideBase(RED) + PIECE_JS;
    forall t: Side, p: Square | b[p] == SideBase(t) + PIECE_JS ensures p == if t == RED then 199 else 55 {
      assert b[p] == InitialCode(p);
    }
  }

  lemma StartIsQuiet()
    ensures !InCheck(InitBoard(), BLACK)
  {
    var b := InitBoard();
    StartIsPlaced();
    AroundGeneral();
    hide InitBoard, InitialCode, JuJsHit, PaoHit, General;
    assert !CheckByMa(b, 55, BLACK) && !CheckByBz(b, 55, BLACK);
    forall i | 0 <= i < 4 ensures !JuJsHit(b, 55, i, 1, SideBase(RED)) && !PaoHit(b, 55, i, 1, false, SideBase(RED)) {
      if i == 3 { DownTheFile(); } else { AlongTheRow(i); }
    }
  }

  /** Its advisors are beside it, and behind it the board ends. */
  lemma AlongTheRow(i: nat)
    requires i < 3
    ensures !JuJsHit(InitBoard(), 55, i, 1, SideBase(RED)) && !PaoHit(InitBoard(), 55, i, 1, false, SideBase(RED))
  {
    var b := InitBoard();
    AroundGeneral();
    hide InitBoard, InitialCode;
    assert PaoHit(b, 55, i, 2, true, SideBase(RED)) == false;
  }

  /** What stands near the black general. */
  lemma AroundGeneral()
    ensures var b := InitBoard();
            b[54] == 17 && b[56] == 17 && b[53] == 18 && b[57] == 18 && b[39] == 0 && b[71] == 0 && b[70] == 0 &&
            b[72] == 0 && forall i :: 0 <= i < 8 ==> b[55 + MA_MOVE[i]] != SideBase(RED) + PIECE_MA
  {
    var b := InitBoard();
    assert forall p: Square :: b[p] == InitialCode(p);
  }

  /** Its own pawn is the first piece in front of it, and a red pawn the second. */
  lemma DownTheFile()
    ensures !JuJsHit(InitBoard(), 55, 3, 1, SideBase(RED)) && !PaoHit(InitBoard(), 55, 3, 1, false, SideBase(RED))
  {
    var b := InitBoard();
    var opp := SideBase(RED);
    assert forall p: Square :: b[p] == InitialCode(p);
    assert b[71] == 0 && b[87] == 0 && b[103] == 22 && b[119] == 0 && b[135] == 0 && b[151] == 14;
    hide InitBoard, InitialCode;
    assert JuJsHit(b, 55, 3, 3, opp) == false;
    assert JuJsHit(b, 55, 3, 2, opp) == false;
    assert PaoHit(b, 55, 3, 6, true, opp) == false;
    assert PaoHit(b, 55, 3, 5, true, opp) == false;
    assert PaoHit(b, 55, 3, 4, true, opp) == false;
    assert PaoHit(b, 55, 3, 3, false, opp) == false;
    assert PaoHit(b, 55, 3, 2, false, opp) == false;
  }

  /** The board after some moves, the sides taking turns; red begins. */
  function PositionAfter(ms: seq<Move>): Board {
    if ms == [] then InitBoard() else Apply(PositionAfter(ms[..|ms| - 1]), ms[|ms| - 1])
  }

  function ToMove(n: nat): Side { if n % 2 == 0 then RED else BLACK }

  ghost predicate Game(ms: seq<Move>) {
    forall i :: 0 <= i < |ms| ==> Legal(PositionAfter(ms[..i]), ToMove(i), ms[i])
  }

  lemma MoveStaysSane(b: Board, t: Side, m: Move)
    requires Sane(b, t) && AtMostInitial(b) && Legal(b, t, m)
    ensures Sane(Apply(b, m), Other(t)) && AtMostInitial(Apply(b, m))
  {
    GeneralsSurvive(b, t, m);
    GeneralNotTaken(b, t, m);
    hide Sane, Legal, AtMostInitial;
    CountsNeverGrow(b, m);
  }

  /** Every position of every game is sane, and no side has more pieces than at the start. */
  lemma {:induction false} GamesStaySane(ms: seq<Move>)
    requires Game(ms)
    ensures Sane(PositionAfter(ms), ToMove(|ms|)) && AtMostInitial(PositionAfter(ms))
    decreases |ms|
  {
    hide Sane, AtMostInitial, Legal, Apply, InitBoard;
    if ms == [] {
      StartIsSane();
    } else {
      var n := |ms| - 1;
      assert Legal(PositionAfter(ms[..n]), ToMove(n), ms[n]);
      assert Game(ms[..n]) by {
        forall i | 0 <= i < n ensures Legal(PositionAfter(ms[..n][..i]), ToMove(i), ms[..n][i]) {
          assert ms[..n][..i] == ms[..i];
        }
      }
      GamesStaySane(ms[..n]);
      MoveStaysSane(PositionAfter(ms[..n]), ToMove(n), ms[n]);
    }
  }
}
