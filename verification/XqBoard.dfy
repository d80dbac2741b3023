/** The chess board of the xiangqi program: squares, pieces, piece moves and check.
    A square is an index into the 16 x 16 array `m_board`; the playing area is
    rows 3..12 and columns 3..11 of it. */
module XqBoard {

  const RED := 0
  const BLACK := 1

  const PIECE_JS := 0
  const PIECE_SHI := 1
  const PIECE_XIANG := 2
  const PIECE_MA := 3
  const PIECE_JU := 4
  const PIECE_PAO := 5
  const PIECE_BZ := 6

  const JS_MOVE := [-1, 1, -16, 16]
  const SHI_MOVE := [-15, -17, 15, 17]
  const XIANG_MOVE := [-30, -34, 30, 34]
  const XIANG_EYE := [-15, -17, 15, 17]
  const MA_MOVE := [-31, -33, -14, -18, 31, 33, 14, 18]
  const MA_LEG := [-16, -16, 1, -1, 16, 16, -1, 1]
  const JS_MA_LEG := [-15, -17, -15, -17, 15, 17, 15, 17]

  type Square = p: int | 0 <= p < 256
  type Board = b: seq<int> | |b| == 256 witness seq(256, i => 0)
  type Side = t: int | t == RED || t == BLACK

  datatype Move = Move(from: Square, to: Square)

  /** `in_qipan`: the square belongs to the playing area. */
  predicate InBoard(p: int)
    ensures InBoard(p) ==> 51 <= p <= 203
  {
    0 <= p < 256 && 3 <= p / 16 <= 12 && 3 <= p % 16 <= 11
  }

  /** `in_jiugong`: the square belongs to one of the two palaces. */
  predicate InPalace(p: int)
    ensures InPalace(p) ==> InBoard(p)
  {
    0 <= p < 256 && (3 <= p / 16 <= 5 || 10 <= p / 16 <= 12) && 6 <= p % 16 <= 8
  }

  predicate AtSelfSide(t: Side, p: int) { if t == RED then p > 128 else p < 128 }

  predicate AtOppositeSide(t: Side, p: int) { if t == RED then p < 128 else p > 128 }

  function Forward(t: Side, p: int): int { if t == RED then p - 16 else p + 16 }

  function Other(t: Side): Side { 1 - t }

  /** Code of the piece kind 0 of a side; the other kinds follow it. */
  function SideBase(t: Side): int { 8 + t * 8 }

  /** The bit test of `is_self_piece`: bit 3 marks red pieces and bit 4 black ones. */
  predicate IsOf(t: Side, code: int) {
    if t == RED then (code / 8) % 2 == 1 else (code / 16) % 2 == 1
  }

  predicate ValidCode(code: int) { code == 0 || 8 <= code <= 14 || 16 <= code <= 22 }

  /** The piece kind that the switch of `can_piece_move` selects; -1 for the default branch. */
  function KindOf(code: int): int {
    if 8 <= code <= 14 then code - 8 else if 16 <= code <= 22 then code - 16 else -1
  }

  // ---- rays ----

  /** The square n steps away from p in direction i of `js_move`. */
  function At(p: int, i: nat, n: int): int
    requires i < 4
  {
    if i == 0 then p - n else if i == 1 then p + n else if i == 2 then p - 16 * n else p + 16 * n
  }

  function Opposite(i: nat): nat
    requires i < 4
  {
    [1, 0, 3, 2][i]
  }

  /** The first n squares after p in direction i belong to the board. */
  ghost predicate Line(p: int, i: nat, n: int)
    requires i < 4
  {
    forall k :: 0 <= k <= n ==> InBoard(At(p, i, k))
  }

  /** No piece stands strictly between p and the square n steps away. */
  ghost predicate Clear(b: Board, p: int, i: nat, n: int)
    requires i < 4 && Line(p, i, n)
  {
    forall k :: 0 < k < n ==> b[At(p, i, k)] == 0
  }

  /** Exactly one piece, s steps away, stands strictly between p and the square n steps away. */
  ghost predicate ScreenAt(b: Board, p: int, i: nat, n: int, s: int)
    requires i < 4 && Line(p, i, n)
  {
    0 < s < n && b[At(p, i, s)] != 0 && forall k :: 0 < k < n && k != s ==> b[At(p, i, k)] == 0
  }

  lemma ReverseRay(p: int, i: nat, n: int)
    requires i < 4
    requires 0 <= n && Line(p, i, n)
    ensures Opposite(i) < 4 && Opposite(Opposite(i)) == i
    ensures At(At(p, i, n), Opposite(i), n) == p
    ensures forall k :: 0 <= k <= n ==> At(At(p, i, n), Opposite(i), k) == At(p, i, n - k)
    ensures Line(At(p, i, n), Opposite(i), n)
  {
    forall k | 0 <= k <= n
      ensures At(At(p, i, n), Opposite(i), k) == At(p, i, n - k)
      ensures InBoard(At(p, i, n - k))
    {
    }
  }

  // ---- piece moves ----

  ghost predicate StepReach(table: seq<int>, from: int, to: int) {
    exists i :: 0 <= i < |table| && from + table[i] == to
  }

  ghost predicate XiangReach(b: Board, t: Side, from: Square, to: Square)
    requires InBoard(from)
  {
    InBoard(to) && AtSelfSide(t, to) &&
    exists i :: 0 <= i < 4 && from + XIANG_MOVE[i] == to && b[from + XIANG_EYE[i]] == 0
  }

  ghost predicate MaReach(b: Board, from: Square, to: Square)
    requires InBoard(from)
  {
    InBoard(to) &&
    exists i :: 0 <= i < 8 && from + MA_MOVE[i] == to && b[from + MA_LEG[i]] == 0
  }

  /** The chariot crosses only empty squares of a row or column. */
  ghost predicate JuReach(b: Board, from: Square, to: Square) {
    exists i: nat, n: int :: i < 4 && 0 < n && Line(from, i, n) && At(from, i, n) == to && Clear(b, from, i, n)
  }

  /** The cannon moves like the chariot to an empty square and captures over exactly one piece. */
  ghost predicate PaoReach(b: Board, from: Square, to: Square) {
    exists i: nat, n: int :: i < 4 && 0 < n && Line(from, i, n) && At(from, i, n) == to &&
                             (if b[to] == 0 then Clear(b, from, i, n)
                              else exists s :: ScreenAt(b, from, i, n, s))
  }

  ghost predicate BzReach(t: Side, from: Square, to: Square) {
    InBoard(to) &&
    ((AtOppositeSide(t, to) && (to + 1 == from || to - 1 == from)) || Forward(t, from) == to)
  }

  /** What `can_piece_move` decides for side t, in board terms. */
  ghost predicate PieceMove(b: Board, t: Side, from: Square, to: Square)
    requires InBoard(from)
  {
    var kind := KindOf(b[from]);
    if kind == PIECE_JS then InPalace(to) && StepReach(JS_MOVE, from, to)
    else if kind == PIECE_SHI then InPalace(to) && StepReach(SHI_MOVE, from, to)
    else if kind == PIECE_XIANG then XiangReach(b, t, from, to)
    else if kind == PIECE_MA then MaReach(b, from, to)
    else if kind == PIECE_JU then JuReach(b, from, to)
    else if kind == PIECE_PAO then PaoReach(b, from, to)
    else if kind == PIECE_BZ then BzReach(t, from, to)
    else false
  }

  // ---- check, by looking back from the general's square ----

  function FindPiece(b: Board, code: int, p: int): (g: int)
    requires 0 <= p <= 256
    ensures p <= g <= 256
    ensures g < 256 ==> b[g] == code
    ensures forall q :: p <= q < g ==> b[q] != code
    decreases 256 - p
  {
    if p == 256 || b[p] == code then p else FindPiece(b, code, p + 1)
  }

  function General(b: Board, t: Side): int { FindPiece(b, SideBase(t) + PIECE_JS, 0) }

  function JuJsHit(b: Board, g: int, i: nat, n: nat, opp: int): bool
    requires i < 4 && InBoard(g)
    decreases 256 - n
  {
    var to := At(g, i, n);
    if !InBoard(to) then false
    else if b[to] == 0 then JuJsHit(b, g, i, n + 1, opp)
    else b[to] == opp + PIECE_JU || b[to] == opp + PIECE_JS
  }

  function PaoHit(b: Board, g: int, i: nat, n: nat, flag: bool, opp: int): bool
    requires i < 4 && InBoard(g)
    decreases 256 - n
  {
    var to := At(g, i, n);
    if !InBoard(to) then false
    else if b[to] == 0 then PaoHit(b, g, i, n + 1, flag, opp)
    else if !flag then PaoHit(b, g, i, n + 1, true, opp)
    else b[to] == opp + PIECE_PAO
  }

  predicate CheckByJuJs(b: Board, g: int, t: Side)
    requires InBoard(g)
  {
    exists i :: 0 <= i < 4 && JuJsHit(b, g, i, 1, SideBase(Other(t)))
  }

  predicate CheckByMa(b: Board, g: int, t: Side)
    requires InBoard(g)
  {
    exists i :: 0 <= i < 8 && b[g + MA_MOVE[i]] == SideBase(Other(t)) + PIECE_MA && b[JS_MA_LEG[i] + g] == 0
  }

  predicate CheckByPao(b: Board, g: int, t: Side)
    requires InBoard(g)
  {
    exists i :: 0 <= i < 4 && PaoHit(b, g, i, 1, false, SideBase(Other(t)))
  }

  predicate CheckByBz(b: Board, g: int, t: Side)
    requires InBoard(g)
  {
    var bz := SideBase(Other(t)) + PIECE_BZ;
    b[Forward(t, g)] == bz || b[g + 1] == bz || b[g - 1] == bz
  }

  /** `is_jiangjun` for a side whose general is on the board. */
  predicate InCheck(b: Board, t: Side) {
    var g := General(b, t);
    InBoard(g) && (CheckByJuJs(b, g, t) || CheckByMa(b, g, t) || CheckByPao(b, g, t) || CheckByBz(b, g, t))
  }

  // ---- placement ----

  /** Rows 10..12 for red and 3..5 for black. */
  predicate InOwnPalace(t: Side, p: int) { InPalace(p) && AtSelfSide(t, p) }

  /** The centre of a palace; from the other four points of an advisor only the centre is one step away. */
  predicate PalaceCentre(p: int) { p == 71 || p == 183 }

  predicate AdvisorPoint(p: int) {
    PalaceCentre(p) || p - 15 == 71 || p - 17 == 71 || p + 15 == 71 || p + 17 == 71 ||
    p - 15 == 183 || p - 17 == 183 || p + 15 == 183 || p + 17 == 183
  }

  predicate PlacedAt(code: int, p: Square) {
    ValidCode(code) &&
    (code != 0 ==> InBoard(p)) &&
    (code == SideBase(RED) + PIECE_JS ==> InOwnPalace(RED, p)) &&
    (code == SideBase(BLACK) + PIECE_JS ==> InOwnPalace(BLACK, p)) &&
    (code == SideBase(RED) + PIECE_SHI ==> InOwnPalace(RED, p) && AdvisorPoint(p)) &&
    (code == SideBase(BLACK) + PIECE_SHI ==> InOwnPalace(BLACK, p) && AdvisorPoint(p)) &&
    (code == SideBase(RED) + PIECE_XIANG ==> AtSelfSide(RED, p)) &&
    (code == SideBase(BLACK) + PIECE_XIANG ==> AtSelfSide(BLACK, p))
  }

  /** Pieces stand where the rules can have brought them, and no side has two generals. */
  ghost predicate Placed(b: Board) {
    (forall p: Square :: PlacedAt(b[p], p)) &&
    (forall t: Side, p: Square, q: Square ::
       b[p] == SideBase(t) + PIECE_JS && b[q] == SideBase(t) + PIECE_JS ==> p == q)
  }

  /** Both generals are on the board. */
  predicate Generals(b: Board) { General(b, RED) < 256 && General(b, BLACK) < 256 }

  lemma GeneralPlace(b: Board, t: Side)
    requires Placed(b) && General(b, t) < 256
    ensures InOwnPalace(t, General(b, t)) && b[General(b, t)] == SideBase(t) + PIECE_JS
  {
    var g := General(b, t);
    assert PlacedAt(b[g], g);
  }

  // ---- check is exactly an attack on the general, or the generals facing each other ----

  ghost predicate Attacks(b: Board, t: Side, from: Square, to: Square) {
    InBoard(from) && IsOf(t, b[from]) && PieceMove(b, t, from, to)
  }

  /** The two generals stand on one row or column with nothing between them. */
  ghost predicate Facing(b: Board) {
    Generals(b) && JuReach(b, General(b, RED), General(b, BLACK))
  }

  /** The first piece seen from g in direction i is an enemy chariot or general, n squares away. */
  ghost predicate JuJsSeen(b: Board, g: int, i: nat, n: int, opp: int)
    requires i < 4
  {
    0 < n && Line(g, i, n) && Clear(b, g, i, n) &&
    (b[At(g, i, n)] == opp + PIECE_JU || b[At(g, i, n)] == opp + PIECE_JS)
  }

  /** The second piece seen from g in direction i is an enemy cannon, n squares away. */
  ghost predicate PaoSeen(b: Board, g: int, i: nat, n: int, opp: int)
    requires i < 4
  {
    0 < n && Line(g, i, n) && b[At(g, i, n)] == opp + PIECE_PAO && exists s :: ScreenAt(b, g, i, n, s)
  }

  lemma {:induction false} JuJsHitMeaning(b: Board, g: int, i: nat, n: int, opp: int)
    requires i < 4 && 0 < n && InBoard(g) && Line(g, i, n - 1)
    requires forall k :: 0 < k < n ==> b[At(g, i, k)] == 0
    requires opp > 0
    ensures JuJsHit(b, g, i, n, opp) <==>
            exists m :: n <= m && JuJsSeen(b, g, i, m, opp)
    decreases 256 - n
  {
    var to := At(g, i, n);
    if InBoard(to) {
      assert Line(g, i, n);
      if b[to] == 0 {
        JuJsHitMeaning(b, g, i, n + 1, opp);
      } else {
        assert (b[to] == opp + PIECE_JU || b[to] == opp + PIECE_JS) ==> JuJsSeen(b, g, i, n, opp);
        forall m | n < m
          ensures !JuJsSeen(b, g, i, m, opp)
        {
        }
      }
    }
  }

  lemma {:induction false} PaoHitOver(b: Board, g: int, i: nat, n: int, s: int, opp: int)
    requires i < 4 && 0 < s < n && InBoard(g) && Line(g, i, n - 1)
    requires b[At(g, i, s)] != 0
    requires forall k :: 0 < k < n && k != s ==> b[At(g, i, k)] == 0
    requires opp > 0
    ensures PaoHit(b, g, i, n, true, opp) <==> exists m :: n <= m && PaoSeen(b, g, i, m, opp)
    decreases 256 - n
  {
    var to := At(g, i, n);
    if InBoard(to) {
      assert Line(g, i, n) && ScreenAt(b, g, i, n, s);
      if b[to] == 0 {
        PaoHitOver(b, g, i, n + 1, s, opp);
      } else {
        assert (b[to] == opp + PIECE_PAO ==> PaoSeen(b, g, i, n, opp));
        forall m | n < m
          ensures !PaoSeen(b, g, i, m, opp)
        {
        }
      }
    }
  }

  lemma {:induction false} PaoHitMeaning(b: Board, g: int, i: nat, n: int, opp: int)
    requires i < 4 && 0 < n && InBoard(g) && Line(g, i, n - 1)
    requires forall k :: 0 < k < n ==> b[At(g, i, k)] == 0
    requires opp > 0
    ensures PaoHit(b, g, i, n, false, opp) <==> exists m :: n <= m && PaoSeen(b, g, i, m, opp)
    decreases 256 - n
  {
    var to := At(g, i, n);
    if InBoard(to) {
      assert Line(g, i, n);
      forall s ensures !ScreenAt(b, g, i, n, s) {
      }
      if b[to] == 0 {
        PaoHitMeaning(b, g, i, n + 1, opp);
      } else {
        PaoHitOver(b, g, i, n + 1, n, opp);
      }
    }
  }

  lemma ClearReversed(b: Board, p: int, i: nat, n: int)
    requires i < 4 && 0 < n && Line(p, i, n) && Clear(b, p, i, n)
    ensures Opposite(i) < 4 && Line(At(p, i, n), Opposite(i), n) && Clear(b, At(p, i, n), Opposite(i), n)
    ensures At(At(p, i, n), Opposite(i), n) == p
  {
    ReverseRay(p, i, n);
    forall k | 0 < k < n
      ensures b[At(At(p, i, n), Opposite(i), k)] == 0
    {
      assert b[At(p, i, n - k)] == 0;
    }
  }

  lemma ScreenReversed(b: Board, p: int, i: nat, n: int, s: int)
    requires i < 4 && 0 < n && Line(p, i, n) && ScreenAt(b, p, i, n, s)
    ensures Opposite(i) < 4 && Line(At(p, i, n), Opposite(i), n)
    ensures ScreenAt(b, At(p, i, n), Opposite(i), n, n - s)
    ensures At(At(p, i, n), Opposite(i), n) == p
  {
    ReverseRay(p, i, n);
    forall k | 0 < k < n && k != n - s
      ensures b[At(At(p, i, n), Opposite(i), k)] == 0
    {
      assert b[At(p, i, n - k)] == 0;
    }
  }

  /** A chariot (or a facing general) is seen from g exactly when it could move to g. */
  lemma JuSymmetric(b: Board, from: Square, to: Square)
    requires JuReach(b, from, to)
    ensures JuReach(b, to, from)
  {
    var i: nat, n: int :| i < 4 && 0 < n && Line(from, i, n) && At(from, i, n) == to && Clear(b, from, i, n);
    ClearReversed(b, from, i, n);
  }

  lemma CheckByJuJsMeaning(b: Board, g: Square, t: Side)
    requires InBoard(g)
    ensures CheckByJuJs(b, g, t) <==>
            exists from: Square :: JuReach(b, from, g) &&
              (b[from] == SideBase(Other(t)) + PIECE_JU || b[from] == SideBase(Other(t)) + PIECE_JS)
  {
    var opp := SideBase(Other(t));
    if CheckByJuJs(b, g, t) {
      var i :| 0 <= i < 4 && JuJsHit(b, g, i, 1, opp);
      JuJsHitMeaning(b, g, i, 1, opp);
      var m :| 1 <= m && JuJsSeen(b, g, i, m, opp);
      JuSymmetric(b, g, At(g, i, m));
    }
    forall from: Square | JuReach(b, from, g) && (b[from] == opp + PIECE_JU || b[from] == opp + PIECE_JS)
      ensures CheckByJuJs(b, g, t)
    {
      JuSymmetric(b, from, g);
      var i: nat, n: int :| i < 4 && 0 < n && Line(g, i, n) && At(g, i, n) == from && Clear(b, g, i, n);
      assert JuJsSeen(b, g, i, n, opp);
      JuJsHitMeaning(b, g, i, 1, opp);
    }
  }

  lemma CheckByPaoMeaning(b: Board, g: Square, t: Side)
    requires InBoard(g) && b[g] != 0
    ensures CheckByPao(b, g, t) <==>
            exists from: Square :: PaoReach(b, from, g) && b[from] == SideBase(Other(t)) + PIECE_PAO
  {
    var opp := SideBase(Other(t));
    if CheckByPao(b, g, t) {
      var i :| 0 <= i < 4 && PaoHit(b, g, i, 1, false, opp);
      PaoHitMeaning(b, g, i, 1, opp);
      var m :| 1 <= m && PaoSeen(b, g, i, m, opp);
      var s :| ScreenAt(b, g, i, m, s);
      ScreenReversed(b, g, i, m, s);
      assert PaoReach(b, At(g, i, m), g);
    }
    forall from: Square | PaoReach(b, from, g) && b[from] == opp + PIECE_PAO
      ensures CheckByPao(b, g, t)
    {
      var i: nat, n: int :| i < 4 && 0 < n && Line(from, i, n) && At(from, i, n) == g &&
                            exists s :: ScreenAt(b, from, i, n, s);
      var s :| ScreenAt(b, from, i, n, s);
      ScreenReversed(b, from, i, n, s);
      assert PaoSeen(b, g, Opposite(i), n, opp);
      PaoHitMeaning(b, g, Opposite(i), 1, opp);
    }
  }

  /** Index of the horse jump opposite to jump i. */
  function MaBack(i: nat): nat
    requires i < 8
  {
    [4, 5, 6, 7, 0, 1, 2, 3][i]
  }

  /** Looking back along jump i from g finds the jump that leads from there to g, and its leg. */
  lemma MaJumpsReverse(g: int, i: nat)
    requires i < 8
    ensures MaBack(i) < 8 && g + MA_MOVE[i] + MA_MOVE[MaBack(i)] == g
    ensures g + MA_MOVE[i] + MA_LEG[MaBack(i)] == JS_MA_LEG[i] + g
  {
  }

  /** Some piece of this kind of side t has a `can_piece_move` onto g. */
  ghost predicate AttackedBy(b: Board, t: Side, kind: int, g: Square) {
    exists from: Square :: Attacks(b, t, from, g) && KindOf(b[from]) == kind
  }

  lemma KindCode(b: Board, t: Side, p: Square)
    requires PlacedAt(b[p], p)
    ensures IsOf(t, b[p]) <==> SideBase(t) <= b[p] <= SideBase(t) + PIECE_BZ
    ensures IsOf(t, b[p]) ==> InBoard(p) && KindOf(b[p]) == b[p] - SideBase(t)
  {
  }

  lemma MaAttack(b: Board, g: Square, t: Side)
    requires InBoard(g) && forall p: Square :: PlacedAt(b[p], p)
    ensures CheckByMa(b, g, t) <==> AttackedBy(b, Other(t), PIECE_MA, g)
  {
    var ma := SideBase(Other(t)) + PIECE_MA;
    forall i | 0 <= i < 8 && b[g + MA_MOVE[i]] == ma && b[JS_MA_LEG[i] + g] == 0
      ensures AttackedBy(b, Other(t), PIECE_MA, g)
    {
      var from: Square := g + MA_MOVE[i];
      KindCode(b, Other(t), from);
      MaJumpsReverse(g, i);
      assert from + MA_MOVE[MaBack(i)] == g && b[from + MA_LEG[MaBack(i)]] == 0;
      assert Attacks(b, Other(t), from, g);
    }
    forall from: Square | Attacks(b, Other(t), from, g) && KindOf(b[from]) == PIECE_MA
      ensures CheckByMa(b, g, t)
    {
      KindCode(b, Other(t), from);
      assert MaReach(b, from, g);
      var i :| 0 <= i < 8 && from + MA_MOVE[i] == g && b[from + MA_LEG[i]] == 0;
      MaAttackSeen(b, g, from, i, t);
    }
  }

  lemma MaAttackSeen(b: Board, g: Square, from: Square, i: nat, t: Side)
    requires InBoard(g) && InBoard(from) && b[from] == SideBase(Other(t)) + PIECE_MA
    requires i < 8 && from + MA_MOVE[i] == g && b[from + MA_LEG[i]] == 0
    ensures CheckByMa(b, g, t)
  {
    var j := MaBack(i);
    assert g + MA_MOVE[j] == from && JS_MA_LEG[j] + g == from + MA_LEG[i];
  }

  lemma BzAttack(b: Board, g: Square, t: Side)
    requires InOwnPalace(t, g) && forall p: Square :: PlacedAt(b[p], p)
    ensures CheckByBz(b, g, t) <==> AttackedBy(b, Other(t), PIECE_BZ, g)
  {
    var bz := SideBase(Other(t)) + PIECE_BZ;
    if CheckByBz(b, g, t) {
      var from: Square := if b[Forward(t, g)] == bz then Forward(t, g) else if b[g + 1] == bz then g + 1 else g - 1;
      KindCode(b, Other(t), from);
      assert Attacks(b, Other(t), from, g);
    }
    forall from: Square | Attacks(b, Other(t), from, g) && KindOf(b[from]) == PIECE_BZ
      ensures CheckByBz(b, g, t)
    {
      KindCode(b, Other(t), from);
    }
  }

  lemma PaoAttack(b: Board, g: Square, t: Side)
    requires InBoard(g) && b[g] != 0 && forall p: Square :: PlacedAt(b[p], p)
    ensures CheckByPao(b, g, t) <==> AttackedBy(b, Other(t), PIECE_PAO, g)
  {
    CheckByPaoMeaning(b, g, t);
    if CheckByPao(b, g, t) {
      var from: Square :| PaoReach(b, from, g) && b[from] == SideBase(Other(t)) + PIECE_PAO;
      KindCode(b, Other(t), from);
      assert Attacks(b, Other(t), from, g);
    }
    forall from: Square | Attacks(b, Other(t), from, g) && KindOf(b[from]) == PIECE_PAO
      ensures CheckByPao(b, g, t)
    {
      KindCode(b, Other(t), from);
    }
  }

  lemma JuAttack(b: Board, t: Side)
    requires Placed(b) && Generals(b)
    ensures InBoard(General(b, t))
    ensures CheckByJuJs(b, General(b, t), t) <==>
            AttackedBy(b, Other(t), PIECE_JU, General(b, t)) || Facing(b)
  {
    GeneralPlace(b, t);
    var g: Square := General(b, t);
    CheckByJuJsMeaning(b, g, t);
    FacingSeen(b, t);
    if CheckByJuJs(b, g, t) && !Facing(b) {
      var from: Square :| JuReach(b, from, g) && b[from] == SideBase(Other(t)) + PIECE_JU;
      KindCode(b, Other(t), from);
      assert Attacks(b, Other(t), from, g);
    }
    forall from: Square | Attacks(b, Other(t), from, g) && KindOf(b[from]) == PIECE_JU
      ensures CheckByJuJs(b, g, t)
    {
      KindCode(b, Other(t), from);
    }
  }

  /** No piece other than chariot, horse, cannon and pawn can reach the enemy general. */
  lemma OnlyFourKindsAttack(b: Board, t: Side, from: Square, g: Square)
    requires Placed(b) && InOwnPalace(t, g) && Attacks(b, Other(t), from, g)
    ensures KindOf(b[from]) in {PIECE_MA, PIECE_JU, PIECE_PAO, PIECE_BZ}
  {
    assert PlacedAt(b[from], from);
  }

  lemma FacingSeen(b: Board, t: Side)
    requires Placed(b) && Generals(b)
    ensures Facing(b) <==> exists from: Square ::
                JuReach(b, from, General(b, t)) && b[from] == SideBase(Other(t)) + PIECE_JS
  {
    GeneralPlace(b, RED);
    GeneralPlace(b, BLACK);
    var g: Square, h: Square := General(b, t), General(b, Other(t));
    if Facing(b) {
      if t == RED { JuSymmetric(b, g, h); }
      assert JuReach(b, h, g);
    }
    forall from: Square | JuReach(b, from, g) && b[from] == SideBase(Other(t)) + PIECE_JS
      ensures Facing(b)
    {
      assert from == h;
      if t == RED { JuSymmetric(b, h, g); }
    }
  }

  /** Check detection is exact: `is_jiangjun` answers yes exactly when some enemy piece has a
      `can_piece_move` onto the own general's square or the generals face each other. */
  lemma CheckIsExact(b: Board, t: Side)
    requires Placed(b) && Generals(b)
    ensures InCheck(b, t) <==> (exists from: Square :: Attacks(b, Other(t), from, General(b, t))) || Facing(b)
  {
    GeneralPlace(b, t);
    var g: Square := General(b, t);
    JuAttack(b, t);
    MaAttack(b, g, t);
    PaoAttack(b, g, t);
    BzAttack(b, g, t);
    forall from: Square | Attacks(b, Other(t), from, g)
      ensures InCheck(b, t)
    {
      OnlyFourKindsAttack(b, t, from, g);
      assert AttackedBy(b, Other(t), KindOf(b[from]), g);
    }
  }
}
