/** The engine object of the xiangqi program: a board that moves are made on and taken back
    from, generators writing into fixed arrays, and the pruned search. */
module XqEngine {
  import opened XqBoard
  import opened XqMoves
  import opened XqBounds
  import opened XqSearch

  const SEARCH_LEVEL := 3

  // ---- lemmas about rays that the loops need ----

  lemma ColumnShift(p: int, k: int)
    ensures (p + 16 * k) / 16 == p / 16 + k && (p + 16 * k) % 16 == p % 16
  {
  }

  predicate SameRow(a: Square, b: Square) { a / 16 == b / 16 }

  predicate SameColumn(a: Square, b: Square) { a % 16 == b % 16 }

  lemma RowRay(from: Square, to: Square, i: nat, n: nat)
    requires InBoard(from) && InBoard(to) && from != to && SameRow(from, to)
    requires i == (if from < to then 1 else 0) && n == (if from < to then to - from else from - to)
    ensures Line(from, i, n) && At(from, i, n) == to
  {
    forall k | 0 <= k <= n ensures InBoard(At(from, i, k)) {
      RowShift(from, to, At(from, i, k));
    }
  }

  lemma RowShift(from: Square, to: Square, p: int)
    requires InBoard(from) && InBoard(to) && SameRow(from, to) && (from <= p <= to || to <= p <= from)
    ensures InBoard(p)
  {
  }

  lemma ColumnRay(from: Square, to: Square, i: nat, n: nat)
    requires InBoard(from) && InBoard(to) && from != to && SameColumn(from, to)
    requires i == (if from < to then 3 else 2)
    requires n == (if from < to then to / 16 - from / 16 else from / 16 - to / 16)
    ensures Line(from, i, n) && At(from, i, n) == to
  {
    forall k | 0 <= k <= n ensures InBoard(At(from, i, k)) {
      ColumnShift(from, k);
      ColumnShift(from, -k);
    }
  }

  /** The ray that the row and column tests of the chariot and the cannon select. */
  lemma RayTo(from: Square, to: Square) returns (i: nat, n: nat)
    requires InBoard(from) && InBoard(to) && from != to
    requires SameRow(from, to) || SameColumn(from, to)
    ensures i == if SameRow(from, to) then (if from < to then 1 else 0) else (if from < to then 3 else 2)
    ensures 0 < n && Line(from, i, n) && At(from, i, n) == to
  {
    hide Line, At;
    if SameRow(from, to) {
      i, n := if from < to then 1 else 0, if from < to then to - from else from - to;
      RowRay(from, to, i, n);
    } else {
      i := if from < to then 3 else 2;
      n := if from < to then to / 16 - from / 16 else from / 16 - to / 16;
      ColumnRay(from, to, i, n);
    }
  }

  lemma OffLine(from: Square, to: Square, i: nat, n: nat)
    requires InBoard(from) && i < 4 && Line(from, i, n) && At(from, i, n) == to
    ensures SameRow(from, to) || SameColumn(from, to)
  {
    RayStaysOnLine(from, i, n);
  }

  lemma OneRay(from: Square, to: Square, i: nat, n: nat, j: nat, k: nat)
    requires InBoard(from) && i < 4 && j < 4 && 0 < n && 0 < k
    requires Line(from, i, n) && At(from, i, n) == to && Line(from, j, k) && At(from, j, k) == to
    ensures i == j && n == k
  {
    RaysDisjoint(from, i, n, j, k);
  }

  /** Number of pieces on the first n - 1 squares of a ray. */
  function PiecesBetween(b: Board, p: Square, i: nat, n: nat): nat
    requires i < 4 && forall k :: 0 < k < n ==> InBoard(At(p, i, k))
  {
    if n <= 1 then 0
    else
      assert InBoard(At(p, i, n - 1));
      PiecesBetween(b, p, i, n - 1) + (if b[At(p, i, n - 1)] != 0 then 1 else 0)
  }

  lemma ScreenShortens(b: Board, p: Square, i: nat, n: nat, s: int)
    requires i < 4 && n > 1 && Line(p, i, n)
    ensures ScreenAt(b, p, i, n, s) ==> ScreenAt(b, p, i, n - 1, s) || Clear(b, p, i, n - 1)
  {
    hide InBoard, At;
  }

  lemma {:induction false} CountMeaning(b: Board, p: Square, i: nat, n: nat)
    requires i < 4 && Line(p, i, n)
    ensures PiecesBetween(b, p, i, n) == 0 <==> Clear(b, p, i, n)
    ensures PiecesBetween(b, p, i, n) == 1 <==> exists s :: ScreenAt(b, p, i, n, s)
  {
    hide InBoard, At;
    if n > 1 {
      CountMeaning(b, p, i, n - 1);
      if PiecesBetween(b, p, i, n - 1) == 1 {
        var last := n - 1;
        var s :| ScreenAt(b, p, i, last, s);
        assert !Clear(b, p, i, n - 1);
        if b[At(p, i, n - 1)] == 0 {
          assert ScreenAt(b, p, i, n, s);
        } else {
          forall r ensures !ScreenAt(b, p, i, n, r) {
          }
        }
      } else if Clear(b, p, i, n - 1) {
        if b[At(p, i, n - 1)] != 0 {
          assert ScreenAt(b, p, i, n, n - 1);
        }
      } else {
        forall r ensures !ScreenAt(b, p, i, n, r) {
          ScreenShortens(b, p, i, n, r);
        }
      }
    }
  }

  /** Counting the pieces between the two squares decides the cannon move. */
  lemma PaoDecided(b: Board, from: Square, to: Square, i: nat, n: nat)
    requires InBoard(from) && i < 4 && 0 < n && Line(from, i, n) && At(from, i, n) == to
    ensures PaoReach(b, from, to) <==>
            var num := PiecesBetween(b, from, i, n); (num == 1 && b[to] != 0) || (num == 0 && b[to] == 0)
  {
    hide InBoard, PiecesBetween;
    CountMeaning(b, from, i, n);
    forall j: nat, l: nat | j < 4 && 0 < l && Line(from, j, l) && At(from, j, l) == to
      ensures i == j && n == l
    {
      OneRay(from, to, i, n, j, l);
    }
  }

  lemma OwnGeneralInBoard(b: Board, t: Side, m: Move)
    requires Placed(b) && General(b, t) < 256 && m.from != m.to && InBoard(m.to)
    requires b[m.to] != SideBase(t) + PIECE_JS
    ensures InBoard(General(Apply(b, m), t))
  {
    OwnGeneralAfter(b, t, t, m);
    var g' := General(Apply(b, m), t);
    assert PlacedAt(b[g'], g');
  }

  class Engine {
    const board: array<int>
    const history: array<int>
    const pv: ScoreTable
    var turn: int
    var value: int
    var depth: int
    var best: int
    var gameOver: bool

    ghost predicate Valid()
      reads this
    {
      board.Length == 256 && history.Length == 65536 && board != history &&
      (turn == RED || turn == BLACK)
    }

    ghost function State(): Pos
      requires Valid()
      reads this, board
    {
      Pos(board[..], turn, value, depth)
    }

    // ---- make and unmake ----

    method AddPiece(code: int, p: Square)
      requires Valid()
      modifies this`value, board
      ensures board[..] == old(board[..])[p := code]
      ensures value == old(value) + PieceValue(pv, code, p)
    {
      board[p] := code;
      if code < 16 {
        value := value + pv(code - 8, p);
      } else {
        value := value - pv(code - 16, 254 - p);
      }
    }

    method DelPiece(code: int, p: Square)
      requires Valid()
      modifies this`value, board
      ensures board[..] == old(board[..])[p := 0]
      ensures value == old(value) - PieceValue(pv, code, p)
    {
      board[p] := 0;
      if code < 16 {
        value := value - pv(code - 8, p);
      } else {
        value := value + pv(code - 16, 254 - p);
      }
    }

    method MovePiece(m: Move) returns (eat: int)
      requires Valid() && m.from != m.to
      modifies this`value, this`depth, board
      ensures eat == old(board[m.to])
      ensures State() == old(Make(pv, State(), m)).(turn := turn)
    {
      eat := board[m.to];
      if eat != 0 {
        DelPiece(board[m.to], m.to);
      }
      AddPiece(board[m.from], m.to);
      DelPiece(board[m.from], m.from);
      depth := depth + 1;
    }

    /** Undoes `MovePiece`, whatever the position was. */
    method BackMovePiece(m: Move, eat: int, ghost s: Pos)
      requires Valid() && m.from != m.to && s.board[m.from] != 0 && s.board[m.to] == eat
      requires State() == Make(pv, s, m).(turn := turn)
      modifies this`value, this`depth, board
      ensures State() == s.(turn := turn)
    {
      AddPiece(board[m.to], m.from);
      DelPiece(board[m.to], m.to);
      if eat != 0 {
        AddPiece(eat, m.to);
      }
      depth := depth - 1;
      assert board[..] == s.board;
    }

    method ChangeSide()
      requires Valid()
      modifies this`turn
      ensures turn == Other(old(turn))
    {
      turn := 1 - turn;
    }

    // ---- piece moves, by walking from one square to the other ----

    method CanJuMove(from: Square, to: Square) returns (r: bool)
      requires Valid() && InBoard(from) && from != to
      ensures r == JuReach(board[..], from, to)
    {
      hide InBoard, SameRow, SameColumn;
      if !InBoard(to) {
        return false;
      }
      var delta: int;
      if SameRow(from, to) {
        delta := if from < to then 1 else -1;
      } else if SameColumn(from, to) {
        delta := if from < to then 16 else -16;
      } else {
        forall j: nat, k: nat | j < 4 && Line(from, j, k) && At(from, j, k) == to ensures false {
          OffLine(from, to, j, k);
        }
        return false;
      }
      ghost var i, n := RayTo(from, to);
      var position := from + delta;
      ghost var k := 1;
      while position != to
        invariant 0 < k <= n && position == At(from, i, k)
        invariant forall j :: 0 < j < k ==> board[At(from, i, j)] == 0
        decreases n - k
      {
        assert InBoard(position);
        if board[position] != 0 {
          forall j: nat, l: nat | j < 4 && 0 < l && Line(from, j, l) && At(from, j, l) == to
            ensures !Clear(board[..], from, j, l)
          {
            OneRay(from, to, i, n, j, l);
          }
          return false;
        }
        position := position + delta;
        k := k + 1;
      }
      assert k == n;
      assert Clear(board[..], from, i, n);
      return true;
    }

    method CanPaoMove(from: Square, to: Square) returns (r: bool)
      requires Valid() && InBoard(from) && from != to
      ensures r == PaoReach(board[..], from, to)
    {
      hide InBoard, SameRow, SameColumn;
      if !InBoard(to) {
        return false;
      }
      var delta: int;
      if SameRow(from, to) {
        delta := if from < to then 1 else -1;
      } else if SameColumn(from, to) {
        delta := if from < to then 16 else -16;
      } else {
        forall j: nat, k: nat | j < 4 && Line(from, j, k) && At(from, j, k) == to ensures false {
          OffLine(from, to, j, k);
        }
        return false;
      }
      ghost var i, n := RayTo(from, to);
      var num := 0;
      var position := from + delta;
      ghost var k := 1;
      while position != to
        invariant 0 < k <= n && position == At(from, i, k)
        invariant num == PiecesBetween(board[..], from, i, k)
        decreases n - k
      {
        assert InBoard(position);
        if board[position] != 0 {
          num := num + 1;
        }
        position := position + delta;
        k := k + 1;
      }
      assert k == n;
      PaoDecided(board[..], from, to, i, n);
      return (num == 1 && board[to] != 0) || (num == 0 && board[to] == 0);
    }

    // ---- check ----

    /** One direction of `is_jiangjun_by_jujs`: the first piece is an enemy chariot or general. */
    method JuJsRayHits(position: Square, i: nat) returns (r: bool)
      requires Valid() && InBoard(position) && i < 4
      ensures r == JuJsHit(board[..], position, i, 1, SideBase(Other(turn)))
    {
      hide InCheck, InBoard;
      var opposite := 16 - turn * 8;
      var delta := JS_MOVE[i];
      var to := position + delta;
      ghost var n := 1;
      while InBoard(to)
        invariant 1 <= n && to == At(position, i, n)
        invariant JuJsHit(board[..], position, i, 1, opposite) == JuJsHit(board[..], position, i, n, opposite)
        decreases 256 - n
      {
        if board[to] == 0 {
          to := to + delta;
        } else {
          return board[to] == opposite + PIECE_JU || board[to] == opposite + PIECE_JS;
        }
        n := n + 1;
      }
      return false;
    }

    method CheckedByJuJs(position: Square) returns (r: bool)
      requires Valid() && InBoard(position)
      ensures r == CheckByJuJs(board[..], position, turn)
    {
      hide InBoard, JuJsHit;
      for i := 0 to 4
        invariant forall j :: 0 <= j < i ==> !JuJsHit(board[..], position, j, 1, SideBase(Other(turn)))
      {
        var hit := JuJsRayHits(position, i);
        if hit {
          return true;
        }
      }
      return false;
    }

    method CheckedByMa(position: Square) returns (r: bool)
      requires Valid() && InBoard(position)
      ensures r == CheckByMa(board[..], position, turn)
    {
      var opposite := 16 - turn * 8;
      for i := 0 to 8
        invariant forall j :: 0 <= j < i ==>
                      !(board[position + MA_MOVE[j]] == opposite + PIECE_MA && board[JS_MA_LEG[j] + position] == 0)
      {
        var to := position + MA_MOVE[i];
        if board[to] == opposite + PIECE_MA && board[JS_MA_LEG[i] + position] == 0 {
          return true;
        }
      }
      return false;
    }

    /** One direction of `is_jiangjun_by_pao`: the first piece beyond the screen is an enemy cannon. */
    method PaoRayHits(position: Square, i: nat) returns (r: bool)
      requires Valid() && InBoard(position) && i < 4
      ensures r == PaoHit(board[..], position, i, 1, false, SideBase(Other(turn)))
    {
      hide InCheck, InBoard;
      var opposite := 16 - turn * 8;
      var delta := JS_MOVE[i];
      var to := position + delta;
      var flag := false;
      ghost var n := 1;
      while InBoard(to)
        invariant 1 <= n && to == At(position, i, n)
        invariant PaoHit(board[..], position, i, 1, false, opposite) ==
                    PaoHit(board[..], position, i, n, flag, opposite)
        decreases 256 - n
      {
        if board[to] == 0 {
          to := to + delta;
        } else if !flag {
          flag := true;
          to := to + delta;
        } else {
          return board[to] == opposite + PIECE_PAO;
        }
        n := n + 1;
      }
      return false;
    }

    method CheckedByPao(position: Square) returns (r: bool)
      requires Valid() && InBoard(position)
      ensures r == CheckByPao(board[..], position, turn)
    {
      hide InBoard, PaoHit;
      for i := 0 to 4
        invariant forall j :: 0 <= j < i ==> !PaoHit(board[..], position, j, 1, false, SideBase(Other(turn)))
      {
        var hit := PaoRayHits(position, i);
        if hit {
          return true;
        }
      }
      return false;
    }

    method CheckedByBz(position: Square) returns (r: bool)
      requires Valid() && InBoard(position)
      ensures r == CheckByBz(board[..], position, turn)
    {
      var opposite := 16 - turn * 8;
      return board[Forward(turn, position)] == opposite + PIECE_BZ ||
             board[position + 1] == opposite + PIECE_BZ || board[position - 1] == opposite + PIECE_BZ;
    }

    /** `is_jiangjun`. The squares around the general are looked at, so there must be one. */
    method IsChecked() returns (r: bool)
      requires Valid() && InBoard(General(board[..], turn))
      ensures r == InCheck(board[..], turn)
    {
      hide CheckByJuJs, CheckByMa, CheckByPao, CheckByBz;
      var selfSide := 8 + turn * 8;
      var p := 0;
      while p < 256 && board[p] != selfSide + PIECE_JS
        invariant 0 <= p <= 256
        invariant FindPiece(board[..], selfSide + PIECE_JS, 0) == FindPiece(board[..], selfSide + PIECE_JS, p)
      {
        p := p + 1;
      }
      r := CheckedByJuJs(p);
      if !r {
        r := CheckedByMa(p);
        if !r {
          r := CheckedByPao(p);
          if !r {
            r := CheckedByBz(p);
          }
        }
      }
    }

    /** `test_move`: tries the move on the board and takes it back. */
    method TestMove(from: Square, to: Square) returns (ok: bool)
      requires Valid() && from != to && board[from] != 0
      requires InBoard(General(Apply(board[..], Move(from, to)), turn))
      modifies this`value, this`depth, board
      ensures State() == old(State())
      ensures ok == Safe(old(board[..]), turn, Move(from, to))
    {
      hide InCheck;
      ghost var s := State();
      var eat := MovePiece(Move(from, to));
      var checked := IsChecked();
      ok := !checked;
      BackMovePiece(Move(from, to), eat, s);
    }

    // ---- generators ----

    /** Both generals are needed: `test_move` looks for the own one after the move. */
    ghost predicate CanGenerate()
      requires Valid()
      reads this, board
    {
      Placed(board[..]) && General(board[..], turn) < 256
    }

    /** `add_move`, behind the tests that the generators share. */
    method TryMove(p: Square, to: Square, wanted: bool, m: array<Move>, num: nat) returns (count: nat)
      requires Valid() && CanGenerate() && p != to && board[p] != 0
      requires wanted ==> InBoard(to) && board[to] != SideBase(turn) + PIECE_JS
      requires num + |One(board[..], turn, Move(p, to), wanted)| <= m.Length
      modifies this`value, this`depth, board, m
      ensures State() == old(State())
      ensures num <= count <= m.Length
      ensures m[..count] == old(m[..num]) + One(old(board[..]), turn, Move(p, to), wanted)
    {
      hide InCheck, InBoard, Placed, Safe, Apply, Make;
      count := num;
      if wanted {
        OwnGeneralInBoard(board[..], turn, Move(p, to));
        var ok := TestMove(p, to);
        if ok {
          m[num] := Move(p, to);
          count := num + 1;
        }
      }
    }

    /** The generators of the general, advisor, elephant, horse and pawn. */
    method GenerateSteps(kind: int, p: Square, eat: bool, m: array<Move>, num: nat) returns (count: nat)
      requires Valid() && CanGenerate() && InBoard(p) && IsStepper(kind) && board[p] == SideBase(turn) + kind
      requires num + |GenSteps(board[..], turn, kind, p, 0, eat)| <= m.Length
      modifies this`value, this`depth, board, m
      ensures State() == old(State())
      ensures num <= count <= m.Length
      ensures m[..count] == old(m[..num]) + GenSteps(old(board[..]), turn, kind, p, 0, eat)
    {
      hide InCheck, InBoard, PlacedAt, StepTo, StepOpen, Safe, One, GenSteps, Target;
      count := num;
      ghost var s := State();
      ghost var all := m[..num] + GenSteps(board[..], turn, kind, p, 0, eat);
      for i := 0 to StepCount(kind)
        invariant Valid() && State() == s && num <= count <= m.Length
        invariant m[..count] + GenSteps(s.board, s.turn, kind, p, i, eat) == all
      {
        var to := StepTo(turn, kind, p, i);
        StepGoesOn(board[..], turn, kind, p, i, eat);
        count := TryMove(p, to, StepOpen(board[..], turn, kind, p, i) && Target(turn, eat, board[to]), m, count);
      }
      StepsEnd(board[..], turn, kind, p, eat);
    }

    method GenerateJuRay(p: Square, i: nat, eat: bool, m: array<Move>, num: nat) returns (count: nat)
      requires Valid() && CanGenerate() && InBoard(p) && i < 4 && board[p] == SideBase(turn) + PIECE_JU
      requires num + |GenJuRay(board[..], turn, p, i, 1, eat)| <= m.Length
      modifies this`value, this`depth, board, m
      ensures State() == old(State())
      ensures num <= count <= m.Length
      ensures m[..count] == old(m[..num]) + GenJuRay(old(board[..]), turn, p, i, 1, eat)
    {
      hide InCheck, Placed, Safe, One, GenJuRay, InBoard, IsOf;
      count := num;
      ghost var s := State();
      ghost var all := m[..num] + GenJuRay(board[..], turn, p, i, 1, eat);
      var delta := JS_MOVE[i];
      var to := p + delta;
      ghost var n := 1;
      while InBoard(to)
        invariant Valid() && State() == s && num <= count <= m.Length
        invariant 1 <= n && to == At(p, i, n)
        invariant m[..count] + GenJuRay(s.board, s.turn, p, i, n, eat) == all
        decreases 256 - n
      {
        JuGoesOn(board[..], turn, p, i, n, eat);
        if board[to] == 0 {
          count := TryMove(p, to, !eat, m, count);
          to := to + delta;
          n := n + 1;
        } else {
          count := TryMove(p, to, IsOf(Other(turn), board[to]), m, count);
          return;
        }
      }
      RayEnds(board[..], turn, p, i, n, false, eat);
    }

    method GeneratePaoRay(p: Square, i: nat, eat: bool, m: array<Move>, num: nat) returns (count: nat)
      requires Valid() && CanGenerate() && InBoard(p) && i < 4 && board[p] == SideBase(turn) + PIECE_PAO
      requires num + |GenPaoRay(board[..], turn, p, i, 1, false, eat)| <= m.Length
      modifies this`value, this`depth, board, m
      ensures State() == old(State())
      ensures num <= count <= m.Length
      ensures m[..count] == old(m[..num]) + GenPaoRay(old(board[..]), turn, p, i, 1, false, eat)
    {
      hide InCheck, Placed, Safe, One, GenPaoRay, InBoard, IsOf;
      count := num;
      ghost var s := State();
      ghost var all := m[..num] + GenPaoRay(board[..], turn, p, i, 1, false, eat);
      var delta := JS_MOVE[i];
      var to := p + delta;
      var flag := false;
      ghost var n := 1;
      while InBoard(to)
        invariant Valid() && State() == s && num <= count <= m.Length
        invariant 1 <= n && to == At(p, i, n)
        invariant m[..count] + GenPaoRay(s.board, s.turn, p, i, n, flag, eat) == all
        decreases 256 - n
      {
        PaoGoesOn(board[..], turn, p, i, n, flag, eat);
        if board[to] == 0 {
          count := TryMove(p, to, !eat && !flag, m, count);
          to := to + delta;
          n := n + 1;
        } else if !flag {
          flag := true;
          to := to + delta;
          n := n + 1;
        } else {
          count := TryMove(p, to, IsOf(Other(turn), board[to]), m, count);
          return;
        }
      }
      RayEnds(board[..], turn, p, i, n, flag, eat);
    }

    method GenerateRays(kind: int, p: Square, eat: bool, m: array<Move>, num: nat) returns (count: nat)
      requires Valid() && CanGenerate() && InBoard(p) && (kind == PIECE_JU || kind == PIECE_PAO)
      requires board[p] == SideBase(turn) + kind
      requires num + |GenRays(board[..], turn, kind, p, 0, eat)| <= m.Length
      modifies this`value, this`depth, board, m
      ensures State() == old(State())
      ensures num <= count <= m.Length
      ensures m[..count] == old(m[..num]) + GenRays(old(board[..]), turn, kind, p, 0, eat)
    {
      hide InCheck, InBoard, Placed, Safe, GenJuRay, GenPaoRay, GenRays;
      count := num;
      ghost var s := State();
      ghost var all := m[..num] + GenRays(board[..], turn, kind, p, 0, eat);
      for i := 0 to 4
        invariant Valid() && State() == s && num <= count <= m.Length
        invariant m[..count] + GenRays(s.board, s.turn, kind, p, i, eat) == all
      {
        RaysGoOn(board[..], turn, kind, p, i, eat);
        if kind == PIECE_JU {
          count := GenerateJuRay(p, i, eat, m, count);
        } else {
          count := GeneratePaoRay(p, i, eat, m, count);
        }
      }
      RaysEnd(board[..], turn, kind, p, eat);
    }

    method GeneratePiece(p: Square, eat: bool, m: array<Move>, num: nat) returns (count: nat)
      requires Valid() && CanGenerate() && InBoard(p)
      requires num + |GenPiece(board[..], turn, p, eat)| <= m.Length
      modifies this`value, this`depth, board, m
      ensures State() == old(State())
      ensures num <= count <= m.Length
      ensures m[..count] == old(m[..num]) + GenPiece(old(board[..]), turn, p, eat)
    {
      hide InCheck, InBoard, PlacedAt, Safe, GenSteps, GenRays;
      count := num;
      var kind := board[p] - (8 + turn * 8);
      if IsOf(turn, board[p]) {
        if IsStepper(kind) {
          count := GenerateSteps(kind, p, eat, m, num);
        } else if kind == PIECE_JU || kind == PIECE_PAO {
          count := GenerateRays(kind, p, eat, m, num);
        }
      }
    }

    /** The inner loop of `generate_all_moves`: one column, top to bottom. */
    method GenerateColumn(x: int, eat: bool, m: array<Move>, num: nat) returns (count: nat)
      requires Valid() && CanGenerate() && 3 <= x <= 11
      requires num + |GenFrom(board[..], turn, x, 3, eat)| <= m.Length
      modifies this`value, this`depth, board, m
      ensures State() == old(State())
      ensures num <= count <= m.Length
      ensures m[..count] + GenFrom(board[..], turn, x + 1, 3, eat) ==
              old(m[..num]) + GenFrom(old(board[..]), turn, x, 3, eat)
    {
      hide InCheck, InBoard, PlacedAt, Placed, Safe, GenPiece, GenFrom;
      count := num;
      ghost var s := State();
      ghost var all := m[..num] + GenFrom(board[..], turn, x, 3, eat);
      for y := 3 to 13
        invariant Valid() && State() == s && num <= count <= m.Length
        invariant m[..count] + GenFrom(s.board, s.turn, x, y, eat) == all
      {
        FromGoesOn(board[..], turn, x, y, eat);
        count := GeneratePiece(SquareOf(x, y), eat, m, count);
      }
      FromGoesOn(board[..], turn, x, 3, eat);
    }

    /** `generate_all_moves` and, with eat set, `generate_all_eat_moves`. The list fits into the array. */
    method GenerateAllMoves(eat: bool, m: array<Move>) returns (num: nat)
      requires Valid() && CanGenerate() && AtMostInitial(board[..])
      requires m.Length == if eat then MAX_EAT_MOVES else MAX_MOVES
      modifies this`value, this`depth, board, m
      ensures State() == old(State())
      ensures num <= m.Length && m[..num] == AllMoves(old(board[..]), turn, eat)
    {
      hide InCheck, InBoard, PlacedAt, Safe, GenFrom, AtMostInitial;
      ListsFit(board[..], turn, eat);
      num := 0;
      ghost var s := State();
      for x := 3 to 12
        invariant Valid() && State() == s && num <= m.Length
        invariant m[..num] + GenFrom(s.board, s.turn, x, 3, eat) == AllMoves(s.board, s.turn, eat)
      {
        num := GenerateColumn(x, eat, m, num);
      }
      FromEnds(board[..], turn, eat);
    }

    // ---- search ----

    method SwapMoves(m: array<Move>, num: nat, i: nat, j: nat)
      requires i < j < num <= m.Length
      modifies m
      ensures m[..num] == Swapped(old(m[..num]), i, j)
    {
      m[i], m[j] := m[j], m[i];
    }

    /** `sort_by_historytable`: an exchange sort by falling history score. */
    method SortByHistoryTable(m: array<Move>, num: nat)
      requires Valid() && num <= m.Length && m != history as object
      modifies m
      ensures multiset(m[..num]) == multiset(old(m[..num]))
      ensures Descending(history[..], m[..num])
      ensures NoHistory(history[..]) ==> m[..num] == old(m[..num])
    {
      hide SortedBefore, Rank, NoHistory, Swapped, Descending;
      ghost var h := history[..];
      SortedNothing(h, m[..num]);
      for i := 0 to num
        invariant multiset(m[..num]) == multiset(old(m[..num]))
        invariant SortedBefore(h, m[..num], i, i)
        invariant NoHistory(h) ==> m[..num] == old(m[..num])
      {
        SortedStart(h, m[..num], i);
        for j := i + 1 to num
          invariant multiset(m[..num]) == multiset(old(m[..num]))
          invariant SortedBefore(h, m[..num], i, j)
          invariant NoHistory(h) ==> m[..num] == old(m[..num])
        {
          SortedMore(h, m[..num], i, j);
          RankIs(h, m[..num][i]);
          RankIs(h, m[..num][j]);
          if history[m[i].from * 256 + m[i].to] < history[m[j].from * 256 + m[j].to] {
            SwapMoves(m, num, i, j);
          }
        }
        SortedOne(h, m[..num], i, num);
      }
      SortedAll(h, m[..num]);
    }

    /** Makes a move, searches the reply quietly, and takes the move back. */
    method QuietReply(mv: Move, alpha: int, beta: int) returns (value: int)
      requires Valid() && Searchable(State()) && alpha < beta && depth <= QUIET_DEPTH
      requires mv in AllMoves(board[..], turn, true)
      modifies this`value, this`depth, this`turn, board
      ensures Valid() && State() == old(State())
      ensures Tells(-value, -beta, -alpha, Quiet(pv, Make(pv, old(State()), mv)))
      decreases Max(0, QUIET_DEPTH + 1 - depth), 0
    {
      hide InCheck, AllMoves, Searchable, Apply, Quiet;
      ghost var s := State();
      SearchStaysSearchable(pv, s, true, mv);
      var eat := MovePiece(mv);
      ChangeSide();
      assert State() == Make(pv, s, mv);
      var reply := QuiescentSearch(-beta, -alpha);
      BackMovePiece(mv, eat, s);
      ChangeSide();
      value := -reply;
    }

    /** The capture loop of `quiescent_search`; r0 is what standing pat has reached. */
    method QuietMoves(m: array<Move>, num: nat, r0: int, alpha0: int, alpha1: int, beta: int)
      returns (r: int)
      requires Valid() && Searchable(State()) && depth <= QUIET_DEPTH
      requires num <= m.Length && m != board as object
      requires forall mv :: mv in m[..num] ==> mv in AllMoves(board[..], turn, true)
      requires alpha0 <= alpha1 < beta && alpha1 <= Max(alpha0, r0)
      requires Tells(r0, alpha0, beta, QuietBest(pv, State(), []))
      modifies this`value, this`depth, this`turn, board
      ensures Valid() && State() == old(State())
      ensures Tells(r, alpha0, beta, QuietBest(pv, old(State()), m[..num]))
      decreases Max(0, QUIET_DEPTH + 1 - depth), 1
    {
      hide InCheck, AllMoves, Searchable, Make, Sane, Quiet, QuietBest;
      ghost var s, ms := State(), m[..num];
      var alpha := alpha1;
      r := r0;
      var i := 0;
      assert ms[..0] == [];
      while i < num
        invariant Valid() && State() == s && i <= num <= m.Length && m[..num] == ms
        invariant alpha0 <= alpha < beta && alpha <= Max(alpha0, r)
        invariant Tells(r, alpha0, beta, QuietBest(pv, s, ms[..i]))
      {
        assert m[i] == ms[i];
        var value := QuietReply(m[i], alpha, beta);
        QuietBestNext(pv, s, ms, i);
        LoopRound(alpha0, alpha, beta, r, value, QuietBest(pv, s, ms[..i]), -Quiet(pv, Make(pv, s, ms[i])));
        if value > r {
          r := value;
          if value >= beta {
            QuietBestGrows(pv, s, ms, i + 1);
            return value;
          }
          if value > alpha {
            alpha := value;
          }
        }
        i := i + 1;
      }
      assert ms[..num] == ms;
    }

    /** `quiescent_search`. */
    method QuiescentSearch(alpha0: int, beta: int) returns (r: int)
      requires Valid() && Searchable(State()) && alpha0 < beta
      modifies this`value, this`depth, this`turn, board
      ensures Valid() && State() == old(State())
      ensures Tells(r, alpha0, beta, Quiet(pv, old(State())))
      decreases Max(0, QUIET_DEPTH + 1 - depth), 2
    {
      hide InCheck, AllMoves, Searchable, Make, Sane, Quiet, QuietBest;
      ghost var s := State();
      QuietUnfolds(pv, s);
      var alpha := alpha0;
      r := -SIQI_VALUE;
      var value := if turn == RED then this.value else -this.value;
      assert value == StandPat(s);
      if value > r {
        r := value;
        if value >= beta {
          return value;
        }
        if value > alpha {
          alpha := value;
        }
      }
      if depth > QUIET_DEPTH {
        return r;
      }
      var m := new Move[MAX_EAT_MOVES];
      CanGenerateHere();
      var num := GenerateAllMoves(true, m);
      r := QuietMoves(m, num, r, alpha0, alpha, beta);
    }

    /** Makes a move, searches the reply one level less deep, and takes the move back. */
    method Reply(mv: Move, alpha: int, beta: int, d: nat) returns (value: int)
      requires Valid() && Searchable(State()) && alpha < beta && d > 0 && depth >= 0
      requires mv in AllMoves(board[..], turn, false)
      modifies this`value, this`depth, this`turn, this`best, board, history
      ensures Valid() && State() == old(State()) && best == old(best)
      ensures Tells(-value, -beta, -alpha, Plain(pv, Make(pv, old(State()), mv), d - 1))
      decreases d, 0
    {
      hide InCheck, AllMoves, Searchable, Apply, Plain;
      ghost var s := State();
      SearchStaysSearchable(pv, s, false, mv);
      var eat := MovePiece(mv);
      ChangeSide();
      assert State() == Make(pv, s, mv);
      var reply := AlphaBeta(-beta, -alpha, d - 1);
      BackMovePiece(mv, eat, s);
      ChangeSide();
      value := -reply;
    }

    /** The move loop of `alpha_beta` over the sorted moves. */
    method SearchMoves(m: array<Move>, num: nat, alpha0: int, beta: int, d: nat)
      returns (r: int, index: nat)
      requires Valid() && Searchable(State()) && alpha0 < beta && d > 0 && depth >= 0
      requires num <= m.Length && m != history as object && m != board as object
      requires forall mv :: mv in m[..num] ==> mv in AllMoves(board[..], turn, false)
      modifies this`value, this`depth, this`turn, this`best, board, history
      ensures Valid() && State() == old(State()) && best == old(best)
      ensures Tells(r, alpha0, beta, PlainBest(pv, old(State()), d, m[..num]))
      ensures num > 0 ==> index < num
      ensures r >= -SIQI_VALUE
      ensures num > 0 && r > alpha0 && r > -SIQI_VALUE ==> r <= -Plain(pv, Make(pv, old(State()), m[index]), d - 1)
      decreases d, 1
    {
      hide InCheck, AllMoves, Searchable, Make, Sane, Plain, PlainBest;
      ghost var s, ms := State(), m[..num];
      PlainUnfolds(pv, s, d);
      var alpha := alpha0;
      r, index := -SIQI_VALUE, 0;
      var i := 0;
      assert ms[..0] == [];
      while i < num
        invariant Valid() && State() == s && i <= num <= m.Length && m[..num] == ms && best == old(best)
        invariant index <= i && (num > 0 ==> index < num) && r >= -SIQI_VALUE
        invariant alpha0 <= alpha < beta && alpha <= Max(alpha0, r)
        invariant Tells(r, alpha0, beta, PlainBest(pv, s, d, ms[..i]))
        invariant r > alpha0 && r > -SIQI_VALUE ==> index < i && r <= -Plain(pv, Make(pv, s, ms[index]), d - 1)
      {
        assert m[i] == ms[i];
        var value := Reply(m[i], alpha, beta, d);
        PlainBestNext(pv, s, d, ms, i);
        LoopRound(alpha0, alpha, beta, r, value, PlainBest(pv, s, d, ms[..i]), -Plain(pv, Make(pv, s, ms[i]), d - 1));
        if value > r {
          index := i;
          r := value;
          if value >= beta {
            PlainBestGrows(pv, s, d, ms, i + 1);
            break;
          }
          if value > alpha {
            alpha := value;
          }
        }
        i := i + 1;
      }
      assert ms[..num] == ms;
    }

    /** `alpha_beta`. The result is right for the window whatever the history table holds; at the root,
        with nothing in the history table and the full window, `best` names a best move of the list. */
    method AlphaBeta(alpha: int, beta: int, d: nat) returns (r: int)
      requires Valid() && Searchable(State()) && alpha < beta && depth >= 0
      modifies this`value, this`depth, this`turn, this`best, board, history
      ensures Valid() && State() == old(State())
      ensures Tells(r, alpha, beta, Plain(pv, old(State()), d))
      ensures old(depth) != 0 ==> best == old(best)
      ensures old(depth) == 0 && d > 0 && old(NoHistory(history[..])) && alpha == -SIQI_VALUE && beta == SIQI_VALUE ==>
              Named(pv, old(State()), d, AllMoves(old(board[..]), old(turn), false), best)
      decreases d, 2
    {
      hide InCheck, AllMoves, Searchable, Make, Plain, PlainBest, Descending, Named, Quiet, NoHistory, Tells;
      ghost var s := State();
      PlainUnfolds(pv, s, d);
      if d == 0 {
        r := QuiescentSearch(alpha, beta);
        return;
      }
      var m := new Move[MAX_MOVES];
      CanGenerateHere();
      var num := GenerateAllMoves(false, m);
      ghost var all := m[..num];
      SortByHistoryTable(m, num);
      ghost var ms := m[..num];
      SameMembers(all, ms);
      var index: nat;
      r, index := SearchMoves(m, num, alpha, beta, d);
      OrderIsIrrelevant(pv, s, d, all, ms);
      if num > 0 {
        var cell := m[index].from * 256 + m[index].to;
        history[cell] := history[cell] + d * d;
      }
      if depth == 0 {
        if alpha == -SIQI_VALUE && beta == SIQI_VALUE {
          RootIndex(pv, s, d, ms, r, index);
        }
        best := index;
      }
    }

    /** `computer_play`: plays a best move of the unpruned search, or ends the game when there is none. */
    method ComputerPlay()
      requires Valid() && Searchable(State())
      modifies this, board, history
      ensures Valid()
      ensures old(gameOver) ==> State() == old(State()) && gameOver
      ensures !old(gameOver) ==> Played(pv, old(State()), State(), gameOver)
      ensures Searchable(State())
    {
      hide InCheck, AllMoves, Searchable, Make, Plain, Played;
      if gameOver {
        return;
      }
      ghost var s := State();
      var moves := new Move[MAX_MOVES];
      CanGenerateHere();
      var num := GenerateAllMoves(false, moves);
      if num == 0 {
        assert moves[..num] == [];
        gameOver := true;
        PlayedNothing(pv, s);
        return;
      }
      DepthIsFree(pv, s);
      depth := 0;
      var mv := PlayBest(moves, num);
      CheckGameOver();
      PlayedMove(pv, s, mv, State(), gameOver);
    }

    method CheckGameOver()
      requires Valid() && Searchable(State())
      modifies this`value, this`depth, this`gameOver, board
      ensures State() == old(State())
      ensures gameOver == (old(gameOver) || AllMoves(old(board[..]), turn, false) == [])
    {
      hide InCheck, AllMoves, Searchable;
      var replies := new Move[MAX_MOVES];
      CanGenerateHere();
      var num := GenerateAllMoves(false, replies);
      assert num == 0 <==> replies[..num] == [];
      if num == 0 {
        gameOver := true;
      }
    }

    /** Searches from the root and makes the move that the search has named. */
    method PlayBest(moves: array<Move>, num: nat) returns (mv: Move)
      requires Valid() && Searchable(State()) && depth == 0
      requires 0 < num <= moves.Length && moves[..num] == AllMoves(board[..], turn, false)
      requires moves != board as object && moves != history as object
      modifies this`value, this`depth, this`turn, this`best, board, history
      ensures Valid() && mv in moves[..num] && State() == Make(pv, old(State()), mv)
      ensures Bounded(pv, old(State())) ==> IsBest(pv, old(State()), moves[..num], mv)
      ensures Searchable(State())
    {
      hide InCheck, AllMoves, Searchable, Apply, Plain, NoHistory, BestIndex, IsBest, Tells;
      ghost var s0, ms := State(), moves[..num];
      ClearHistory();
      var r := AlphaBeta(-SIQI_VALUE, SIQI_VALUE, SEARCH_LEVEL);
      assert |ms| == num && ms != [];
      mv := moves[best];
      NamedIsBest(pv, s0, ms, best);
      SearchStaysSearchable(pv, s0, false, mv);
      var eat := MovePiece(mv);
      ChangeSide();
      assert State() == Make(pv, s0, mv);
    }

    method ClearHistory()
      requires Valid()
      modifies history
      ensures NoHistory(history[..])
    {
      for i := 0 to history.Length
        invariant forall j :: 0 <= j < i ==> history[j] == 0
      {
        history[i] := 0;
      }
    }

    lemma CanGenerateHere()
      requires Valid() && Searchable(State())
      ensures CanGenerate() && AtMostInitial(board[..])
    {
    }
  }

  /** All scores that the search can reach are inside its window. */
  ghost predicate Bounded(pv: ScoreTable, s: Pos) { exists bound :: ScoreFits(pv, bound, s) }

  function Rank(h: seq<int>, m: Move): int
    requires |h| == 65536
  {
    h[m.from * 256 + m.to]
  }

  ghost predicate Descending(h: seq<int>, ms: seq<Move>)
    requires |h| == 65536
  {
    forall a, b :: 0 <= a < b < |ms| ==> Rank(h, ms[a]) >= Rank(h, ms[b])
  }

  ghost predicate NoHistory(h: seq<int>) { forall i :: 0 <= i < |h| ==> h[i] == 0 }

  function Swapped(ms: seq<Move>, i: nat, j: nat): (r: seq<Move>)
    requires i < j < |ms|
    ensures |r| == |ms| && multiset(r) == multiset(ms)
  {
    var r := ms[i := ms[j]][j := ms[i]];
    assert multiset(r) == multiset(ms) by {
      assert multiset(ms[i := ms[j]]) == multiset(ms) - multiset{ms[i]} + multiset{ms[j]};
    }
    r
  }

  /** The first i moves are in order and before all others; move i is before those up to j. */
  ghost predicate SortedBefore(h: seq<int>, ms: seq<Move>, i: nat, j: nat)
    requires |h| == 65536
  {
    (forall a, b :: 0 <= a < i && a < b < |ms| ==> Rank(h, ms[a]) >= Rank(h, ms[b])) &&
    (i < |ms| ==> forall b :: i < b < j && b < |ms| ==> Rank(h, ms[i]) >= Rank(h, ms[b]))
  }

  lemma RankIs(h: seq<int>, m: Move)
    requires |h| == 65536
    ensures Rank(h, m) == h[m.from * 256 + m.to]
  {
  }

  lemma SortedNothing(h: seq<int>, ms: seq<Move>)
    requires |h| == 65536
    ensures SortedBefore(h, ms, 0, 0)
  {
  }

  lemma SortedStart(h: seq<int>, ms: seq<Move>, i: nat)
    requires |h| == 65536 && SortedBefore(h, ms, i, i)
    ensures SortedBefore(h, ms, i, i + 1)
  {
    hide Rank;
  }

  lemma SortedOne(h: seq<int>, ms: seq<Move>, i: nat, n: nat)
    requires |h| == 65536 && i < n == |ms| && SortedBefore(h, ms, i, n)
    ensures SortedBefore(h, ms, i + 1, i + 1)
  {
    hide Rank;
  }

  lemma SortedAll(h: seq<int>, ms: seq<Move>)
    requires |h| == 65536 && SortedBefore(h, ms, |ms|, |ms|)
    ensures Descending(h, ms)
  {
    hide Rank;
  }

  lemma SortedMore(h: seq<int>, ms: seq<Move>, i: nat, j: nat)
    requires |h| == 65536 && i < j < |ms| && SortedBefore(h, ms, i, j)
    ensures Rank(h, ms[i]) >= Rank(h, ms[j]) ==> SortedBefore(h, ms, i, j + 1)
    ensures Rank(h, ms[i]) < Rank(h, ms[j]) ==> SortedBefore(h, Swapped(ms, i, j), i, j + 1)
    ensures NoHistory(h) ==> Rank(h, ms[i]) == Rank(h, ms[j])
  {
  }

  /** The index names a move whose value no other move of the list exceeds. */
  ghost predicate BestIndex(pv: ScoreTable, s: Pos, d: nat, ms: seq<Move>, index: int)
    requires d > 0
  {
    ms != [] ==> 0 <= index < |ms| &&
                 forall m :: m in ms ==> -Plain(pv, Make(pv, s, m), d - 1) <= -Plain(pv, Make(pv, s, ms[index]), d - 1)
  }

  /** No other move of the list has a better value by the unpruned search. */
  ghost predicate IsBest(pv: ScoreTable, s: Pos, ms: seq<Move>, mv: Move) {
    forall m :: m in ms ==> -Plain(pv, Make(pv, s, m), SEARCH_LEVEL - 1) <= -Plain(pv, Make(pv, s, mv),
          SEARCH_LEVEL - 1)
  }

  /** The index of a move of the list, which is a best one if scores are bounded. */
  ghost predicate Named(pv: ScoreTable, s: Pos, d: nat, ms: seq<Move>, index: int)
    requires d > 0
  {
    (ms != [] ==> 0 <= index < |ms|) && (Bounded(pv, s) ==> BestIndex(pv, s, d, ms, index))
  }

  lemma NamedIsBest(pv: ScoreTable, s: Pos, ms: seq<Move>, index: int)
    requires Named(pv, s, SEARCH_LEVEL, ms, index) && ms != []
    ensures Bounded(pv, s) ==> IsBest(pv, s, ms, ms[index])
  {
    hide Plain, Make;
  }

  /** The turn was played: a move that was generated, and a best one if scores are bounded; or none if there is none. */
  ghost predicate Played(pv: ScoreTable, s: Pos, s': Pos, over: bool) {
    var ms := AllMoves(s.board, s.turn, false);
    if ms == [] then s' == s && over
    else
      (exists mv :: mv in ms && MadeBest(pv, s.(depth := 0), ms, mv, s')) &&
      over == (AllMoves(s'.board, s'.turn, false) == [])
  }

  ghost predicate MadeBest(pv: ScoreTable, s: Pos, ms: seq<Move>, mv: Move, s': Pos) {
    s' == Make(pv, s, mv) && (Bounded(pv, s) ==> IsBest(pv, s, ms, mv))
  }

  lemma PlayedNothing(pv: ScoreTable, s: Pos)
    requires AllMoves(s.board, s.turn, false) == []
    ensures Played(pv, s, s, true)
  {
    hide AllMoves, Plain, Make;
  }

  lemma PlayedMove(pv: ScoreTable, s: Pos, mv: Move, s': Pos, over: bool)
    requires mv in AllMoves(s.board, s.turn, false)
    requires MadeBest(pv, s.(depth := 0), AllMoves(s.board, s.turn, false), mv, s')
    requires over == (AllMoves(s'.board, s'.turn, false) == [])
    ensures Played(pv, s, s', over)
  {
    hide AllMoves, MadeBest;
  }

  lemma DepthIsFree(pv: ScoreTable, s: Pos)
    requires Searchable(s)
    ensures Searchable(s.(depth := 0)) && (Bounded(pv, s) ==> Bounded(pv, s.(depth := 0)))
  {
    if Bounded(pv, s) {
      var bound :| ScoreFits(pv, bound, s);
      assert ScoreFits(pv, bound, s.(depth := 0));
    }
  }

  lemma SameMembers(a: seq<Move>, b: seq<Move>)
    requires multiset(a) == multiset(b)
    ensures forall m :: m in a <==> m in b
    ensures |a| == |b|
  {
    assert forall m :: m in a <==> m in multiset(a);
    assert forall m :: m in b <==> m in multiset(b);
    assert |multiset(a)| == |a|;
  }

  lemma PlainUnfolds(pv: ScoreTable, s: Pos, d: nat)
    ensures d == 0 ==> Plain(pv, s, d) == Quiet(pv, s)
    ensures d > 0 ==> Plain(pv, s, d) == PlainBest(pv, s, d, AllMoves(s.board, s.turn, false))
    ensures d > 0 ==> PlainBest(pv, s, d, []) == -SIQI_VALUE
  {
    hide AllMoves, Quiet, Make;
  }

  lemma PlainBestNext(pv: ScoreTable, s: Pos, d: nat, ms: seq<Move>, i: nat)
    requires d > 0 && i < |ms|
    ensures PlainBest(pv, s, d, ms[..i + 1]) == Max(PlainBest(pv, s, d, ms[..i]), -Plain(pv, Make(pv, s, ms[i]), d - 1))
  {
    hide Plain, Make;
    assert ms[..i + 1][..i] == ms[..i];
  }

  /** With every score inside the window, the index kept by the loop is a best one. */
  lemma RootIndex(pv: ScoreTable, s: Pos, d: nat, ms: seq<Move>, r: int, index: nat)
    requires d > 0 && Searchable(s) && forall m :: m in ms ==> m in AllMoves(s.board, s.turn, false)
    requires ms != [] ==> index < |ms|
    requires r >= -SIQI_VALUE && Tells(r, -SIQI_VALUE, SIQI_VALUE, PlainBest(pv, s, d, ms))
    requires ms != [] && r > -SIQI_VALUE ==> r <= -Plain(pv, Make(pv, s, ms[index]), d - 1)
    ensures Named(pv, s, d, ms, index)
  {
    hide Searchable, AllMoves, Make, Plain, ScoreFits;
    PlainBestIsMaximum(pv, s, d, ms);
    if !Bounded(pv, s) { return; }
    var bound :| ScoreFits(pv, bound, s);
    forall m | m in ms
      ensures -SIQI_VALUE <= -Plain(pv, Make(pv, s, m), d - 1) <= SIQI_VALUE
    {
      SearchStaysSearchable(pv, s, false, m);
      PlainFits(pv, bound, Make(pv, s, m), d - 1);
    }
  }

  lemma QuietUnfolds(pv: ScoreTable, s: Pos)
    ensures s.depth > QUIET_DEPTH ==> Quiet(pv, s) == Max(-SIQI_VALUE, StandPat(s))
    ensures s.depth <= QUIET_DEPTH ==> QuietBest(pv, s, []) == Max(-SIQI_VALUE, StandPat(s))
    ensures s.depth <= QUIET_DEPTH ==> Quiet(pv, s) == QuietBest(pv, s, AllMoves(s.board, s.turn, true))
    ensures Quiet(pv, s) >= StandPat(s)
  {
    hide AllMoves, Make;
    if s.depth <= QUIET_DEPTH {
      var all := AllMoves(s.board, s.turn, true);
      QuietBestGrows(pv, s, all, 0);
      assert QuietBest(pv, s, all[..0]) >= StandPat(s);
    }
  }

  lemma QuietBestNext(pv: ScoreTable, s: Pos, ms: seq<Move>, i: nat)
    requires s.depth <= QUIET_DEPTH && i < |ms|
    ensures QuietBest(pv, s, ms[..i + 1]) == Max(QuietBest(pv, s, ms[..i]), -Quiet(pv, Make(pv, s, ms[i])))
  {
    hide Quiet, Make;
    assert ms[..i + 1][..i] == ms[..i];
  }

  lemma FromEnds(b: Board, t: Side, eat: bool)
    ensures GenFrom(b, t, 12, 3, eat) == []
  {
  }

  lemma NotOwnGeneral(b: Board, t: Side, p: Square)
    requires Placed(b)
    ensures b[p] == 0 || IsOf(Other(t), b[p]) ==> b[p] != SideBase(t) + PIECE_JS
  {
    assert PlacedAt(b[p], p);
    KindCode(b, Other(t), p);
  }

  lemma StepGoesOn(b: Board, t: Side, kind: int, p: Square, i: nat, eat: bool)
    requires Placed(b) && InBoard(p) && IsStepper(kind) && i < StepCount(kind)
    ensures StepTo(t, kind, p, i) != p
    ensures StepOpen(b, t, kind, p, i) ==> InBoard(StepTo(t, kind, p, i))
    ensures Target(t, eat, b[StepTo(t, kind, p, i)]) ==> b[StepTo(t, kind, p, i)] != SideBase(t) + PIECE_JS
    ensures GenSteps(b, t, kind, p, i, eat) ==
            One(b, t, Move(p, StepTo(t, kind, p, i)),
                StepOpen(b, t, kind, p, i) && Target(t, eat, b[StepTo(t, kind, p, i)])) +
            GenSteps(b, t, kind, p, i + 1, eat)
  {
    hide Safe, One, Placed;
    NotOwnGeneral(b, t, StepTo(t, kind, p, i));
  }

  lemma JuGoesOn(b: Board, t: Side, p: Square, i: nat, n: nat, eat: bool)
    requires Placed(b) && InBoard(p) && i < 4 && InBoard(At(p, i, n))
    ensures b[At(p, i, n)] == 0 || IsOf(Other(t), b[At(p, i, n)]) ==> b[At(p, i, n)] != SideBase(t) + PIECE_JS
    ensures GenJuRay(b, t, p, i, n, eat) ==
            if b[At(p, i, n)] == 0 then One(b, t, Move(p, At(p, i, n)), !eat) + GenJuRay(b, t, p, i, n + 1, eat)
            else One(b, t, Move(p, At(p, i, n)), IsOf(Other(t), b[At(p, i, n)]))
  {
    hide One, Placed;
    NotOwnGeneral(b, t, At(p, i, n));
  }

  lemma PaoGoesOn(b: Board, t: Side, p: Square, i: nat, n: nat, flag: bool, eat: bool)
    requires Placed(b) && InBoard(p) && i < 4 && InBoard(At(p, i, n))
    ensures b[At(p, i, n)] == 0 || IsOf(Other(t), b[At(p, i, n)]) ==> b[At(p, i, n)] != SideBase(t) + PIECE_JS
    ensures GenPaoRay(b, t, p, i, n, flag, eat) ==
            if b[At(p, i, n)] == 0
            then One(b, t, Move(p, At(p, i, n)), !eat && !flag) + GenPaoRay(b, t, p, i, n + 1, flag, eat)
            else if !flag then GenPaoRay(b, t, p, i, n + 1, true, eat)
            else One(b, t, Move(p, At(p, i, n)), IsOf(Other(t), b[At(p, i, n)]))
  {
    hide One, Placed;
    NotOwnGeneral(b, t, At(p, i, n));
  }

  lemma RayEnds(b: Board, t: Side, p: Square, i: nat, n: nat, flag: bool, eat: bool)
    requires InBoard(p) && i < 4 && !InBoard(At(p, i, n))
    ensures GenJuRay(b, t, p, i, n, eat) == [] && GenPaoRay(b, t, p, i, n, flag, eat) == []
  {
  }

  lemma RaysGoOn(b: Board, t: Side, kind: int, p: Square, i: nat, eat: bool)
    requires InBoard(p) && i < 4 && (kind == PIECE_JU || kind == PIECE_PAO)
    ensures GenRays(b, t, kind, p, i, eat) ==
            (if kind == PIECE_JU then GenJuRay(b, t, p, i, 1, eat) else GenPaoRay(b, t, p, i, 1, false, eat)) +
              GenRays(b, t, kind, p, i + 1, eat)
  {
    hide GenJuRay, GenPaoRay;
  }

  lemma RaysEnd(b: Board, t: Side, kind: int, p: Square, eat: bool)
    requires InBoard(p) && (kind == PIECE_JU || kind == PIECE_PAO)
    ensures GenRays(b, t, kind, p, 4, eat) == []
  {
  }

  lemma StepsEnd(b: Board, t: Side, kind: int, p: Square, eat: bool)
    requires InBoard(p) && IsStepper(kind)
    ensures GenSteps(b, t, kind, p, StepCount(kind), eat) == []
  {
  }

  lemma FromGoesOn(b: Board, t: Side, x: int, y: int, eat: bool)
    requires 3 <= x <= 11 && 3 <= y <= 12
    ensures GenFrom(b, t, x, y, eat) == GenPiece(b, t, SquareOf(x, y), eat) + GenFrom(b, t, x, y + 1, eat)
    ensures GenFrom(b, t, x, 13, eat) == GenFrom(b, t, x + 1, 3, eat)
  {
  }
}
