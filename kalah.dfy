/** The object-style Kalah state of kalah.py: a 2-by-6 board and two stores
    (`magazyn`) held by a `Kalah` object together with the player to move, and the
    older rule set of `take_action_job` (no bonus move, the mirror pit captured
    unconditionally). */
module KalahState {
  import opened KalahRules
  import opened Boards
  import opened GameMechanics

  datatype Option<T> = None | Some(value: T)

  // ---------------------------------------------------------------------------
  // A move and the end of the game on values
  // ---------------------------------------------------------------------------

  /** take_action_job on values: no move (`None`) when the index is negative or the
      mover's pit is empty, otherwise the pit is emptied and its stones are sown
      under the `Job` rules.  Indexes above 5 fault in the source. */
  function JobMove(p: Position, turn: int, action: int): (r: Option<Position>)
    requires Shaped(p) && NonNegative(p) && Width(p) == Kalah.Pole
    requires -Kalah.Pole <= action < Kalah.Pole
    ensures r.Some? <==> KallahLegal(p, turn, action)
    ensures r.Some? ==> Shaped(r.value) && Width(r.value) == Width(p)
  {
    var pr := PlayerRow(turn);
    if action < 0 || action > 5 || p.pits[pr][action] == 0 then None
    else Some(SowFrom(Job, SetPit(p, pr, action, 0), pr, action, p.pits[pr][action]).pos)
  }

  /** compute_outcome_job_numba_jit on values: an empty row 1 sends row 0 to store 1,
      otherwise an empty row 0 sends row 1 to store 0, and the stores decide; -2 means
      the game goes on. */
  function JobOutcome(p: Position): (r: (Position, int))
    requires Shaped(p)
    ensures Shaped(r.0) && Width(r.0) == Width(p)
  {
    var n := Width(p);
    if Sum(p.pits[1][..n]) == 0 then
      var q := Sweep(p, 0, 1, n); (q, Verdict(q))
    else if Sum(p.pits[0][..n]) == 0 then
      var q := Sweep(p, 1, 0, n); (q, Verdict(q))
    else (p, -2)
  }

  // ---------------------------------------------------------------------------
  // The class
  // ---------------------------------------------------------------------------

  class Kalah {
    /** Pits per row. */
    static const Pole: int := 6
    /** Stones per pit at the start. */
    static const Kamienie: int := 4
    /** The row of the player whose turn is 1. */
    static const Player1Row: nat := 1
    /** The row of the other player. */
    static const Player2Row: nat := 0

    var board: array2<int>
    var magazyn: array<int>
    var turn: int
    var k: int
    var bonus: bool
    var steal: bool

    /** Rows 0 and 1 of the board with the two stores. */
    function State(): (p: Position)
      requires board.Length0 == 2 && magazyn.Length == 2
      reads this, board, magazyn
      ensures Shaped(p) && Width(p) == board.Length1
    {
      BoardPosition(board, magazyn[0], magazyn[1])
    }

    /** A 2-by-6 board, two stores and no negative count. */
    ghost predicate Valid()
      reads this, board, magazyn
    {
      board.Length0 == 2 && board.Length1 == Pole && magazyn.Length == 2 && NonNegative(State())
    }

    /** A root state: four stones in each of the twelve pits and empty stores.  The
        player to move is set by the base class, which is not part of this model. */
    constructor Root(turn: int)
      ensures Valid() && fresh(board) && fresh(magazyn)
      ensures State() == StartPosition()
      ensures (board.Length0, board.Length1) == BoardShape()
      ensures this.turn == turn && k == Kamienie && !bonus && !steal
    {
      this.turn := turn;
      k := Kamienie;
      magazyn := new int[] [0, 0];
      board := new int[2, Pole]((i, j) => Kamienie);
      bonus := false;
      steal := false;
      new;
      BoardPositionEntries(board, StartPosition());
    }

    /** A child state: fresh copies of the parent's board and stores, so moves made on
        the child leave the parent as it is. */
    constructor Child(parent: Kalah, turn: int)
      requires parent.Valid()
      ensures Valid() && fresh(board) && fresh(magazyn)
      ensures State() == parent.State()
      ensures this.turn == turn && k == parent.k && bonus == parent.bonus && steal == parent.steal
    {
      var pb, pm := parent.board, parent.magazyn;
      this.turn := turn;
      k := parent.k;
      magazyn := new int[] [pm[0], pm[1]];
      board := new int[2, Pole]((i, j) requires 0 <= i < 2 && 0 <= j < Pole reads pb => pb[i, j]);
      bonus := parent.bonus;
      steal := parent.steal;
      new;
      BoardPositionEntries(board, parent.State());
    }

    /** `turn` is 1 or -1: the player whose turn is 1 owns row 1. */
    function GetPlayerRow(): (r: nat)
      reads this
      ensures r == Player1Row || r == Player2Row
      ensures r == Player1Row <==> turn == 1
      ensures r == PlayerRow(turn)
    {
      if turn == 1 then Player1Row else Player2Row
    }

    /** One move of the mover's pit `action`.  Nothing happens, and the answer is false,
        when the index is negative (numpy reads the pit counted from the right first)
        or the pit is empty; otherwise the move is sown and the turn passes. */
    method TakeActionJob(action: int) returns (ok: bool)
      requires Valid() && (turn == 1 || turn == -1) && -Pole <= action < Pole
      modifies this, board, magazyn
      ensures Valid() && board == old(board) && magazyn == old(magazyn)
      ensures k == old(k) && bonus == old(bonus) && steal == old(steal)
      ensures ok <==> JobMove(old(State()), old(turn), action).Some?
      ensures ok ==> State() == JobMove(old(State()), old(turn), action).value && turn == -old(turn)
      ensures !ok ==> State() == old(State()) && turn == old(turn)
    {
      ghost var p := State();
      var playerRow := GetPlayerRow();
      var stones := board[playerRow, if action < 0 then action + Pole else action];
      if stones == 0 || action > 5 || action < 0 {
        return false;
      }
      board[playerRow, action] := 0;
      BoardPositionEntries(board, SetPit(p, playerRow, action, 0));
      var counter := turn;
      SowJob(board, magazyn, playerRow, action, counter, stones);
      JobMoveNonNegative(p, turn, action);
      turn := -turn;
      return true;
    }

    /** compute_outcome_job: the numba branch's verdict, or `None` while the game goes
        on. */
    method ComputeOutcomeJob() returns (outcome: Option<int>)
      requires Valid()
      modifies board, magazyn
      ensures Valid()
      ensures var (q, v) := JobOutcome(old(State()));
        State() == q && outcome == if v == -2 then None else Some(v)
    {
      ghost var p := State();
      var numbaOutcome := ComputeOutcomeJobNumbaJit(board, magazyn);
      JobOutcomeNonNegative(p);
      if numbaOutcome != -2 {
        return Some(numbaOutcome);
      }
      return None;
    }

    /** The pure-Python branch of compute_outcome_job, taken when its `NUMBA` switch is
        off: each row left over goes to its own player's store. */
    method ComputeOutcomeJobPython() returns (outcome: Option<int>)
      requires Valid()
      modifies board, magazyn
      ensures Valid()
      ensures var (q, v) := FullOutcome(old(State()));
        State() == q && outcome == if v == -2 then None else Some(v)
    {
      ghost var p := State();
      var n := board.Length1;
      var suma1 := RowSum(board, 1, n);
      var suma0 := RowSum(board, 0, n);
      FullOutcomeNonNegative(p);
      if suma1 == 0 {
        magazyn[0] := magazyn[0] + suma0;
        ZeroRow(board, 0, n);
        assert State().pits == Sweep(p, 0, 0, n).pits;
        outcome := Some(Compare(magazyn[0], magazyn[1]));
      } else if suma0 == 0 {
        magazyn[1] := magazyn[1] + suma1;
        ZeroRow(board, 1, n);
        assert State().pits == Sweep(p, 1, 1, n).pits;
        outcome := Some(Compare(magazyn[0], magazyn[1]));
      } else {
        outcome := None;
      }
    }

    /** compute_outcome_job_numba_jit on a board and its stores. */
    static method ComputeOutcomeJobNumbaJit(board: array2<int>, magazyn: array<int>)
      returns (outcome: int)
      requires board.Length0 == 2 && magazyn.Length == 2
      modifies board, magazyn
      ensures (BoardPosition(board, magazyn[0], magazyn[1]), outcome) ==
        JobOutcome(old(BoardPosition(board, magazyn[0], magazyn[1])))
    {
      ghost var p := BoardPosition(board, magazyn[0], magazyn[1]);
      var n := board.Length1;
      var suma1 := RowSum(board, 1, n);
      if suma1 == 0 {
        var suma0 := RowSum(board, 0, n);
        magazyn[1] := magazyn[1] + suma0;
        ZeroRow(board, 0, n);
        assert BoardPosition(board, magazyn[0], magazyn[1]).pits == Sweep(p, 0, 1, n).pits;
        return Compare(magazyn[0], magazyn[1]);
      }
      var suma0 := RowSum(board, 0, n);
      if suma0 == 0 {
        magazyn[0] := magazyn[0] + suma1;
        ZeroRow(board, 1, n);
        assert BoardPosition(board, magazyn[0], magazyn[1]).pits == Sweep(p, 1, 0, n).pits;
        return Compare(magazyn[0], magazyn[1]);
      }
      return -2;
    }

    /** The verdict ladder of the outcome functions: -1 when store 0 is ahead, 1 when
        store 1 is, 0 on a tie. */
    static function Compare(magazyn0: int, magazyn1: int): (r: int)
      ensures r == -1 <==> magazyn0 > magazyn1
      ensures r == 1 <==> magazyn1 > magazyn0
      ensures r == 0 <==> magazyn0 == magazyn1
    {
      if magazyn0 > magazyn1 then -1
      else if magazyn1 > magazyn0 then 1
      else 0
    }

    /** action_index_to_name: Python's `str` of the index. */
    static function ActionIndexToName(actionIndex: int): (name: string)
      ensures 0 <= actionIndex <= 9 ==> name == [DigitChar(actionIndex)]
      ensures actionIndex >= 0 ==> IsNumeral(name)
      ensures actionIndex < 0 ==> |name| > 1 && name[0] == '-' && IsNumeral(name[1..])
    {
      if actionIndex < 0 then "-" + Numeral(-actionIndex) else Numeral(actionIndex)
    }

    /** action_name_to_index: Python's `int` of a name made of an optional sign and
        decimal digits; `None` where `int` raises. */
    static function ActionNameToIndex(actionName: string): (r: Option<int>)
      ensures r.Some? <==>
        (IsNumeral(actionName) || (|actionName| > 0 && actionName[0] in "+-" && IsNumeral(actionName[1..])))
      ensures IsNumeral(actionName) ==> r == Some(ValueOf(actionName))
    {
      if IsNumeral(actionName) then Some(ValueOf(actionName))
      else if |actionName| > 0 && actionName[0] in "+-" && IsNumeral(actionName[1..]) then
        var v: int := ValueOf(actionName[1..]);
        Some(if actionName[0] == '-' then -v else v)
      else None
    }

    /** get_board_shape as written: (6, 2). */
    static function GetBoardShape(): (shape: (nat, nat))
      ensures shape.0 * shape.1 == 2 * Pole
    {
      (Pole, 2)
    }

    /** The shape of the boards the constructors build: 2 rows of 6 pits. */
    static function BoardShape(): (shape: (nat, nat))
      ensures shape.0 * shape.1 == 2 * Pole && shape.0 == 2
    {
      (2, Pole)
    }

    /** get_extra_info_memory: room for both rows of pits and both stores. */
    static function GetExtraInfoMemory(): (bytes: nat)
      ensures bytes == |StartPosition().pits[0]| + |StartPosition().pits[1]| + 2
    {
      2 * Pole + 2
    }

    /** get_max_actions: one action per pit of a row. */
    static function GetMaxActions(): (count: nat)
      ensures count == |StartPosition().pits[0]| == |StartPosition().pits[1]|
    {
      Pole
    }
  }

  // ---------------------------------------------------------------------------
  // The root position
  // ---------------------------------------------------------------------------

  /** The board of a root state with its empty stores. */
  function StartPosition(): (p: Position)
    ensures Shaped(p) && Width(p) == Kalah.Pole
  {
    var row := seq(Kalah.Pole, _ => Kalah.Kamienie as int);
    Position([row, row], 0, 0)
  }

  /** A root state holds 48 stones, all in pits, and no count is negative. */
  lemma StartPositionTotal()
    ensures Total(StartPosition()) == 48 && NonNegative(StartPosition())
    ensures StartPosition().store0 == 0 && StartPosition().store1 == 0
  {
    SumConstant(Kalah.Pole, Kalah.Kamienie);
  }

  /** m pits of c stones each hold m * c stones. */
  lemma {:induction false} SumConstant(m: nat, c: int)
    ensures Sum(seq(m, _ => c)) == m * c
  {
    if m > 0 {
      assert seq(m, _ => c)[..m - 1] == seq(m - 1, _ => c);
      SumConstant(m - 1, c);
    }
  }

  // ---------------------------------------------------------------------------
  // Decimal names
  // ---------------------------------------------------------------------------

  function DigitChar(d: int): (c: char)
    requires 0 <= d <= 9
    ensures '0' <= c <= '9'
  {
    ('0' as int + d) as char
  }

  /** A non-empty string of decimal digits. */
  predicate IsNumeral(s: string) {
    |s| > 0 && forall i :: 0 <= i < |s| ==> '0' <= s[i] <= '9'
  }

  /** The decimal numeral of n, without leading zeros. */
  function Numeral(n: nat): (s: string)
    ensures IsNumeral(s)
  {
    if n < 10 then [DigitChar(n)] else Numeral(n / 10) + [DigitChar(n % 10)]
  }

  /** The value of a string of decimal digits. */
  function ValueOf(s: string): nat
    requires forall i :: 0 <= i < |s| ==> '0' <= s[i] <= '9'
  {
    if s == [] then 0 else 10 * ValueOf(s[..|s| - 1]) + (s[|s| - 1] as int - '0' as int)
  }

  /** Reading back a numeral gives the number it was written from. */
  lemma {:induction false} NumeralValue(n: nat)
    ensures ValueOf(Numeral(n)) == n
  {
    if n >= 10 {
      var s := Numeral(n);
      assert s[..|s| - 1] == Numeral(n / 10);
      NumeralValue(n / 10);
    }
  }

  /** action_name_to_index undoes action_index_to_name, for every index. */
  lemma ActionNameRoundTrip(actionIndex: int)
    ensures Kalah.ActionNameToIndex(Kalah.ActionIndexToName(actionIndex)) == Some(actionIndex)
  {
    if actionIndex < 0 {
      var digits := Numeral(-actionIndex);
      var name := "-" + digits;
      assert name[1..] == digits;
      NotNumeral(name);
      NumeralValue(-actionIndex);
    } else {
      NumeralValue(actionIndex);
    }
  }

  /** A string starting with a sign is no numeral. */
  lemma NotNumeral(s: string)
    requires |s| > 0 && s[0] == '-'
    ensures !IsNumeral(s)
  {
    assert s[0] < '0';
  }

  /** The shape get_board_shape reports is the transpose of the board the
      constructors build. */
  lemma BoardShapeTransposed()
    ensures Kalah.GetBoardShape() != Kalah.BoardShape()
    ensures Kalah.GetBoardShape() == (Kalah.BoardShape().1, Kalah.BoardShape().0)
  {
  }

  /** Every state the class keeps has the corrected shape, and every action the
      rules accept is below get_max_actions. */
  lemma ValidShape(s: Kalah, action: int)
    requires s.Valid()
    ensures (s.board.Length0, s.board.Length1) == Kalah.BoardShape()
    ensures KallahLegal(s.State(), s.turn, action) ==> 0 <= action < Kalah.GetMaxActions()
  {
  }

  // ---------------------------------------------------------------------------
  // The sowing loop of take_action_job
  // ---------------------------------------------------------------------------

  /** The `while stones != 0` loop of take_action_job, sowing `stones` stones from pit
      (playerRow, action), which is already empty. */
  method SowJob(board: array2<int>, magazyn: array<int>, playerRow: nat, action: int,
                counter: int, stones: nat)
    requires board.Length0 == 2 && magazyn.Length == 2
    requires playerRow < 2 && 0 <= action < board.Length1
    requires counter == if playerRow == 1 then 1 else -1
    modifies board, magazyn
    ensures BoardPosition(board, magazyn[0], magazyn[1]) ==
      SowFrom(Job, old(BoardPosition(board, magazyn[0], magazyn[1])), playerRow, action, stones).pos
  {
    var action, counter, stones := action, counter, stones;
    ghost var target := SowFrom(Job, BoardPosition(board, magazyn[0], magazyn[1]),
                                playerRow, action, stones);
    ghost var inStore := false;
    var currentRow: nat := playerRow;
    while stones != 0
      invariant CursorOk(board.Length1, action, counter, currentRow)
      invariant Sow(Job, BoardPosition(board, magazyn[0], magazyn[1]), playerRow, action, counter,
                    currentRow, stones, inStore) == target
      decreases 2 * stones + (if counter == 0 then 0 else 1)
    {
      action, counter, currentRow, stones, inStore :=
        SowJobOnce(board, magazyn, playerRow, action, counter, currentRow, stones);
    }
  }

  /** The body of take_action_job's loop: `idx = action_index + counter` runs off the
      right end, off the left end, or lies inside row `currentRow`. */
  method SowJobOnce(board: array2<int>, magazyn: array<int>, playerRow: nat, action: int,
                    counter: int, currentRow: nat, stones: nat)
    returns (action': int, counter': int, currentRow': nat, stones': nat, ghost inStore': bool)
    requires board.Length0 == 2 && magazyn.Length == 2
    requires playerRow < 2 && CursorOk(board.Length1, action, counter, currentRow) && stones > 0
    modifies board, magazyn
    ensures CursorOk(board.Length1, action', counter', currentRow')
    ensures 2 * stones' + (if counter' == 0 then 0 else 1) < 2 * stones + (if counter == 0 then 0 else 1)
    ensures Sow(Job, BoardPosition(board, magazyn[0], magazyn[1]), playerRow, action', counter',
                currentRow', stones', inStore') ==
      Sow(Job, old(BoardPosition(board, magazyn[0], magazyn[1])), playerRow, action, counter,
          currentRow, stones, false)
  {
    var idx := action + counter;
    if idx == board.Length1 || idx < 0 {
      action', counter', currentRow', stones', inStore' :=
        WrapJob(board, magazyn, playerRow, action, counter, currentRow, stones);
    } else {
      SowInRow(Job, BoardPosition(board, magazyn[0], magazyn[1]), playerRow, action, counter,
               currentRow, stones, false);
      DepositJob(board, magazyn, playerRow, currentRow, idx, stones);
      action', currentRow' := action, currentRow;
      counter' := if currentRow == 1 then counter + 1 else counter - 1;
      stones' := stones - 1;
      inStore' := false;
    }
  }

  /** take_action_job's loop when the index runs off an end of the rows: off the right
      end the cursor moves to the right end of row 0, off the left end to the left end
      of row 1, and a stone goes into the store being passed when it is the mover's. */
  method WrapJob(board: array2<int>, magazyn: array<int>, playerRow: nat, action: int,
                 counter: int, currentRow: nat, stones: nat)
    returns (action': int, counter': int, currentRow': nat, stones': nat, ghost inStore': bool)
    requires board.Length0 == 2 && magazyn.Length == 2
    requires playerRow < 2 && CursorOk(board.Length1, action, counter, currentRow) && stones > 0
    requires action + counter == board.Length1 || action + counter < 0
    modifies magazyn
    ensures CursorOk(board.Length1, action', counter', currentRow')
    ensures 2 * stones' + (if counter' == 0 then 0 else 1) < 2 * stones + (if counter == 0 then 0 else 1)
    ensures Sow(Job, BoardPosition(board, magazyn[0], magazyn[1]), playerRow, action', counter',
                currentRow', stones', inStore') ==
      Sow(Job, old(BoardPosition(board, magazyn[0], magazyn[1])), playerRow, action, counter,
          currentRow, stones, false)
  {
    var n := board.Length1;
    if action + counter == n {
      SowAtRightEnd(Job, BoardPosition(board, magazyn[0], magazyn[1]), playerRow, action, counter,
                    currentRow, stones, false);
      action', counter', currentRow', stones', inStore' := n - 1, 0, 0, stones, false;
      if playerRow == 1 {
        BoardPositionStore(board, magazyn[0], magazyn[1], 1, 1);
        magazyn[playerRow] := magazyn[playerRow] + 1;
        stones' := stones - 1;
        inStore' := true;
      }
    } else {
      SowAtLeftEnd(Job, BoardPosition(board, magazyn[0], magazyn[1]), playerRow, action, counter,
                   currentRow, stones, false);
      action', counter', currentRow', stones', inStore' := 0, 0, 1, stones, false;
      if playerRow == 0 {
        BoardPositionStore(board, magazyn[0], magazyn[1], 0, 1);
        magazyn[playerRow] := magazyn[playerRow] + 1;
        stones' := stones - 1;
        inStore' := true;
      }
    }
  }

  /** An index inside row `currentRow` of take_action_job's loop: the last stone of the
      move, landing in an empty pit of the mover's row, takes the mirror pit's stones
      into the store (however many, none included) and stays in the pit; any other
      stone is dropped into the pit. */
  method DepositJob(board: array2<int>, magazyn: array<int>, playerRow: nat, currentRow: nat,
                    idx: int, stones: int)
    requires board.Length0 == 2 && magazyn.Length == 2
    requires playerRow < 2 && currentRow < 2 && 0 <= idx < board.Length1
    modifies board, magazyn
    ensures BoardPosition(board, magazyn[0], magazyn[1]) ==
      var before := old(BoardPosition(board, magazyn[0], magazyn[1]));
      if before.pits[currentRow][idx] == 0 && playerRow == currentRow && stones == 1
      then Capture(Job, before, playerRow, idx)
      else Drop(before, Pit(currentRow, idx))
  {
    ghost var before := BoardPosition(board, magazyn[0], magazyn[1]);
    ghost var after :=
      if before.pits[currentRow][idx] == 0 && playerRow == currentRow && stones == 1
      then Capture(Job, before, playerRow, idx)
      else Drop(before, Pit(currentRow, idx));
    if board[currentRow, idx] == 0 && playerRow == currentRow && stones == 1 {
      var enemyRow := if playerRow == 1 then 0 else 1;
      magazyn[playerRow] := magazyn[playerRow] + board[enemyRow, idx];
      board[enemyRow, idx] := 0;
    }
    board[currentRow, idx] := board[currentRow, idx] + 1;
    BoardPositionEntries(board, after);
  }

  // ---------------------------------------------------------------------------
  // What a move does
  // ---------------------------------------------------------------------------

  /** A move neither creates nor destroys stones. */
  lemma JobMoveConserves(p: Position, turn: int, action: int)
    requires Shaped(p) && NonNegative(p) && Width(p) == Kalah.Pole
    requires -Kalah.Pole <= action < Kalah.Pole
    ensures JobMove(p, turn, action).Some? ==> Total(JobMove(p, turn, action).value) == Total(p)
  {
    if JobMove(p, turn, action).Some? {
      var pr := PlayerRow(turn);
      var k := p.pits[pr][action];
      var z := SetPit(p, pr, action, 0);
      SetPitTotal(p, pr, action, 0);
      SowFromIsMove(Job, z, pr, action, k);
      MoveTotal(Job, z, pr, StartPos(pr, Width(z), action), k);
    }
  }

  /** Only the mover's store changes, and it never loses stones. */
  lemma JobMoveStores(p: Position, turn: int, action: int)
    requires Shaped(p) && NonNegative(p) && Width(p) == Kalah.Pole
    requires -Kalah.Pole <= action < Kalah.Pole
    ensures var pr := PlayerRow(turn);
      JobMove(p, turn, action).Some? ==>
        && JobMove(p, turn, action).value.StoreOf(1 - pr) == p.StoreOf(1 - pr)
        && JobMove(p, turn, action).value.StoreOf(pr) >= p.StoreOf(pr)
  {
    if JobMove(p, turn, action).Some? {
      var pr := PlayerRow(turn);
      var k := p.pits[pr][action];
      var z := SetPit(p, pr, action, 0);
      assert NonNegative(z);
      SowFromIsMove(Job, z, pr, action, k);
      MoveStores(Job, z, pr, StartPos(pr, Width(z), action), k);
    }
  }

  /** No pit gets a negative count. */
  lemma JobMoveNonNegative(p: Position, turn: int, action: int)
    requires Shaped(p) && NonNegative(p) && Width(p) == Kalah.Pole
    requires -Kalah.Pole <= action < Kalah.Pole
    ensures JobMove(p, turn, action).Some? ==> NonNegative(JobMove(p, turn, action).value)
  {
    if JobMove(p, turn, action).Some? {
      var pr := PlayerRow(turn);
      var k := p.pits[pr][action];
      var z := SetPit(p, pr, action, 0);
      assert NonNegative(z);
      SowFromIsMove(Job, z, pr, action, k);
      MoveNonNegative(Job, z, pr, StartPos(pr, Width(z), action), k);
    }
  }

  /** When the last stone lands in pit j of the mover's row and that pit is empty once
      the other stones are sown, the store gains exactly the mirror pit's stones (which
      may be none), the mirror pit is emptied and pit j holds the last stone. */
  lemma JobMoveCapture(p: Position, turn: int, action: int, j: nat)
    requires Shaped(p) && NonNegative(p) && Width(p) == Kalah.Pole
    requires -Kalah.Pole <= action < Kalah.Pole && KallahLegal(p, turn, action)
    requires Landing(PlayerRow(turn), Kalah.Pole, action, p.pits[PlayerRow(turn)][action]) ==
      Pit(PlayerRow(turn), j)
    ensures var pr := PlayerRow(turn);
      var w := Walk(SetPit(p, pr, action, 0), pr, StartPos(pr, Kalah.Pole, action),
                    p.pits[pr][action] - 1);
      var r := JobMove(p, turn, action).value;
      w.pits[pr][j] == 0 ==>
        && r.pits[pr][j] == 1 && r.pits[1 - pr][j] == 0
        && r.StoreOf(pr) == w.StoreOf(pr) + w.pits[1 - pr][j]
        && r.StoreOf(1 - pr) == w.StoreOf(1 - pr)
  {
    var pr := PlayerRow(turn);
    var z := SetPit(p, pr, action, 0);
    SowFromIsMove(Job, z, pr, action, p.pits[pr][action]);
  }

  /** The two rule sets agree on a move made without a pending bonus, except when
      the last stone lands in an empty pit of the mover's row opposite a pit holding
      stones: then the flat-buffer rules also put the last stone into the store,
      leaving the pit empty. */
  lemma JobMatchesDevice(b: Buffers, turn: int, action: int)
    requires Shaped(b.pos) && NonNegative(b.pos) && Width(b.pos) == Kalah.Pole
    requires b.bonus == 0 && -Kalah.Pole <= action < Kalah.Pole && KallahLegal(b.pos, turn, action)
    ensures var pr := PlayerRow(turn);
      var k := b.pos.pits[pr][action];
      var w := Walk(SetPit(b.pos, pr, action, 0), pr, StartPos(pr, Kalah.Pole, action), k - 1);
      var d := DeviceMove(b, turn, action).pos;
      var r := JobMove(b.pos, turn, action).value;
      match Landing(pr, Kalah.Pole, action, k)
      case Pit(row, c) =>
        if row == pr && w.pits[pr][c] == 0 && w.pits[1 - pr][c] > 0
        then d == AddToStore(SetPit(r, pr, c, 0), pr, 1)
        else d == r
      case Store(_) => d == r
  {
    var pr := PlayerRow(turn);
    var k := b.pos.pits[pr][action];
    var z := SetPit(b.pos, pr, action, 0);
    SowFromIsMove(Job, z, pr, action, k);
    SowFromIsMove(Device, z, pr, action, k);
    var w := Walk(z, pr, StartPos(pr, Kalah.Pole, action), k - 1);
    assert NonNegative(z);
    WalkNonNegative(z, pr, StartPos(pr, Kalah.Pole, action), k - 1);
    match Landing(pr, Kalah.Pole, action, k)
    case Pit(row, c) =>
      if row == pr && w.pits[pr][c] == 0 {
        CapturesCompared(w, pr, c);
      }
    case Store(_) =>
  }

  /** The two captures of an empty pit j of row pr: with stones opposite, the
      flat-buffer capture also puts the last stone into the store; with none opposite
      they agree. */
  lemma CapturesCompared(p: Position, pr: nat, j: nat)
    requires Shaped(p) && pr < 2 && j < Width(p) && p.pits[pr][j] == 0
    ensures p.pits[1 - pr][j] > 0 ==>
      Capture(Device, p, pr, j) == AddToStore(SetPit(Capture(Job, p, pr, j), pr, j, 0), pr, 1)
    ensures p.pits[1 - pr][j] == 0 ==> Capture(Device, p, pr, j) == Capture(Job, p, pr, j)
  {
    var e := SetPit(p, 1 - pr, j, 0);
    if p.pits[1 - pr][j] > 0 {
      assert SetPit(SetPit(e, pr, j, 1), pr, j, 0).pits[pr] == SetPit(e, pr, j, 0).pits[pr];
    } else if p.pits[1 - pr][j] == 0 {
      assert e.pits[1 - pr] == p.pits[1 - pr];
      assert e == p;
    }
  }

  // ---------------------------------------------------------------------------
  // The end of the game
  // ---------------------------------------------------------------------------

  /** Scoring moves stones into the stores without creating or losing any. */
  lemma JobOutcomeConserves(p: Position)
    requires Shaped(p)
    ensures Total(JobOutcome(p).0) == Total(p)
  {
    var n := Width(p);
    if Sum(p.pits[1][..n]) == 0 {
      SweepTotal(p, 0, 1, n);
    } else if Sum(p.pits[0][..n]) == 0 {
      SweepTotal(p, 1, 0, n);
    }
  }

  /** No count becomes negative. */
  lemma JobOutcomeNonNegative(p: Position)
    requires Shaped(p) && NonNegative(p)
    ensures NonNegative(JobOutcome(p).0)
  {
  }

  lemma FullOutcomeNonNegative(p: Position)
    requires Shaped(p) && NonNegative(p)
    ensures NonNegative(FullOutcome(p).0)
  {
  }

  /** The game goes on (`None` from compute_outcome_job) exactly when both rows hold
      stones, and then nothing changes; otherwise the verdict compares the final
      stores. */
  lemma JobOutcomeCases(p: Position)
    requires Shaped(p) && NonNegative(p)
    ensures var (q, v) := JobOutcome(p);
      && (v == -2 <==> (exists j :: 0 <= j < Width(p) && p.pits[0][j] > 0) &&
                       (exists j :: 0 <= j < Width(p) && p.pits[1][j] > 0))
      && (v == -2 ==> q == p)
      && (v != -2 ==> v == Kalah.Compare(q.store0, q.store1))
  {
    var n := Width(p);
    assert p.pits[0][..n] == p.pits[0];
    assert p.pits[1][..n] == p.pits[1];
    SumZeroMeansEmpty(p.pits[0]);
    SumZeroMeansEmpty(p.pits[1]);
  }

  /** A game compute_outcome_job leaves going on, with no count negative, leaves the
      mover a pit take_action_job accepts. */
  lemma OngoingJobHasMove(p: Position, turn: int)
    requires Shaped(p) && NonNegative(p) && Width(p) == Kalah.Pole
    ensures JobOutcome(p).1 == -2 ==> exists j :: 0 <= j < Kalah.Pole && JobMove(p, turn, j).Some?
  {
    if JobOutcome(p).1 == -2 {
      var row := p.pits[PlayerRow(turn)];
      assert row[..Kalah.Pole] == row;
      SumZeroMeansEmpty(row);
      var j :| 0 <= j < Kalah.Pole && row[j] != 0;
      assert JobMove(p, turn, j).Some?;
    }
  }

  /** compute_outcome_job_numba_jit hands the stones left in a row to the store of the
      other row's player. */
  lemma JobOutcomeBanksOpposite(p: Position, r: nat)
    requires Shaped(p) && r < 2
    ensures var (q, v) := JobOutcome(p);
      v != -2 ==> q.StoreOf(1 - r) == p.StoreOf(1 - r) + Sum(p.pits[r])
  {
    var n := Width(p);
    assert p.pits[0][..n] == p.pits[0];
    assert p.pits[1][..n] == p.pits[1];
  }

  /** A second evaluation after a decided game returns the same verdict and leaves the
      stores as they are; when no count is negative it leaves the whole position. */
  lemma {:induction false} JobOutcomeIdempotent(p: Position)
    requires Shaped(p)
    ensures var (q, v) := JobOutcome(p);
      var (q2, v2) := JobOutcome(q);
      v != -2 ==> v2 == v && q2.store0 == q.store0 && q2.store1 == q.store1
    ensures var (q, v) := JobOutcome(p);
      v != -2 && NonNegative(p) ==> JobOutcome(q) == (q, v)
  {
    var n := Width(p);
    var (q, v) := JobOutcome(p);
    if v != -2 {
      SumZeros(n);
      assert Zeros(n) + q.pits[0][n..] == Zeros(n);
      assert Zeros(n) + q.pits[1][n..] == Zeros(n);
      if Sum(p.pits[1][..n]) == 0 {
        assert q.pits[1] == p.pits[1] && q.pits[0][..n] == Zeros(n);
        var q2 := Sweep(q, 0, 1, n);
        assert q2.pits[0] == q.pits[0];
        assert q2.pits == q.pits;
      } else {
        assert q.pits[1][..n] == Zeros(n) && q.pits[0] == p.pits[0];
        var q2 := Sweep(q, 0, 1, n);
        if NonNegative(p) {
          SumZeroMeansEmpty(p.pits[0][..n]);
          assert p.pits[0][..n] == Zeros(n);
          assert q2.pits[0] == q.pits[0];
          assert q2.pits == q.pits;
        }
      }
    }
  }

  /** One stone left in row 0 and none in row 1: the numba branch scores the stone for
      row 1's player, who wins, while the row still belongs to row 0's player, who
      wins under the pure-Python branch and under compute_outcome_kallah. */
  lemma OppositeStoreSweep()
    ensures var p := Position([[1, 0, 0, 0, 0, 0], [0, 0, 0, 0, 0, 0]], 0, 0);
      && Shaped(p) && JobOutcome(p).1 == 1 && FullOutcome(p).1 == -1
  {
    var p := Position([[1, 0, 0, 0, 0, 0], [0, 0, 0, 0, 0, 0]], 0, 0);
    SumZeros(6);
    assert p.pits[1][..6] == Zeros(6);
    assert p.pits[0][..6] == [1] + Zeros(5);
    SumAppend([1], Zeros(5));
    SumZeros(5);
    assert [1][..0] == [];
  }

  /** Under the full scan with each row swept into its own store, a decided game
      leaves each store holding its earlier count plus the stones of its own row. */
  lemma FullOutcomeBanksOwnRows(p: Position, r: nat)
    requires Shaped(p) && r < 2
    ensures var (q, v) := FullOutcome(p);
      v != -2 ==> q.StoreOf(r) == p.StoreOf(r) + Sum(p.pits[r])
  {
    var n := Width(p);
    assert p.pits[0][..n] == p.pits[0];
    assert p.pits[1][..n] == p.pits[1];
  }
}
