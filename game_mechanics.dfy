/** The flat-buffer Kalah functions of mctsnc_game_mechanics.py and the five
    dispatchers that forward to them.

    A state is a board of m rows and n columns (rows 0 and 1 hold the pits) and an
    `extra_info` buffer whose entries 0 and 1 are the stores of rows 0 and 1, entry 2
    the bonus flag and entry 3 the display flag.  `turn` is passed by value. */
module GameMechanics {
  import opened KalahRules
  import opened Boards

  /** The part of the flat buffers the Kalah rules use: the position and
      `extra_info[2]`, `extra_info[3]`. */
  datatype Buffers = Buffers(pos: Position, bonus: int, display: int)

  function BuffersOf(board: array2<int>, extraInfo: array<int>): (b: Buffers)
    requires board.Length0 >= 2 && extraInfo.Length >= 4
    reads board, extraInfo
    ensures Shaped(b.pos) && Width(b.pos) == board.Length1
  {
    Buffers(PositionOf(board, extraInfo), extraInfo[2], extraInfo[3])
  }

  // ---------------------------------------------------------------------------
  // Legality
  // ---------------------------------------------------------------------------

  /** is_action_legal_kallah's verdict. */
  function KallahLegal(p: Position, turn: int, action: int): (legal: bool)
    requires Shaped(p) && (0 <= action <= 5 ==> action < Width(p))
    ensures legal ==> 0 <= action < Width(p) && action < 6
  {
    0 <= action <= 5 && p.pits[PlayerRow(turn)][action] != 0
  }

  method IsActionLegalKallah(m: int, n: int, board: array2<int>, extraInfo: array<int>, turn: int,
                             action: int, legalActions: array<bool>)
    requires board.Length0 >= 2 && extraInfo.Length >= 2
    requires 0 <= action < legalActions.Length
    requires 0 <= action <= 5 ==> action < board.Length1
    modifies legalActions
    ensures legalActions[..] ==
      old(legalActions[..])[action := KallahLegal(PositionOf(board, extraInfo), turn, action)]
  {
    if action > 5 || action < 0 {
      legalActions[action] := false;
    } else {
      var playerRow := if turn == 1 then 1 else 0;
      var stones := board[playerRow, action];
      if stones == 0 {
        legalActions[action] := false;
      } else {
        legalActions[action] := true;
      }
    }
  }

  // ---------------------------------------------------------------------------
  // Taking an action
  // ---------------------------------------------------------------------------

  /** The row take_action_kallah sows from: a pending bonus flips the local turn. */
  function SowingRow(b: Buffers, turn: int): (r: nat)
    ensures r < 2
  {
    PlayerRow(if b.bonus != 0 then -turn else turn)
  }

  /** take_action_kallah on values.  A set display flag is cleared; a set bonus flag
      is cleared, the display flag set and the local turn flipped, and the move is
      still sown, from the other row at the same index. */
  function DeviceMove(b: Buffers, turn: int, action: nat): (r: Buffers)
    requires Shaped(b.pos) && NonNegative(b.pos) && action < Width(b.pos)
    ensures Shaped(r.pos) && Width(r.pos) == Width(b.pos)
  {
    var pr := SowingRow(b, turn);
    var sown := SowFrom(Device, SetPit(b.pos, pr, action, 0), pr, action, b.pos.pits[pr][action]);
    Buffers(sown.pos, if sown.lastInStore then 1 else 0, if b.bonus != 0 then 1 else 0)
  }

  method TakeActionKallah(m: int, n: int, board: array2<int>, extraInfo: array<int>, turn: int,
                          action: int)
    requires board.Length0 == 2 && extraInfo.Length >= 4
    requires turn == 1 || turn == -1
    requires 0 <= action < board.Length1
    requires NonNegative(PositionOf(board, extraInfo))
    modifies board, extraInfo
    ensures BuffersOf(board, extraInfo) == DeviceMove(old(BuffersOf(board, extraInfo)), turn, action)
    ensures forall i :: 4 <= i < extraInfo.Length ==> extraInfo[i] == old(extraInfo[i])
  {
    ghost var b0 := BuffersOf(board, extraInfo);
    var t := turn;
    if extraInfo[3] != 0 {
      extraInfo[3] := 0;
    }
    if extraInfo[2] != 0 {
      extraInfo[2] := 0;
      extraInfo[3] := 1;
      t := -t;
    }
    var playerRow: nat := if t == 1 then 1 else 0;
    assert playerRow == SowingRow(b0, turn);
    var stones: nat := board[playerRow, action];
    board[playerRow, action] := 0;
    BoardPositionEntries(board, SetPit(b0.pos, playerRow, action, 0));
    SowKallah(board, extraInfo, t, playerRow, action, stones);
  }

  /** The `while stones != 0` loop of take_action_kallah, sowing `stones` stones from
      pit (playerRow, action), which is already empty; `extraInfo[2]` ends set exactly
      when the last stone went into the mover's store. */
  method SowKallah(board: array2<int>, extraInfo: array<int>, turn: int, playerRow: nat,
                   action: int, stones: nat)
    requires board.Length0 == 2 && extraInfo.Length >= 4
    requires turn == 1 || turn == -1
    requires playerRow == PlayerRow(turn) && 0 <= action < board.Length1
    requires extraInfo[2] == 0
    modifies board, extraInfo
    ensures var sown := SowFrom(Device, old(BoardPosition(board, extraInfo[0], extraInfo[1])),
                                playerRow, action, stones);
      BoardPosition(board, extraInfo[0], extraInfo[1]) == sown.pos &&
      extraInfo[2] == if sown.lastInStore then 1 else 0
    ensures forall i :: 3 <= i < extraInfo.Length ==> extraInfo[i] == old(extraInfo[i])
  {
    var turn, action, stones := turn, action, stones;
    ghost var target := SowFrom(Device, BoardPosition(board, extraInfo[0], extraInfo[1]),
                                playerRow, action, stones);
    ghost var inStore := false;
    var currentRow: nat := playerRow;
    var counter := turn;
    while stones != 0
      invariant CursorOk(board.Length1, action, counter, currentRow)
      invariant Sow(Device, BoardPosition(board, extraInfo[0], extraInfo[1]), playerRow, action, counter,
                    currentRow, stones, inStore) == target
      invariant extraInfo[2] == if stones == 0 && inStore then 1 else 0
      invariant forall i :: 3 <= i < extraInfo.Length ==> extraInfo[i] == old(extraInfo[i])
      decreases 2 * stones + (if counter == 0 then 0 else 1)
    {
      action, counter, currentRow, stones, turn, inStore :=
        SowOnce(board, extraInfo, playerRow, action, counter, currentRow, stones, turn);
    }
    turn := -turn;
  }

  /** The body of take_action_kallah's loop: `idx = action + counter` runs off the
      right end, off the left end, or lies inside row `currentRow`. */
  method SowOnce(board: array2<int>, extraInfo: array<int>, playerRow: nat, action: int,
                 counter: int, currentRow: nat, stones: nat, turn: int)
    returns (action': int, counter': int, currentRow': nat, stones': nat, turn': int,
             ghost inStore': bool)
    requires board.Length0 == 2 && extraInfo.Length >= 4
    requires playerRow < 2 && CursorOk(board.Length1, action, counter, currentRow) && stones > 0
    requires extraInfo[2] == 0
    modifies board, extraInfo
    ensures CursorOk(board.Length1, action', counter', currentRow')
    ensures 2 * stones' + (if counter' == 0 then 0 else 1) < 2 * stones + (if counter == 0 then 0 else 1)
    ensures Sow(Device, BoardPosition(board, extraInfo[0], extraInfo[1]), playerRow, action', counter',
                currentRow', stones', inStore') ==
      Sow(Device, old(BoardPosition(board, extraInfo[0], extraInfo[1])), playerRow, action, counter,
          currentRow, stones, false)
    ensures extraInfo[2] == if stones' == 0 && inStore' then 1 else 0
    ensures forall i :: 3 <= i < extraInfo.Length ==> extraInfo[i] == old(extraInfo[i])
  {
    var idx := action + counter;
    if idx == board.Length1 {
      action', counter', currentRow', stones', turn', inStore' :=
        LeaveRight(board, extraInfo, playerRow, action, counter, currentRow, stones, turn);
    } else if idx < 0 {
      action', counter', currentRow', stones', turn', inStore' :=
        LeaveLeft(board, extraInfo, playerRow, action, counter, currentRow, stones, turn);
    } else {
      action', currentRow', turn' := action, currentRow, turn;
      counter', stones', inStore' :=
        StepInRow(board, extraInfo, playerRow, action, counter, currentRow, stones);
    }
  }

  /** take_action_kallah's loop when the index runs off the right end of the rows: the
      cursor moves to the right end of row 0, and when the mover is row 1 a stone goes
      into its store; that being the last stone sets the bonus flag and flips the turn. */
  method LeaveRight(board: array2<int>, extraInfo: array<int>, playerRow: nat, action: int,
                    counter: int, currentRow: nat, stones: nat, turn: int)
    returns (action': int, counter': int, currentRow': nat, stones': nat, turn': int,
             ghost inStore': bool)
    requires board.Length0 == 2 && extraInfo.Length >= 4
    requires playerRow < 2 && CursorOk(board.Length1, action, counter, currentRow) && stones > 0
    requires action + counter == board.Length1 && extraInfo[2] == 0
    modifies extraInfo
    ensures CursorOk(board.Length1, action', counter', currentRow')
    ensures 2 * stones' + (if counter' == 0 then 0 else 1) < 2 * stones + (if counter == 0 then 0 else 1)
    ensures Sow(Device, BoardPosition(board, extraInfo[0], extraInfo[1]), playerRow, action', counter',
                currentRow', stones', inStore') ==
      Sow(Device, old(BoardPosition(board, extraInfo[0], extraInfo[1])), playerRow, action, counter,
          currentRow, stones, false)
    ensures extraInfo[2] == if stones' == 0 && inStore' then 1 else 0
    ensures forall i :: 3 <= i < extraInfo.Length ==> extraInfo[i] == old(extraInfo[i])
  {
    SowAtRightEnd(Device, BoardPosition(board, extraInfo[0], extraInfo[1]), playerRow, action, counter,
                  currentRow, stones, false);
    stones', turn', inStore' := stones, turn, false;
    var idx := board.Length1 - 1;
    action' := board.Length1 - 1;
    counter' := 0;
    currentRow' := 0;
    if playerRow == 1 {
      BoardPositionStore(board, extraInfo[0], extraInfo[1], 1, 1);
      extraInfo[playerRow] := extraInfo[playerRow] + 1;
      stones' := stones' - 1;
      inStore' := true;
      if stones' == 0 {
        extraInfo[2] := 1;
        turn' := -turn';
      }
    }
  }

  /** take_action_kallah's loop when the index runs off the left end of the rows: the
      cursor moves to the left end of row 1, and when the mover is row 0 a stone goes
      into its store; that being the last stone sets the bonus flag and flips the turn. */
  method LeaveLeft(board: array2<int>, extraInfo: array<int>, playerRow: nat, action: int,
                   counter: int, currentRow: nat, stones: nat, turn: int)
    returns (action': int, counter': int, currentRow': nat, stones': nat, turn': int,
             ghost inStore': bool)
    requires board.Length0 == 2 && extraInfo.Length >= 4
    requires playerRow < 2 && CursorOk(board.Length1, action, counter, currentRow) && stones > 0
    requires action + counter < 0 && extraInfo[2] == 0
    modifies extraInfo
    ensures CursorOk(board.Length1, action', counter', currentRow')
    ensures 2 * stones' + (if counter' == 0 then 0 else 1) < 2 * stones + (if counter == 0 then 0 else 1)
    ensures Sow(Device, BoardPosition(board, extraInfo[0], extraInfo[1]), playerRow, action', counter',
                currentRow', stones', inStore') ==
      Sow(Device, old(BoardPosition(board, extraInfo[0], extraInfo[1])), playerRow, action, counter,
          currentRow, stones, false)
    ensures extraInfo[2] == if stones' == 0 && inStore' then 1 else 0
    ensures forall i :: 3 <= i < extraInfo.Length ==> extraInfo[i] == old(extraInfo[i])
  {
    SowAtLeftEnd(Device, BoardPosition(board, extraInfo[0], extraInfo[1]), playerRow, action, counter,
                 currentRow, stones, false);
    stones', turn', inStore' := stones, turn, false;
    var idx := 0;
    action' := 0;
    counter' := 0;
    currentRow' := 1;
    if playerRow == 0 {
      BoardPositionStore(board, extraInfo[0], extraInfo[1], 0, 1);
      extraInfo[playerRow] := extraInfo[playerRow] + 1;
      stones' := stones' - 1;
      inStore' := true;
      if stones' == 0 {
        extraInfo[2] := 1;
        turn' := -turn';
      }
    }
  }

  /** take_action_kallah's loop when the index lies inside row `currentRow`: a stone is
      taken there (see `DepositStone`) and the cursor moves on along the row. */
  method StepInRow(board: array2<int>, extraInfo: array<int>, playerRow: nat, action: int,
                  counter: int, currentRow: nat, stones: nat)
    returns (counter': int, stones': nat, ghost inStore': bool)
    requires board.Length0 == 2 && extraInfo.Length >= 4
    requires playerRow < 2 && CursorOk(board.Length1, action, counter, currentRow) && stones > 0
    requires 0 <= action + counter < board.Length1 && extraInfo[2] == 0
    modifies board, extraInfo
    ensures CursorOk(board.Length1, action, counter', currentRow)
    ensures 2 * stones' + (if counter' == 0 then 0 else 1) < 2 * stones + (if counter == 0 then 0 else 1)
    ensures Sow(Device, BoardPosition(board, extraInfo[0], extraInfo[1]), playerRow, action, counter',
                currentRow, stones', inStore') ==
      Sow(Device, old(BoardPosition(board, extraInfo[0], extraInfo[1])), playerRow, action, counter,
          currentRow, stones, false)
    ensures extraInfo[2] == if stones' == 0 && inStore' then 1 else 0
    ensures forall i :: 3 <= i < extraInfo.Length ==> extraInfo[i] == old(extraInfo[i])
  {
    SowInRow(Device, BoardPosition(board, extraInfo[0], extraInfo[1]), playerRow, action,
                        counter, currentRow, stones, false);
    var idx := action + counter;
    DepositStone(board, extraInfo, playerRow, currentRow, idx, stones);
    if currentRow == 1 {
      counter' := counter + 1;
    } else {
      counter' := counter - 1;
    }
    stones' := stones - 1;
    inStore' := false;
  }

  /** An index inside row `currentRow` of take_action_kallah's loop: the last stone of
      the move, landing in an empty pit of the mover's row whose mirror pit is not
      empty, captures; any other stone is dropped into the pit. */
  method DepositStone(board: array2<int>, extraInfo: array<int>, playerRow: nat, currentRow: nat,
                      idx: int, stones: int)
    requires board.Length0 == 2 && extraInfo.Length >= 2
    requires playerRow < 2 && currentRow < 2 && 0 <= idx < board.Length1
    modifies board, extraInfo
    ensures BoardPosition(board, extraInfo[0], extraInfo[1]) ==
      var before := old(BoardPosition(board, extraInfo[0], extraInfo[1]));
      if before.pits[currentRow][idx] == 0 && playerRow == currentRow && stones == 1
      then Capture(Device, before, playerRow, idx)
      else Drop(before, Pit(currentRow, idx))
    ensures forall i :: 2 <= i < extraInfo.Length ==> extraInfo[i] == old(extraInfo[i])
  {
    ghost var before := BoardPosition(board, extraInfo[0], extraInfo[1]);
    ghost var after :=
      if before.pits[currentRow][idx] == 0 && playerRow == currentRow && stones == 1
      then Capture(Device, before, playerRow, idx)
      else Drop(before, Pit(currentRow, idx));
    if board[currentRow, idx] == 0 && playerRow == currentRow && stones == 1 {
      var enemyRow := if playerRow == 1 then 0 else 1;
      if board[enemyRow, idx] > 0 {
        extraInfo[playerRow] := extraInfo[playerRow] + board[enemyRow, idx] + 1;
        board[enemyRow, idx] := 0;
        board[currentRow, idx] := board[currentRow, idx] - 1;
      }
    }
    board[currentRow, idx] := board[currentRow, idx] + 1;
    BoardPositionEntries(board, after);
  }

  method TakeActionPlayoutKallah(m: int, n: int, board: array2<int>, extraInfo: array<int>, turn: int,
                                 action: int, actionOrd: int, legalActionsWithCount: array<int>)
    requires board.Length0 == 2 && extraInfo.Length >= 4
    requires turn == 1 || turn == -1
    requires 0 <= action < board.Length1
    requires NonNegative(PositionOf(board, extraInfo))
    modifies board, extraInfo
    ensures BuffersOf(board, extraInfo) == DeviceMove(old(BuffersOf(board, extraInfo)), turn, action)
    ensures forall i :: 4 <= i < extraInfo.Length ==> extraInfo[i] == old(extraInfo[i])
  {
    TakeActionKallah(m, n, board, extraInfo, turn, action);
  }

  // ---------------------------------------------------------------------------
  // What a move on the buffers does
  // ---------------------------------------------------------------------------

  /** A move neither creates nor destroys stones. */
  lemma DeviceMoveConserves(b: Buffers, turn: int, action: nat)
    requires Shaped(b.pos) && NonNegative(b.pos) && action < Width(b.pos)
    ensures Total(DeviceMove(b, turn, action).pos) == Total(b.pos)
  {
    var pr := SowingRow(b, turn);
    var k := b.pos.pits[pr][action];
    var z := SetPit(b.pos, pr, action, 0);
    SetPitTotal(b.pos, pr, action, 0);
    SowFromIsMove(Device, z, pr, action, k);
    MoveTotal(Device, z, pr, StartPos(pr, Width(z), action), k);
  }

  /** The opponent's store keeps its count and the sowing row's store never loses any. */
  lemma DeviceMoveStores(b: Buffers, turn: int, action: nat)
    requires Shaped(b.pos) && NonNegative(b.pos) && action < Width(b.pos)
    ensures var pr := SowingRow(b, turn);
      var r := DeviceMove(b, turn, action).pos;
      r.StoreOf(1 - pr) == b.pos.StoreOf(1 - pr) && r.StoreOf(pr) >= b.pos.StoreOf(pr)
  {
    var pr := SowingRow(b, turn);
    var k := b.pos.pits[pr][action];
    var z := SetPit(b.pos, pr, action, 0);
    SowFromIsMove(Device, z, pr, action, k);
    MoveStores(Device, z, pr, StartPos(pr, Width(z), action), k);
  }

  /** No pit gets a negative count. */
  lemma DeviceMoveNonNegative(b: Buffers, turn: int, action: nat)
    requires Shaped(b.pos) && NonNegative(b.pos) && action < Width(b.pos)
    ensures NonNegative(DeviceMove(b, turn, action).pos)
  {
    var pr := SowingRow(b, turn);
    var k := b.pos.pits[pr][action];
    var z := SetPit(b.pos, pr, action, 0);
    SowFromIsMove(Device, z, pr, action, k);
    MoveNonNegative(Device, z, pr, StartPos(pr, Width(z), action), k);
  }

  /** The bonus flag is raised exactly when the chosen pit held stones and the last of
      them lands in the sowing row's own store. */
  lemma DeviceMoveBonus(b: Buffers, turn: int, action: nat)
    requires Shaped(b.pos) && NonNegative(b.pos) && action < Width(b.pos)
    ensures var pr := SowingRow(b, turn);
      var k := b.pos.pits[pr][action];
      DeviceMove(b, turn, action).bonus == 1 <==>
        k > 0 && Landing(pr, Width(b.pos), action, k) == Store(pr)
  {
    var pr := SowingRow(b, turn);
    var k := b.pos.pits[pr][action];
    var z := SetPit(b.pos, pr, action, 0);
    SowFromIsMove(Device, z, pr, action, k);
  }

  /** When the last stone lands in an empty pit j of the sowing row and the pit
      opposite holds stones (both counted after the other stones were sown), both
      pits are emptied and the store gains the opposite pit's stones plus the last
      stone; otherwise the last stone simply stays in pit j. */
  lemma DeviceMoveCapture(b: Buffers, turn: int, action: nat, j: nat)
    requires Shaped(b.pos) && NonNegative(b.pos) && action < Width(b.pos)
    requires var pr := SowingRow(b, turn);
      var k := b.pos.pits[pr][action];
      k > 0 && Landing(pr, Width(b.pos), action, k) == Pit(pr, j)
    ensures var pr := SowingRow(b, turn);
      var k := b.pos.pits[pr][action];
      var n := Width(b.pos);
      var w := Walk(SetPit(b.pos, pr, action, 0), pr, StartPos(pr, n, action), k - 1);
      var r := DeviceMove(b, turn, action).pos;
      w.pits[pr][j] == 0 ==>
        if w.pits[1 - pr][j] > 0 then
          && r.pits[pr][j] == 0 && r.pits[1 - pr][j] == 0
          && r.StoreOf(pr) == w.StoreOf(pr) + w.pits[1 - pr][j] + 1
          && r.StoreOf(1 - pr) == w.StoreOf(1 - pr)
        else r.pits[pr][j] == 1 && r.pits[1 - pr][j] == w.pits[1 - pr][j] && r.StoreOf(pr) == w.StoreOf(pr)
  {
    var pr := SowingRow(b, turn);
    var k := b.pos.pits[pr][action];
    var z := SetPit(b.pos, pr, action, 0);
    SowFromIsMove(Device, z, pr, action, k);
  }

  // ---------------------------------------------------------------------------
  // Legal actions during a playout
  // ---------------------------------------------------------------------------

  /** The indices j < k whose pit in `row` holds stones, in ascending order. */
  function Occupied(row: seq<int>, k: nat): (r: seq<int>)
    requires k <= |row|
    ensures |r| <= k
  {
    if k == 0 then [] else Occupied(row, k - 1) + (if row[k - 1] > 0 then [k - 1] else [])
  }

  /** legal_actions_playout_kallah's list: the sentinel 6 alone while a bonus move is
      pending, otherwise the occupied pits among the first n of the mover's row. */
  function PlayoutList(p: Position, bonus: int, turn: int, n: nat): (r: seq<int>)
    requires Shaped(p) && n <= Width(p)
    ensures |r| <= n + 1
  {
    if bonus == 1 then [6] else Occupied(p.pits[PlayerRow(turn)], n)
  }

  method LegalActionsPlayoutKallah(m: int, n: int, board: array2<int>, extraInfo: array<int>,
                                   turn: int, legalActionsWithCount: array<int>)
    requires board.Length0 == 2 && extraInfo.Length >= 4
    requires 0 <= n <= board.Length1 && n < legalActionsWithCount.Length && 1 < legalActionsWithCount.Length
    requires legalActionsWithCount != extraInfo
    modifies legalActionsWithCount
    ensures var list := PlayoutList(PositionOf(board, extraInfo), extraInfo[2], turn, n);
      var last := legalActionsWithCount.Length - 1;
      && legalActionsWithCount[last] == |list|
      && legalActionsWithCount[..|list|] == list
      && legalActionsWithCount[|list|..last] == old(legalActionsWithCount[|list|..last])
  {
    ghost var list := PlayoutList(PositionOf(board, extraInfo), extraInfo[2], turn, n);
    var last := legalActionsWithCount.Length - 1;
    var count := 0;
    var playerRow := if turn == 1 then 1 else 0;
    if extraInfo[2] == 1 {
      legalActionsWithCount[0] := 6;
      count := 1;
    } else {
      count := ListOccupied(board, playerRow, n, legalActionsWithCount);
    }
    assert legalActionsWithCount[..count] == list;
    legalActionsWithCount[last] := count;
    assert legalActionsWithCount[..count] == list;
    assert legalActionsWithCount[count..last] == old(legalActionsWithCount[count..last]);
  }

  /** The loop of legal_actions_playout_kallah over the first n pits of `playerRow`,
      writing the occupied ones from the start of `legal`. */
  method ListOccupied(board: array2<int>, playerRow: nat, n: nat, legal: array<int>)
    returns (count: nat)
    requires playerRow < board.Length0 && n <= board.Length1 && n <= legal.Length
    modifies legal
    ensures count == |Occupied(RowOf(board, playerRow), n)|
    ensures legal[..count] == Occupied(RowOf(board, playerRow), n)
    ensures legal[count..] == old(legal[count..])
  {
    ghost var row := RowOf(board, playerRow);
    count := 0;
    for j := 0 to n
      invariant count == |Occupied(row, j)| <= j
      invariant legal[..count] == Occupied(row, j)
      invariant legal[count..] == old(legal[count..])
    {
      var stones := board[playerRow, j];
      if stones > 0 {
        legal[count] := j;
        count := count + 1;
      }
    }
  }

  /** The list holds exactly the occupied pits, each once, in ascending order. */
  lemma {:induction false} OccupiedMeans(row: seq<int>, k: nat)
    requires k <= |row|
    ensures forall j :: j in Occupied(row, k) <==> 0 <= j < k && row[j] > 0
    ensures forall a, b :: 0 <= a < b < |Occupied(row, k)| ==>
      Occupied(row, k)[a] < Occupied(row, k)[b]
    ensures forall a :: 0 <= a < |Occupied(row, k)| ==> 0 <= Occupied(row, k)[a] < k
  {
    if k > 0 {
      OccupiedMeans(row, k - 1);
    }
  }

  /** Outside a bonus move, and with no negative count, the playout list of a six-pit row is the set of actions
      is_action_legal_kallah accepts. */
  lemma PlayoutListIsLegal(p: Position, turn: int, n: nat, j: int)
    requires Shaped(p) && NonNegative(p) && n <= Width(p) && n <= 6
    ensures j in PlayoutList(p, 0, turn, n) <==> 0 <= j < n && KallahLegal(p, turn, j)
  {
    OccupiedMeans(p.pits[PlayerRow(turn)], n);
  }

  /** In a position no count of which is negative the list is empty exactly when the
      mover's first n pits are. */
  lemma PlayoutListEmpty(p: Position, turn: int, n: nat)
    requires Shaped(p) && NonNegative(p) && n <= Width(p)
    ensures PlayoutList(p, 0, turn, n) == [] <==> Sum(p.pits[PlayerRow(turn)][..n]) == 0
  {
    var row := p.pits[PlayerRow(turn)];
    var prefix := row[..n];
    assert forall j :: 0 <= j < n ==> prefix[j] == row[j];
    SumZeroMeansEmpty(prefix);
    OccupiedEmpty(row, n);
  }

  /** A game the outcome check leaves going on (-2), with no count negative, gives the
      mover a non-empty playout list: the scanned part of its row holds stones. */
  lemma OngoingHasMove(p: Position, turn: int, m: nat, n: nat)
    requires Shaped(p) && NonNegative(p) && m <= n <= Width(p)
    ensures DeviceOutcome(p, m).1 == -2 ==> PlayoutList(p, 0, turn, n) != []
  {
    if DeviceOutcome(p, m).1 == -2 {
      var row := p.pits[PlayerRow(turn)];
      var prefix := row[..m];
      assert forall j :: 0 <= j < m ==> prefix[j] == row[j];
      SumZeroMeansEmpty(prefix);
      var j :| 0 <= j < m && prefix[j] != 0;
      OccupiedMeans(row, n);
      assert j in Occupied(row, n);
    }
  }

  /** No pit among the first k is occupied exactly when the list is empty. */
  lemma {:induction false} OccupiedEmpty(row: seq<int>, k: nat)
    requires k <= |row|
    ensures Occupied(row, k) == [] <==> forall j :: 0 <= j < k ==> row[j] <= 0
  {
    if k > 0 {
      OccupiedEmpty(row, k - 1);
    }
  }

  // ---------------------------------------------------------------------------
  // The end of the game
  // ---------------------------------------------------------------------------

  /** compute_outcome_kallah on values, scanning the first m columns: an empty row 1
      sends row 0 to store 0, otherwise an empty row 0 sends row 1 to store 1, and the
      stores decide; -2 means the game goes on. */
  function DeviceOutcome(p: Position, m: nat): (r: (Position, int))
    requires Shaped(p) && m <= Width(p)
    ensures Shaped(r.0) && Width(r.0) == Width(p)
  {
    if Sum(p.pits[1][..m]) == 0 then
      var q := Sweep(p, 0, 0, m); (q, Verdict(q))
    else if Sum(p.pits[0][..m]) == 0 then
      var q := Sweep(p, 1, 1, m); (q, Verdict(q))
    else (p, -2)
  }

  /** The loops of compute_outcome_kallah that add up `board[r, i]` for i < m. */
  method RowSum(board: array2<int>, r: nat, m: nat) returns (total: int)
    requires r < board.Length0 && m <= board.Length1
    ensures total == Sum(RowOf(board, r)[..m])
  {
    ghost var row := RowOf(board, r);
    total := 0;
    for i := 0 to m
      invariant total == Sum(row[..i])
    {
      SumStep(row, i);
      total := total + board[r, i];
    }
  }

  /** The loops of compute_outcome_kallah that set `board[r, i] = 0` for i < m. */
  method ZeroRow(board: array2<int>, r: nat, m: nat)
    requires board.Length0 == 2 && r < 2 && m <= board.Length1
    modifies board
    ensures RowOf(board, r) == Zeros(m) + old(RowOf(board, r))[m..]
    ensures RowOf(board, 1 - r) == old(RowOf(board, 1 - r))
  {
    var other := 1 - r;
    for i := 0 to m
      invariant forall j :: 0 <= j < board.Length1 ==>
        board[r, j] == if j < i then 0 else old(board[r, j])
      invariant forall j :: 0 <= j < board.Length1 ==> board[other, j] == old(board[other, j])
    {
      board[r, i] := 0;
    }
    assert RowOf(board, r) == Zeros(m) + old(RowOf(board, r))[m..];
    assert RowOf(board, 1 - r) == old(RowOf(board, 1 - r));
  }

  method ComputeOutcomeKallah(m: int, n: int, board: array2<int>, extraInfo: array<int>, turn: int,
                              lastAction: int)
    returns (outcome: int)
    requires board.Length0 == 2 && board.Length1 >= 2 && extraInfo.Length >= 2
    modifies board, extraInfo
    ensures (PositionOf(board, extraInfo), outcome) ==
      DeviceOutcome(old(PositionOf(board, extraInfo)), board.Length0)
    ensures forall i :: 2 <= i < extraInfo.Length ==> extraInfo[i] == old(extraInfo[i])
  {
    ghost var p := PositionOf(board, extraInfo);
    var rows := board.Length0;
    var suma1 := RowSum(board, 1, rows);
    var suma3 := RowSum(board, 0, rows);
    if suma1 == 0 {
      var suma2 := RowSum(board, 0, rows);
      extraInfo[0] := extraInfo[0] + suma2;
      ZeroRow(board, 0, rows);
      assert PositionOf(board, extraInfo).pits == Sweep(p, 0, 0, rows).pits;
      if extraInfo[0] > extraInfo[1] {
        return -1;
      } else if extraInfo[1] > extraInfo[0] {
        return 1;
      } else {
        return 0;
      }
    } else if suma3 == 0 {
      var suma2 := RowSum(board, 1, rows);
      extraInfo[1] := extraInfo[1] + suma2;
      ZeroRow(board, 1, rows);
      assert PositionOf(board, extraInfo).pits == Sweep(p, 1, 1, rows).pits;
      if extraInfo[0] > extraInfo[1] {
        return -1;
      } else if extraInfo[1] > extraInfo[0] {
        return 1;
      } else {
        return 0;
      }
    }
    return -2;
  }

  /** Scoring moves stones into the stores without creating or losing any. */
  lemma DeviceOutcomeConserves(p: Position, m: nat)
    requires Shaped(p) && m <= Width(p)
    ensures Total(DeviceOutcome(p, m).0) == Total(p)
  {
    if Sum(p.pits[1][..m]) == 0 {
      SweepTotal(p, 0, 0, m);
    } else if Sum(p.pits[0][..m]) == 0 {
      SweepTotal(p, 1, 1, m);
    }
  }

  /** The game goes on (-2) exactly when both scanned parts of the rows hold stones,
      and then nothing changes; otherwise the verdict compares the final stores. */
  lemma DeviceOutcomeCases(p: Position, m: nat)
    requires Shaped(p) && m <= Width(p)
    ensures var (q, v) := DeviceOutcome(p, m);
      && (v == -2 <==> Sum(p.pits[0][..m]) != 0 && Sum(p.pits[1][..m]) != 0)
      && (v == -2 ==> q == p)
      && (v != -2 ==> v == Verdict(q) && -1 <= v <= 1)
      && (v == -1 <==> v != -2 && q.store0 > q.store1)
      && (v == 1 <==> v != -2 && q.store1 > q.store0)
  {
  }

  /** A second evaluation after a decided game returns the same verdict and leaves the
      stores as they are; when no count is negative it leaves the whole position. */
  lemma {:induction false} DeviceOutcomeIdempotent(p: Position, m: nat)
    requires Shaped(p) && m <= Width(p)
    ensures var (q, v) := DeviceOutcome(p, m);
      var (q2, v2) := DeviceOutcome(q, m);
      v != -2 ==> v2 == v && q2.store0 == q.store0 && q2.store1 == q.store1
    ensures var (q, v) := DeviceOutcome(p, m);
      v != -2 && NonNegative(p) ==> DeviceOutcome(q, m) == (q, v)
  {
    var (q, v) := DeviceOutcome(p, m);
    if v != -2 {
      SumZeros(m);
      if Sum(p.pits[1][..m]) == 0 {
        assert q.pits[1] == p.pits[1] && q.pits[0][..m] == Zeros(m);
        var q2 := Sweep(q, 0, 0, m);
        assert q2.pits[0] == q.pits[0];
        assert q2.pits == q.pits;
      } else {
        assert q.pits[1][..m] == Zeros(m) && q.pits[0] == p.pits[0];
        var q2 := Sweep(q, 0, 0, m);
        if NonNegative(p) {
          SumZeroMeansEmpty(p.pits[0][..m]);
          assert p.pits[0][..m] == Zeros(m);
          assert q2.pits[0] == q.pits[0];
          assert q2.pits == q.pits;
        }
      }
    }
  }

  /** The outcome scan reads `len(board[:, 1])` columns, the number of rows, which is
      2 on a two-row board: with the two leftmost pits of row 1 empty the game is
      scored as over although row 1 still holds stones. */
  lemma TwoColumnScanEndsEarly()
    ensures var p := Position([[1, 1, 1, 1, 1, 1], [0, 0, 4, 0, 0, 0]], 0, 0);
      && Shaped(p) && Width(p) == 6 && p.pits[1][2] > 0
      && DeviceOutcome(p, 2).1 == -1
  {
    var p := Position([[1, 1, 1, 1, 1, 1], [0, 0, 4, 0, 0, 0]], 0, 0);
    assert p.pits[1][..2] == [0, 0] && [0, 0][..1] == [0];
    assert Sum(p.pits[1][..2]) == 0;
    assert p.pits[0][..2] == [1, 1] && [1, 1][..1] == [1];
    assert Sum(p.pits[0][..2]) == 2;
  }

  /** The outcome evidently intended: both rows scanned over their full width. */
  function FullOutcome(p: Position): (r: (Position, int))
    requires Shaped(p)
    ensures Shaped(r.0) && Width(r.0) == Width(p)
  {
    DeviceOutcome(p, Width(p))
  }

  /** With the full scan, and no count negative, the game is over exactly when one of
      the rows is empty, and then every pit is empty afterwards. */
  lemma FullOutcomeDecided(p: Position)
    requires Shaped(p) && NonNegative(p)
    ensures var (q, v) := FullOutcome(p);
      && (v != -2 <==> (forall j :: 0 <= j < Width(p) ==> p.pits[0][j] == 0) ||
                       (forall j :: 0 <= j < Width(p) ==> p.pits[1][j] == 0))
      && (v != -2 ==> forall r, j :: 0 <= r < 2 && 0 <= j < Width(p) ==> q.pits[r][j] == 0)
  {
    var n := Width(p);
    assert p.pits[0][..n] == p.pits[0];
    assert p.pits[1][..n] == p.pits[1];
    SumZeroMeansEmpty(p.pits[0]);
    SumZeroMeansEmpty(p.pits[1]);
  }

  // ---------------------------------------------------------------------------
  // The five entry points forward to the Kalah functions
  // ---------------------------------------------------------------------------

  method IsActionLegal(m: int, n: int, board: array2<int>, extraInfo: array<int>, turn: int,
                       action: int, legalActions: array<bool>)
    requires board.Length0 >= 2 && extraInfo.Length >= 2
    requires 0 <= action < legalActions.Length
    requires 0 <= action <= 5 ==> action < board.Length1
    modifies legalActions
    ensures legalActions[..] ==
      old(legalActions[..])[action := KallahLegal(PositionOf(board, extraInfo), turn, action)]
  {
    IsActionLegalKallah(m, n, board, extraInfo, turn, action, legalActions);
  }

  method TakeAction(m: int, n: int, board: array2<int>, extraInfo: array<int>, turn: int, action: int)
    requires board.Length0 == 2 && extraInfo.Length >= 4
    requires turn == 1 || turn == -1
    requires 0 <= action < board.Length1
    requires NonNegative(PositionOf(board, extraInfo))
    modifies board, extraInfo
    ensures BuffersOf(board, extraInfo) == DeviceMove(old(BuffersOf(board, extraInfo)), turn, action)
    ensures forall i :: 4 <= i < extraInfo.Length ==> extraInfo[i] == old(extraInfo[i])
  {
    TakeActionKallah(m, n, board, extraInfo, turn, action);
  }

  method LegalActionsPlayout(m: int, n: int, board: array2<int>, extraInfo: array<int>, turn: int,
                             legalActionsWithCount: array<int>)
    requires board.Length0 == 2 && extraInfo.Length >= 4
    requires 0 <= n <= board.Length1 && n < legalActionsWithCount.Length && 1 < legalActionsWithCount.Length
    requires legalActionsWithCount != extraInfo
    modifies legalActionsWithCount
    ensures var list := PlayoutList(PositionOf(board, extraInfo), extraInfo[2], turn, n);
      var last := legalActionsWithCount.Length - 1;
      && legalActionsWithCount[last] == |list|
      && legalActionsWithCount[..|list|] == list
      && legalActionsWithCount[|list|..last] == old(legalActionsWithCount[|list|..last])
  {
    LegalActionsPlayoutKallah(m, n, board, extraInfo, turn, legalActionsWithCount);
  }

  method TakeActionPlayout(m: int, n: int, board: array2<int>, extraInfo: array<int>, turn: int,
                           action: int, actionOrd: int, legalActionsWithCount: array<int>)
    requires board.Length0 == 2 && extraInfo.Length >= 4
    requires turn == 1 || turn == -1
    requires 0 <= action < board.Length1
    requires NonNegative(PositionOf(board, extraInfo))
    modifies board, extraInfo
    ensures BuffersOf(board, extraInfo) == DeviceMove(old(BuffersOf(board, extraInfo)), turn, action)
    ensures forall i :: 4 <= i < extraInfo.Length ==> extraInfo[i] == old(extraInfo[i])
  {
    TakeActionPlayoutKallah(m, n, board, extraInfo, turn, action, actionOrd, legalActionsWithCount);
  }

  method ComputeOutcome(m: int, n: int, board: array2<int>, extraInfo: array<int>, turn: int,
                        lastAction: int)
    returns (outcome: int)
    requires board.Length0 == 2 && board.Length1 >= 2 && extraInfo.Length >= 2
    modifies board, extraInfo
    ensures (PositionOf(board, extraInfo), outcome) ==
      DeviceOutcome(old(PositionOf(board, extraInfo)), board.Length0)
    ensures forall i :: 2 <= i < extraInfo.Length ==> extraInfo[i] == old(extraInfo[i])
  {
    outcome := ComputeOutcomeKallah(m, n, board, extraInfo, turn, lastAction);
  }
}
