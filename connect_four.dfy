/** The Connect 4 rules of the flat-buffer game mechanics: an m-by-n board of tokens
    (1, -1, 0 for empty) filled from the bottom row m - 1 upwards, and `extra_info[j]`,
    the number of tokens in column j. */
module ConnectFour {
  import opened Lines

  /** The board and the column heights agree: column j holds tokens exactly in its
      bottom extraInfo[j] cells. */
  predicate Stacked(board: array2<int>, extraInfo: array<int>)
    reads board, extraInfo
  {
    && board.Length1 <= extraInfo.Length
    && (forall j :: 0 <= j < board.Length1 ==> 0 <= extraInfo[j] <= board.Length0)
    && (forall i, j :: 0 <= i < board.Length0 && 0 <= j < board.Length1 ==>
          (board[i, j] != 0 <==> i >= board.Length0 - extraInfo[j]))
  }

  method IsActionLegalC4(m: int, n: int, board: array2<int>, extraInfo: array<int>, turn: int,
                         action: int, legalActions: array<bool>)
    requires 0 <= action < legalActions.Length && action < extraInfo.Length
    modifies legalActions
    ensures legalActions[..] == old(legalActions[..])[action := extraInfo[action] < m]
  {
    legalActions[action] := extraInfo[action] < m;
  }

  /** On a consistent board a column is playable exactly when its top cell is empty. */
  lemma LegalMeansRoom(board: array2<int>, extraInfo: array<int>, j: int)
    requires Stacked(board, extraInfo) && board.Length0 > 0 && 0 <= j < board.Length1
    ensures extraInfo[j] < board.Length0 <==> board[0, j] == 0
  {
  }

  /** Drops a token of `turn` into column `action`: it lands on the lowest empty cell. */
  method TakeActionC4(m: int, n: int, board: array2<int>, extraInfo: array<int>, turn: int,
                      action: int)
    requires m == board.Length0 && 0 <= action < board.Length1 && action < extraInfo.Length
    requires 0 <= extraInfo[action] < m
    modifies board, extraInfo
    ensures extraInfo[..] == old(extraInfo[..])[action := old(extraInfo[action]) + 1]
    ensures forall i, j :: 0 <= i < board.Length0 && 0 <= j < board.Length1 ==>
      board[i, j] == if i == m - extraInfo[action] && j == action then turn else old(board[i, j])
    ensures old(Stacked(board, extraInfo)) && turn != 0 ==> Stacked(board, extraInfo)
  {
    extraInfo[action] := extraInfo[action] + 1;
    var row := m - extraInfo[action];
    board[row, action] := turn;
  }

  method TakeActionPlayoutC4(m: int, n: int, board: array2<int>, extraInfo: array<int>, turn: int,
                             action: int, actionOrd: int, legalActionsWithCount: array<int>)
    requires m == board.Length0 && 0 <= action < board.Length1 && action < extraInfo.Length
    requires 0 <= extraInfo[action] < m
    modifies board, extraInfo
    ensures extraInfo[..] == old(extraInfo[..])[action := old(extraInfo[action]) + 1]
    ensures forall i, j :: 0 <= i < board.Length0 && 0 <= j < board.Length1 ==>
      board[i, j] == if i == m - extraInfo[action] && j == action then turn else old(board[i, j])
    ensures old(Stacked(board, extraInfo)) && turn != 0 ==> Stacked(board, extraInfo)
  {
    extraInfo[action] := extraInfo[action] + 1;
    var row := m - extraInfo[action];
    board[row, action] := turn;
  }

  /** The columns j < k with room for another token, in ascending order. */
  function OpenColumns(heights: seq<int>, m: int, k: nat): (r: seq<int>)
    requires k <= |heights|
    ensures |r| <= k
  {
    if k == 0 then [] else OpenColumns(heights, m, k - 1) + (if heights[k - 1] < m then [k - 1] else [])
  }

  /** The list holds exactly the open columns, each once, ascending. */
  lemma {:induction false} OpenColumnsMeans(heights: seq<int>, m: int, k: nat)
    requires k <= |heights|
    ensures forall j :: j in OpenColumns(heights, m, k) <==> 0 <= j < k && heights[j] < m
    ensures forall a, b :: 0 <= a < b < |OpenColumns(heights, m, k)| ==>
      OpenColumns(heights, m, k)[a] < OpenColumns(heights, m, k)[b]
    ensures forall a :: 0 <= a < |OpenColumns(heights, m, k)| ==> 0 <= OpenColumns(heights, m, k)[a] < k
  {
    if k > 0 {
      OpenColumnsMeans(heights, m, k - 1);
    }
  }

  method LegalActionsPlayoutC4(m: int, n: int, board: array2<int>, extraInfo: array<int>, turn: int,
                               legalActionsWithCount: array<int>)
    requires 0 <= n <= extraInfo.Length && n < legalActionsWithCount.Length
    requires legalActionsWithCount != extraInfo
    modifies legalActionsWithCount
    ensures var list := OpenColumns(extraInfo[..n], m, n);
      var last := legalActionsWithCount.Length - 1;
      && legalActionsWithCount[last] == |list|
      && legalActionsWithCount[..|list|] == list
      && legalActionsWithCount[|list|..last] == old(legalActionsWithCount[|list|..last])
  {
    ghost var heights := extraInfo[..n];
    var last := legalActionsWithCount.Length - 1;
    var count := 0;
    for j := 0 to n
      invariant count == |OpenColumns(heights, m, j)| <= j
      invariant legalActionsWithCount[..count] == OpenColumns(heights, m, j)
      invariant forall i :: count <= i < legalActionsWithCount.Length ==>
        legalActionsWithCount[i] == old(legalActionsWithCount[i])
    {
      if extraInfo[j] < m {
        legalActionsWithCount[count] := j;
        count := count + 1;
      }
    }
    legalActionsWithCount[last] := count;
    assert legalActionsWithCount[..count] == OpenColumns(heights, m, n);
    assert legalActionsWithCount[count..last] == old(legalActionsWithCount[count..last]);
  }

  /** A line counts when three more tokens of the mover sit beside the last one. */
  const Need := 3

  /** Each side of the last cell is looked at up to three cells away. */
  const Reach := 3

  /** The last token, at (i, j), completes a line in one of the four directions:
      north-south, east-west, north-east to south-west, north-west to south-east. */
  predicate Wins(board: array2<int>, i: int, j: int, token: int)
    reads board
  {
    || LineTotal(board, i, j, -1, 0, token, Reach) >= Need
    || LineTotal(board, i, j, 0, 1, token, Reach) >= Need
    || LineTotal(board, i, j, -1, 1, token, Reach) >= Need
    || LineTotal(board, i, j, -1, -1, token, Reach) >= Need
  }

  /** compute_outcome_c4 on the board and the heights: the player who moved last wins
      with a line through the last token; otherwise full columns everywhere are a
      draw (0), and anything else leaves the game going on (2). */
  function C4Outcome(board: array2<int>, heights: seq<int>, turn: int, lastAction: int): (r: int)
    requires 0 <= lastAction < |heights|
    reads board
    ensures r == -turn || r == 0 || r == 2
  {
    var token := -turn;
    var i := board.Length0 - heights[lastAction];
    if Wins(board, i, lastAction, token) then token
    else if forall j :: 0 <= j < |heights| ==> heights[j] >= board.Length0 then 0
    else 2
  }

  method ComputeOutcomeC4(m: int, n: int, board: array2<int>, extraInfo: array<int>, turn: int,
                          lastAction: int)
    returns (outcome: int)
    requires m == board.Length0 && n == board.Length1 && 0 <= lastAction < n <= extraInfo.Length
    ensures outcome == C4Outcome(board, extraInfo[..n], turn, lastAction)
  {
    var lastToken := -turn;
    var j := lastAction;
    var i := m - extraInfo[j];
    var won := LastTokenWins(board, i, j, lastToken);
    if won {
      return lastToken;
    }
    var draw := AllColumnsFull(m, n, extraInfo);
    ghost var heights := extraInfo[..n];
    assert forall c :: 0 <= c < n ==> heights[c] == extraInfo[c];
    if draw {
      return 0;
    }
    return 2;
  }

  /** The four direction checks of compute_outcome_c4, each leaving as soon as its
      line counts. */
  method LastTokenWins(board: array2<int>, i: int, j: int, lastToken: int) returns (won: bool)
    ensures won == Wins(board, i, j, lastToken)
  {
    var total := CountLine(board, i, j, -1, 0, lastToken, Reach);
    if total >= Need {
      return true;
    }
    total := CountLine(board, i, j, 0, 1, lastToken, Reach);
    if total >= Need {
      return true;
    }
    total := CountLine(board, i, j, -1, 1, lastToken, Reach);
    if total >= Need {
      return true;
    }
    total := CountLine(board, i, j, -1, -1, lastToken, Reach);
    return total >= Need;
  }

  /** The draw loop of compute_outcome_c4: no column j < n has room left. */
  method AllColumnsFull(m: int, n: int, extraInfo: array<int>) returns (draw: bool)
    requires 0 <= n <= extraInfo.Length
    ensures draw <==> forall c :: 0 <= c < n ==> extraInfo[c] >= m
  {
    draw := true;
    for c := 0 to n
      invariant draw <==> forall c' :: 0 <= c' < c ==> extraInfo[c'] >= m
    {
      if extraInfo[c] < m {
        draw := false;
        break;
      }
    }
  }

  /** Any four in a row along one of the four directions through the last token wins:
      `a` of the others lie behind it and 3 - a ahead. */
  lemma FourInARowWins(board: array2<int>, heights: seq<int>, turn: int, lastAction: int,
                       di: int, dj: int, a: int)
    requires 0 <= lastAction < |heights| && 0 <= a <= 3
    requires (di, dj) == (-1, 0) || (di, dj) == (0, 1) || (di, dj) == (-1, 1) || (di, dj) == (-1, -1)
    requires var i := board.Length0 - heights[lastAction];
      forall t :: -a <= t <= 3 - a && t != 0 ==>
        Matches(board, i + t * di, lastAction + t * dj, -turn)
    ensures C4Outcome(board, heights, turn, lastAction) == -turn
  {
    var i := board.Length0 - heights[lastAction];
    var j := lastAction;
    RunAtLeast(board, i, j, di, dj, -turn, 1, Reach, 3 - a);
    var bi, bj := -di, -dj;
    forall t | 1 <= t < 1 + a
      ensures Matches(board, i + t * bi, j + t * bj, -turn)
    {
      assert i + t * bi == i + (-t) * di && j + t * bj == j + (-t) * dj;
    }
    RunAtLeast(board, i, j, bi, bj, -turn, 1, Reach, a);
  }

  /** Only the mover's line ends the game with a win: with turn 1 or -1, the outcome is
      the last token exactly when some line through it counts, 0 exactly when there
      is none and every column is full, and 2 otherwise. */
  lemma C4OutcomeCases(board: array2<int>, heights: seq<int>, turn: int, lastAction: int)
    requires 0 <= lastAction < |heights| && (turn == 1 || turn == -1)
    ensures var o := C4Outcome(board, heights, turn, lastAction);
      var w := Wins(board, board.Length0 - heights[lastAction], lastAction, -turn);
      var full := forall j :: 0 <= j < |heights| ==> heights[j] >= board.Length0;
      && (o == -turn <==> w)
      && (o == 0 <==> !w && full)
      && (o == 2 <==> !w && !full)
  {
  }
}
