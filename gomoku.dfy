/** The Gomoku rules of the flat-buffer game mechanics: an m-by-n board of tokens
    (1, -1, 0 for empty), action a naming the cell (a / n, a % n) in row-major order,
    and a playout list of the empty cells that is built once and then shrunk by
    swap-remove. */
module Gomoku {
  import opened Lines

  /** The cell of flat index `action`, as `action // n` and `action % n` give it. */
  function CellOf(action: int, n: int): (int, int)
    requires n > 0
  {
    (action / n, action % n)
  }

  lemma MulNonNeg(a: int, b: int)
    requires a >= 0 && b >= 0
    ensures a * b >= 0
  {
  }

  lemma MulStep(i: int, n: int)
    ensures (i + 1) * n == i * n + n
  {
  }

  /** Cell (r, c) of a row of n cells has flat index r * n + c, and that index names
      the cell again. */
  lemma DivModOf(r: int, c: int, n: int)
    requires n > 0 && 0 <= c < n
    ensures CellOf(r * n + c, n) == (r, c)
  {
    var x := r * n + c;
    var q, s := x / n, x % n;
    assert x == q * n + s;
    var d := r - q;
    assert d * n == s - c by {
      assert d * n == r * n - q * n;
    }
    if d > 0 {
      MulNonNeg(d - 1, n);
    } else if d < 0 {
      MulNonNeg(-d - 1, n);
    }
  }

  /** A flat index below m * n names a cell of the m-by-n board. */
  lemma CellInRange(action: int, m: nat, n: nat)
    requires 0 <= action < m * n
    ensures n > 0 && 0 <= action / n < m && 0 <= action % n < n
  {
    assert n != 0;
    var q := action / n;
    if q >= m {
      MulNonNeg(q - m, n);
    }
  }

  /** Row i of an m-by-n board ends at or before flat index m * n. */
  lemma RowEndBelow(i: int, m: int, n: int)
    requires 0 <= i < m && 0 <= n
    ensures i * n + n <= m * n
  {
    MulNonNeg(m - 1 - i, n);
    assert (m - 1 - i) * n == m * n - n - i * n;
  }

  /** Flat index f names an empty cell of the board. */
  predicate EmptyAt(board: array2<int>, f: int)
    reads board
  {
    && board.Length1 > 0 && 0 <= f && CellOf(f, board.Length1).0 < board.Length0
    && board[CellOf(f, board.Length1).0, CellOf(f, board.Length1).1] == 0
  }

  /** The flat indices of the empty cells (i, c), c < j, ascending, where cell (i, 0)
      has flat index `start`. */
  function RowEmpties(board: array2<int>, i: nat, start: int, j: nat): (r: seq<int>)
    requires i < board.Length0 && j <= board.Length1
    reads board
    ensures |r| <= j
  {
    if j == 0 then []
    else
      (RowEmpties(board, i, start, j - 1) +
       if board[i, j - 1] == 0 then [start + j - 1] else [])
  }

  /** The flat indices of the empty cells of rows 0 .. i - 1, ascending: the list the
      scan of legal_actions_playout_gomoku builds. */
  function Empties(board: array2<int>, i: nat): (r: seq<int>)
    requires i <= board.Length0
    reads board
    ensures |r| <= i * board.Length1
  {
    if i == 0 then []
    else
      MulStep(i - 1, board.Length1);
      Empties(board, i - 1) + RowEmpties(board, i - 1, (i - 1) * board.Length1, board.Length1)
  }

  /** Within row i the list holds exactly the empty cells before column j, ascending. */
  lemma {:induction false} RowEmptiesMeans(board: array2<int>, i: nat, start: int, j: nat)
    requires i < board.Length0 && j <= board.Length1
    ensures forall f :: f in RowEmpties(board, i, start, j) <==>
      start <= f < start + j && board[i, f - start] == 0
    ensures forall a, b :: 0 <= a < b < |RowEmpties(board, i, start, j)| ==>
      RowEmpties(board, i, start, j)[a] < RowEmpties(board, i, start, j)[b]
  {
    if j > 0 {
      var prev := RowEmpties(board, i, start, j - 1);
      RowEmptiesMeans(board, i, start, j - 1);
      assert RowEmpties(board, i, start, j) ==
        prev + if board[i, j - 1] == 0 then [start + j - 1] else [];
      forall a | 0 <= a < |prev|
        ensures prev[a] < start + j - 1
      {
        assert prev[a] in prev;
      }
    }
  }

  /** The list of the scan holds exactly the flat indices of the empty cells of rows
      0 .. i - 1, in ascending order. */
  lemma {:induction false} EmptiesMeans(board: array2<int>, i: nat)
    requires i <= board.Length0
    ensures forall f :: f in Empties(board, i) <==> f < i * board.Length1 && EmptyAt(board, f)
    ensures forall a, b :: 0 <= a < b < |Empties(board, i)| ==> Empties(board, i)[a] < Empties(board, i)[b]
  {
    if i > 0 {
      var n := board.Length1;
      var lo := (i - 1) * n;
      var e := Empties(board, i - 1);
      var row := RowEmpties(board, i - 1, lo, n);
      EmptiesMeans(board, i - 1);
      RowEmptiesMeans(board, i - 1, lo, n);
      MulStep(i - 1, n);
      assert Empties(board, i) == e + row;
      forall f | lo <= f < lo + n
        ensures CellOf(f, n) == (i - 1, f - lo)
      {
        DivModOf(i - 1, f - lo, n);
      }
      forall a | 0 <= a < |e|
        ensures e[a] < lo
      {
        assert e[a] in e;
      }
      forall b | 0 <= b < |row|
        ensures lo <= row[b]
      {
        assert row[b] in row;
      }
    }
  }

  method IsActionLegalGomoku(m: int, n: int, board: array2<int>, extraInfo: array<int>, turn: int,
                             action: int, legalActions: array<bool>)
    requires m == board.Length0 && n == board.Length1
    requires 0 <= action < m * n && action < legalActions.Length
    modifies legalActions
    ensures legalActions[..] == old(legalActions[..])[action := EmptyAt(board, action)]
  {
    CellInRange(action, m, n);
    var i := action / n;
    var j := action % n;
    legalActions[action] := board[i, j] == 0;
  }

  method TakeActionGomoku(m: int, n: int, board: array2<int>, extraInfo: array<int>, turn: int,
                          action: int)
    requires m == board.Length0 && n == board.Length1 && 0 <= action < m * n
    modifies board
    ensures n > 0 && forall i, j :: 0 <= i < m && 0 <= j < n ==>
      board[i, j] == if (i, j) == CellOf(action, n) then turn else old(board[i, j])
  {
    CellInRange(action, m, n);
    var i := action / n;
    var j := action % n;
    board[i, j] := turn;
  }

  /** The list of empty cells is computed by a full scan only when the count slot
      says it has not been established (count 0); otherwise nothing changes. */
  method LegalActionsPlayoutGomoku(m: int, n: int, board: array2<int>, extraInfo: array<int>,
                                   turn: int, legalActionsWithCount: array<int>)
    requires m == board.Length0 && n == board.Length1 && m * n < legalActionsWithCount.Length
    modifies legalActionsWithCount
    ensures var last := legalActionsWithCount.Length - 1;
      old(legalActionsWithCount[last]) != 0 ==>
        legalActionsWithCount[..] == old(legalActionsWithCount[..])
    ensures var list := Empties(board, m);
      var last := legalActionsWithCount.Length - 1;
      old(legalActionsWithCount[last]) == 0 ==>
        && legalActionsWithCount[last] == |list|
        && legalActionsWithCount[..|list|] == list
        && legalActionsWithCount[|list|..last] == old(legalActionsWithCount[|list|..last])
  {
    var last := legalActionsWithCount.Length - 1;
    if legalActionsWithCount[last] == 0 {
      var count := 0;
      var k := 0;
      for i := 0 to m
        invariant k == i * n && count == |Empties(board, i)| <= k <= m * n
        invariant legalActionsWithCount[..count] == Empties(board, i)
        invariant forall x :: count <= x < legalActionsWithCount.Length ==>
          legalActionsWithCount[x] == old(legalActionsWithCount[x])
      {
        RowEndBelow(i, m, n);
        MulStep(i, n);
        k, count := ScanRow(board, i, legalActionsWithCount, k, count);
        assert Empties(board, i + 1) == Empties(board, i) + RowEmpties(board, i, i * n, n);
      }
      legalActionsWithCount[last] := count;
      assert legalActionsWithCount[..count] == Empties(board, m);
      assert legalActionsWithCount[count..last] == old(legalActionsWithCount[count..last]);
    }
  }

  /** The inner loop of the scan: row i, whose cell (i, 0) has flat index k, appends
      its empty cells to the list of `count` entries. */
  method ScanRow(board: array2<int>, i: nat, legalActionsWithCount: array<int>, k: int, count: nat)
    returns (k': int, count': nat)
    requires i < board.Length0 && count <= k
    requires k + board.Length1 < legalActionsWithCount.Length
    modifies legalActionsWithCount
    ensures k' == k + board.Length1
    ensures count' == count + |RowEmpties(board, i, k, board.Length1)| <= k'
    ensures legalActionsWithCount[..count'] ==
      old(legalActionsWithCount[..count]) + RowEmpties(board, i, k, board.Length1)
    ensures forall x :: count' <= x < legalActionsWithCount.Length ==>
      legalActionsWithCount[x] == old(legalActionsWithCount[x])
  {
    k', count' := k, count;
    for j := 0 to board.Length1
      invariant k' == k + j && count' == count + |RowEmpties(board, i, k, j)| <= k'
      invariant legalActionsWithCount[..count'] ==
        old(legalActionsWithCount[..count]) + RowEmpties(board, i, k, j)
      invariant forall x :: count' <= x < legalActionsWithCount.Length ==>
        legalActionsWithCount[x] == old(legalActionsWithCount[x])
    {
      if board[i, j] == 0 {
        legalActionsWithCount[count'] := k';
        count' := count' + 1;
      }
      k' := k' + 1;
    }
  }

  /** Plays `action`, whose entry sits at `actionOrd` of the playout list, and removes
      it from the list by moving the last entry into its slot. */
  method TakeActionPlayoutGomoku(m: int, n: int, board: array2<int>, extraInfo: array<int>,
                                 turn: int, action: int, actionOrd: int,
                                 legalActionsWithCount: array<int>)
    requires m == board.Length0 && n == board.Length1 && 0 <= action < m * n
    requires legalActionsWithCount.Length > 0
    requires var c := legalActionsWithCount[legalActionsWithCount.Length - 1];
      1 <= c < legalActionsWithCount.Length && 0 <= actionOrd < c
    modifies board, legalActionsWithCount
    ensures n > 0 && forall i, j :: 0 <= i < m && 0 <= j < n ==>
      board[i, j] == if (i, j) == CellOf(action, n) then turn else old(board[i, j])
    ensures var last := legalActionsWithCount.Length - 1;
      var c := old(legalActionsWithCount[last]);
      && legalActionsWithCount[last] == c - 1
      && legalActionsWithCount[..c - 1] == SwapRemove(old(legalActionsWithCount[..c]), actionOrd)
      && legalActionsWithCount[c - 1..last] == old(legalActionsWithCount[c - 1..last])
  {
    CellInRange(action, m, n);
    var i := action / n;
    var j := action % n;
    board[i, j] := turn;
    var last := legalActionsWithCount.Length - 1;
    var lastLegalAction := legalActionsWithCount[legalActionsWithCount[last] - 1];
    legalActionsWithCount[actionOrd] := lastLegalAction;
    legalActionsWithCount[last] := legalActionsWithCount[last] - 1;
  }

  /** Entry `ord` replaced by the last entry, and the last slot dropped. */
  function SwapRemove(s: seq<int>, ord: nat): (r: seq<int>)
    requires ord < |s|
    ensures |r| == |s| - 1
  {
    s[ord := s[|s| - 1]][..|s| - 1]
  }

  /** Swap-remove drops exactly the entry at `ord`: the other entries stay, each as
      often as before. */
  lemma SwapRemoveDrops(s: seq<int>, ord: nat)
    requires ord < |s|
    ensures multiset(SwapRemove(s, ord)) == multiset(s) - multiset{s[ord]}
  {
    var l := |s| - 1;
    if ord == l {
      assert s == SwapRemove(s, ord) + [s[ord]];
    } else {
      assert s == s[..ord] + [s[ord]] + s[ord + 1..l] + [s[l]];
      assert SwapRemove(s, ord) == s[..ord] + [s[l]] + s[ord + 1..l];
    }
  }

  /** With distinct entries, as the scan builds them, the removed action is gone. */
  lemma SwapRemoveGone(s: seq<int>, ord: nat)
    requires ord < |s|
    requires forall a, b :: 0 <= a < b < |s| ==> s[a] != s[b]
    ensures s[ord] !in SwapRemove(s, ord)
  {
    var r := SwapRemove(s, ord);
    forall x | 0 <= x < |r|
      ensures r[x] != s[ord]
    {
      if x == ord {
        assert r[x] == s[|s| - 1];
      } else {
        assert r[x] == s[x];
      }
    }
  }

  /** A line wins when exactly four more tokens of the mover sit beside the last one:
      five in a row and no more. */
  const Need := 4

  /** Each side of the last cell is looked at up to five cells away. */
  const Reach := 5

  /** The last token, at (i, j), makes exactly five in a row in one of the four
      directions. */
  predicate Wins(board: array2<int>, i: int, j: int, token: int)
    reads board
  {
    || LineTotal(board, i, j, -1, 0, token, Reach) == Need
    || LineTotal(board, i, j, 0, 1, token, Reach) == Need
    || LineTotal(board, i, j, -1, 1, token, Reach) == Need
    || LineTotal(board, i, j, -1, -1, token, Reach) == Need
  }

  /** No cell of the board is empty. */
  predicate Full(board: array2<int>)
    reads board
  {
    forall i, j :: 0 <= i < board.Length0 && 0 <= j < board.Length1 ==> board[i, j] != 0
  }

  /** compute_outcome_gomoku: the player who moved last wins with exactly five in a
      row through the last token; otherwise a full board is a draw (0), and anything
      else leaves the game going on (2). */
  function GomokuOutcome(board: array2<int>, turn: int, lastAction: int): (r: int)
    requires board.Length1 > 0
    reads board
    ensures r == -turn || r == 0 || r == 2
  {
    var (i, j) := CellOf(lastAction, board.Length1);
    if Wins(board, i, j, -turn) then -turn
    else if Full(board) then 0
    else 2
  }

  method ComputeOutcomeGomoku(m: int, n: int, board: array2<int>, extraInfo: array<int>,
                              turn: int, lastAction: int)
    returns (outcome: int)
    requires m == board.Length0 && n == board.Length1 && 0 <= lastAction < m * n
    ensures n > 0 && outcome == GomokuOutcome(board, turn, lastAction)
  {
    CellInRange(lastAction, m, n);
    var lastToken := -turn;
    var i := lastAction / n;
    var j := lastAction % n;
    var won := LastTokenWins(board, i, j, lastToken);
    if won {
      return lastToken;
    }
    var draw := BoardFull(board);
    if draw {
      return 0;
    }
    return 2;
  }

  /** The four direction checks of compute_outcome_gomoku, each leaving as soon as
      its line counts. */
  method LastTokenWins(board: array2<int>, i: int, j: int, lastToken: int) returns (won: bool)
    ensures won == Wins(board, i, j, lastToken)
  {
    var total := CountLine(board, i, j, -1, 0, lastToken, Reach);
    if total == Need {
      return true;
    }
    total := CountLine(board, i, j, 0, 1, lastToken, Reach);
    if total == Need {
      return true;
    }
    total := CountLine(board, i, j, -1, 1, lastToken, Reach);
    if total == Need {
      return true;
    }
    total := CountLine(board, i, j, -1, -1, lastToken, Reach);
    return total == Need;
  }

  /** The draw loops of compute_outcome_gomoku; the `break` leaves only the inner loop,
      and the outer one goes on with `draw` already false. */
  method BoardFull(board: array2<int>) returns (draw: bool)
    ensures draw == Full(board)
  {
    draw := true;
    for i := 0 to board.Length0
      invariant draw <==> forall r, c :: 0 <= r < i && 0 <= c < board.Length1 ==> board[r, c] != 0
    {
      for j := 0 to board.Length1
        invariant draw <==> (forall r, c :: 0 <= r < i && 0 <= c < board.Length1 ==> board[r, c] != 0)
                            && forall c :: 0 <= c < j ==> board[i, c] != 0
      {
        if board[i, j] == 0 {
          draw := false;
          break;
        }
      }
    }
  }

  /** A win is five in a row exactly: when the outcome names the mover, in some
      direction the a cells ahead and the b cells behind the last token hold it, with
      a + b == 4, and the cell just past each end does not. */
  lemma WinIsExactlyFive(board: array2<int>, i: int, j: int, di: int, dj: int, token: int)
    requires LineTotal(board, i, j, di, dj, token, Reach) == Need
    ensures Run(board, i, j, di, dj, token, 1, Reach) + Run(board, i, j, -di, -dj, token, 1, Reach) == 4
    ensures forall t :: 1 <= t <= Run(board, i, j, di, dj, token, 1, Reach) ==>
      Matches(board, i + t * di, j + t * dj, token)
    ensures forall t :: 1 <= t <= Run(board, i, j, -di, -dj, token, 1, Reach) ==>
      Matches(board, i - t * di, j - t * dj, token)
    ensures var a := Run(board, i, j, di, dj, token, 1, Reach);
      !Matches(board, i + (a + 1) * di, j + (a + 1) * dj, token)
    ensures var b := Run(board, i, j, -di, -dj, token, 1, Reach);
      !Matches(board, i - (b + 1) * di, j - (b + 1) * dj, token)
  {
    RunMeans(board, i, j, di, dj, token, 1, Reach);
    BackwardRunMeans(board, i, j, di, dj, token);
  }

  /** RunMeans for the run in direction (-di, -dj), with its cells written as steps
      back from (i, j). */
  lemma BackwardRunMeans(board: array2<int>, i: int, j: int, di: int, dj: int, token: int)
    ensures forall t :: 1 <= t <= Run(board, i, j, -di, -dj, token, 1, Reach) ==>
      Matches(board, i - t * di, j - t * dj, token)
    ensures Run(board, i, j, -di, -dj, token, 1, Reach) < Reach ==>
      !Matches(board, i - (Run(board, i, j, -di, -dj, token, 1, Reach) + 1) * di,
               j - (Run(board, i, j, -di, -dj, token, 1, Reach) + 1) * dj, token)
  {
    var bi, bj := -di, -dj;
    RunMeans(board, i, j, bi, bj, token, 1, Reach);
    var b := Run(board, i, j, bi, bj, token, 1, Reach);
    forall t | 1 <= t <= b + 1
      ensures i + t * bi == i - t * di && j + t * bj == j - t * dj
    {
      Negated(i, t, di);
      Negated(j, t, dj);
    }
  }

  lemma Negated(i: int, t: int, d: int)
    ensures i + t * (-d) == i - t * d
  {
  }

  /** Conversely, five in a row through the last token, bounded by cells that do not
      hold it, wins. */
  lemma FiveInARowWins(board: array2<int>, turn: int, lastAction: int, di: int, dj: int, a: int)
    requires board.Length1 > 0 && 0 <= a <= 4
    requires (di, dj) == (-1, 0) || (di, dj) == (0, 1) || (di, dj) == (-1, 1) || (di, dj) == (-1, -1)
    requires var (i, j) := CellOf(lastAction, board.Length1);
      && (forall t :: -a <= t <= 4 - a && t != 0 ==> Matches(board, i + t * di, j + t * dj, -turn))
      && !Matches(board, i + (5 - a) * di, j + (5 - a) * dj, -turn)
      && !Matches(board, i + (-a - 1) * di, j + (-a - 1) * dj, -turn)
    ensures GomokuOutcome(board, turn, lastAction) == -turn
  {
    var (i, j) := CellOf(lastAction, board.Length1);
    FiveInALine(board, i, j, di, dj, -turn, a);
  }

  /** Five in a row through (i, j) along (di, dj), bounded by cells that do not hold
      the token, make a line total of exactly four. */
  lemma FiveInALine(board: array2<int>, i: int, j: int, di: int, dj: int, token: int, a: int)
    requires 0 <= a <= 4
    requires forall t :: -a <= t <= 4 - a && t != 0 ==> Matches(board, i + t * di, j + t * dj, token)
    requires !Matches(board, i + (5 - a) * di, j + (5 - a) * dj, token)
    requires !Matches(board, i + (-a - 1) * di, j + (-a - 1) * dj, token)
    ensures LineTotal(board, i, j, di, dj, token, Reach) == Need
  {
    var bi, bj := -di, -dj;
    RunExactly(board, i, j, di, dj, token, 1, Reach, 4 - a);
    forall t | 1 <= t < 1 + a
      ensures Matches(board, i + t * bi, j + t * bj, token)
    {
      assert i + t * bi == i + (-t) * di && j + t * bj == j + (-t) * dj;
    }
    assert i + (a + 1) * bi == i + (-a - 1) * di && j + (a + 1) * bj == j + (-a - 1) * dj;
    RunExactly(board, i, j, bi, bj, token, 1, Reach, a);
  }
}
