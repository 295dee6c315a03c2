/** Line-of-k detection shared by the Connect 4 and Gomoku outcome checks: from the
    cell of the last move, count the cells holding the same token along a ray. */
module Lines {

  /** Cell (i, j) is on the board and holds `token`. */
  predicate Matches(board: array2<int>, i: int, j: int, token: int)
    reads board
  {
    0 <= i < board.Length0 && 0 <= j < board.Length1 && board[i, j] == token
  }

  /** Steps taken from cell (i, j) in direction (di, dj), starting at step `from`,
      before the first cell that is off the board or holds another token, at most up
      to step `limit`. */
  function Run(board: array2<int>, i: int, j: int, di: int, dj: int, token: int,
               from: nat, limit: nat): nat
    reads board
    decreases limit + 1 - from
  {
    if from > limit || !Matches(board, i + from * di, j + from * dj, token) then 0
    else 1 + Run(board, i, j, di, dj, token, from + 1, limit)
  }

  /** A run of length c covers steps from .. from + c - 1, all holding the token, and
      stops at a step that does not hold it unless it reached the limit. */
  lemma {:induction false} RunMeans(board: array2<int>, i: int, j: int, di: int, dj: int,
                                    token: int, from: nat, limit: nat)
    ensures var c := Run(board, i, j, di, dj, token, from, limit);
      && (from <= limit + 1 ==> from + c <= limit + 1)
      && (forall t :: from <= t < from + c ==> Matches(board, i + t * di, j + t * dj, token))
      && (from + c <= limit ==> !Matches(board, i + (from + c) * di, j + (from + c) * dj, token))
    decreases limit + 1 - from
  {
    if from <= limit && Matches(board, i + from * di, j + from * dj, token) {
      RunMeans(board, i, j, di, dj, token, from + 1, limit);
      var k := from + Run(board, i, j, di, dj, token, from, limit);
      assert k == from + 1 + Run(board, i, j, di, dj, token, from + 1, limit);
    }
  }

  /** Conversely, c consecutive steps holding the token make a run of at least c. */
  lemma {:induction false} RunAtLeast(board: array2<int>, i: int, j: int, di: int, dj: int,
                                      token: int, from: nat, limit: nat, c: nat)
    requires from + c <= limit + 1
    requires forall t :: from <= t < from + c ==> Matches(board, i + t * di, j + t * dj, token)
    ensures Run(board, i, j, di, dj, token, from, limit) >= c
    decreases c
  {
    if c > 0 {
      assert Matches(board, i + from * di, j + from * dj, token);
      RunAtLeast(board, i, j, di, dj, token, from + 1, limit, c - 1);
    }
  }

  /** c consecutive steps holding the token, followed by one that does not or by the
      limit, make a run of exactly c. */
  lemma {:induction false} RunExactly(board: array2<int>, i: int, j: int, di: int, dj: int,
                                      token: int, from: nat, limit: nat, c: nat)
    requires from + c <= limit + 1
    requires forall t :: from <= t < from + c ==> Matches(board, i + t * di, j + t * dj, token)
    requires from + c <= limit ==> !Matches(board, i + (from + c) * di, j + (from + c) * dj, token)
    ensures Run(board, i, j, di, dj, token, from, limit) == c
    decreases c
  {
    if c > 0 {
      assert Matches(board, i + from * di, j + from * dj, token);
      RunExactly(board, i, j, di, dj, token, from + 1, limit, c - 1);
    }
  }

  /** Cells holding the token on both sides of (i, j) along direction (di, dj), each
      side counted up to `limit` steps: the `total` of the outcome checks. */
  function LineTotal(board: array2<int>, i: int, j: int, di: int, dj: int, token: int,
                     limit: nat): nat
    reads board
  {
    Run(board, i, j, di, dj, token, 1, limit) + Run(board, i, j, -di, -dj, token, 1, limit)
  }

  /** One `for k in range(1, limit + 1)` loop of the outcome checks, which adds one to
      the total per matching cell and leaves at the first cell off the board or holding
      another token. */
  method CountRun(board: array2<int>, i: int, j: int, di: int, dj: int, token: int,
                  limit: nat)
    returns (total: nat)
    ensures total == Run(board, i, j, di, dj, token, 1, limit)
  {
    total := 0;
    var k := 1;
    while k <= limit
      invariant 1 <= k <= limit + 1 && total == k - 1
      invariant Run(board, i, j, di, dj, token, 1, limit) ==
        total + Run(board, i, j, di, dj, token, k, limit)
      decreases limit + 1 - k
    {
      var r := i + k * di;
      var c := j + k * dj;
      if r < 0 || r >= board.Length0 || c < 0 || c >= board.Length1 || board[r, c] != token {
        break;
      }
      total := total + 1;
      k := k + 1;
    }
  }

  /** The two loops of one direction of the outcome checks. */
  method CountLine(board: array2<int>, i: int, j: int, di: int, dj: int, token: int,
                   limit: nat)
    returns (total: nat)
    ensures total == LineTotal(board, i, j, di, dj, token, limit)
  {
    var forward := CountRun(board, i, j, di, dj, token, limit);
    var backward := CountRun(board, i, j, -di, -dj, token, limit);
    total := forward + backward;
  }
}
