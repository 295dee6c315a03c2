/** Views of the source's arrays as values of the rules module: a row of a
    two-dimensional board and the position held by a board and its two stores. */
module Boards {
  import opened KalahRules

  /** Row r of the board (numpy's `board[r, :]`). */
  function RowOf(board: array2<int>, r: nat): (s: seq<int>)
    requires r < board.Length0
    reads board
    ensures |s| == board.Length1
    ensures forall j :: 0 <= j < board.Length1 ==> s[j] == board[r, j]
  {
    seq(board.Length1, j requires 0 <= j < board.Length1 reads board => board[r, j])
  }

  /** Rows 0 and 1 of `board` with stores s0 and s1. */
  function BoardPosition(board: array2<int>, s0: int, s1: int): (p: Position)
    requires board.Length0 >= 2
    reads board
    ensures Shaped(p) && Width(p) == board.Length1 && p.store0 == s0 && p.store1 == s1
  {
    Position([RowOf(board, 0), RowOf(board, 1)], s0, s1)
  }

  /** Rows 0 and 1 of `board` and the first two entries of `stores`. */
  function PositionOf(board: array2<int>, stores: array<int>): (p: Position)
    requires board.Length0 >= 2 && stores.Length >= 2
    reads board, stores
    ensures Shaped(p) && Width(p) == board.Length1
  {
    BoardPosition(board, stores[0], stores[1])
  }

  /** One stone more in a store of the position a board holds. */
  lemma BoardPositionStore(board: array2<int>, s0: int, s1: int, r: nat, k: int)
    requires board.Length0 >= 2 && r < 2
    ensures AddToStore(BoardPosition(board, s0, s1), r, k) ==
      if r == 0 then BoardPosition(board, s0 + k, s1) else BoardPosition(board, s0, s1 + k)
  {
  }

  /** A board holds the pits of position p when it agrees with it entry by entry. */
  lemma BoardPositionEntries(board: array2<int>, p: Position)
    requires board.Length0 >= 2 && Shaped(p) && Width(p) == board.Length1
    requires forall r, j :: 0 <= r < 2 && 0 <= j < board.Length1 ==> board[r, j] == p.pits[r][j]
    ensures BoardPosition(board, p.store0, p.store1) == p
  {
    var q := BoardPosition(board, p.store0, p.store1);
    assert q.pits[0] == p.pits[0];
    assert q.pits[1] == p.pits[1];
  }
}
