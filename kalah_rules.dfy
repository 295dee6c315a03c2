/** The sowing rules of the two-row game as pure functions on values.

    Both implementations in the source (the flat-buffer device functions and the
    `Kalah` class) sow with the same while loop over the cursor variables `action`,
    `counter` and `current_row`; `Sow` follows that loop step by step.  `Move` is an
    independent description of the same move: the mover's 2n pits-and-store cycle is
    numbered 0..2n, the first k-1 stones are dropped one per slot going round it and
    the last stone is `Finish`ed (store, capture or plain drop).  `SowFromIsMove`
    proves the two agree; the properties of a move are then proved about `Move`. */
module KalahRules {

  /** The stones in the pits of rows 0 and 1, and the stores of row 0 and row 1. */
  datatype Position = Position(pits: seq<seq<int>>, store0: int, store1: int) {
    /** The store of row r. */
    function StoreOf(r: nat): int {
      if r == 0 then store0 else store1
    }
  }

  /** The two rule sets found in the source. */
  datatype Variant =
    | Device  // take_action_kallah: bonus flag, capture only from a non-empty mirror pit
    | Job     // Kalah.take_action_job: no bonus, the mirror pit is captured unconditionally

  /** A place a stone can be dropped into. */
  datatype Slot = Pit(row: nat, col: nat) | Store(owner: nat)

  /** A position after sowing, and whether the last stone went into the mover's store. */
  datatype Sown = Sown(pos: Position, lastInStore: bool)

  predicate Shaped(p: Position) {
    |p.pits| == 2 && |p.pits[0]| == |p.pits[1]|
  }

  function Width(p: Position): nat
    requires |p.pits| == 2
  {
    |p.pits[0]|
  }

  /** Stone counts are never negative. */
  predicate NonNegative(p: Position)
    requires Shaped(p)
  {
    forall r, j :: 0 <= r < 2 && 0 <= j < Width(p) ==> p.pits[r][j] >= 0
  }

  /** The row that moves: row 1 when `turn == 1`, row 0 otherwise. */
  function PlayerRow(turn: int): (r: nat)
    ensures r < 2
  {
    if turn == 1 then 1 else 0
  }

  function Sum(s: seq<int>): int {
    if s == [] then 0 else Sum(s[..|s| - 1]) + s[|s| - 1]
  }

  /** All stones of a position: both rows of pits and both stores. */
  function Total(p: Position): int
    requires Shaped(p)
  {
    Sum(p.pits[0]) + Sum(p.pits[1]) + p.store0 + p.store1
  }

  function SetPit(p: Position, r: nat, j: nat, v: int): (q: Position)
    requires Shaped(p) && r < 2 && j < Width(p)
    ensures Shaped(q) && Width(q) == Width(p)
  {
    p.(pits := p.pits[r := p.pits[r][j := v]])
  }

  function AddToStore(p: Position, r: nat, k: int): (q: Position)
    requires Shaped(p) && r < 2
    ensures Shaped(q) && Width(q) == Width(p)
  {
    if r == 0 then p.(store0 := p.store0 + k) else p.(store1 := p.store1 + k)
  }

  predicate OnBoard(p: Position, s: Slot)
    requires Shaped(p)
  {
    match s
    case Pit(r, j) => r < 2 && j < Width(p)
    case Store(r) => r < 2
  }

  /** One stone more in slot `s`. */
  function Drop(p: Position, s: Slot): (q: Position)
    requires Shaped(p) && OnBoard(p, s)
    ensures Shaped(q) && Width(q) == Width(p)
  {
    match s
    case Pit(r, j) => SetPit(p, r, j, p.pits[r][j] + 1)
    case Store(r) => AddToStore(p, r, 1)
  }

  /** The last stone of row pr's move lands in its own empty pit j. */
  function Capture(v: Variant, p: Position, pr: nat, j: nat): (q: Position)
    requires Shaped(p) && pr < 2 && j < Width(p) && p.pits[pr][j] == 0
    ensures Shaped(q) && Width(q) == Width(p)
  {
    var mirror := p.pits[1 - pr][j];
    match v
    case Device =>
      if mirror > 0 then AddToStore(SetPit(SetPit(p, 1 - pr, j, 0), pr, j, 0), pr, mirror + 1)
      else SetPit(p, pr, j, 1)
    case Job =>
      AddToStore(SetPit(SetPit(p, 1 - pr, j, 0), pr, j, 1), pr, mirror)
  }

  // ---------------------------------------------------------------------------
  // The cursor walk of the sowing loops
  // ---------------------------------------------------------------------------

  /** The loop's cursor: `base + counter` is the next index tried in row `row`; rows
      are walked left to right in row 1 and right to left in row 0. */
  predicate CursorOk(n: nat, base: int, counter: int, row: nat) {
    && 0 <= base < n && row < 2
    && (row == 1 ==> 0 <= counter && base + counter <= n)
    && (row == 0 ==> counter <= 0 && -1 <= base + counter)
  }

  /** The `while stones != 0` loop of both sowing implementations, one iteration per
      call: leaving row 1 on the right feeds store 1 only when row 1 moves, leaving
      row 0 on the left feeds store 0 only when row 0 moves; otherwise the cursor
      wraps to the other row without spending a stone.  `inStore` records whether
      the latest stone went into the store. */
  function Sow(v: Variant, p: Position, pr: nat, base: int, counter: int, row: nat,
               stones: nat, inStore: bool): (r: Sown)
    requires Shaped(p) && pr < 2 && CursorOk(Width(p), base, counter, row)
    ensures Shaped(r.pos) && Width(r.pos) == Width(p)
    decreases 2 * stones + (if counter == 0 then 0 else 1)
  {
    var n := Width(p);
    var idx := base + counter;
    if stones == 0 then Sown(p, inStore)
    else if idx == n then
      if pr == 1 then Sow(v, AddToStore(p, 1, 1), pr, n - 1, 0, 0, stones - 1, true)
      else Sow(v, p, pr, n - 1, 0, 0, stones, inStore)
    else if idx < 0 then
      if pr == 0 then Sow(v, AddToStore(p, 0, 1), pr, 0, 0, 1, stones - 1, true)
      else Sow(v, p, pr, 0, 0, 1, stones, inStore)
    else
      var next :=
        if p.pits[row][idx] == 0 && pr == row && stones == 1 then Capture(v, p, pr, idx)
        else Drop(p, Pit(row, idx));
      Sow(v, next, pr, base, if row == 1 then counter + 1 else counter - 1, row, stones - 1, false)
  }

  /** One iteration of the sowing loop whose index runs off the right end of the rows. */
  lemma SowAtRightEnd(v: Variant, p: Position, pr: nat, base: int, counter: int, row: nat,
                      stones: nat, inStore: bool)
    requires Shaped(p) && pr < 2 && CursorOk(Width(p), base, counter, row)
    requires stones > 0 && base + counter == Width(p)
    ensures Sow(v, p, pr, base, counter, row, stones, inStore) ==
      if pr == 1 then Sow(v, AddToStore(p, 1, 1), pr, Width(p) - 1, 0, 0, stones - 1, true)
      else Sow(v, p, pr, Width(p) - 1, 0, 0, stones, inStore)
  {
  }

  /** One iteration of the sowing loop whose index runs off the left end of the rows. */
  lemma SowAtLeftEnd(v: Variant, p: Position, pr: nat, base: int, counter: int, row: nat,
                     stones: nat, inStore: bool)
    requires Shaped(p) && pr < 2 && CursorOk(Width(p), base, counter, row)
    requires stones > 0 && base + counter < 0
    ensures Sow(v, p, pr, base, counter, row, stones, inStore) ==
      if pr == 0 then Sow(v, AddToStore(p, 0, 1), pr, 0, 0, 1, stones - 1, true)
      else Sow(v, p, pr, 0, 0, 1, stones, inStore)
  {
  }

  /** One iteration of the sowing loop whose index lies inside row `row`. */
  lemma SowInRow(v: Variant, p: Position, pr: nat, base: int, counter: int, row: nat,
                 stones: nat, inStore: bool)
    requires Shaped(p) && pr < 2 && CursorOk(Width(p), base, counter, row)
    requires stones > 0 && 0 <= base + counter < Width(p)
    ensures var idx := base + counter;
      Sow(v, p, pr, base, counter, row, stones, inStore) ==
        Sow(v, if p.pits[row][idx] == 0 && pr == row && stones == 1 then Capture(v, p, pr, idx)
               else Drop(p, Pit(row, idx)),
            pr, base, if row == 1 then counter + 1 else counter - 1, row, stones - 1, false)
  {
  }

  /** Sowing `stones` stones from pit (pr, action) after it was emptied: the cursor
      starts at `action` with `counter == turn`. */
  function SowFrom(v: Variant, p: Position, pr: nat, action: nat, stones: nat): (r: Sown)
    requires Shaped(p) && pr < 2 && action < Width(p)
    ensures Shaped(r.pos) && Width(r.pos) == Width(p)
  {
    Sow(v, p, pr, action, if pr == 1 then 1 else -1, pr, stones, false)
  }

  // ---------------------------------------------------------------------------
  // The reference walk round the mover's cycle
  // ---------------------------------------------------------------------------

  /** The slots row pr sows into, on a board n pits wide. */
  predicate OnCycle(pr: nat, n: nat, s: Slot) {
    match s
    case Pit(r, j) => r < 2 && j < n
    case Store(r) => r == pr
  }

  /** Slot number q of row pr's cycle: the mover's own pits in sowing direction
      (0..n-1), its store (n), then the opponent's pits in sowing direction (n+1..2n). */
  function CycleSlot(pr: nat, n: nat, q: nat): (s: Slot)
    requires pr < 2 && q <= 2 * n
    ensures OnCycle(pr, n, s)
  {
    if q < n then Pit(pr, if pr == 1 then q else n - 1 - q)
    else if q == n then Store(pr)
    else Pit(1 - pr, if pr == 1 then 2 * n - q else q - n - 1)
  }

  /** The number of a slot on row pr's cycle. */
  function SlotPos(pr: nat, n: nat, s: Slot): (q: nat)
    requires pr < 2 && OnCycle(pr, n, s)
    ensures q <= 2 * n && CycleSlot(pr, n, q) == s
  {
    match s
    case Store(_) => n
    case Pit(r, j) =>
      if r == pr then (if pr == 1 then j else n - 1 - j)
      else (if pr == 1 then 2 * n - j else n + 1 + j)
  }

  function Succ(n: nat, q: nat): (r: nat)
    requires q <= 2 * n
    ensures r <= 2 * n
  {
    if q == 2 * n then 0 else q + 1
  }

  /** The slot number k steps round the cycle from q. */
  function Advance(n: nat, q: nat, k: nat): (r: nat)
    requires q <= 2 * n
    ensures r <= 2 * n
    decreases k
  {
    if k == 0 then q else Advance(n, Succ(n, q), k - 1)
  }

  /** One stone into each of the k slots after slot q of row pr's cycle. */
  function Walk(p: Position, pr: nat, q: nat, k: nat): (r: Position)
    requires Shaped(p) && pr < 2 && q <= 2 * Width(p)
    ensures Shaped(r) && Width(r) == Width(p)
    decreases k
  {
    if k == 0 then p
    else
      var q' := Succ(Width(p), q);
      Walk(Drop(p, CycleSlot(pr, Width(p), q')), pr, q', k - 1)
  }

  /** The last stone of row pr's move, dropped into slot s. */
  function Finish(v: Variant, p: Position, pr: nat, s: Slot): (r: Sown)
    requires Shaped(p) && pr < 2 && OnCycle(pr, Width(p), s)
    ensures Shaped(r.pos) && Width(r.pos) == Width(p)
  {
    match s
    case Store(_) => Sown(Drop(p, s), true)
    case Pit(r, j) =>
      Sown(if r == pr && p.pits[r][j] == 0 then Capture(v, p, pr, j) else Drop(p, s), false)
  }

  /** Row pr sows k stones starting after slot q of its cycle. */
  function Move(v: Variant, p: Position, pr: nat, q: nat, k: nat): (r: Sown)
    requires Shaped(p) && pr < 2 && q <= 2 * Width(p)
    ensures Shaped(r.pos) && Width(r.pos) == Width(p)
  {
    if k == 0 then Sown(p, false)
    else Finish(v, Walk(p, pr, q, k - 1), pr, CycleSlot(pr, Width(p), Advance(Width(p), q, k)))
  }

  /** The cycle number of pit (pr, action), the pit a move of row pr starts from. */
  function StartPos(pr: nat, n: nat, action: nat): (q: nat)
    requires pr < 2 && action < n
    ensures q <= 2 * n
  {
    SlotPos(pr, n, Pit(pr, action))
  }

  /** Where the last of k stones sown from pit (pr, action) lands. */
  function Landing(pr: nat, n: nat, action: nat, k: nat): Slot
    requires pr < 2 && action < n
  {
    CycleSlot(pr, n, Advance(n, StartPos(pr, n, action), k))
  }

  // ---------------------------------------------------------------------------
  // The cursor walk is the walk round the cycle
  // ---------------------------------------------------------------------------

  /** The slot the loop's next stone goes to (after any wrap that spends none). */
  function NextSlot(pr: nat, n: nat, base: int, counter: int, row: nat): (s: Slot)
    requires pr < 2 && CursorOk(n, base, counter, row)
    ensures OnCycle(pr, n, s)
  {
    var idx := base + counter;
    if idx == n then (if pr == 1 then Store(1) else Pit(0, n - 1))
    else if idx < 0 then (if pr == 0 then Store(0) else Pit(1, 0))
    else Pit(row, idx)
  }

  /** The cycle number of the slot just before the loop's next one. */
  function CursorPos(pr: nat, n: nat, base: int, counter: int, row: nat): (q: nat)
    requires pr < 2 && CursorOk(n, base, counter, row)
    ensures q <= 2 * n && Succ(n, q) == SlotPos(pr, n, NextSlot(pr, n, base, counter, row))
  {
    var x := SlotPos(pr, n, NextSlot(pr, n, base, counter, row));
    if x == 0 then 2 * n else x - 1
  }

  lemma MoveStep(v: Variant, p: Position, pr: nat, q: nat, k: nat)
    requires Shaped(p) && pr < 2 && q <= 2 * Width(p) && k >= 1
    ensures var s := CycleSlot(pr, Width(p), Succ(Width(p), q));
      Move(v, p, pr, q, k) ==
        if k == 1 then Finish(v, p, pr, s)
        else Move(v, Drop(p, s), pr, Succ(Width(p), q), k - 1)
  {
  }

  /** A wrap that spends no stone leaves the cursor's cycle number unchanged. */
  lemma SkipKeepsPos(pr: nat, n: nat, base: int, counter: int, row: nat)
    requires pr < 2 && CursorOk(n, base, counter, row)
    ensures base + counter == n && pr != 1 ==>
      CursorPos(pr, n, base, counter, row) == CursorPos(pr, n, n - 1, 0, 0)
    ensures base + counter < 0 && pr != 0 ==>
      CursorPos(pr, n, base, counter, row) == CursorPos(pr, n, 0, 0, 1)
  {
  }

  /** After an iteration that spends a stone, the cursor stands at the slot it
      dropped the stone into. */
  lemma StepAdvancesPos(pr: nat, n: nat, base: int, counter: int, row: nat)
    requires pr < 2 && CursorOk(n, base, counter, row)
    ensures var x := SlotPos(pr, n, NextSlot(pr, n, base, counter, row));
      && (base + counter == n && pr == 1 ==> CursorPos(pr, n, n - 1, 0, 0) == x)
      && (base + counter < 0 && pr == 0 ==> CursorPos(pr, n, 0, 0, 1) == x)
      && (0 <= base + counter < n ==>
            CursorPos(pr, n, base, if row == 1 then counter + 1 else counter - 1, row) == x)
  {
  }

  /** One iteration of the sowing loop that drops its stone into slot `NextSlot`. */
  lemma SowDrops(v: Variant, p: Position, pr: nat, base: int, counter: int, row: nat,
                 stones: nat, inStore: bool)
    requires Shaped(p) && pr < 2 && CursorOk(Width(p), base, counter, row) && stones > 0
    requires var idx := base + counter; (idx == Width(p) ==> pr == 1) && (idx < 0 ==> pr == 0)
    ensures var n := Width(p);
      var idx := base + counter;
      var s := NextSlot(pr, n, base, counter, row);
      && (stones == 1 ==> Sow(v, p, pr, base, counter, row, stones, inStore) == Finish(v, p, pr, s))
      && (stones > 1 ==>
            Sow(v, p, pr, base, counter, row, stones, inStore) ==
              (if idx == n then Sow(v, Drop(p, s), pr, n - 1, 0, 0, stones - 1, true)
               else if idx < 0 then Sow(v, Drop(p, s), pr, 0, 0, 1, stones - 1, true)
               else Sow(v, Drop(p, s), pr, base, if row == 1 then counter + 1 else counter - 1, row,
                        stones - 1, false)))
  {
  }

  /** Every iteration of the sowing loop drops its stone into the next slot of the
      mover's cycle, so the loop run from any cursor is the walk round the cycle. */
  lemma {:induction false} SowIsMove(v: Variant, p: Position, pr: nat, base: int, counter: int,
                                     row: nat, stones: nat, inStore: bool)
    requires Shaped(p) && pr < 2 && CursorOk(Width(p), base, counter, row)
    requires stones > 0 || !inStore
    ensures Sow(v, p, pr, base, counter, row, stones, inStore)
         == Move(v, p, pr, CursorPos(pr, Width(p), base, counter, row), stones)
    decreases 2 * stones + (if counter == 0 then 0 else 1)
  {
    var n := Width(p);
    var idx := base + counter;
    var q := CursorPos(pr, n, base, counter, row);
    if stones == 0 {
    } else if idx == n && pr != 1 {
      SkipKeepsPos(pr, n, base, counter, row);
      SowIsMove(v, p, pr, n - 1, 0, 0, stones, inStore);
    } else if idx < 0 && pr != 0 {
      SkipKeepsPos(pr, n, base, counter, row);
      SowIsMove(v, p, pr, 0, 0, 1, stones, inStore);
    } else {
      var s := NextSlot(pr, n, base, counter, row);
      MoveStep(v, p, pr, q, stones);
      assert CycleSlot(pr, n, Succ(n, q)) == s;
      if stones == 1 {
        SowDrops(v, p, pr, base, counter, row, stones, inStore);
      } else {
        var base', counter', row', inStore' := SowStep(v, p, pr, base, counter, row, stones, inStore);
        SowIsMove(v, Drop(p, s), pr, base', counter', row', stones - 1, inStore');
      }
    }
  }

  /** The cursor after an iteration of the sowing loop that drops a stone, not the
      last, into the next slot s of the cycle. */
  lemma SowStep(v: Variant, p: Position, pr: nat, base: int, counter: int, row: nat,
                stones: nat, inStore: bool)
    returns (base': int, counter': int, row': nat, inStore': bool)
    requires Shaped(p) && pr < 2 && CursorOk(Width(p), base, counter, row) && stones > 1
    requires var idx := base + counter; (idx == Width(p) ==> pr == 1) && (idx < 0 ==> pr == 0)
    ensures var n := Width(p);
      var s := NextSlot(pr, n, base, counter, row);
      && OnBoard(p, s)
      && CursorOk(n, base', counter', row')
      && 2 * (stones - 1) + (if counter' == 0 then 0 else 1) < 2 * stones + (if counter == 0 then 0 else 1)
      && Sow(v, p, pr, base, counter, row, stones, inStore) ==
           Sow(v, Drop(p, s), pr, base', counter', row', stones - 1, inStore')
      && CursorPos(pr, n, base', counter', row') == Succ(n, CursorPos(pr, n, base, counter, row))
  {
    var n := Width(p);
    var idx := base + counter;
    StepAdvancesPos(pr, n, base, counter, row);
    SowDrops(v, p, pr, base, counter, row, stones, inStore);
    base', counter', row', inStore' := base, counter, row, false;
    if idx == n {
      base', counter', row', inStore' := n - 1, 0, 0, true;
    } else if idx < 0 {
      base', counter', row', inStore' := 0, 0, 1, true;
    } else {
      counter' := if row == 1 then counter + 1 else counter - 1;
    }
  }

  /** The sowing loop started at pit (pr, action) is the walk round row pr's cycle
      from that pit. */
  lemma SowFromIsMove(v: Variant, p: Position, pr: nat, action: nat, stones: nat)
    requires Shaped(p) && pr < 2 && action < Width(p)
    ensures SowFrom(v, p, pr, action, stones) == Move(v, p, pr, StartPos(pr, Width(p), action), stones)
  {
    var counter := if pr == 1 then 1 else -1;
    assert CursorPos(pr, Width(p), action, counter, pr) == StartPos(pr, Width(p), action);
    SowIsMove(v, p, pr, action, counter, pr, stones, false);
  }

  // ---------------------------------------------------------------------------
  // What a walk and a move do
  // ---------------------------------------------------------------------------

  /** Extending a prefix by one entry adds that entry to its sum. */
  lemma SumStep(s: seq<int>, i: nat)
    requires i < |s|
    ensures Sum(s[..i + 1]) == Sum(s[..i]) + s[i]
  {
    assert s[..i + 1][..i] == s[..i];
  }

  lemma {:induction false} SumUpdate(s: seq<int>, j: nat, v: int)
    requires j < |s|
    ensures Sum(s[j := v]) == Sum(s) - s[j] + v
  {
    var last := |s| - 1;
    if j == last {
      assert s[j := v][..last] == s[..last];
    } else {
      SumUpdate(s[..last], j, v);
      assert s[j := v][..last] == s[..last][j := v];
    }
  }

  lemma SetPitTotal(p: Position, r: nat, j: nat, v: int)
    requires Shaped(p) && r < 2 && j < Width(p)
    ensures Total(SetPit(p, r, j, v)) == Total(p) - p.pits[r][j] + v
  {
    SumUpdate(p.pits[r], j, v);
  }

  lemma DropTotal(p: Position, s: Slot)
    requires Shaped(p) && OnBoard(p, s)
    ensures Total(Drop(p, s)) == Total(p) + 1
  {
    if s.Pit? {
      SetPitTotal(p, s.row, s.col, p.pits[s.row][s.col] + 1);
    }
  }

  /** How many of the k slots after slot q of the cycle are slot x. */
  function Visits(n: nat, q: nat, k: nat, x: nat): nat
    requires q <= 2 * n
    decreases k
  {
    if k == 0 then 0
    else (if Succ(n, q) == x then 1 else 0) + Visits(n, Succ(n, q), k - 1, x)
  }

  /** Slot numbers and slots correspond one to one. */
  lemma CycleSlotPos(pr: nat, n: nat, q: nat)
    requires pr < 2 && q <= 2 * n
    ensures SlotPos(pr, n, CycleSlot(pr, n, q)) == q
  {
  }

  /** A stone dropped into slot q of row pr's cycle adds one to that slot only. */
  lemma DropCounts(p: Position, pr: nat, q: nat)
    requires Shaped(p) && pr < 2 && q <= 2 * Width(p)
    ensures var n := Width(p);
      var d := Drop(p, CycleSlot(pr, n, q));
      && (forall r, j :: 0 <= r < 2 && 0 <= j < n ==>
            d.pits[r][j] == p.pits[r][j] + (if SlotPos(pr, n, Pit(r, j)) == q then 1 else 0))
      && d.StoreOf(pr) == p.StoreOf(pr) + (if q == n then 1 else 0)
      && d.StoreOf(1 - pr) == p.StoreOf(1 - pr)
  {
    var n := Width(p);
    var s := CycleSlot(pr, n, q);
    CycleSlotPos(pr, n, q);
    forall r, j | 0 <= r < 2 && 0 <= j < n
      ensures (SlotPos(pr, n, Pit(r, j)) == q) == (s == Pit(r, j))
    {
      if SlotPos(pr, n, Pit(r, j)) == q {
        assert CycleSlot(pr, n, SlotPos(pr, n, Pit(r, j))) == Pit(r, j);
      }
    }
  }

  /** A walk of k stones adds to every pit and to the mover's store one stone per
      time it reaches that slot, and never feeds the opponent's store. */
  lemma {:induction false} WalkCounts(p: Position, pr: nat, q: nat, k: nat)
    requires Shaped(p) && pr < 2 && q <= 2 * Width(p)
    ensures var n := Width(p);
      var w := Walk(p, pr, q, k);
      && (forall r, j :: 0 <= r < 2 && 0 <= j < n ==>
            w.pits[r][j] == p.pits[r][j] + Visits(n, q, k, SlotPos(pr, n, Pit(r, j))))
      && w.StoreOf(pr) == p.StoreOf(pr) + Visits(n, q, k, n)
      && w.StoreOf(1 - pr) == p.StoreOf(1 - pr)
    decreases k
  {
    if k > 0 {
      var n := Width(p);
      var q' := Succ(n, q);
      var d := Drop(p, CycleSlot(pr, n, q'));
      DropCounts(p, pr, q');
      WalkCounts(d, pr, q', k - 1);
      assert Walk(p, pr, q, k) == Walk(d, pr, q', k - 1);
    }
  }

  /** A walk of k stones adds k stones to the position. */
  lemma {:induction false} WalkTotal(p: Position, pr: nat, q: nat, k: nat)
    requires Shaped(p) && pr < 2 && q <= 2 * Width(p)
    ensures Total(Walk(p, pr, q, k)) == Total(p) + k
    decreases k
  {
    if k > 0 {
      var n := Width(p);
      var q' := Succ(n, q);
      var s := CycleSlot(pr, n, q');
      DropTotal(p, s);
      WalkTotal(Drop(p, s), pr, q', k - 1);
    }
  }

  lemma {:induction false} WalkNonNegative(p: Position, pr: nat, q: nat, k: nat)
    requires Shaped(p) && pr < 2 && q <= 2 * Width(p) && NonNegative(p)
    ensures NonNegative(Walk(p, pr, q, k))
  {
    WalkCounts(p, pr, q, k);
  }

  lemma FinishTotal(v: Variant, p: Position, pr: nat, s: Slot)
    requires Shaped(p) && pr < 2 && OnCycle(pr, Width(p), s)
    ensures Total(Finish(v, p, pr, s).pos) == Total(p) + 1
  {
    match s
    case Store(_) =>
      DropTotal(p, s);
    case Pit(r, j) =>
      if r == pr && p.pits[r][j] == 0 {
        var e := 1 - pr;
        var mirror := p.pits[e][j];
        var p1 := SetPit(p, e, j, 0);
        SetPitTotal(p, e, j, 0);
        if v == Job || mirror > 0 {
          SetPitTotal(p1, pr, j, if v == Job then 1 else 0);
        } else {
          SetPitTotal(p, pr, j, 1);
        }
      } else {
        DropTotal(p, s);
      }
  }

  /** Sowing k stones adds exactly k stones to the pits and stores. */
  lemma MoveTotal(v: Variant, p: Position, pr: nat, q: nat, k: nat)
    requires Shaped(p) && pr < 2 && q <= 2 * Width(p)
    ensures Total(Move(v, p, pr, q, k).pos) == Total(p) + k
  {
    if k > 0 {
      var w := Walk(p, pr, q, k - 1);
      WalkTotal(p, pr, q, k - 1);
      FinishTotal(v, w, pr, CycleSlot(pr, Width(p), Advance(Width(p), q, k)));
    }
  }

  lemma FinishStores(v: Variant, p: Position, pr: nat, s: Slot)
    requires Shaped(p) && pr < 2 && OnCycle(pr, Width(p), s)
    requires v == Job ==> NonNegative(p)
    ensures var r := Finish(v, p, pr, s).pos;
      r.StoreOf(1 - pr) == p.StoreOf(1 - pr) && r.StoreOf(pr) >= p.StoreOf(pr)
  {
  }

  /** Sowing never feeds the opponent's store and never takes from the mover's
      (under the `Job` rules this needs the captured mirror pit to hold no debt of
      stones). */
  lemma MoveStores(v: Variant, p: Position, pr: nat, q: nat, k: nat)
    requires Shaped(p) && pr < 2 && q <= 2 * Width(p)
    requires v == Job ==> NonNegative(p)
    ensures var r := Move(v, p, pr, q, k).pos;
      r.StoreOf(1 - pr) == p.StoreOf(1 - pr) && r.StoreOf(pr) >= p.StoreOf(pr)
  {
    if k > 0 {
      var w := Walk(p, pr, q, k - 1);
      WalkCounts(p, pr, q, k - 1);
      if v == Job {
        WalkNonNegative(p, pr, q, k - 1);
      }
      FinishStores(v, w, pr, CycleSlot(pr, Width(p), Advance(Width(p), q, k)));
    }
  }

  /** Sowing leaves no pit with a negative count. */
  lemma MoveNonNegative(v: Variant, p: Position, pr: nat, q: nat, k: nat)
    requires Shaped(p) && pr < 2 && q <= 2 * Width(p) && NonNegative(p)
    ensures NonNegative(Move(v, p, pr, q, k).pos)
  {
    if k > 0 {
      var w := Walk(p, pr, q, k - 1);
      WalkNonNegative(p, pr, q, k - 1);
      FinishNonNegative(v, w, pr, CycleSlot(pr, Width(p), Advance(Width(p), q, k)));
    }
  }

  lemma FinishNonNegative(v: Variant, p: Position, pr: nat, s: Slot)
    requires Shaped(p) && pr < 2 && OnCycle(pr, Width(p), s) && NonNegative(p)
    ensures NonNegative(Finish(v, p, pr, s).pos)
  {
    var r := Finish(v, p, pr, s).pos;
    forall row, j | 0 <= row < 2 && 0 <= j < Width(p)
      ensures r.pits[row][j] >= 0
    {
      assert p.pits[row][j] >= 0;
    }
  }

  // ---------------------------------------------------------------------------
  // End of game
  // ---------------------------------------------------------------------------

  /** -1 when store 0 is ahead, 1 when store 1 is ahead, 0 on a tie. */
  function Verdict(p: Position): (r: int)
    requires Shaped(p)
  {
    if p.StoreOf(0) > p.StoreOf(1) then -1
    else if p.StoreOf(1) > p.StoreOf(0) then 1
    else 0
  }

  function Zeros(m: nat): (z: seq<int>)
    ensures |z| == m && forall j :: 0 <= j < m ==> z[j] == 0
  {
    seq(m, _ => 0)
  }

  /** The first m pits of row `from` go into store `to`, and those pits are emptied. */
  function Sweep(p: Position, from: nat, to: nat, m: nat): (q: Position)
    requires Shaped(p) && from < 2 && to < 2 && m <= Width(p)
    ensures Shaped(q) && Width(q) == Width(p)
  {
    var q := AddToStore(p, to, Sum(p.pits[from][..m]));
    q.(pits := q.pits[from := Zeros(m) + q.pits[from][m..]])
  }

  lemma {:induction false} SumAppend(a: seq<int>, b: seq<int>)
    ensures Sum(a + b) == Sum(a) + Sum(b)
    decreases |b|
  {
    if b != [] {
      var last := |b| - 1;
      assert (a + b)[..|a + b| - 1] == a + b[..last];
      SumAppend(a, b[..last]);
    } else {
      assert a + b == a;
    }
  }

  lemma {:induction false} SumZeros(m: nat)
    ensures Sum(Zeros(m)) == 0
  {
    if m > 0 {
      assert Zeros(m)[..m - 1] == Zeros(m - 1);
      SumZeros(m - 1);
    }
  }

  /** A sum of counts that are never negative is 0 only when every count is 0. */
  lemma {:induction false} SumZeroMeansEmpty(s: seq<int>)
    requires forall j :: 0 <= j < |s| ==> s[j] >= 0
    ensures Sum(s) >= 0
    ensures Sum(s) == 0 <==> forall j :: 0 <= j < |s| ==> s[j] == 0
  {
    if s != [] {
      SumZeroMeansEmpty(s[..|s| - 1]);
    }
  }

  /** Sweeping moves stones from a row to a store without creating or losing any. */
  lemma SweepTotal(p: Position, from: nat, to: nat, m: nat)
    requires Shaped(p) && from < 2 && to < 2 && m <= Width(p)
    ensures Total(Sweep(p, from, to, m)) == Total(p)
  {
    var row := p.pits[from];
    assert row == row[..m] + row[m..];
    SumAppend(row[..m], row[m..]);
    SumAppend(Zeros(m), row[m..]);
    SumZeros(m);
  }
}
