# Kalah rules of mcts_kalah, modelled and proved in Dafny

The repository plays Kalah (a two-row Mancala game) with Monte Carlo tree search.
Its rules engine exists twice:

- **Device functions.** `src/mctsnc_game_mechanics.py` has flat-buffer functions
  meant for GPU playouts, each a function of `(m, n, board, extra_info, turn, …)`:
  - `is_action_legal_kallah`, `take_action_kallah`, `legal_actions_playout_kallah`,
    `take_action_playout_kallah`, `compute_outcome_kallah`;
  - five dispatchers that forward to them;
  - the Connect 4 and Gomoku versions of the same five operations.
- **The `Kalah` class.** `src/kalah.py` has a 2×6 board and two stores (`magazyn`)
  with the player to move. It runs an older rule set, `take_action_job`: no bonus
  move, and the mirror pit is captured unconditionally. It also has the outcome
  functions, the action-name mapping and the shape constants.

The Dafny project models both.

| module (file) | models |
|---|---|
| `KalahRules` (kalah_rules.dfy) | The sowing rules as values. `Position` holds two rows of pits and two stores. `Variant` is `Device` (take_action_kallah) or `Job` (take_action_job). `Sow` follows the source's `while stones != 0` loop step by step. `Move` is an independent walk round the mover's 2n+1-slot cycle. `SowFromIsMove` proves the two agree. Conservation, store monotonicity and non-negativity are proved about `Move`. |
| `Boards` (boards.dfy) | Reads a row of an `array2<int>`, and the position held by a board and its stores. |
| `GameMechanics` (game_mechanics.dfy) | The Kalah device functions and the five dispatchers, as methods over `array2<int>` and `array<int>`. Each is proved equal to a function on values (`DeviceMove`, `PlayoutList`, `DeviceOutcome`); the rule properties are lemmas about those functions. |
| `Lines` (lines.dfy) | The `for k in range(1, limit+1)` counting loops of the Connect 4 and Gomoku outcome checks. |
| `ConnectFour` (connect_four.dfy) | The Connect 4 device functions. |
| `Gomoku` (gomoku.dfy) | The Gomoku device functions, including the swap-remove of the playout list. |
| `KalahState` (kalah.dfy) | Class `Kalah`, with fields `board`, `magazyn`, `turn`, `k`, `bonus` and `steal`, its constructors and methods. The `Job` rules on values are `JobMove` and `JobOutcome`. |

Three places where the source does not do what its own names or comments suggest.
The model follows what the code does:

- **Pending bonus** (`src/mctsnc_game_mechanics.py:131-134`). The bonus interception
  does not return. It clears the flag, sets the display flag and flips the local
  `turn`, then still sows the chosen pit from the other player's row. `DeviceMove`
  does the same.
- **Board shape** (`src/kalah.py:260-267`). `get_board_shape` documents the shape of
  the boards, but returns `(6, 2)`, while `__init__` builds a 2×6 board
  (`src/kalah.py:28`). See Findings.
- **Playout list** (`src/mctsnc_game_mechanics.py:217`). It keeps pits with `> 0`
  stones, while `is_action_legal_kallah` rejects only a pit with `== 0` stones (`:113-116`). The two agree when
  no count is negative (`PlayoutListIsLegal`).

The inputs `m`, `n`, `turn`, `last_action` and `action_ord` are parameters even
where the source ignores them.

## Model

| member | source | states |
|---|---|---|
| KalahRules.PlayerRow | src/mctsnc_game_mechanics.py:136-139 | the mover's row is one of the two rows (row 1 for turn 1, row 0 otherwise) |
| KalahRules.Capture | src/mctsnc_game_mechanics.py:176-186 | the last stone into an empty own pit: Device rules: a non-empty mirror plus the stone go to the store and both pits end 0, else the pit holds 1; Job rules (src/kalah.py:112-119): the mirror goes to the store and the pit holds 1 |
| KalahRules.Sow | src/mctsnc_game_mechanics.py:146-191 | the `while stones != 0` loop of both sowing functions, one iteration per step: off the right end store 1 is fed only when row 1 moves, off the left end store 0 only when row 0 moves, otherwise the cursor wraps without spending a stone; inside a row one stone is dropped or captured; the shape is kept |
| KalahRules.SowIsMove | src/mctsnc_game_mechanics.py:146-191 | the sowing loop run from any cursor position drops each stone into the next slot of the mover's cycle: it equals the reference walk `Move` from the cursor's slot |
| KalahRules.SowStep | src/mctsnc_game_mechanics.py:147-191 | one iteration that spends a stone, not the last, drops it into the next slot of the cycle and advances the cursor by exactly one slot, with the loop measure decreasing |
| KalahRules.SowDrops | src/mctsnc_game_mechanics.py:147-191 | an iteration spending a stone puts it into slot `NextSlot`; the last stone is finished (store, capture or plain drop), and the others continue the loop from the updated cursor |
| KalahRules.SowFromIsMove | src/mctsnc_game_mechanics.py:145-191 | sowing from pit (pr, action) with `counter = turn` is the walk round row pr's cycle starting at that pit |
| KalahRules.WalkCounts | src/mctsnc_game_mechanics.py:146-191 | a walk adds to every pit and to the mover's store one stone per visit of that slot, and never feeds the opponent's store |
| KalahRules.MoveTotal | src/mctsnc_game_mechanics.py:146-191 | sowing k stones adds exactly k stones to pits plus stores |
| KalahRules.MoveStores | src/mctsnc_game_mechanics.py:153-154 | the opponent's store keeps its count and the mover's store never decreases; for the Job rules this needs no negative count |
| KalahRules.MoveNonNegative | src/mctsnc_game_mechanics.py:176-186 | from a position with no negative count, sowing leaves none |
| KalahRules.SumZeroMeansEmpty | src/mctsnc_game_mechanics.py:231-238 | a row sum of non-negative counts is never negative, and is 0 exactly when every pit is empty |
| KalahRules.SweepTotal | src/mctsnc_game_mechanics.py:240-247 | moving a row's first m pits into a store neither creates nor loses stones |
| GameMechanics.KallahLegal | src/mctsnc_game_mechanics.py:105-116 | is_action_legal_kallah's verdict: index at most 5 and a non-zero pit in the mover's row; a legal action is a pit index below 6 |
| GameMechanics.IsActionLegalKallah | src/mctsnc_game_mechanics.py:102-116 | writes only `legal_actions[action]`, true exactly when 0 <= action <= 5 and the mover's pit is non-zero |
| GameMechanics.DeviceMove | src/mctsnc_game_mechanics.py:127-192 | take_action_kallah on values: clear a set display flag; a set bonus flag becomes the display flag and moves the sowing to the other row; empty the pit and sow under the Device rules; the bonus flag is set exactly when the last stone went into the store; the board keeps its shape |
| GameMechanics.TakeActionKallah | src/mctsnc_game_mechanics.py:127-192 | the new board and `extra_info[0..3]` are `DeviceMove` of the old ones; entries from 4 on are unchanged |
| GameMechanics.SowKallah | src/mctsnc_game_mechanics.py:146-191 | the while loop leaves exactly the sown position, and `extra_info[2]` is 1 exactly when the last stone went into the store |
| GameMechanics.SowOnce | src/mctsnc_game_mechanics.py:147-191 | one loop iteration keeps the cursor well formed, decreases the loop measure and preserves the remaining `Sow` |
| GameMechanics.LeaveRight | src/mctsnc_game_mechanics.py:148-159 | running off the right end feeds store 1 only when row 1 moves, and wraps the cursor to row 0 |
| GameMechanics.LeaveLeft | src/mctsnc_game_mechanics.py:160-171 | running off the left end feeds store 0 only when row 0 moves, and wraps the cursor to row 1 |
| GameMechanics.StepInRow | src/mctsnc_game_mechanics.py:175-191 | an index inside the row deposits one stone (or captures) and moves the cursor one pit in the row's direction |
| GameMechanics.DepositStone | src/mctsnc_game_mechanics.py:176-186 | the last stone into an empty own pit captures a non-empty mirror (store += mirror + 1, both pits 0); otherwise pit += 1 |
| GameMechanics.TakeActionPlayoutKallah | src/mctsnc_game_mechanics.py:272-273 | the same new state as take_action_kallah |
| GameMechanics.DeviceMoveConserves | src/mctsnc_game_mechanics.py:141-191 | a move keeps board total plus both stores |
| GameMechanics.DeviceMoveStores | src/mctsnc_game_mechanics.py:153-154 | only the sowing row's store can grow; the other store keeps its count |
| GameMechanics.DeviceMoveNonNegative | src/mctsnc_game_mechanics.py:176-186 | no pit ends with a negative count |
| GameMechanics.DeviceMoveBonus | src/mctsnc_game_mechanics.py:153-170 | the bonus flag is set exactly when the pit held stones and the last one lands in the sowing row's own store |
| GameMechanics.DeviceMoveCapture | src/mctsnc_game_mechanics.py:176-186 | last stone into an empty own pit: with N > 0 opposite, both pits end 0 and the store gains N + 1; with N = 0 the pit holds 1 and the store is unchanged |
| GameMechanics.PlayoutList | src/mctsnc_game_mechanics.py:205-220 | the list legal_actions_playout_kallah writes: `[6]` under a pending bonus, otherwise the occupied pits j < n; at most n + 1 entries |
| GameMechanics.LegalActionsPlayoutKallah | src/mctsnc_game_mechanics.py:205-220 | on any buffer of at least n + 1 (and 2) slots: the first slots hold `[6]` under a pending bonus and otherwise the ascending occupied pits j < n; the last slot holds their count; the slots between are untouched |
| GameMechanics.ListOccupied | src/mctsnc_game_mechanics.py:215-219 | the loop writes exactly the occupied pits j < n, in order, and touches nothing after them |
| GameMechanics.OccupiedMeans | src/mctsnc_game_mechanics.py:215-219 | the list holds j exactly when j < k and pit j holds stones, strictly ascending, all below k |
| GameMechanics.OccupiedEmpty | src/mctsnc_game_mechanics.py:215-219 | the list is empty exactly when none of the first k pits holds a positive count |
| GameMechanics.PlayoutListIsLegal | src/mctsnc_game_mechanics.py:211-219 | without a pending bonus and with no negative count, j is listed exactly when is_action_legal_kallah accepts it (j < n) |
| GameMechanics.PlayoutListEmpty | src/mctsnc_game_mechanics.py:215-220 | the list is empty exactly when the mover's first n pits sum to 0 |
| GameMechanics.RowSum | src/mctsnc_game_mechanics.py:231-236 | the accumulation loop returns the sum of `board[r, i]` for i < m |
| GameMechanics.ZeroRow | src/mctsnc_game_mechanics.py:246-247 | the zeroing loop clears the first m pits of row r and leaves the rest of the board |
| GameMechanics.DeviceOutcome | src/mctsnc_game_mechanics.py:230-269 | compute_outcome_kallah on values, scanning the first m pits: an empty row 1 sweeps row 0 into store 0, else an empty row 0 sweeps row 1 into store 1, and the stores decide; -2 otherwise; the shape is kept |
| GameMechanics.ComputeOutcomeKallah | src/mctsnc_game_mechanics.py:230-269 | the new position and the result are `DeviceOutcome` of the old position, the scan bound being the row count; `extra_info` from 2 on is unchanged |
| GameMechanics.DeviceOutcomeConserves | src/mctsnc_game_mechanics.py:238-262 | scoring keeps board plus store total |
| GameMechanics.DeviceOutcomeCases | src/mctsnc_game_mechanics.py:238-269 | -2 exactly when both scanned parts hold stones, and then nothing changes; otherwise -1, 1 or 0 as store 0 is ahead, behind or level |
| GameMechanics.DeviceOutcomeIdempotent | src/mctsnc_game_mechanics.py:230-269 | a second evaluation after a decision gives the same verdict and the same stores (and, with no negative count, the same position) |
| GameMechanics.TwoColumnScanEndsEarly | src/mctsnc_game_mechanics.py:232-236 | counterexample: row 1 still holds 4 stones, yet the two-column scan scores the game as over |
| GameMechanics.OngoingHasMove | src/mctsnc_game_mechanics.py:230-269 | a game the outcome check leaves going on (-2), with no negative count, gives the mover a non-empty playout list |
| GameMechanics.FullOutcome | src/mctsnc_game_mechanics.py:230-269 | the corrected outcome: compute_outcome_kallah scanning every pit of each row |
| GameMechanics.FullOutcomeDecided | src/mctsnc_game_mechanics.py:230-269 | with the full-width scan the game ends exactly when a row is empty, and then every pit is empty |
| GameMechanics.IsActionLegal | src/mctsnc_game_mechanics.py:58-62 | forwards to the Kalah legality check, with the same result |
| GameMechanics.TakeAction | src/mctsnc_game_mechanics.py:65-69 | forwards to take_action_kallah, with the same new state |
| GameMechanics.LegalActionsPlayout | src/mctsnc_game_mechanics.py:72-76 | forwards to legal_actions_playout_kallah, with the same list |
| GameMechanics.TakeActionPlayout | src/mctsnc_game_mechanics.py:80-84 | forwards to take_action_playout_kallah, with the same new state |
| GameMechanics.ComputeOutcome | src/mctsnc_game_mechanics.py:87-94 | forwards to compute_outcome_kallah, with the same outcome and state |
| Lines.RunMeans | src/mctsnc_game_mechanics.py:283-290 | a run of c covers c consecutive matching cells and stops at a non-matching cell unless it reached the limit |
| Lines.RunAtLeast | src/mctsnc_game_mechanics.py:283-290 | c consecutive matching cells give a run of at least c |
| Lines.RunExactly | src/mctsnc_game_mechanics.py:384-391 | c matching cells followed by a non-matching cell (or the limit) give a run of exactly c |
| Lines.CountRun | src/mctsnc_game_mechanics.py:283-286 | the loop with `break` counts the run of matching cells along one ray |
| Lines.CountLine | src/mctsnc_game_mechanics.py:282-290 | the two loops of one direction give the line total of both rays |
| ConnectFour.IsActionLegalC4 | src/mctsnc_game_mechanics.py:97-99 | writes only `legal_actions[action]`, true exactly when the column height is below m |
| ConnectFour.LegalMeansRoom | src/mctsnc_game_mechanics.py:97-99 | on a consistent board a column is legal exactly when its top cell is empty |
| ConnectFour.TakeActionC4 | src/mctsnc_game_mechanics.py:120-124 | the height grows by one, the token lands in the lowest empty cell, nothing else changes, and consistency is kept |
| ConnectFour.TakeActionPlayoutC4 | src/mctsnc_game_mechanics.py:223-227 | the same new state as take_action_c4 |
| ConnectFour.OpenColumnsMeans | src/mctsnc_game_mechanics.py:195-202 | the list holds exactly the columns with room, ascending, all below k |
| ConnectFour.LegalActionsPlayoutC4 | src/mctsnc_game_mechanics.py:195-202 | writes the open columns in order and their count in the last slot |
| ConnectFour.ComputeOutcomeC4 | src/mctsnc_game_mechanics.py:276-336 | returns `C4Outcome`: the last mover's token on a line of four, else 0 when every column is full, else 2 |
| ConnectFour.C4Outcome | src/mctsnc_game_mechanics.py:276-336 | compute_outcome_c4 on the board and the heights: the last token on a line of four, else 0 when every column is full, else 2; always one of those three values |
| ConnectFour.LastTokenWins | src/mctsnc_game_mechanics.py:281-328 | the four direction checks answer whether some line through the last token totals at least 3 |
| ConnectFour.AllColumnsFull | src/mctsnc_game_mechanics.py:329-333 | the draw loop answers whether every column is full |
| ConnectFour.FourInARowWins | src/mctsnc_game_mechanics.py:281-328 | four in a row through the last token in any of the four directions gives a win for the last mover |
| ConnectFour.C4OutcomeCases | src/mctsnc_game_mechanics.py:276-336 | the outcome is the last token, 0 or 2 exactly in the win, draw and ongoing cases |
| Gomoku.DivModOf | src/mctsnc_game_mechanics.py:341-342 | flat index r * n + c names cell (r, c) |
| Gomoku.CellInRange | src/mctsnc_game_mechanics.py:341-342 | an index below m * n names a cell on the board |
| Gomoku.IsActionLegalGomoku | src/mctsnc_game_mechanics.py:339-343 | writes only `legal_actions[action]`, true exactly when the cell is empty |
| Gomoku.TakeActionGomoku | src/mctsnc_game_mechanics.py:346-350 | the action's cell gets the token, nothing else changes |
| Gomoku.LegalActionsPlayoutGomoku | src/mctsnc_game_mechanics.py:353-364 | a set count slot leaves the buffer unchanged; a count of 0 triggers a scan that writes the empty cells' indices and their count |
| Gomoku.ScanRow | src/mctsnc_game_mechanics.py:359-363 | the inner loop appends row i's empty cells to the list |
| Gomoku.RowEmptiesMeans | src/mctsnc_game_mechanics.py:359-363 | the row list holds exactly the empty cells of the row, ascending |
| Gomoku.EmptiesMeans | src/mctsnc_game_mechanics.py:353-364 | the scan's list holds exactly the empty cells of the board, ascending |
| Gomoku.TakeActionPlayoutGomoku | src/mctsnc_game_mechanics.py:367-374 | the token is placed, and the list becomes its swap-remove at `action_ord`, with the count one less |
| Gomoku.SwapRemoveDrops | src/mctsnc_game_mechanics.py:372-374 | swap-remove drops exactly one occurrence of the taken entry (a multiset difference) |
| Gomoku.SwapRemoveGone | src/mctsnc_game_mechanics.py:372-374 | with distinct entries the taken action is no longer listed |
| Gomoku.ComputeOutcomeGomoku | src/mctsnc_game_mechanics.py:377-438 | returns `GomokuOutcome`: the last token for exactly five in a row, else 0 on a full board, else 2 |
| Gomoku.GomokuOutcome | src/mctsnc_game_mechanics.py:377-438 | compute_outcome_gomoku on the board: the last token for exactly five in a row, else 0 on a full board, else 2; always one of those three values |
| Gomoku.LastTokenWins | src/mctsnc_game_mechanics.py:382-429 | the four direction checks answer whether some line total is exactly 4 |
| Gomoku.BoardFull | src/mctsnc_game_mechanics.py:430-435 | the nested draw loops answer whether no cell is empty |
| Gomoku.WinIsExactlyFive | src/mctsnc_game_mechanics.py:382-429 | a winning line is five cells in a row bounded at both ends by a cell not holding the token |
| Gomoku.BackwardRunMeans | src/mctsnc_game_mechanics.py:388-391 | the backward loop's run covers the matching cells behind the last token and stops at one that does not match |
| Gomoku.FiveInALine | src/mctsnc_game_mechanics.py:384-392 | five in a row bounded by non-matching cells makes the line total 4 |
| Gomoku.FiveInARowWins | src/mctsnc_game_mechanics.py:382-429 | conversely, such a five through the last token wins for the last mover |
| KalahState.JobMove | src/kalah.py:74-127 | a move happens exactly when is_action_legal_kallah accepts the action, and keeps the board shape |
| KalahState.Kalah.Root | src/kalah.py:25-30 | fresh 2×6 board of 4s with stores [0, 0], k = 4, no bonus, no steal |
| KalahState.Kalah.Child | src/kalah.py:19-24 | fresh copies of the parent's board and stores with the same position, and k, bonus, steal copied |
| KalahState.Kalah.GetPlayerRow | src/kalah.py:66-70 | row 1 exactly when turn is 1, else row 0 |
| KalahState.Kalah.TakeActionJob | src/kalah.py:74-127 | true exactly for a legal action; then the state is `JobMove` and the turn is negated once; when false nothing changes |
| KalahState.JobOutcome | src/kalah.py:166-188 | compute_outcome_job_numba_jit on values: an empty row 1 sweeps row 0 into store 1, else an empty row 0 sweeps row 1 into store 0, and the stores decide; -2 otherwise; the shape is kept |
| KalahState.Kalah.ComputeOutcomeJob | src/kalah.py:129-164 | the new state and result follow `JobOutcome`, with `None` for an ongoing game |
| KalahState.Kalah.ComputeOutcomeJobPython | src/kalah.py:145-163 | the pure-Python branch: each leftover row goes to its own store (`FullOutcome`) |
| KalahState.Kalah.ComputeOutcomeJobNumbaJit | src/kalah.py:166-188 | the new board and stores and the result are `JobOutcome` of the old position |
| KalahState.Kalah.Compare | src/kalah.py:173-178 | -1, 1, 0 exactly when store 0 is ahead, behind or level |
| KalahState.Kalah.ActionIndexToName | src/kalah.py:243-255 | the decimal numeral of the index, with a leading `-` for negatives; one digit for 0..9 |
| KalahState.Kalah.ActionNameToIndex | src/kalah.py:228-240 | defined exactly on an optional sign followed by digits; a plain numeral reads as its value |
| KalahState.Kalah.GetBoardShape | src/kalah.py:258-267 | the reported shape holds 2 * 6 cells |
| KalahState.Kalah.BoardShape | src/kalah.py:28 | the built shape holds 2 * 6 cells in 2 rows |
| KalahState.Kalah.GetExtraInfoMemory | src/kalah.py:270-280 | room for the pits of both rows plus the two stores |
| KalahState.Kalah.GetMaxActions | src/kalah.py:283-291 | one action per pit of a row |
| KalahState.StartPositionTotal | src/kalah.py:25-30 | a root position holds 48 stones, none negative, both stores empty |
| KalahState.NumeralValue | src/kalah.py:243-255 | reading a numeral back gives the number |
| KalahState.ActionNameRoundTrip | src/kalah.py:228-255 | action_name_to_index(action_index_to_name(i)) == i for every integer i |
| KalahState.BoardShapeTransposed | src/kalah.py:258-267 | get_board_shape is the transpose of the built shape, not the shape |
| KalahState.ValidShape | src/kalah.py:283-291 | every valid state has the built shape, and every legal action is below get_max_actions |
| KalahState.SowJob | src/kalah.py:88-124 | the while loop leaves exactly the `Job` sowing of the emptied pit's stones |
| KalahState.SowJobOnce | src/kalah.py:89-124 | one loop iteration keeps the cursor well formed, decreases the measure and preserves the remaining `Sow` |
| KalahState.WrapJob | src/kalah.py:90-108 | running off an end feeds the mover's store only at the mover's own end, and wraps the cursor |
| KalahState.DepositJob | src/kalah.py:112-124 | the last stone into an empty own pit moves the mirror into the store and leaves the pit at 1; otherwise pit += 1 |
| KalahState.JobMoveConserves | src/kalah.py:85-127 | a move keeps board total plus both stores |
| KalahState.JobMoveStores | src/kalah.py:96-117 | only `magazyn[player_row]` changes, and it never decreases |
| KalahState.JobMoveNonNegative | src/kalah.py:112-124 | no pit ends negative |
| KalahState.JobMoveCapture | src/kalah.py:112-119 | last stone into an empty own pit: store gains exactly the mirror's count (possibly 0), the mirror ends 0 and the pit 1 |
| KalahState.JobMatchesDevice | src/kalah.py:112-119 | with no bonus pending, the two rule sets give the same position except on a capture opposite a non-empty pit, where they differ by exactly one stone moved from the pit to the store |
| KalahState.CapturesCompared | src/kalah.py:112-119 | opposite a non-empty pit the Device capture is the Job capture with the landing stone moved to the store; opposite an empty pit the two coincide |
| KalahState.JobOutcomeConserves | src/kalah.py:166-188 | scoring keeps the total |
| KalahState.JobOutcomeNonNegative | src/kalah.py:166-188 | scoring leaves no negative count |
| KalahState.FullOutcomeNonNegative | src/kalah.py:145-163 | the pure-Python scoring leaves no negative count |
| KalahState.JobOutcomeCases | src/kalah.py:166-188 | -2 exactly when both rows hold stones, and then nothing changes; otherwise the store comparison |
| KalahState.OngoingJobHasMove | src/kalah.py:129-188 | a game compute_outcome_job leaves going on, with no negative count, leaves the mover a pit that take_action_job accepts |
| KalahState.JobOutcomeBanksOpposite | src/kalah.py:170-181 | a decided game adds a row's leftover stones to the other player's store |
| KalahState.JobOutcomeIdempotent | src/kalah.py:166-188 | a second call after a decision gives the same result and leaves the stores |
| KalahState.OppositeStoreSweep | src/kalah.py:170-172 | counterexample: one stone left in row 0 wins for row 1 under the numba branch and for row 0 under the pure-Python branch |
| KalahState.FullOutcomeBanksOwnRows | src/kalah.py:145-163 | the pure-Python scoring adds each leftover row to its own player's store |

## Left out

- Numba `@jit`/`@cuda.jit` compilation, CUDA kernels, thread batching and the xoroshiro random generator are not modelled. The model runs each device function sequentially on one set of buffers.
- The `int8` storage width is not modelled. Counts are unbounded integers; with 48 stones in play no int8 count overflows.
- `take_random_action_playout` depends on random choice and on the base class's `take_action`, which is not part of this model.
- `Kalah.__str__` and the `class_repr` text are not modelled: they are debug rendering only.
- `get_board` and `get_extra_info` are not modelled: they pass data to the search classes, which are not part of this model.
- The base class `State` is not part of this model. The constructors take `turn` as a parameter, and the `parent` link is not kept.
- The playout sentinel action 6 is not modelled. Passed to take_action_kallah, it reads `board[player_row, 6]`, out of bounds on a six-pit board, so the take-action methods require `action < n`.
- The scan bound of compute_outcome_kallah is modelled as `board.Length0`. The methods require a two-row board, so the bound is 2; see Findings.
- KalahState.Kalah.ActionNameToIndex: Python's `int` also accepts surrounding whitespace, digit-separating underscores and non-ASCII decimal digits (such as Arabic-Indic digits). The model accepts only an optional sign followed by ASCII digits.
- KalahState.Kalah.TakeActionJob: requires -6 <= action <= 5. An index above 5 or below -6 raises an IndexError in numpy before the guard is reached.
- GameMechanics.TakeActionKallah: requires that no count is negative. This is the state every reachable position is in.
- ConnectFour.TakeActionC4: requires that the column has room and that the index is in bounds; numba does not check bounds.
- Gomoku.TakeActionGomoku: requires that the action names a cell and that `n > 0`.
- The local `turn *= -1` writes in take_action_kallah (158, 170, 192) are modelled: `turn := -turn` in SowKallah and `turn' := -turn'` in LeaveRight and LeaveLeft. `turn` is passed by value, so these writes are never read and no contract speaks of them.

## Findings

| source | as written | input that shows it | evidently intended | confidence | as-written member | corrected member |
|---|---|---|---|---|---|---|
| src/mctsnc_game_mechanics.py:232-261 | the outcome loops run over `range(len(board[:,1]))`, the number of rows (2), so only the first two pits of each row are summed and cleared | rows `[[1,1,1,1,1,1],[0,0,4,0,0,0]]`, stores 0: row 1 still holds 4 stones, but the game is scored as over with -1 | scan all `board.shape[1]` pits: the game ends exactly when a whole row is empty | not executed | GameMechanics.TwoColumnScanEndsEarly | GameMechanics.FullOutcomeDecided |
| src/kalah.py:267 | `get_board_shape` returns `(POLE, 2)` = (6, 2) | the board built by the constructors at src/kalah.py:28 is 2×6 | `(2, POLE)` | not executed | KalahState.BoardShapeTransposed | KalahState.ValidShape |
| src/kalah.py:170-181 | the numba branch adds the leftover row 0 to `magazyn[1]` and row 1 to `magazyn[0]`, the reverse of the pure-Python branch | rows `[[1,0,0,0,0,0],[0,0,0,0,0,0]]`, stores 0: result 1 from the numba branch, -1 from the Python branch | each leftover row goes to its own player's store, as in the Python branch | not executed | KalahState.OppositeStoreSweep | KalahState.FullOutcomeBanksOwnRows |
