# Dyson pool bookkeeping, modelled in Dafny

DysonV2 is a liquidity-bond protocol built on a constant-product pool of two
tokens (token0 = ETH, token1 = USDC). A depositor locks tokens and receives a
*note* that can be redeemed for part of the pool. The note's size comes from
the growth the deposit gives the pool's constant product `k = sqrt(x*y)`. The
backtests run two versions of the pool engine and one lock-schedule helper.
This project models all three:

- **`Pool`** (`pool.dfy`), the main engine. A deposit is split into two note
  amounts by cross-multiplying against the reserves. The notes are scaled by
  a premium that depends on how much of the due day's usage scale `w` is
  already taken. The reserves grow and are rebalanced to a 50/50 value split.
  `withdraw_due` then pays out, in insertion order, every note whose due day
  has come, at a redemption ratio clamped to [0, 1].
- **`SimplePool`** (`simple_pool.dfy`), the simple engine. It has the same
  forward deposit, without the premium. It adds:
  - a withdrawal of one note by id;
  - a *reverse deposit*, which swaps at once at a strike and keeps a put leg
    and a call leg;
  - `revert_exercise`, which trades one of those legs back.
- **`PoolMath`** (`pool_math.dfy`), the formulas both engines share: the
  rebalance, `k`, the note split and the redemption ratio.
- **`RealMath`** (`real_math.dfy`), the square root and logarithm the
  engines call. They are passed in as a `Lib` value, and `Lawful` states the
  square-root law the proofs rely on.
- **`TimeUtils`** (`time_utils.dfy`), the lock schedule (due day and
  remaining seconds) and the mock clock `TimeManager`.

How the model is built:

- **Numbers.** Floats are modelled as `real` and Python's integers as `int`.
- **Exceptions.** An exception becomes a `Failure` code in a `Result`.
- **State.** Each engine is a `class` whose fields the methods update in
  place. Each state-changing method is proved equal to a pure step function
  (`DepositStep`, `WithdrawStep`, `ReverseStep`, `RevertStep`, ...) that
  returns the new state and the result. The step function also returns the
  state an exception leaves behind, where the code has already changed
  something before raising. The lemmas about the step functions carry the
  properties: value conservation, balance after the rebalance, exactly which
  notes are added or removed, error conditions, and preserved consistency.

Choices the code makes that a reader might not expect, and that the model
keeps:

- **Discount at an empty usage interval.** When the old and new usage are
  equal, the divisor `(b - a or 1)` becomes 1 and the discount is 0. The
  limit value `1/(1+a)` is not used.
- **Premium.** The premium uses `lock_days / 365`, not the lock duration in
  seconds.
- **Usage.** Usage is accumulated per due day in `q_by_due` and never
  reset. `w` is fixed when the pool is created.
- **Rebalance after a deposit.** Both engines rebalance the reserves right
  after a deposit grows them.
- **Partial changes before an exception.** An operation that raises halfway
  keeps the changes made before the raise. Examples:
  - the usage entry the `defaultdict` read inserts;
  - the id drawn from the counter;
  - reserves already moved before `math.sqrt` fails.

## Model

| member | source | states |
|---|---|---|
| RealMath.ClampedSqrt | backtest_module/dyson_pool.py:40-42 | `_sqrt` is never negative and is 0 for a non-positive argument |
| RealMath.ClampedSqrtSquares | backtest_module/dyson_pool.py:40-42 | on a non-negative argument `_sqrt` is its square root |
| RealMath.Clamp01 | backtest_module/dyson_pool.py:108-118 | `max(0, min(v, 1))` lies in [0, 1], is `v` inside the interval and the nearer bound outside it |
| PoolMath.Rebalance | backtest_module/dyson_pool.py:44-56 | the rebalance (the same as `rebalance` at backtest_module_simple/dyson_pool.py:41-52) raises ZeroDivisionError exactly when the price is 0 and token1 is held |
| PoolMath.RebalanceSplitsValue | backtest_module/dyson_pool.py:44-56 | a rebalance keeps the value `x*price + y` and leaves each side holding half of it, `x'*price == y'`, in all three branches |
| PoolMath.RebalanceIdempotent | backtest_module/dyson_pool.py:53-56 | reserves already split 50/50 are returned unchanged |
| PoolMath.KOf | backtest_module/dyson_pool.py:63-64 | `k = _sqrt(x*y)` is never negative and is 0 when the product is not positive |
| PoolMath.KOfSquares | backtest_module/dyson_pool.py:63-64 | for a non-negative product, `k*k == x*y` |
| PoolMath.CrossRatio | backtest_module/dyson_pool.py:70-74 | the cross ratio `num / reserve`, 0 for an empty reserve (`if self.y else 0`); used by the split |
| PoolMath.ForwardNotes | backtest_module/dyson_pool.py:69-76 | the note split of `Q_sq` (the same as `_calculate_forward_notes` at backtest_module_simple/dyson_pool.py:54-66); what it promises is proved by `ForwardNotesSplit`, `ForwardNotesDefined` and `ForwardNotesNonNegative` |
| PoolMath.ForwardNotesSplit | backtest_module/dyson_pool.py:69-76 | the two notes multiply to `Q_sq`; the dominant side's note is its input plus the other input at the reserves' ratio (ratio 0 for an empty reserve); the split raises exactly when that note is 0 (the same split as backtest_module_simple/dyson_pool.py:54-66) |
| PoolMath.ForwardNotesDefined | backtest_module/dyson_pool.py:69-76 | with non-negative reserves and inputs, one of them positive, the split raises exactly when only token0 comes into a pool without token1 |
| PoolMath.ForwardNotesNonNegative | backtest_module/dyson_pool.py:69-76 | with non-negative reserves, inputs and `Q_sq`, both notes are non-negative |
| PoolMath.WithdrawRatio | backtest_module/dyson_pool.py:103-118 | the redemption ratio lies in [0, 1] and is 0 when either note amount is 0 |
| PoolMath.WithdrawRatioFormula | backtest_module/dyson_pool.py:103-118 | the ratio is `clamp01(1/2 + x/(2 t0) - y/(2 t1))` |
| PoolMath.PayoutAmounts | backtest_module/dyson_pool.py:119-120 | the amounts paid are `ratio*t0` and `(1-ratio)*t1`, neither above a non-negative face amount; a note with a zero amount pays `(0, t1)` |
| PoolMath.PayoutRedeemsWholeNote | backtest_module/dyson_pool.py:119-120 | the shares paid of the two note amounts add up to the whole note |
| Pool.KGrowth | backtest_module/dyson_pool.py:63-66 | `k` before and after the deposit and `Q` are never negative |
| Pool.KGrowthSquares | backtest_module/dyson_pool.py:63-66 | `k` before and after is the root of the reserves' product, and `Q*Q == Q_sq` |
| Pool.KGrowthIsTwiceChange | backtest_module/dyson_pool.py:65-66 | `Q = 2 |k_after - k_before|`; a non-negative deposit never shrinks `k`, so `Q = 2 (k_after - k_before)` |
| Pool.ProductGrows | backtest_module/dyson_pool.py:63-64 | adding non-negative amounts to non-negative reserves does not shrink `k` |
| Pool.ProportionalDepositNotes | backtest_module/dyson_pool.py:63-76 | a deposit in the pool's own proportions is issued notes of exactly twice its inputs, before the premium |
| Pool.Discount | backtest_module/dyson_pool.py:81 | the discount with the `(b - a or 1)` divisor, as written; `DiscountSymmetric` and `PremiumRatio` state its properties |
| Pool.DiscountSymmetric | backtest_module/dyson_pool.py:81 | the discount does not depend on the direction of the usage interval |
| Pool.PremiumRatio | backtest_module/dyson_pool.py:80-82 | the premium ratio raises on a logarithm of a non-positive number or a square root of a negative lock, and on nothing else; it is 0 for an empty usage interval, a zero lock or a zero basis |
| Pool.ZeroLockIsFree | backtest_module/dyson_pool.py:82 | a zero lock gives `sqrt(lock_days / 365) == 0`, so no premium |
| Pool.PremiumGrowsWithRootOfLock | backtest_module/dyson_pool.py:82 | a lock four times as long costs exactly twice the premium ratio |
| Pool.QAt | backtest_module/dyson_pool.py:79 | the `defaultdict(float)` read: the stored usage, or 0.0 for a day never seen |
| Pool.DuePremium | backtest_module/dyson_pool.py:79-82 | a zero usage scale raises ZeroDivisionError; with a positive scale and non-negative usage only a negative lock raises; a deposit with no growth pays no premium |
| Pool.DueNotes | backtest_module/dyson_pool.py:100-102 | the due notes among the ids, in order; `DueNotesMembers` says which |
| Pool.KeptIds | backtest_module/dyson_pool.py:100-128 | the ids whose notes are not yet due, in order; `KeptIdsMembers` and `KeptIdsIncreasing` say which and in what order |
| Pool.NotesLeft | backtest_module/dyson_pool.py:100-128 | the table after deleting the due notes; `NotesLeftMembers` and `NotesLeftAreUndue` say what is left |
| Pool.DueNotesMembers | backtest_module/dyson_pool.py:100-102 | the notes paid are exactly the stored notes due by `today` |
| Pool.KeptIdsMembers | backtest_module/dyson_pool.py:100-128 | the ids kept are exactly those whose notes are not yet due |
| Pool.NotesLeftMembers | backtest_module/dyson_pool.py:100-128 | a note stays exactly when it is not due (or not visited), and stays unchanged |
| Pool.NotesLeftAreUndue | backtest_module/dyson_pool.py:100-128 | after the loop the table is exactly the notes with `due > today` |
| Pool.KeptIdsIncreasing | backtest_module/dyson_pool.py:100-128 | the ids left stay in insertion order |
| Pool.PayNote | backtest_module/dyson_pool.py:103-127 | paying one note appends one payout for that note, of the amounts `PayoutAmounts` gives |
| Pool.PayNoteConservesValue | backtest_module/dyson_pool.py:119-125 | paying a note takes out of the pool exactly the value paid, and leaves the reserves balanced |
| Pool.SettleAll | backtest_module/dyson_pool.py:100-128 | the reserves, `k` and payouts after paying the due notes in order; `SettleAllPaysEachNote` and `SettleAllConservesValue` state its properties |
| Pool.SettleAllPaysEachNote | backtest_module/dyson_pool.py:100-128 | each due note is paid once, in order, never more than its non-negative face amounts |
| Pool.SettleAllConservesValue | backtest_module/dyson_pool.py:100-128 | what stays in the pool plus all that was paid is worth what the pool held |
| Pool.Redeem | backtest_module/dyson_pool.py:103-127 | the loop body computes the payout, `k` of the reduced reserves and the rebalance, as `PayNote` says |
| Pool.SettleDueNotes | backtest_module/dyson_pool.py:100-129 | the loop over the notes in insertion order yields the reserves and payouts of `SettleAll` over the due notes, the table without them and the ids kept |
| Pool.WithPremium | backtest_module/dyson_pool.py:83-84 | both note amounts scaled by the same `1 + prem_ratio` |
| Pool.DepositStep | backtest_module/dyson_pool.py:59-95 | `deposit` as the new pool state and result, including the state each exception leaves; the lemmas below state its properties |
| Pool.ChargeStep | backtest_module/dyson_pool.py:78-85 | the usage read (which inserts the default), the premium and the usage update |
| Pool.UpdatePool | backtest_module/dyson_pool.py:87-95 | the reserve growth, `k_last`, the rebalance that can raise, then the id and the note |
| Pool.DepositIssuesNote | backtest_module/dyson_pool.py:79-85 | a successful deposit issues the split of `Q_sq` scaled on both sides by `1 + prem_ratio`, with the ratio from the due day's usage before the deposit; that usage entry grows by `Q >= 0`; with `Q == 0` the notes are not scaled |
| Pool.DepositStepEffects | backtest_module/dyson_pool.py:59-95 | no positive input changes nothing; an exception adds no note; only the due day's usage entry changes; success adds one note under the next id, at the end of the order, with the due day, day, inputs and price |
| Pool.DepositBalances | backtest_module/dyson_pool.py:87-91 | a successful deposit keeps the value of the grown reserves, leaves them balanced, and records `k` of the grown reserves |
| Pool.DepositKeepsConsistent | backtest_module/dyson_pool.py:59-95 | every deposit, successful or not, keeps usage non-negative, the note order increasing and the ids below the counter |
| Pool.DepositNeverLogDomain | backtest_module/dyson_pool.py:79-81 | with a non-negative usage scale the logarithms never see a non-positive number |
| Pool.DepositOutcome | backtest_module/dyson_pool.py:59-95 | for non-negative reserves and inputs the outcome is decided by three conditions: no token1 at all, a negative lock, or a zero price with token1 held |
| Pool.DysonPool.constructor | backtest_module/dyson_pool.py:29-37 | the pool starts with the given reserves, `k` their root, `w = k * W_FACTOR`, no usage and no notes |
| Pool.DysonPool.Deposit | backtest_module/dyson_pool.py:59-95 | `deposit` changes the pool and returns or raises as `DepositStep` says, and keeps the pool valid |
| Pool.DysonPool.Charge | backtest_module/dyson_pool.py:78-85 | the usage and premium part of `deposit`, as `ChargeStep` says |
| Pool.DysonPool.UpdateReserves | backtest_module/dyson_pool.py:87-95 | the reserve update, rebalance and note storage, as `UpdatePool` says |
| Pool.DysonPool.WithdrawDue | backtest_module/dyson_pool.py:97-129 | the reserves, `k` and payouts are those of `SettleAll` over the due notes in order; the table keeps exactly the notes not due; usage and the counter are unchanged |
| Pool.DysonPool.Snapshot | backtest_module/dyson_pool.py:131-138 | the snapshot reports the reserves and `k`, the root of their product (0 for a negative product) |
| SimplePool.ReverseDepositTerms | backtest_module_simple/dyson_pool.py:68-78 | the reverse terms raise ZeroDivisionError exactly when `x + m` or `y + n` is 0 |
| SimplePool.ReverseDepositAtStrike | backtest_module_simple/dyson_pool.py:72-77 | `strike*(x+m) == y+n`; the deltas are value-neutral at the strike; the put leg is `(m*strike, m)` and the call leg pays `n` against `n/strike` |
| SimplePool.RevertLegsUndoOneSide | backtest_module_simple/dyson_pool.py:73-77 | a leg exercised right after the deposit undoes one side of it and stays value-neutral at the strike |
| SimplePool.CheckedK | backtest_module_simple/dyson_pool.py:84 | `math.sqrt(x*y)` raises ValueError exactly on a negative product and is otherwise `k` of the reserves |
| SimplePool.Growth | backtest_module_simple/dyson_pool.py:84-87 | `k_after` and `Q_sq` of a deposit, or the ValueError of either square root; `GrowthOfRoots` states what they are |
| SimplePool.GrowthOfRoots | backtest_module_simple/dyson_pool.py:84-87 | the growth raises exactly when a product is negative; otherwise `k_after` is the root of the grown product and `Q_sq = 4 (k_after - k_before)^2` |
| SimplePool.DepositStep | backtest_module_simple/dyson_pool.py:80-94 | `deposit` as the new pool state and result, including the state each exception leaves; the lemmas below state its properties |
| SimplePool.StoreStep | backtest_module_simple/dyson_pool.py:89-93 | the note stored, the reserves grown, `k_last` set, then the rebalance that can raise |
| SimplePool.DepositRecordsNote | backtest_module_simple/dyson_pool.py:80-94 | no positive input changes nothing; otherwise the id is used up; on success the note under that id, previously unused, holds the inputs and the price, and no other note changes |
| SimplePool.DepositRecordsK | backtest_module_simple/dyson_pool.py:85-92 | a successful deposit records `k` of the grown reserves |
| SimplePool.DepositSplitsGrowth | backtest_module_simple/dyson_pool.py:84-89 | the stored note amounts are the split of `Q_sq` at the reserves before the deposit |
| SimplePool.DepositBalances | backtest_module_simple/dyson_pool.py:90-93 | a successful deposit keeps the value of the grown reserves and leaves them balanced |
| SimplePool.DepositOutcome | backtest_module_simple/dyson_pool.py:80-93 | for non-negative reserves and inputs and a non-zero price, a deposit with a positive input fails exactly when only token0 comes into a pool without token1 |
| SimplePool.DepositKeepsConsistent | backtest_module_simple/dyson_pool.py:80-94 | every deposit keeps the pool consistent |
| SimplePool.ResettleStep | backtest_module_simple/dyson_pool.py:115-116 | `k_last = math.sqrt(x*y)` and the rebalance that follow a withdrawal and a reverse deposit (also lines 131-132) |
| SimplePool.ResettleRecordsK | backtest_module_simple/dyson_pool.py:115-116 | recording `k` and rebalancing touches no note; on success `k` is that of the reserves before the rebalance |
| SimplePool.ResettleBalances | backtest_module_simple/dyson_pool.py:115-116 | on success the rebalance keeps the value and leaves the reserves balanced |
| SimplePool.WithdrawStep | backtest_module_simple/dyson_pool.py:96-118 | `withdraw_due` as the new pool state and result |
| SimplePool.WithdrawFindsNote | backtest_module_simple/dyson_pool.py:96-118 | the withdrawal raises KeyError, changing nothing, exactly for an unknown id; on success it returns the stored note and deletes only it |
| SimplePool.WithdrawPaysNote | backtest_module_simple/dyson_pool.py:98-112 | the payout is `ratio*note0` and `(1-ratio)*note1` with the clamped ratio, never above a non-negative note amount |
| SimplePool.WithdrawConservesValue | backtest_module_simple/dyson_pool.py:112-116 | the reserves lose exactly the value paid and end balanced |
| SimplePool.WithdrawKeepsConsistent | backtest_module_simple/dyson_pool.py:96-118 | every withdrawal keeps the pool consistent |
| SimplePool.ReverseStep | backtest_module_simple/dyson_pool.py:120-138 | `reverse_deposit` as the new pool state and result |
| SimplePool.ReverseRecordsNote | backtest_module_simple/dyson_pool.py:120-138 | the reverse deposit raises, changing nothing, exactly on a negative target; otherwise the id is used up; on success the note under that id, previously unused, holds the targets, price and terms |
| SimplePool.ReverseConservesValue | backtest_module_simple/dyson_pool.py:128-132 | the deltas keep the reserves' value at the strike; the rebalance keeps it at the price and leaves the reserves balanced |
| SimplePool.ReverseKeepsConsistent | backtest_module_simple/dyson_pool.py:120-138 | every reverse deposit keeps the pool consistent |
| SimplePool.Leg | backtest_module_simple/dyson_pool.py:149-157 | the stored leg an option type names |
| SimplePool.RevertStep | backtest_module_simple/dyson_pool.py:140-169 | `revert_exercise` as the new pool state and result |
| SimplePool.RevertMovesByLeg | backtest_module_simple/dyson_pool.py:140-169 | each of the three errors happens exactly under its condition and changes nothing; on success the reserves move by exactly the stored leg, the paying reserve does not go negative, and only that note is deleted |
| SimplePool.RevertRecordsK | backtest_module_simple/dyson_pool.py:162 | after a successful revert `k` is that of the moved reserves |
| SimplePool.RevertKeepsConsistent | backtest_module_simple/dyson_pool.py:140-169 | every revert keeps the pool consistent |
| SimplePool.DysonPool.constructor | backtest_module_simple/dyson_pool.py:29-39 | the pool starts with the given reserves, `k` their root, `w = k * w_factor`, no notes |
| SimplePool.DysonPool.Deposit | backtest_module_simple/dyson_pool.py:80-94 | `deposit` changes the pool and returns or raises as `DepositStep` says, keeping it valid |
| SimplePool.DysonPool.Store | backtest_module_simple/dyson_pool.py:89-93 | the note is stored and the reserves grown and rebalanced, as `StoreStep` says |
| SimplePool.DysonPool.Resettle | backtest_module_simple/dyson_pool.py:115-116 | `k` is recorded and the reserves rebalanced, as `ResettleStep` says |
| SimplePool.DysonPool.WithdrawDue | backtest_module_simple/dyson_pool.py:96-118 | `withdraw_due` changes the pool and returns or raises as `WithdrawStep` says, keeping it valid |
| SimplePool.DysonPool.ReverseDeposit | backtest_module_simple/dyson_pool.py:120-138 | `reverse_deposit` changes the pool and returns or raises as `ReverseStep` says, keeping it valid |
| SimplePool.DysonPool.RevertExercise | backtest_module_simple/dyson_pool.py:140-169 | `revert_exercise` changes the pool and returns or raises as `RevertStep` says, keeping it valid |
| SimplePool.DysonPool.Snapshot | backtest_module_simple/dyson_pool.py:171-178 | the snapshot reports the reserves and the last recorded `k`, which is never negative |
| TimeUtils.Trunc | backtest_module/time_utils.py:58 | `int()` truncates toward zero: the result is within one of the argument, on the side of 0 |
| TimeUtils.DueTimeAndDuration | backtest_module/time_utils.py:51-59 | `compute_due_time_and_duration` with the clock reading as a parameter; the lemmas below state its properties |
| TimeUtils.CeilDayOfWholeSecond | backtest_module/time_utils.py:57 | on a whole-second reading, `(curr + 86399) // 86400` is the least day whose midnight is not before `curr` |
| TimeUtils.DueOfWholeSecond | backtest_module/time_utils.py:57-59 | on a whole-second reading, the due day is that ceiling plus the lock days; the duration is `due*86400 - curr`, so the lock ends at a UTC midnight; the duration lies between `lockDays` days and one second short of `lockDays + 1` days |
| TimeUtils.DueAtMidnight | backtest_module/time_utils.py:57-58 | a reading at midnight of day `d` is due on day `d + lockDays`, after exactly `lockDays` days |
| TimeUtils.DueDayMonotone | backtest_module/time_utils.py:57 | the due day never decreases as the reading or the lock grows |
| TimeUtils.FractionalReadingRoundsDown | backtest_module/time_utils.py:57-58 | as written, a reading of 0.5 s is due on day 0, whose midnight is before the reading |
| TimeUtils.DueTimeAndDurationCeil | backtest_module/time_utils.py:57-58 | the schedule with the due day rounded up from the reading |
| TimeUtils.CeilScheduleBounds | backtest_module/time_utils.py:57-58 | with a ceiling, the due midnight is never before the reading, for fractional readings too, and the duration keeps its bounds |
| TimeUtils.TimeManager.Timestamp | backtest_module/time_utils.py:29-35 | the timestamp `getTimestamp` yields: the mock reading if set, else the wall clock |
| TimeUtils.TimeManager.constructor | backtest_module/time_utils.py:18-23 | a fresh manager has no mock reading and follows the wall clock |
| TimeUtils.TimeManager.SetCurrentTime | backtest_module/time_utils.py:26-27 | after `setCurrentTime(ts)` every timestamp is `ts`, whatever the wall clock reads |
| TimeUtils.TimeManager.GetTimestamp | backtest_module/time_utils.py:29-35 | `getTimestamp` returns the mock reading when one is set, else the wall clock |
| TimeUtils.TimeManager.ResetMock | backtest_module/time_utils.py:37-38 | after `resetMock()` the wall clock is followed again |

## Left out

- Floating-point rounding: every float is a `real`, so the model has no
  rounding error, overflow, infinities or NaN.
- `math.sqrt`, `math.log2` and `math.log(2)` are not computed. They are
  given by the `Lib` value. Only the square-root law is assumed of them.
- Pool.DysonPool.WithdrawDue: requires a non-zero price. With a zero price
  and token1 held, the code raises ZeroDivisionError in the middle of the
  loop, after paying some notes. That partial state is not modelled.
- Pool.DysonPool.constructor: requires a non-negative product of the
  initial reserves, because a constructor cannot return the ValueError that
  `math.sqrt` raises otherwise.
- SimplePool.DysonPool.constructor: requires a non-negative product of the
  initial reserves, for the same reason.
- SimplePool.DysonPool: `w` and `basis` are stored but no operation of the
  simple engine uses them.
- TimeUtils.TimeManager.GetTimestamp: the wall clock (`datetime.now`) is the
  parameter `now`. The code turns a mock reading into a `datetime` and back;
  that round trip can round to the microsecond, and the model returns the
  reading unchanged.
- TimeUtils.TimeManager.SetCurrentTime: takes a number of seconds. A
  `datetime` argument, which the code converts with `.timestamp()`, is not
  modelled.
- `getCurrentTime`'s `datetime` value and time zone are not modelled; only
  the timestamp it yields is.
- The singleton `__new__` of `TimeManager` is not modelled: the model
  creates one manager with the constructor.
- `random_time_in_day` is not modelled, because it is random.
- TimeUtils.DueOfWholeSecond: the ceiling, midnight and duration bounds are
  proved only for whole-second readings. For fractional readings the code
  rounds down (see Findings).
- `itertools.count` is modelled as the field `nextId`.
- A Python `dict`'s insertion order is modelled as `noteOrder` in the main
  engine. The simple engine deletes by id and never iterates its tables, so
  it keeps only maps.
- The `isinstance` check in `revert_exercise` cannot fail: the reverse table
  holds only reverse notes.
- Type errors on non-numeric arguments are not modelled: arguments are typed.
- The backtest driver, analysis, comparison and price loader are not part
  of this model. They are simulation, presentation and I/O around the
  engines.

## Findings

| source | as written | input that shows it | evidently intended | confidence | as-written member | corrected member |
|---|---|---|---|---|---|---|
| backtest_module/time_utils.py:57 | `(curr + 86_399) // 86_400` on a float timestamp rounds a fractional reading in the first second after midnight down to that midnight | `curr = 0.5`, `lock_days = 0` gives due day 0 and duration 0, with the due moment before the reading; with `lock_days = 1` the duration is 86 399 s, one second short of a day | the ceiling of `curr / 86400`, so that the lock starts at the next midnight at or after the reading | not executed; holds for any reading less than one second after a midnight, other than the midnight itself | TimeUtils.FractionalReadingRoundsDown | TimeUtils.CeilScheduleBounds |
