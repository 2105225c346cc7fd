# Partitioned matrix sum and counter agents, modelled in Dafny

This project models two small pieces of sequential logic from an object-oriented
programming lab, and proves properties about them.

1. **`MultiThreadedSumMatrix`** (`matrix_sum.dfy`, module `MatrixSum`). It sums
   a `rows x cols` matrix by treating it as the flat row-major range
   `[0, rows * cols)`. It picks the chunk size `n % nthread + n / nthread` and
   creates one `Worker` per chunk start `0, size, 2 * size, ...`. Each worker sums
   its clipped chunk, mapping flat positions back to cells with `computeRow`
   (`pos / cols`) and `computeColumn` (`pos % cols`). The results are added up
   after the joins. Workers only read the shared copy and write their own `res`,
   so the model runs them one after another in list order. This is an exact
   sequential stand-in for `start`/`join`. Element values are exact integers.
   The proofs cover several facts:
   - the index arithmetic is a bijection between flat positions and cells;
   - the chunks cover `[0, n)` exactly once;
   - there are at most `nthread` of them;
   - every access is in bounds;
   - the result is the row-by-row total of the matrix.
2. **The counter agent** (`counter_agent.dfy`, module `CounterAgent`). This is
   the `Agent` of `ConcurrentGUI` and `AnotherConcurrentGUI`; the two are the
   same code and are modelled once. The agent has the fields `counter`, `increase`
   and `stop`. One pass of its run loop publishes the counter to the window and
   then steps it by +1 or -1. The model also has a pure state machine with
   commands (`Next`, `Trace`), with lemmas on the published sequence.
3. **The second window** (`concurrent_gui.dfy`, module `ConcurrentGui`): the
   stop, up and down buttons.
4. **The third window and its watchdog** (`another_concurrent_gui.dfy`, module
   `AnotherConcurrentGui`). `TimerAgent` polls until its `stopped` latch is set
   or `DELAY = 10_000` ms have passed. Only if the latch is still clear does it
   stop the agent and disable the buttons. A session is an interleaving of
   atomic actions (`Step`, `RunSession`). The lemmas show several things:
   - the buttons are disabled at most once;
   - nothing is shown after that;
   - a set latch takes precedence over an expired deadline.

   The window's methods are tied to `Step` by their postconditions.

Notes on how the code behaves (the model follows the code):
- `increase()` and `decrease()` still set the direction after `stopCounting()`.
  This has no visible effect, because no loop pass runs any more.
- The deadline does not set the watchdog's `stopped` latch. Only `setStopped`,
  called by the stop button, does.
- The stop button disables the buttons directly on the event thread. The
  watchdog disables them through `invokeAndWait`. Both are recorded as the same
  window event, `ControlsDisabled`.
- Disabled Swing buttons deliver no action events. Once the buttons are
  disabled, presses of up, down and stop are modelled as doing nothing.
- `sum` fails like the source:
  - with no row 0, it raises `IndexOutOfBounds` (line 26);
  - with zero threads, it raises `DivisionByZero` (line 27);
  - when a row is shorter than row 0, the copy raises `IndexOutOfBounds` (line 33);
  - with a negative thread count, the copy completes and then the worker list
    refuses its capacity with `IllegalArgumentException` (line 39).
  Longer rows are cut to the length of row 0 by the copy.

## Model

| member | source | states |
|---|---|---|
| `MatrixSum.ComputeRow` | 114-workers/src/main/java/it/unibo/oop/workers02/MultiThreadedSumMatrix.java:117-119 | the row of a position is the one whose span `[row * columns, row * columns + columns)` contains it |
| `MatrixSum.ComputeColumn` | 114-workers/src/main/java/it/unibo/oop/workers02/MultiThreadedSumMatrix.java:121-123 | the column is below `columns`, and row times `columns` plus column gives the position back |
| `MatrixSum.CellOfPosition` | 114-workers/src/main/java/it/unibo/oop/workers02/MultiThreadedSumMatrix.java:117-123 | for `cols > 0` and `pos < rows * cols`: `computeRow(pos) * cols + computeColumn(pos) == pos`, with the row below `rows` and the column below `cols` |
| `MatrixSum.PositionOfCell` | 114-workers/src/main/java/it/unibo/oop/workers02/MultiThreadedSumMatrix.java:117-123 | the other direction: for `col < cols`, position `row * cols + col` maps back to exactly `row` and `col` |
| `MatrixSum.ChunkSize` | 114-workers/src/main/java/it/unibo/oop/workers02/MultiThreadedSumMatrix.java:27 | the chunk size `n % nthread + n / nthread` is positive exactly when there is something to sum, so the worker loop advances |
| `MatrixSum.ChunkStarts` | 114-workers/src/main/java/it/unibo/oop/workers02/MultiThreadedSumMatrix.java:40-42 | chunk `k` exists (one worker is created for it) exactly when its start `k * size` is below `n` |
| `MatrixSum.WorkerCountBound` | 114-workers/src/main/java/it/unibo/oop/workers02/MultiThreadedSumMatrix.java:39-42 | at most `nthread` workers are created, the documented number of threads performing the sum |
| `MatrixSum.ChunkOfPosition` | 114-workers/src/main/java/it/unibo/oop/workers02/MultiThreadedSumMatrix.java:103 | position `pos` lies in the clipped range of worker `k` if and only if `pos < n` and `k == pos / size`, and that worker exists: the ranges are pairwise disjoint and cover `[0, n)` |
| `MatrixSum.RangeSumIsTotal` | 114-workers/src/main/java/it/unibo/oop/workers02/MultiThreadedSumMatrix.java:103-104 | the cells of the whole flat range, read through `computeRow`/`computeColumn`, add up to the row-by-row total of the matrix |
| `MatrixSum.ChunkSumsAdd` | 114-workers/src/main/java/it/unibo/oop/workers02/MultiThreadedSumMatrix.java:55-58 | adding worker `i`'s result to the sum of the workers before it gives the sum of the first `(i + 1) * size` positions (clipped at `n`) |
| `MatrixSum.Truncated` | 114-workers/src/main/java/it/unibo/oop/workers02/MultiThreadedSumMatrix.java:28-35 | the copy has as many rows as the input, each exactly `cols` long, and equals the input cell by cell; for a rectangular input it is the input |
| `MatrixSum.CopyMatrix` | 114-workers/src/main/java/it/unibo/oop/workers02/MultiThreadedSumMatrix.java:28-35 | the list-of-lists copy fails with `IndexOutOfBounds` exactly when some row is shorter than `cols`, and otherwise returns the first `cols` cells of every row |
| `MatrixSum.Worker.constructor` | 114-workers/src/main/java/it/unibo/oop/workers02/MultiThreadedSumMatrix.java:85-90 | a worker holds the shared matrix, its start and its length, with `res` zero |
| `MatrixSum.Worker.Run` | 114-workers/src/main/java/it/unibo/oop/workers02/MultiThreadedSumMatrix.java:103-105 | adds to `res` the cells at positions `startpos` up to `min(startpos + nelem, rows * cols)`; every cell access is in bounds |
| `MatrixSum.BuildWorkers` | 114-workers/src/main/java/it/unibo/oop/workers02/MultiThreadedSumMatrix.java:39-42 | creates exactly `ChunkCount(n, size)` distinct fresh workers, worker `k` starting at `k * size` with `size` elements |
| `MatrixSum.RunAll` | 114-workers/src/main/java/it/unibo/oop/workers02/MultiThreadedSumMatrix.java:46-48 | after all workers have run, worker `k` holds the sum of its clipped chunk |
| `MatrixSum.JoinAll` | 114-workers/src/main/java/it/unibo/oop/workers02/MultiThreadedSumMatrix.java:54-62 | adding up the workers' results in list order gives the sum of the whole flat range (zero when there are no workers) |
| `MatrixSum.MultiThreadedSumMatrix.constructor` | 114-workers/src/main/java/it/unibo/oop/workers02/MultiThreadedSumMatrix.java:19-21 | keeps the number of threads, whatever its sign |
| `MatrixSum.MultiThreadedSumMatrix.Sum` | 114-workers/src/main/java/it/unibo/oop/workers02/MultiThreadedSumMatrix.java:24-67 | no rows gives `IndexOutOfBounds`; zero threads gives `DivisionByZero`; a row shorter than row 0 gives `IndexOutOfBounds`; then a negative thread count gives `IllegalArgument`; otherwise the result is the total of all cells of the copied matrix, which for a rectangular input is the total of the input |
| `CounterAgent.Frame.constructor` | 113-reactive-guis/src/main/java/it/unibo/oop/reactivegui03/AnotherConcurrentGUI.java:26-29 | a new window has its buttons enabled and has shown nothing |
| `CounterAgent.Frame.Publish` | 113-reactive-guis/src/main/java/it/unibo/oop/reactivegui03/AnotherConcurrentGUI.java:83-84 | publishing appends exactly one shown value to the window's event log and leaves the buttons alone |
| `CounterAgent.Frame.DisableControls` | 113-reactive-guis/src/main/java/it/unibo/oop/reactivegui03/AnotherConcurrentGUI.java:146 | disables the three buttons and records it as one event |
| `CounterAgent.Next` | 113-reactive-guis/src/main/java/it/unibo/oop/reactivegui02/ConcurrentGUI.java:99-115 | `stop` is a one-way latch set only by `stopCounting`; only a running loop pass changes the counter; only `increase`/`decrease` change the direction |
| `CounterAgent.TraceStartsAtCounter` | 113-reactive-guis/src/main/java/it/unibo/oop/reactivegui02/ConcurrentGUI.java:78-84 | a loop pass publishes the counter before stepping it: the first value published from a state is that state's counter |
| `CounterAgent.UnitSteps` | 113-reactive-guis/src/main/java/it/unibo/oop/reactivegui03/AnotherConcurrentGUI.java:83-89 | whatever commands come in between, consecutive published values differ by exactly one |
| `CounterAgent.SteadyCount` | 113-reactive-guis/src/main/java/it/unibo/oop/reactivegui02/ConcurrentGUI.java:80-84 | while the direction is not turned around, the k-th published value is the starting counter plus k steps of +1 (or -1), and the counter ends one step past the last published value |
| `CounterAgent.DecreaseCountsDown` | 113-reactive-guis/src/main/java/it/unibo/oop/reactivegui02/ConcurrentGUI.java:113-115 | after `decrease()`, until `increase()`, every published value is one below the one before |
| `CounterAgent.EveryTickPublishes` | 113-reactive-guis/src/main/java/it/unibo/oop/reactivegui02/ConcurrentGUI.java:76-79 | a running agent publishes once per loop pass |
| `CounterAgent.CountsUpFromZero` | 113-reactive-guis/src/main/java/it/unibo/oop/reactivegui02/ConcurrentGUI.java:70-82 | a new agent left alone for `n` passes publishes `0, 1, ..., n - 1` and then holds `n` |
| `CounterAgent.ThreeTicksFromStart` | 113-reactive-guis/src/main/java/it/unibo/oop/reactivegui03/AnotherConcurrentGUI.java:76-86 | three passes of a new agent publish `0, 1, 2` |
| `CounterAgent.StopIsFinal` | 113-reactive-guis/src/main/java/it/unibo/oop/reactivegui03/AnotherConcurrentGUI.java:81 | once `stop` is set, no further pass runs: nothing is published, the counter keeps its value and `stop` stays set |
| `CounterAgent.StopCountingEndsTrace` | 113-reactive-guis/src/main/java/it/unibo/oop/reactivegui02/ConcurrentGUI.java:99-101 | whatever follows `stopCounting()`, the published sequence is the one published before it |
| `CounterAgent.RunsCompose` | 113-reactive-guis/src/main/java/it/unibo/oop/reactivegui02/ConcurrentGUI.java:76-94 | running two command sequences one after the other is running their concatenation, state and published values alike |
| `CounterAgent.Agent.constructor` | 113-reactive-guis/src/main/java/it/unibo/oop/reactivegui03/AnotherConcurrentGUI.java:75-77 | a new agent has `counter == 0`, `increase` and not `stop` |
| `CounterAgent.Agent.Iterate` | 113-reactive-guis/src/main/java/it/unibo/oop/reactivegui03/AnotherConcurrentGUI.java:81-90 | a loop pass runs only if `stop` is clear; it then publishes the old counter and steps it by +1 if `increase`, else by -1; the buttons are untouched |
| `CounterAgent.Agent.StopCounting` | 113-reactive-guis/src/main/java/it/unibo/oop/reactivegui03/AnotherConcurrentGUI.java:104-106 | sets `stop` and nothing else; a second call changes nothing |
| `CounterAgent.Agent.Increase` | 113-reactive-guis/src/main/java/it/unibo/oop/reactivegui03/AnotherConcurrentGUI.java:111-113 | sets the direction to up; `counter` and `stop` are untouched |
| `CounterAgent.Agent.Decrease` | 113-reactive-guis/src/main/java/it/unibo/oop/reactivegui03/AnotherConcurrentGUI.java:118-120 | sets the direction to down; `counter` and `stop` are untouched |
| `ConcurrentGui.ConcurrentGuiWindow.constructor` | 113-reactive-guis/src/main/java/it/unibo/oop/reactivegui02/ConcurrentGUI.java:42-44 | a new window starts a new agent and has shown nothing |
| `ConcurrentGui.ConcurrentGuiWindow.PressStop` | 113-reactive-guis/src/main/java/it/unibo/oop/reactivegui02/ConcurrentGUI.java:45-50 | stops the agent, then disables the buttons; with the buttons disabled it does nothing |
| `ConcurrentGui.ConcurrentGuiWindow.PressUp` | 113-reactive-guis/src/main/java/it/unibo/oop/reactivegui02/ConcurrentGUI.java:51 | sets the agent's direction to up while the buttons are enabled |
| `ConcurrentGui.ConcurrentGuiWindow.PressDown` | 113-reactive-guis/src/main/java/it/unibo/oop/reactivegui02/ConcurrentGUI.java:52 | sets the agent's direction to down while the buttons are enabled |
| `AnotherConcurrentGui.TimerPollExit` | 113-reactive-guis/src/main/java/it/unibo/oop/reactivegui03/AnotherConcurrentGUI.java:136 | the watchdog leaves its loop exactly when `stopped` is set or the elapsed time is at least `DELAY` |
| `AnotherConcurrentGui.StoppedTakesPrecedence` | 113-reactive-guis/src/main/java/it/unibo/oop/reactivegui03/AnotherConcurrentGUI.java:143 | with `stopped` set, the watchdog exits quietly whatever the time, even when the deadline has passed too: the agent, buttons and window are untouched |
| `AnotherConcurrentGui.WatchdogExpiry` | 113-reactive-guis/src/main/java/it/unibo/oop/reactivegui03/AnotherConcurrentGUI.java:143-150 | when the deadline passes with `stopped` clear, the watchdog stops the agent and then disables the buttons once, and nothing is shown afterwards |
| `AnotherConcurrentGui.StopButton` | 113-reactive-guis/src/main/java/it/unibo/oop/reactivegui03/AnotherConcurrentGUI.java:49-55 | the stop button applies `stopCounting` and then `setStopped`, and disables the buttons; afterwards nothing is shown and the watchdog takes the quiet exit |
| `AnotherConcurrentGui.ConsistentStep` | 113-reactive-guis/src/main/java/it/unibo/oop/reactivegui03/AnotherConcurrentGUI.java:143-146 | every action keeps the session invariant: the lock event is last and at most one, the buttons are enabled exactly until it, a lock implies the agent is stopped, and a set latch implies a lock |
| `AnotherConcurrentGui.ConsistentRun` | 113-reactive-guis/src/main/java/it/unibo/oop/reactivegui03/AnotherConcurrentGUI.java:44-57 | every interleaving of agent passes, button presses and watchdog tests keeps the session invariant |
| `AnotherConcurrentGui.Frozen` | 113-reactive-guis/src/main/java/it/unibo/oop/reactivegui03/AnotherConcurrentGUI.java:143-155 | once the buttons are disabled no later action changes the agent, the latch, the buttons or what is shown |
| `AnotherConcurrentGui.LockoutAtMostOnce` | 113-reactive-guis/src/main/java/it/unibo/oop/reactivegui03/AnotherConcurrentGUI.java:49-55 | in every session the buttons are disabled at most once, either by the stop button or by the watchdog; nothing is shown after that, and the agent is stopped |
| `AnotherConcurrentGui.PollsUntil` | 113-reactive-guis/src/main/java/it/unibo/oop/reactivegui03/AnotherConcurrentGUI.java:136-142 | a run of loop tests has the effect of its first test that leaves the loop, and of no test if none leaves it |
| `AnotherConcurrentGui.TimerAgent.constructor` | 113-reactive-guis/src/main/java/it/unibo/oop/reactivegui03/AnotherConcurrentGUI.java:129-131 | a new watchdog holds its agent, has its latch clear and is polling |
| `AnotherConcurrentGui.TimerAgent.SetStopped` | 113-reactive-guis/src/main/java/it/unibo/oop/reactivegui03/AnotherConcurrentGUI.java:153-155 | sets the latch; a second call changes nothing |
| `AnotherConcurrentGui.TimerAgent.Run` | 113-reactive-guis/src/main/java/it/unibo/oop/reactivegui03/AnotherConcurrentGUI.java:134-151 | leaves the loop exactly when the latch is set or some reading is at least `DELAY`. Only if the latch was clear does it stop the agent and then disable the buttons; otherwise nothing changes. The effect is that of the same watchdog tests in the session model |
| `AnotherConcurrentGui.AnotherConcurrentGuiWindow.constructor` | 113-reactive-guis/src/main/java/it/unibo/oop/reactivegui03/AnotherConcurrentGUI.java:44-48 | a new window is the start session: a new agent, a new watchdog with its latch clear, buttons enabled, nothing shown |
| `AnotherConcurrentGui.AnotherConcurrentGuiWindow.AgentPass` | 113-reactive-guis/src/main/java/it/unibo/oop/reactivegui03/AnotherConcurrentGUI.java:80-98 | a pass of the agent's loop is the session step `AgentPass` |
| `AnotherConcurrentGui.AnotherConcurrentGuiWindow.PressUp` | 113-reactive-guis/src/main/java/it/unibo/oop/reactivegui03/AnotherConcurrentGUI.java:56 | the up button is the session step `PressUp` |
| `AnotherConcurrentGui.AnotherConcurrentGuiWindow.PressDown` | 113-reactive-guis/src/main/java/it/unibo/oop/reactivegui03/AnotherConcurrentGUI.java:57 | the down button is the session step `PressDown` |
| `AnotherConcurrentGui.AnotherConcurrentGuiWindow.PressStop` | 113-reactive-guis/src/main/java/it/unibo/oop/reactivegui03/AnotherConcurrentGUI.java:49-55 | the stop button is the session step `PressStop`: `stopCounting`, then `setStopped`, then the buttons disabled |

## Left out

- Swing layout, frame sizing (`JFrameUtil`), label text formatting (`Integer.toString`), and the widgets themselves are left out. They are UI. The label and the buttons are reduced to a log of shown values and "buttons disabled" events, plus an enabled flag.
- Threads and their coordination are not modelled: the executor, `Thread.start`/`join`, the blocking of `invokeAndWait`, and `volatile` visibility. Every command, loop pass and watchdog test is one atomic step, in some interleaving chosen by the caller.
- The race between `setStopped` and the watchdog's check at line 143 is not modelled. The loop test and the check after the loop happen in one step.
- `Thread.sleep` and `System.currentTimeMillis` are wall-clock time. The watchdog instead receives the elapsed times its loop test reads.
- The agent's run loop is not modelled as one method: it never ends unless another thread sets `stop`. It is modelled pass by pass (`Agent.Iterate`).
- `MatrixSum.MultiThreadedSumMatrix.Sum`: elements are exact integers. The model leaves out `double` rounding and the narrowing to `long` in `sum += w.getResult()`.
- Java's 32-bit `int` arithmetic is not modelled: `rows * cols`, `start += size` and `counter` are unbounded integers, so overflow is left out.
- `CounterAgent.Agent.Iterate`: a failed hand-off to the window is not modelled. In the source, when `invokeAndWait` throws, the catch block skips the counter step, so the next pass publishes the same value again. `CounterAgent.UnitSteps` ("consecutive values differ by exactly one") holds only for passes whose hand-off succeeds.
- The progress message in `Worker.run`, the `printStackTrace` calls, and the `IllegalStateException` raised when a join is interrupted are left out. They are I/O or interruption paths.
- `Worker.getResult` has no contract of its own. It returns `res`, which `MatrixSum.Worker.Run` specifies.
- `MatrixSum.Worker.Run` requires a non-empty matrix with a non-empty first row. `sum` creates workers only when `rows * cols > 0`, so this always holds.
- A `null` matrix or a `null` row is not modelled. Sequences cannot be null.
