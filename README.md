# Asynchronous MVar, modelled in Dafny

`rust-async-mvar` provides `MVar<T>`, an asynchronous single-slot handoff cell
after Haskell's `Control.Concurrent.MVar`. The cell holds at most one value.
`take()` returns a future that removes the value and waits while the cell is
empty. `put(v)` returns a future that owns `v` until it can store it, and
waits while the cell is full. A one-byte state with four flags guards the
slot: `EMPTY = 1`, `FILLING = 2`, `EMPTYING = 4` and `FULL = 8`. Each side
has one waker slot that remembers the last task to register.

The model has three layers.

- `cell.dfy` (module `CellState`) defines the primitive actions. They are
  register, compare-and-swap on the state, swap a value into or out of the
  slot, store a state, wake, and finalise. Each one is an `Event`. `Apply`
  gives an event's effect on a `Snapshot` of the cell's fields. `Replay`
  performs a list of events.
  - `Permitted` and `Disciplined` state the access discipline. The slot is
    written only under `FILLING` and only while it is empty. It is read only
    under `EMPTYING`. A wake happens only once the other side's step has
    written the slot and stored its final state. The wake invokes the handle
    registered at that moment.
- `steps.dfy` (module `Steps`) specifies `_take`, `TakeFuture::poll`,
  `PutFuture::poll` and `Drop` as functions. Each returns the step's result
  and the primitives it performs, in source order. The contracts state the
  cell afterwards, the winning and losing cases, and that the discipline is
  kept.
- `mvar.dfy` (module `AsyncMVar`) holds the imperative model:
  - classes `MVar`, `TakeFuture` and `PutFuture`, whose fields are updated in
    place;
  - one method per primitive, each precondition being that primitive's part
    of the discipline;
  - the operations built from those methods, each proved to do exactly what
    its `Steps` function specifies;
  - a ghost `log` of every primitive since construction. The object
    invariant `Valid()` says that the log replays to the current fields and
    kept the discipline.

`runs.dfy` (module `Runs`) composes steps into runs, meaning sequences of
polls. A run may include re-polls of put futures that have already
completed. It proves the whole-history properties:
- the discipline holds;
- values come out first in, first out, exactly once;
- while every put future still owns its value, the cell is at rest between
  steps;
- a re-poll that finds the cell empty poisons it for good.

`scenarios.dfy` holds client programs for the documented usage patterns.

Each poll, `_take` and drop is one atomic step, which matches the
compare-and-swap design. The source's behaviour that the model keeps:

- A put future that is polled again after it completed, on an `EMPTY` cell,
  wins the compare-and-swap to `FILLING` and then panics ("the same PutFuture
  is used twice"). `FULL` is never stored, so the state stays `FILLING` for
  good. The model calls this state `Poisoned`.
- On a cell that is not `EMPTY`, that same re-poll just returns `Pending`. So
  a reused put future is a fatal fault only when it finds the cell empty, not
  on every poll after completion.
- A successful poll leaves its own waker registered. A later step of the
  other side then wakes a task that has already finished.

## Model

| member | source | states |
|---|---|---|
| `Steps.TryTake` | src/lib.rs:63-83 | On a FULL cell: returns the stored value and leaves the cell EMPTY with the slot vacated. Otherwise: returns None and changes nothing. Both paths keep the slot discipline. |
| `Steps.PollTake` | src/lib.rs:94-107 | Registers the caller's waker first. On a FULL cell: returns Ready(v) and leaves the cell EMPTY. The put-side wake is its last action, after the slot swap and the store of EMPTY, and it invokes the registered put waker. Otherwise: Pending, and only the take waker changed. |
| `Steps.PollPut` | src/lib.rs:119-157 | Registers the put waker first. On an EMPTY cell with an owned value: the value moves into the slot, the future is left with None, FULL is stored, the take side is woken last, and the result is Ready(()). On an EMPTY cell with no value: a panic that leaves FILLING and inserts nothing. On any other cell: Pending, the future keeps its value, and only the put waker changed. |
| `Steps.DropCell` | src/lib.rs:160-165 | Finalises exactly the value held (none if the cell is empty) and leaves the slot vacated. |
| `Steps.PutThenTake` | src/lib.rs:3-7 | A put into an empty cell completes, and the next take returns the value that was put. |
| `Steps.PendingTakeIsWokenByPut` | src/lib.rs:94-153 | A take on an empty cell stays Pending with its waker registered. The put that fills the cell wakes exactly that waker. The take's next poll receives the value. |
| `Steps.CompletedPutCannotInsertTwice` | src/lib.rs:130-150 | After a put future completes it owns nothing. Polling it again on any cell never changes the slot and never completes. |
| `AsyncMVar.MVar.NewEmpty` | src/lib.rs:34-41 | A new cell is EMPTY, with nothing in the slot and no wakers registered. |
| `AsyncMVar.MVar.New` | src/lib.rs:43-50 | A new cell is FULL with the given value in the slot. |
| `AsyncMVar.MVar.Take` | src/lib.rs:52-54 | Returns a new take future on this cell and leaves the cell untouched. |
| `AsyncMVar.MVar.Put` | src/lib.rs:56-61 | Returns a new put future on this cell that owns `Some(value)`. The cell is untouched. |
| `AsyncMVar.MVar.Register` | src/lib.rs:96 | Stores the handle in the waker slot of its side, replacing any earlier handle. |
| `AsyncMVar.MVar.CompareExchange` | src/lib.rs:64-69 | Sets the state to `desired` only if it equals `current`. Returns Ok(current) on success and Err(actual) otherwise. |
| `AsyncMVar.MVar.Store` | src/lib.rs:77 | Sets the state. Nothing else changes. |
| `AsyncMVar.MVar.SwapIn` | src/lib.rs:137-141 | Puts the value into the slot. Allowed only while the caller holds FILLING and the slot is empty. |
| `AsyncMVar.MVar.SwapOut` | src/lib.rs:72-75 | Returns the value that was in the slot and leaves the slot empty. Allowed only while the caller holds EMPTYING. |
| `AsyncMVar.MVar.Wake` | src/lib.rs:101 | Invokes the handle registered on that side, if any, and clears the slot. Allowed only when the cell is committed for that side: FULL with a value for takers, EMPTY without one for putters. |
| `AsyncMVar.MVar.TryTake` | src/lib.rs:63-83 | Does exactly what `Steps.TryTake` specifies, through the primitives, and keeps the object invariant. |
| `AsyncMVar.MVar.Drop` | src/lib.rs:160-165 | Does exactly what `Steps.DropCell` specifies. The value returned is the one whose finaliser runs. |
| `AsyncMVar.TakeFuture.Poll` | src/lib.rs:94-107 | Does exactly what `Steps.PollTake` specifies: the same result, log and final cell. It keeps the object invariant. |
| `AsyncMVar.PutFuture.Poll` | src/lib.rs:119-157 | Does exactly what `Steps.PollPut` specifies, including the future's remaining item and the panic path. It keeps the object invariant. |
| `Runs.ExecIsDisciplined` | src/lib.rs:96-146 | In any run, the log replays to the final cell. Every slot access in it is made under the matching transitional state. Every wake in it comes after the slot write and the final state store. |
| `Runs.ExecStaysSettled` | src/lib.rs:17-21 | Consider any run from a settled cell in which every put future polled still owns its value. Between its steps, the slot is occupied exactly when the state is FULL, and FILLING and EMPTYING never survive a step. |
| `Runs.RepollOnEmptyPoisons` | src/lib.rs:130-150 | After any run that leaves the cell EMPTY, a re-poll of a completed put future leaves it Poisoned: FILLING, with nothing in the slot. |
| `Runs.PoisonIsPermanent` | src/lib.rs:123-156 | From a poisoned cell, every later poll leaves it poisoned. No poll takes or inserts a value. |
| `Runs.ExecIsFifo` | src/lib.rs:3-7 | For any run from any reachable cell, re-polls included: initial value plus inserted values equals taken values plus the value still held, in order. No value is lost, duplicated or reordered. |
| `Runs.TakesWithoutPutStayPending` | src/lib.rs:98-105 | Takes on an empty cell, with no put, never complete, and the cell stays empty. |
| `Runs.OnlyOnePutWins` | src/lib.rs:123-156 | When several puts hit an empty cell, exactly the first inserts and the rest stay pending. |
| `Runs.AlternationDeliversInOrder` | src/lib.rs:3-7 | A putter and a taker alternate from an empty cell. Every value reaches the taker in the order put, and the cell ends empty. |
| `Runs.DropFinalisesWhatIsLeft` | src/lib.rs:160-165 | Dropping after any run finalises exactly the remaining value, once. Together with the values taken, this accounts for every value put. |
| `Scenarios.PutThenTake` | src/lib.rs:52-61 | On a new empty cell, a put completes, then a take returns the value put. |
| `Scenarios.TakeTwiceFromFull` | src/lib.rs:43-50 | A cell created with a value hands that value to the first take. A second take is Pending. |
| `Scenarios.TakerWokenByPutter` | src/lib.rs:96-146 | A waiting taker's waker is woken by the put, and its next poll returns the value put. |
| `Scenarios.ReusedPutFuture` | src/lib.rs:148-150 | Re-polling a completed put future, after the cell was emptied again, panics instead of inserting twice. It leaves the cell Poisoned. |
| `Scenarios.DropFullAndEmpty` | src/lib.rs:160-165 | Dropping a full cell finalises its value. Dropping an empty cell finalises nothing. |

## Left out

- Memory orderings (`Ordering::SeqCst`) and real interleaving of threads. Each compare-and-swap step, with the swap, store and wake that follow it, is one atomic sequential step. "Several puts at once" is modelled as several polls in sequence.
- The internals of `AtomicWaker` from the `futures` crate. That includes the race in which a wake concurrent with `register` wakes the new waker at once. A waker slot is "the last registered handle, or none", and a wake clears it.
- `MaybeUninit`, raw-pointer access and the `UnsafeCell` wrapper (src/lib.rs:167-184). The slot is an `Option<T>`. An uninitialised slot is `None`.
- The `Pin`/`Future`/`Context` plumbing, `#[must_use]`, `Debug` and `unsafe impl Sync`. They have no behaviour of their own. A polling task's waker is a `Handle` passed to each poll.
- What the value's own destructor does. `Drop` returns the value it finalises, and the log records a `Finalised` event.
- Unwinding after the panic in `PutFuture::poll`. The panic is an outcome, and the cell is left as the code leaves it.
- Fairness, starvation and scheduler liveness. The source keeps one waker per side and no queue.

