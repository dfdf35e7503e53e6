/**
  The vocabulary of the asynchronous MVar: the state flags, the value slot,
  the two waker slots, and the primitive actions every operation is built
  from (register, compare-and-swap, slot swap, store, wake).  A primitive is
  recorded as an `Event`; `Apply` gives its effect on a `Snapshot` of the
  cell, and `Disciplined` says when a recorded history respects the cell's
  access discipline.
 */
module CellState {

  /** The width of the Rust `AtomicU8` that holds the state. */
  newtype u8 = x: int | 0 <= x < 256

  // The four state flags, with the values the source gives them.
  const EMPTY: u8 := 1
  const FILLING: u8 := 2
  const EMPTYING: u8 := 4
  const FULL: u8 := 8

  datatype Option<T> = None | Some(value: T)

  /** What `compare_exchange` reports: `Ok(previous)` when it swapped, `Err(actual)` otherwise. */
  datatype Result<R, E> = Ok(value: R) | Err(error: E)

  /** `core::task::Poll`. */
  datatype Poll<R> = Ready(value: R) | Pending

  /** A poll either returns normally or panics with a message. */
  datatype Outcome<R> = Returned(poll: R) | Panicked(message: string)

  /** The identity of a task's waker, as handed to a poll through its context. */
  type Handle = nat

  /** Which waker slot: the one takers wait in, or the one putters wait in. */
  datatype Side = TakeSide | PutSide

  /** The fields of an `MVar`, as a value. */
  datatype Snapshot<T> = Snapshot(state: u8, item: Option<T>, takeWaker: Option<Handle>, putWaker: Option<Handle>)

  /** One primitive action on the cell. */
  datatype Event<T> =
    | Registered(side: Side, handle: Handle)   // `AtomicWaker::register`
    | Exchanged(current: u8, desired: u8)     // `compare_exchange(current, desired)` on the state
    | SlotFilled(value: T)                    // a value swapped into the slot
    | SlotVacated(value: T)                   // the value swapped out of the slot
    | Stored(flag: u8)                        // `store` on the state
    | Woken(side: Side, woken: Option<Handle>) // `AtomicWaker::wake`, with the handle it invoked
    | Finalised(value: T)                     // a taken value dropped by the cell's destructor

  function WakerOf<T>(c: Snapshot<T>, side: Side): Option<Handle>
  {
    match side
    case TakeSide => c.takeWaker
    case PutSide => c.putWaker
  }

  /** The effect of one primitive on the cell. */
  function Apply<T>(c: Snapshot<T>, e: Event<T>): Snapshot<T>
  {
    match e
    case Registered(side, h) =>
      if side == TakeSide then c.(takeWaker := Some(h)) else c.(putWaker := Some(h))
    case Exchanged(current, desired) =>
      if c.state == current then c.(state := desired) else c
    case SlotFilled(v) => c.(item := Some(v))
    case SlotVacated(_) => c.(item := None)
    case Stored(flag) => c.(state := flag)
    case Woken(side, _) =>
      if side == TakeSide then c.(takeWaker := None) else c.(putWaker := None)
    case Finalised(_) => c
  }

  /** The cell after performing `events` in order, starting from `c`. */
  function Replay<T>(c: Snapshot<T>, events: seq<Event<T>>): Snapshot<T>
    decreases |events|
  {
    if events == [] then c else Replay(Apply(c, events[0]), events[1..])
  }

  /** The cell is at rest: the slot holds a value exactly when the state is FULL. */
  predicate Settled<T>(c: Snapshot<T>)
  {
    (c.state == EMPTY && c.item.None?) || (c.state == FULL && c.item.Some?)
  }

  /**
    The cell a put future leaves behind when it is polled again after it
    completed: its compare-and-swap won, then it panicked before storing
    FULL, so the state stays FILLING with nothing in the slot.
   */
  predicate Poisoned<T>(c: Snapshot<T>)
  {
    c.state == FILLING && c.item.None?
  }

  /** Every state the cell can be in between two steps. */
  predicate Reachable<T>(c: Snapshot<T>)
  {
    Settled(c) || Poisoned(c)
  }

  /** The side woken may look at the cell: its complementary step is finished. */
  predicate Committed<T>(c: Snapshot<T>, side: Side)
  {
    match side
    case TakeSide => c.state == FULL && c.item.Some?
    case PutSide => c.state == EMPTY && c.item.None?
  }

  /**
    The access discipline for one primitive: the slot is filled only by the
    holder of FILLING and only when empty, it is vacated only by the holder of
    EMPTYING and yields the value it held, and a wake happens only once the
    complementary step has written the slot and stored its final state, and
    invokes the handle registered at that moment.
   */
  ghost predicate Permitted<T>(c: Snapshot<T>, e: Event<T>)
  {
    match e
    case SlotFilled(_) => c.state == FILLING && c.item.None?
    case SlotVacated(v) => c.state == EMPTYING && c.item == Some(v)
    case Woken(side, h) => h == WakerOf(c, side) && Committed(c, side)
    case _ => true
  }

  /** Every primitive of `events`, performed in order from `c`, is permitted. */
  ghost predicate Disciplined<T>(c: Snapshot<T>, events: seq<Event<T>>)
    decreases |events|
  {
    events == [] || (Permitted(c, events[0]) && Disciplined(Apply(c, events[0]), events[1..]))
  }

  /** The value held by the cell, as a sequence of length at most one. */
  function Held<T>(c: Snapshot<T>): seq<T>
  {
    if c.item.Some? then [c.item.value] else []
  }

  /** Performing a history in two parts ends where performing it whole ends. */
  lemma {:induction false} ReplayAppend<T>(c: Snapshot<T>, a: seq<Event<T>>, b: seq<Event<T>>)
    ensures Replay(c, a + b) == Replay(Replay(c, a), b)
    decreases |a|
  {
    if a == [] {
      assert a + b == b;
    } else {
      assert (a + b)[0] == a[0];
      assert (a + b)[1..] == a[1..] + b;
      ReplayAppend(Apply(c, a[0]), a[1..], b);
    }
  }

  /** A history is disciplined exactly when both of its parts are, the second from where the first ends. */
  lemma {:induction false} DisciplinedAppend<T>(c: Snapshot<T>, a: seq<Event<T>>, b: seq<Event<T>>)
    ensures Disciplined(c, a + b) <==> Disciplined(c, a) && Disciplined(Replay(c, a), b)
    decreases |a|
  {
    if a == [] {
      assert a + b == b;
    } else {
      assert (a + b)[0] == a[0];
      assert (a + b)[1..] == a[1..] + b;
      DisciplinedAppend(Apply(c, a[0]), a[1..], b);
    }
  }

  /** Performing one more primitive: where it ends, and whether the longer history is still disciplined. */
  lemma Extend<T>(c: Snapshot<T>, events: seq<Event<T>>, e: Event<T>)
    ensures Replay(c, events + [e]) == Apply(Replay(c, events), e)
    ensures Disciplined(c, events + [e]) <==> Disciplined(c, events) && Permitted(Replay(c, events), e)
  {
    ReplayAppend(c, events, [e]);
    DisciplinedAppend(c, events, [e]);
    assert [e][1..] == [];
  }
}
