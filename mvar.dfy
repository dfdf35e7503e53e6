/**
  The MVar itself: a cell whose fields are updated in place, and the two
  futures that take from it and put into it.  Each operation performs the
  primitives of `CellState` one at a time, through the methods below whose
  preconditions are the access discipline, and is proved to do exactly what
  the matching function of `Steps` specifies.
 */
module AsyncMVar {
  import opened CellState
  import Steps

  class MVar<T> {
    var state: u8
    var item: Option<T>
    var takeWaker: Option<Handle>
    var putWaker: Option<Handle>
    /** The cell as it was constructed. */
    ghost const origin: Snapshot<T>
    /** Every primitive performed on the cell since it was constructed, in order. */
    ghost var log: seq<Event<T>>

    function Snap(): Snapshot<T>
      reads this
    {
      Snapshot(state, item, takeWaker, putWaker)
    }

    /** The history explains the current fields and kept the access discipline throughout. */
    ghost predicate Accounted()
      reads this
    {
      Replay(origin, log) == Snap() && Disciplined(origin, log)
    }

    /** The invariant between steps: accounted for, and at rest (or poisoned by a reused put future). */
    ghost predicate Valid()
      reads this
    {
      Accounted() && Reachable(Snap())
    }

    /** `MVar::new_empty` */
    constructor NewEmpty()
      ensures Valid() && log == []
      ensures Snap() == Snapshot(EMPTY, None, None, None)
    {
      state, item, takeWaker, putWaker := EMPTY, None, None, None;
      origin := Snapshot(EMPTY, None, None, None);
      log := [];
    }

    /** `MVar::new` */
    constructor New(value: T)
      ensures Valid() && log == []
      ensures Snap() == Snapshot(FULL, Some(value), None, None)
    {
      state, item, takeWaker, putWaker := FULL, Some(value), None, None;
      origin := Snapshot(FULL, Some(value), None, None);
      log := [];
    }

    /** `MVar::take`: a future that takes from this cell; the cell is not touched. */
    method Take() returns (f: TakeFuture<T>)
      ensures fresh(f) && f.mvar == this
    {
      f := new TakeFuture(this);
    }

    /** `MVar::put`: a future that owns `value` until it puts it into this cell; the cell is not touched. */
    method Put(value: T) returns (f: PutFuture<T>)
      ensures fresh(f) && f.mvar == this && f.item == Some(value)
    {
      f := new PutFuture(this, value);
    }

    /** `AtomicWaker::register` on the waker slot of `side`. */
    method Register(side: Side, h: Handle)
      requires Accounted()
      modifies this
      ensures Accounted() && log == old(log) + [Registered(side, h)]
      ensures Snap() == Apply(old(Snap()), Registered(side, h))
    {
      Extend(origin, log, Registered(side, h));
      if side == TakeSide {
        takeWaker := Some(h);
      } else {
        putWaker := Some(h);
      }
      log := log + [Registered(side, h)];
    }

    /** `compare_exchange(current, desired)` on the state. */
    method CompareExchange(current: u8, desired: u8) returns (r: Result<u8, u8>)
      requires Accounted()
      modifies this
      ensures Accounted() && log == old(log) + [Exchanged(current, desired)]
      ensures Snap() == Apply(old(Snap()), Exchanged(current, desired))
      ensures r == if old(state) == current then Ok(current) else Err(old(state))
    {
      Extend(origin, log, Exchanged(current, desired));
      if state == current {
        r := Ok(current);
        state := desired;
      } else {
        r := Err(state);
      }
      log := log + [Exchanged(current, desired)];
    }

    /** `store(flag)` on the state. */
    method Store(flag: u8)
      requires Accounted()
      modifies this
      ensures Accounted() && log == old(log) + [Stored(flag)]
      ensures Snap() == old(Snap()).(state := flag)
    {
      Extend(origin, log, Stored(flag));
      state := flag;
      log := log + [Stored(flag)];
    }

    /** Swaps `value` into the empty slot; only the holder of FILLING may. */
    method SwapIn(value: T)
      requires Accounted()
      requires state == FILLING && item.None?
      modifies this
      ensures Accounted() && log == old(log) + [SlotFilled(value)]
      ensures Snap() == old(Snap()).(item := Some(value))
    {
      Extend(origin, log, SlotFilled(value));
      item := Some(value);
      log := log + [SlotFilled(value)];
    }

    /** Swaps the value out of the slot, leaving it empty; only the holder of EMPTYING may. */
    method SwapOut() returns (value: T)
      requires Accounted()
      requires state == EMPTYING && item.Some?
      modifies this
      ensures Accounted() && log == old(log) + [SlotVacated(value)]
      ensures value == old(item).value
      ensures Snap() == old(Snap()).(item := None)
    {
      value := item.value;
      Extend(origin, log, SlotVacated(value));
      item := None;
      log := log + [SlotVacated(value)];
    }

    /**
      `AtomicWaker::wake` on the waker slot of `side`: invokes the handle
      registered there, if any, and clears the slot.  Allowed only once the
      complementary step has written the slot and stored its final state.
     */
    method Wake(side: Side) returns (woken: Option<Handle>)
      requires Accounted()
      requires Committed(Snap(), side)
      modifies this
      ensures Accounted() && log == old(log) + [Woken(side, woken)]
      ensures woken == WakerOf(old(Snap()), side)
      ensures Snap() == Apply(old(Snap()), Woken(side, woken))
    {
      woken := WakerOf(Snap(), side);
      Extend(origin, log, Woken(side, woken));
      if side == TakeSide {
        takeWaker := None;
      } else {
        putWaker := None;
      }
      log := log + [Woken(side, woken)];
    }

    /** `MVar::_take` */
    method TryTake() returns (r: Option<T>)
      requires Valid()
      modifies this
      ensures Valid()
      ensures var s := Steps.TryTake(old(Snap()));
        && r == s.result
        && log == old(log) + s.events
        && Snap() == Replay(old(Snap()), s.events)
    {
      var canTake := CompareExchange(FULL, EMPTYING);
      if canTake == Ok(FULL) {
        var value := SwapOut();
        Store(EMPTY);
        r := Some(value);
      } else {
        r := None;
      }
    }

    /** `Drop for MVar`: takes a held value, if any, and finalises it (returned here as `finalised`). */
    method Drop() returns (finalised: Option<T>)
      requires Valid()
      modifies this
      ensures Valid()
      ensures var s := Steps.DropCell(old(Snap()));
        && finalised == s.result
        && log == old(log) + s.events
        && Snap() == Replay(old(Snap()), s.events)
    {
      finalised := TryTake();
      if finalised.Some? {
        Extend(origin, log, Finalised(finalised.value));
        log := log + [Finalised(finalised.value)];
      }
      ReplayAppend(origin, old(log), Steps.DropCell(old(Snap())).events);
    }
  }

  /** `TakeFuture`: a pending take from `mvar`. */
  class TakeFuture<T> {
    const mvar: MVar<T>

    constructor (mvar: MVar<T>)
      ensures this.mvar == mvar
    {
      this.mvar := mvar;
    }

    /** `TakeFuture::poll` with the waker `h` of the polling task. */
    method Poll(h: Handle) returns (p: Poll<T>)
      requires mvar.Valid()
      modifies mvar
      ensures mvar.Valid()
      ensures var s := Steps.PollTake(old(mvar.Snap()), h);
        && p == s.result
        && mvar.log == old(mvar.log) + s.events
        && mvar.Snap() == Replay(old(mvar.Snap()), s.events)
    {
      mvar.Register(TakeSide, h);
      var taken := mvar.TryTake();
      match taken
      case Some(value) =>
        var _ := mvar.Wake(PutSide);
        p := Ready(value);
      case None =>
        p := Pending;
    }
  }

  /** `PutFuture`: a pending put into `mvar` of the value it owns in `item`. */
  class PutFuture<T> {
    var item: Option<T>
    const mvar: MVar<T>

    constructor (mvar: MVar<T>, value: T)
      ensures this.mvar == mvar && item == Some(value)
    {
      this.mvar := mvar;
      item := Some(value);
    }

    /** `PutFuture::poll` with the waker `h` of the polling task. */
    method Poll(h: Handle) returns (o: Outcome<Poll<()>>)
      requires mvar.Valid()
      modifies this, mvar
      ensures mvar.Valid()
      ensures var s := Steps.PollPut(old(mvar.Snap()), old(item), h);
        && o == s.outcome
        && item == s.item
        && mvar.log == old(mvar.log) + s.events
        && mvar.Snap() == Replay(old(mvar.Snap()), s.events)
    {
      mvar.Register(PutSide, h);
      var canPut := mvar.CompareExchange(EMPTY, FILLING);
      if canPut == Ok(EMPTY) {
        var value := item;
        item := None;
        match value
        case Some(v) =>
          mvar.SwapIn(v);
          mvar.Store(FULL);
          var _ := mvar.Wake(TakeSide);
          o := Returned(Ready(()));
        case None =>
          o := Panicked(Steps.UsedTwice);
      } else {
        o := Returned(Pending);
      }
    }
  }
}
