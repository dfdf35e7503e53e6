/**
  The steps of the MVar as specifications: each function gives what one step
  returns and the primitives it performs, in the order the source performs
  them.  The cell after the step is `Replay(c, r.events)`; the contracts say
  what that cell is and that the step keeps the access discipline.
 */
module Steps {
  import opened CellState

  /** What one step returns, and the primitives it performs. */
  datatype Step<T, R> = Step(result: R, events: seq<Event<T>>)

  /** What a poll of a put future returns, what the future still owns afterwards, and the primitives performed. */
  datatype PutStep<T> = PutStep(outcome: Outcome<Poll<()>>, item: Option<T>, events: seq<Event<T>>)

  const UsedTwice := "the same PutFuture is used twice"

  /**
    `MVar::_take`: the compare-and-swap FULL -> EMPTYING; when it wins, the
    value is swapped out of the slot and EMPTY is stored.
   */
  function TryTake<T>(c: Snapshot<T>): (r: Step<T, Option<T>>)
    requires Reachable(c)
    ensures Disciplined(c, r.events)
    ensures r.result.Some? <==> c.state == FULL
    ensures c.state == FULL ==>
      r.result == c.item && Replay(c, r.events) == c.(state := EMPTY, item := None)
    ensures c.state != FULL ==> Replay(c, r.events) == c
    ensures Finalisations(r.events) == []
  {
    var cas := Exchanged(FULL, EMPTYING);
    if c.state == FULL then
      var vacate := SlotVacated(c.item.value);
      Extend(c, [cas], vacate);
      Extend(c, [cas] + [vacate], Stored(EMPTY));
      FinalisationsAppend([cas] + [vacate], [Stored(EMPTY)]);
      FinalisationsAppend([cas], [vacate]);
      Step(c.item, [cas] + [vacate] + [Stored(EMPTY)])
    else
      Step(None, [cas])
  }

  /**
    `TakeFuture::poll` with waker `h`: register `h` for the take side, try to
    take, and on success wake the put side.
   */
  function PollTake<T>(c: Snapshot<T>, h: Handle): (r: Step<T, Poll<T>>)
    requires Reachable(c)
    ensures Disciplined(c, r.events)
    ensures |r.events| > 0 && r.events[0] == Registered(TakeSide, h)
    ensures c.state == FULL ==>
      && r.result == Ready(c.item.value)
      && Replay(c, r.events) == Snapshot(EMPTY, None, Some(h), None)
      && r.events[|r.events| - 1] == Woken(PutSide, c.putWaker)
    ensures c.state != FULL ==>
      r.result == Pending && Replay(c, r.events) == c.(takeWaker := Some(h))
  {
    var reg := Registered(TakeSide, h);
    var registered := Apply(c, reg);
    var t := TryTake(registered);
    ReplayAppend(c, [reg], t.events);
    DisciplinedAppend(c, [reg], t.events);
    if t.result.Some? then
      var wake := Woken(PutSide, registered.putWaker);
      Extend(c, [reg] + t.events, wake);
      Step(Ready(t.result.value), [reg] + t.events + [wake])
    else
      Step(Pending, [reg] + t.events)
  }

  /**
    `PutFuture::poll` with waker `h`, for a future that owns `item`: register
    `h` for the put side and try the compare-and-swap EMPTY -> FILLING.  When
    it wins, the future's item is taken out of it; a value is swapped into the
    slot, FULL is stored and the take side is woken, but a future that owns no
    value any more panics, leaving the state FILLING.
   */
  function PollPut<T>(c: Snapshot<T>, item: Option<T>, h: Handle): (r: PutStep<T>)
    requires Reachable(c)
    ensures Disciplined(c, r.events)
    ensures |r.events| > 0 && r.events[0] == Registered(PutSide, h)
    ensures c.state == EMPTY && item.Some? ==>
      && r.outcome == Returned(Ready(()))
      && r.item.None?
      && Replay(c, r.events) == Snapshot(FULL, item, None, Some(h))
      && r.events[|r.events| - 1] == Woken(TakeSide, c.takeWaker)
    ensures c.state == EMPTY && item.None? ==>
      r.outcome == Panicked(UsedTwice) && r.item.None? && Replay(c, r.events) == c.(state := FILLING, putWaker := Some(h))
    ensures c.state != EMPTY ==>
      r.outcome == Returned(Pending) && r.item == item && Replay(c, r.events) == c.(putWaker := Some(h))
  {
    var reg := Registered(PutSide, h);
    var cas := Exchanged(EMPTY, FILLING);
    if c.state == EMPTY then
      match item
      case Some(v) =>
        var wake := Woken(TakeSide, c.takeWaker);
        Extend(c, [reg], cas);
        Extend(c, [reg] + [cas], SlotFilled(v));
        Extend(c, [reg] + [cas] + [SlotFilled(v)], Stored(FULL));
        Extend(c, [reg] + [cas] + [SlotFilled(v)] + [Stored(FULL)], wake);
        PutStep(Returned(Ready(())), None, [reg] + [cas] + [SlotFilled(v)] + [Stored(FULL)] + [wake])
      case None =>
        Extend(c, [reg], cas);
        PutStep(Panicked(UsedTwice), None, [reg] + [cas])
    else
      Extend(c, [reg], cas);
      PutStep(Returned(Pending), item, [reg] + [cas])
  }

  /**
    `Drop for MVar`: try to take, and finalise the value taken, if any.
   */
  function DropCell<T>(c: Snapshot<T>): (r: Step<T, Option<T>>)
    requires Reachable(c)
    ensures Disciplined(c, r.events)
    ensures r.result == c.item
    ensures Replay(c, r.events).item.None?
    ensures Finalisations(r.events) == Held(c)
  {
    var t := TryTake(c);
    var fin := if t.result.Some? then [Finalised(t.result.value)] else [];
    ReplayAppend(c, t.events, fin);
    DisciplinedAppend(c, t.events, fin);
    FinalisationsAppend(t.events, fin);
    Step(t.result, t.events + fin)
  }

  /** The values finalised in a history, in order. */
  function Finalisations<T>(events: seq<Event<T>>): seq<T>
    decreases |events|
  {
    if events == [] then []
    else (if events[0].Finalised? then [events[0].value] else []) + Finalisations(events[1..])
  }

  lemma {:induction false} FinalisationsAppend<T>(a: seq<Event<T>>, b: seq<Event<T>>)
    ensures Finalisations(a + b) == Finalisations(a) + Finalisations(b)
    decreases |a|
  {
    if a == [] {
      assert a + b == b;
    } else {
      assert (a + b)[0] == a[0];
      assert (a + b)[1..] == a[1..] + b;
      FinalisationsAppend(a[1..], b);
    }
  }

  /** A put into an empty cell followed by a take hands the taker the value put. */
  lemma PutThenTake<T>(c: Snapshot<T>, v: T, putter: Handle, taker: Handle)
    requires Settled(c) && c.state == EMPTY
    ensures var p := PollPut(c, Some(v), putter);
      && p.outcome == Returned(Ready(()))
      && PollTake(Replay(c, p.events), taker).result == Ready(v)
  {
  }

  /**
    A take that finds the cell empty stays pending with its waker registered;
    the put that fills the cell wakes exactly that waker, and the take's next
    poll receives the value.
   */
  lemma PendingTakeIsWokenByPut<T>(c: Snapshot<T>, v: T, taker: Handle, putter: Handle)
    requires Settled(c) && c.state == EMPTY
    ensures var t1 := PollTake(c, taker);
      var c1 := Replay(c, t1.events);
      var p := PollPut(c1, Some(v), putter);
      var c2 := Replay(c1, p.events);
      && t1.result == Pending
      && Woken(TakeSide, Some(taker)) in p.events
      && PollTake(c2, taker).result == Ready(v)
  {
  }

  /**
    A put future that completed owns nothing any more: polling it again never
    inserts a second value and never completes again.
   */
  lemma CompletedPutCannotInsertTwice<T>(c: Snapshot<T>, v: T, h: Handle, later: Snapshot<T>, h2: Handle)
    requires Settled(c) && c.state == EMPTY
    requires Reachable(later)
    ensures var p := PollPut(c, Some(v), h);
      var again := PollPut(later, p.item, h2);
      && Replay(later, again.events).item == later.item
      && again.outcome != Returned(Ready(()))
  {
  }
}
