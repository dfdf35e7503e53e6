/**
  Runs: sequences of polls performed one after another on one cell, each poll
  being one atomic step.  The lemmas here are what the steps add up to: the
  whole history keeps the access discipline, values come out in the order
  they went in and each exactly once, and a dropped cell finalises exactly
  the value it still held.  While every put future polled still owns its
  value the cell is at rest between steps; a completed put future polled
  again on an empty cell poisons it for good.
 */
module Runs {
  import opened CellState
  import opened Steps

  /**
    One poll, with the waker `h` of the polling task: of a take future, of a
    put future that owns `value`, or of a put future that already completed
    and owns nothing any more.  Polling a pending future again is one more
    such poll (a pending put future still owns its value); abandoning a
    pending future is simply not polling it again.
   */
  datatype Op<T> = TakeOp(h: Handle) | PutOp(value: T, h: Handle) | RepollOp(h: Handle)

  /** Where a run ends, the values taken and the values inserted, in order, and every primitive performed. */
  datatype Run<T> = Run(cell: Snapshot<T>, taken: seq<T>, inserted: seq<T>, log: seq<Event<T>>)

  /** The run extended by one poll. */
  function Next<T>(r: Run<T>, op: Op<T>): (n: Run<T>)
    requires Reachable(r.cell)
    ensures Reachable(n.cell)
  {
    match op
    case TakeOp(h) =>
      var s := PollTake(r.cell, h);
      var got := if s.result.Ready? then [s.result.value] else [];
      Run(Replay(r.cell, s.events), r.taken + got, r.inserted, r.log + s.events)
    case PutOp(v, h) =>
      var s := PollPut(r.cell, Some(v), h);
      var put := if s.outcome == Returned(Ready(())) then [v] else [];
      Run(Replay(r.cell, s.events), r.taken, r.inserted + put, r.log + s.events)
    case RepollOp(h) =>
      var s := PollPut(r.cell, None, h);
      Run(Replay(r.cell, s.events), r.taken, r.inserted, r.log + s.events)
  }

  /** The run of `ops` from the cell `c`. */
  function Exec<T>(c: Snapshot<T>, ops: seq<Op<T>>): (r: Run<T>)
    requires Reachable(c)
    ensures Reachable(r.cell)
    decreases |ops|
  {
    if ops == [] then Run(c, [], [], [])
    else Next(Exec(c, ops[..|ops| - 1]), ops[|ops| - 1])
  }

  /** Running one more poll extends the run by that poll. */
  lemma ExecSnoc<T>(c: Snapshot<T>, ops: seq<Op<T>>, op: Op<T>)
    requires Reachable(c)
    ensures Exec(c, ops + [op]) == Next(Exec(c, ops), op)
  {
    assert (ops + [op])[..|ops|] == ops;
  }

  /**
    The log of a run explains where the run ends, and every primitive in it
    kept the access discipline: in particular each wake came after the slot
    write and the final state store of the step that issued it.
   */
  lemma {:induction false} ExecIsDisciplined<T>(c: Snapshot<T>, ops: seq<Op<T>>)
    requires Reachable(c)
    ensures Replay(c, Exec(c, ops).log) == Exec(c, ops).cell
    ensures Disciplined(c, Exec(c, ops).log)
    decreases |ops|
  {
    if ops != [] {
      var prefix := ops[..|ops| - 1];
      var prev := Exec(c, prefix);
      ExecIsDisciplined(c, prefix);
      var events := match ops[|ops| - 1]
        case TakeOp(h) => PollTake(prev.cell, h).events
        case PutOp(v, h) => PollPut(prev.cell, Some(v), h).events
        case RepollOp(h) => PollPut(prev.cell, None, h).events;
      ReplayAppend(c, prev.log, events);
      DisciplinedAppend(c, prev.log, events);
    }
  }

  /**
    Between steps of a run whose put futures all still own their value, the
    cell is at rest: the slot is occupied exactly when the state is FULL, and
    FILLING and EMPTYING never survive a step.
   */
  lemma {:induction false} ExecStaysSettled<T>(c: Snapshot<T>, ops: seq<Op<T>>)
    requires Settled(c)
    requires forall i :: 0 <= i < |ops| ==> !ops[i].RepollOp?
    ensures Settled(Exec(c, ops).cell)
    decreases |ops|
  {
    if ops != [] {
      ExecStaysSettled(c, ops[..|ops| - 1]);
    }
  }

  /**
    Re-polling a completed put future on an empty cell poisons it: the state
    stays FILLING with nothing in the slot.
   */
  lemma RepollOnEmptyPoisons<T>(c: Snapshot<T>, ops: seq<Op<T>>, h: Handle)
    requires Reachable(c)
    requires Exec(c, ops).cell.state == EMPTY
    ensures Poisoned(Exec(c, ops + [RepollOp(h)]).cell)
  {
    ExecSnoc(c, ops, RepollOp(h));
  }

  /**
    A poisoned cell stays poisoned for good: no later poll of any kind takes
    or inserts a value.
   */
  lemma {:induction false} PoisonIsPermanent<T>(c: Snapshot<T>, ops: seq<Op<T>>)
    requires Poisoned(c)
    ensures Poisoned(Exec(c, ops).cell)
    ensures Exec(c, ops).taken == [] && Exec(c, ops).inserted == []
    decreases |ops|
  {
    if ops != [] {
      PoisonIsPermanent(c, ops[..|ops| - 1]);
    }
  }

  /**
    A single slot is a queue of length one: what the cell held at the start,
    followed by every value inserted, is exactly every value taken, in the
    same order, followed by what the cell holds at the end.  So no value is
    lost, duplicated or reordered.
   */
  lemma {:induction false} ExecIsFifo<T>(c: Snapshot<T>, ops: seq<Op<T>>)
    requires Reachable(c)
    ensures var r := Exec(c, ops); Held(c) + r.inserted == r.taken + Held(r.cell)
    decreases |ops|
  {
    if ops != [] {
      var prefix := ops[..|ops| - 1];
      ExecIsFifo(c, prefix);
      var prev := Exec(c, prefix);
      match ops[|ops| - 1]
      case TakeOp(h) =>
        if prev.cell.state == FULL {
          assert Held(c) + prev.inserted == prev.taken + [prev.cell.item.value];
        }
      case PutOp(v, h) =>
        if prev.cell.state == EMPTY {
          assert Held(c) + prev.inserted + [v] == prev.taken + [v];
        }
      case RepollOp(h) =>
    }
  }

  /**
    Takes alone never complete on an empty cell: a run of takes leaves the
    cell empty and hands out nothing.
   */
  lemma {:induction false} TakesWithoutPutStayPending<T>(c: Snapshot<T>, ops: seq<Op<T>>)
    requires Settled(c) && c.state == EMPTY
    requires forall i :: 0 <= i < |ops| ==> ops[i].TakeOp?
    ensures Exec(c, ops).taken == []
    ensures Exec(c, ops).cell.state == EMPTY && Exec(c, ops).cell.item.None?
    decreases |ops|
  {
    if ops != [] {
      TakesWithoutPutStayPending(c, ops[..|ops| - 1]);
    }
  }

  /**
    Contention among putters: on an empty cell, of any number of put polls
    exactly one inserts (the first), and the rest stay pending.
   */
  lemma {:induction false} OnlyOnePutWins<T>(c: Snapshot<T>, ops: seq<Op<T>>)
    requires Settled(c) && c.state == EMPTY
    requires |ops| > 0
    requires forall i :: 0 <= i < |ops| ==> ops[i].PutOp?
    ensures Exec(c, ops).inserted == [ops[0].value]
    ensures Exec(c, ops).cell.item == Some(ops[0].value)
    decreases |ops|
  {
    if |ops| > 1 {
      var prefix := ops[..|ops| - 1];
      OnlyOnePutWins(c, prefix);
    } else {
      assert ops[..0] == [];
    }
  }

  /** Puts of `values` by one task, each followed by a take by another. */
  function Alternating<T>(values: seq<T>, putter: Handle, taker: Handle): seq<Op<T>>
    decreases |values|
  {
    if values == [] then []
    else Alternating(values[..|values| - 1], putter, taker) + [PutOp(values[|values| - 1], putter), TakeOp(taker)]
  }

  /**
    Two tasks that put and take strictly in turn, from an empty cell: every
    value put arrives at the taker, in the order it was put, and the cell ends
    empty.
   */
  lemma {:induction false} AlternationDeliversInOrder<T>(c: Snapshot<T>, values: seq<T>, putter: Handle, taker: Handle)
    requires Settled(c) && c.state == EMPTY
    ensures var r := Exec(c, Alternating(values, putter, taker));
      r.taken == values && r.inserted == values && r.cell.state == EMPTY && r.cell.item.None?
    decreases |values|
  {
    if values != [] {
      var init := values[..|values| - 1];
      var v := values[|values| - 1];
      var ops := Alternating(init, putter, taker);
      AlternationDeliversInOrder(c, init, putter, taker);
      ExecSnoc(c, ops, PutOp(v, putter));
      ExecSnoc(c, ops + [PutOp(v, putter)], TakeOp(taker));
      assert Alternating(values, putter, taker) == ops + [PutOp(v, putter), TakeOp(taker)];
      assert ops + [PutOp(v, putter)] + [TakeOp(taker)] == ops + [PutOp(v, putter), TakeOp(taker)];
      var r0 := Exec(c, ops);
      var r1 := Next(r0, PutOp(v, putter));
      assert r1.cell.state == FULL && r1.cell.item == Some(v) && r1.inserted == init + [v];
      var r2 := Next(r1, TakeOp(taker));
      assert r2.taken == init + [v];
      assert init + [v] == values;
    }
  }

  /**
    Dropping the cell after any run finalises exactly the value still held,
    once: together with the values taken it accounts for the initial value and
    every value inserted, and the cell ends empty.
   */
  lemma DropFinalisesWhatIsLeft<T>(c: Snapshot<T>, ops: seq<Op<T>>)
    requires Reachable(c)
    ensures var r := Exec(c, ops);
      var d := DropCell(r.cell);
      && Held(c) + r.inserted == r.taken + Finalisations(d.events)
      && Replay(r.cell, d.events).item.None?
  {
    ExecIsFifo(c, ops);
  }
}
