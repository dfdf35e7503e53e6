/**
  Clients of the MVar classes: short programs whose outcomes follow from the
  contracts of the cell and its futures alone.
 */
module Scenarios {
  import opened CellState
  import opened AsyncMVar
  import Steps

  /** A value put into an empty cell is the value the next take receives. */
  method PutThenTake<T>(value: T) returns (put: Outcome<Poll<()>>, taken: Poll<T>)
    ensures put == Returned(Ready(()))
    ensures taken == Ready(value)
  {
    var m := new MVar.NewEmpty();
    var p := m.Put(value);
    put := p.Poll(1);
    var t := m.Take();
    taken := t.Poll(2);
  }

  /** A cell created full hands out its value at once; a second take then waits. */
  method TakeTwiceFromFull<T>(value: T) returns (first: Poll<T>, second: Poll<T>)
    ensures first == Ready(value)
    ensures second == Pending
  {
    var m := new MVar.New(value);
    var t1 := m.Take();
    first := t1.Poll(1);
    var t2 := m.Take();
    second := t2.Poll(2);
  }

  /**
    Task A takes from an empty cell and waits; task B puts `value`, which
    wakes A's waker; A, polled again, receives `value`.
   */
  method TakerWokenByPutter<T>(value: T, a: Handle, b: Handle) returns (before: Poll<T>, after: Poll<T>, ghost wake: Event<T>)
    ensures before == Pending && after == Ready(value)
    ensures wake == Woken(TakeSide, Some(a))
  {
    var m := new MVar.NewEmpty();
    var ta := m.Take();
    before := ta.Poll(a);
    var pb := m.Put(value);
    var _ := pb.Poll(b);
    wake := m.log[|m.log| - 1];
    after := ta.Poll(a);
  }

  /**
    A put future polled again after it completed, once the cell is empty
    again, panics instead of inserting a second time, and leaves the cell
    empty-handed in FILLING.
   */
  method ReusedPutFuture<T>(value: T) returns (first: Outcome<Poll<()>>, taken: Poll<T>, again: Outcome<Poll<()>>, ghost left: Snapshot<T>)
    ensures first == Returned(Ready(()))
    ensures taken == Ready(value)
    ensures again == Panicked(Steps.UsedTwice)
    ensures Poisoned(left)
  {
    var m := new MVar.NewEmpty();
    var p := m.Put(value);
    first := p.Poll(1);
    var t := m.Take();
    taken := t.Poll(2);
    again := p.Poll(1);
    left := m.Snap();
  }

  /** Dropping a full cell finalises its value; dropping an empty one finalises nothing. */
  method DropFullAndEmpty<T>(value: T) returns (full: Option<T>, empty: Option<T>)
    ensures full == Some(value)
    ensures empty == None
  {
    var m := new MVar.New(value);
    full := m.Drop();
    var e := new MVar.NewEmpty();
    empty := e.Drop();
  }
}
