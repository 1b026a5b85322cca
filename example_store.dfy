/** The example counter store: `count` with increment, decrement and reset. */
module ExampleStore {

  datatype CounterAction = Increment | Decrement | Reset

  /** The state updater each action passes to `set`. */
  function Step(count: int, action: CounterAction): (next: int) {
    match action
    case Increment => count + 1
    case Decrement => count - 1
    case Reset => 0
  }

  /** The count after dispatching `actions` in order. */
  function Replay(count: int, actions: seq<CounterAction>): (final: int)
    decreases |actions|
  {
    if |actions| == 0 then count else Replay(Step(count, actions[0]), actions[1..])
  }

  function Occurrences(actions: seq<CounterAction>, a: CounterAction): (n: nat) {
    if |actions| == 0 then 0
    else (if actions[0] == a then 1 else 0) + Occurrences(actions[1..], a)
  }

  /** Without a reset, the count moves by increments minus decrements, with no lower bound. */
  lemma {:induction false} ReplayWithoutReset(count: int, actions: seq<CounterAction>)
    requires Occurrences(actions, Reset) == 0
    ensures Replay(count, actions) == count + Occurrences(actions, Increment) - Occurrences(actions, Decrement)
    decreases |actions|
  {
    if |actions| > 0 {
      ReplayWithoutReset(Step(count, actions[0]), actions[1..]);
    }
  }

  /** After a reset, only the actions since the last reset matter. */
  lemma {:induction false} ResetForgets(c1: int, c2: int, before: seq<CounterAction>, after: seq<CounterAction>)
    ensures Replay(c1, before + [Reset] + after) == Replay(c2, [Reset] + after)
    decreases |before|
  {
    if |before| == 0 {
      assert before + [Reset] + after == [Reset] + after;
    } else {
      assert (before + [Reset] + after)[1..] == before[1..] + [Reset] + after;
      ResetForgets(Step(c1, before[0]), c2, before[1..], after);
    }
  }

  class CounterStore {
    var count: int

    constructor ()
      ensures count == 0
    {
      count := 0;
    }

    method Increment()
      modifies this
      ensures count == old(count) + 1
    {
      count := Step(count, CounterAction.Increment);
    }

    method Decrement()
      modifies this
      ensures count == old(count) - 1
    {
      count := Step(count, CounterAction.Decrement);
    }

    method Reset()
      modifies this
      ensures count == 0
    {
      count := Step(count, CounterAction.Reset);
    }
  }

  /** Increment followed by decrement restores the count. */
  method IncrementThenDecrement(store: CounterStore)
    modifies store
    ensures store.count == old(store.count)
  {
    store.Increment();
    store.Decrement();
  }

  /** A fresh store decremented once holds -1: the count has no lower bound. */
  method DecrementFromFresh() returns (count: int)
    ensures count == -1
  {
    var store := new CounterStore();
    store.Decrement();
    count := store.count;
  }
}
