/** A bounded queue whose single filler sleeps until enough room has been made, woken by a one-slot signal. */
module PressureQueues {
  import opened Wrappers

  class PressureQueue<Work> {
    const limit: nat
    var queue: seq<Work>
    var signal: Option<Work>

    ghost predicate Valid()
      reads this
    {
      |queue| <= limit
    }

    constructor (limit: nat)
      requires limit >= 1
      ensures Valid() && this.limit == limit && queue == [] && signal == None
    {
      this.limit := limit;
      queue, signal := [], None;
    }

    function Room(): int
      reads this
    {
      limit - |queue|
    }

    /** Sends to the queue channel; a full one blocks until the context is done. */
    method EnQueue(work: Work) returns (ok: bool)
      requires Valid()
      modifies this`queue
      ensures Valid() && ok == (old(Room()) > 0)
      ensures queue == if ok then old(queue) + [work] else old(queue)
    {
      ok := |queue| < limit;
      if ok {
        queue := queue + [work];
      }
    }

    /** Receives from the queue channel, then offers the signal without blocking. */
    method DeQueue() returns (work: Option<Work>)
      requires Valid()
      modifies this`queue, this`signal
      ensures Valid()
      ensures old(queue) == [] ==> work == None && queue == [] && signal == old(signal)
      ensures old(queue) != [] ==> work.Some? && [work.value] + queue == old(queue) && signal.Some?
    {
      if |queue| == 0 {
        return None;
      }
      work := Some(queue[0]);
      queue := queue[1..];
      if signal.None? {
        signal := work;
      }
    }
  }

  // ---- One filler and any number of drainers ----

  /** The filler: between waits, about to test the room, or asleep on the signal, its timer and its context. */
  datatype Filler = Busy | Testing(threshold: int) | Asleep(threshold: int)

  /** `offering` counts drainers that have received an item and not yet offered the signal. */
  datatype State = State(
    limit: nat, queue: seq<nat>, signal: bool, filler: Filler, offering: nat, pushed: seq<nat>, popped: seq<nat>)
  {
    function Room(): int {
      limit - |queue|
    }
  }

  datatype Action = Wait(threshold: int) | Test | Wake | GiveUp | Push(item: nat) | Receive | Offer

  function Next(s: State, a: Action): State {
    match a
    case Wait(threshold) => if s.filler.Busy? then s.(filler := Testing(threshold)) else s
    case Test =>
      if !s.filler.Testing? then s
      else s.(filler := if s.Room() >= s.filler.threshold then Busy else Asleep(s.filler.threshold))
    case Wake => if s.filler.Asleep? && s.signal then s.(filler := Testing(s.filler.threshold), signal := false) else s
    case GiveUp => if s.filler.Asleep? then s.(filler := Busy) else s
    case Push(item) =>
      if s.filler.Busy? && s.Room() > 0 then s.(queue := s.queue + [item], pushed := s.pushed + [item]) else s
    case Receive =>
      if s.queue == [] then s
      else s.(queue := s.queue[1..], popped := s.popped + [s.queue[0]], offering := s.offering + 1)
    case Offer => if s.offering > 0 then s.(signal := true, offering := s.offering - 1) else s
  }

  function Start(limit: nat): State {
    State(limit, [], false, Busy, 0, [], [])
  }

  function Run(s: State, actions: seq<Action>): State
    decreases |actions|
  {
    if actions == [] then s else Run(Next(s, actions[0]), actions[1..])
  }

  ghost predicate Inv(s: State) {
    && |s.queue| <= s.limit
    && s.pushed == s.popped + s.queue
    && (s.filler.Asleep? && s.Room() >= s.filler.threshold ==> s.signal || s.offering > 0)
  }

  lemma NextKeepsInv(s: State, a: Action)
    requires Inv(s)
    ensures Inv(Next(s, a)) && Next(s, a).limit == s.limit
  {
    if a.Receive? && s.queue != [] {
      assert s.popped + [s.queue[0]] + s.queue[1..] == s.popped + s.queue;
    }
    if a.Push? {
      assert s.popped + (s.queue + [a.item]) == (s.popped + s.queue) + [a.item];
    }
  }

  lemma {:induction false} RunKeepsInv(s: State, actions: seq<Action>)
    requires Inv(s)
    ensures Inv(Run(s, actions)) && Run(s, actions).limit == s.limit
    decreases |actions|
  {
    if actions != [] {
      NextKeepsInv(s, actions[0]);
      RunKeepsInv(Next(s, actions[0]), actions[1..]);
    }
  }

  /** The queue never exceeds its capacity, and items leave it in the order they entered. */
  lemma FirstInFirstOut(limit: nat, actions: seq<Action>)
    ensures var s := Run(Start(limit), actions); |s.queue| <= limit && s.popped + s.queue == s.pushed
  {
    RunKeepsInv(Start(limit), actions);
  }

  /** No wake-up is lost: whenever the filler sleeps although the room it waits for is there, a signal is buffered
      or a drainer is about to offer one; and with that the filler's next test succeeds. */
  lemma NoLostWakeUp(limit: nat, actions: seq<Action>)
    ensures var s := Run(Start(limit), actions);
            s.filler.Asleep? && s.Room() >= s.filler.threshold ==>
              && (s.signal || s.offering > 0)
              && (var woken := Next(Next(if s.signal then s else Next(s, Offer), Wake), Test);
                  woken.filler.Busy? && woken.queue == s.queue)
  {
    RunKeepsInv(Start(limit), actions);
  }
}
