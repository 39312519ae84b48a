/** Coalescing wakeups (controller/waiting.py) and the discipline of their consumer. */
module Notifiers {
  const READ_SIZE := 4096

  /** The pipe of a notifier: how many unread bytes it holds, and how many fit. */
  class Notifier {
    var isOpen: bool
    var isClosed: bool
    var unread: nat
    const capacity: nat

    ghost predicate Valid()
      reads this
    {
      unread <= capacity && capacity > 0 && (!isOpen ==> unread == 0)
    }

    constructor (capacity: nat)
      requires capacity > 0
      ensures Valid() && !isOpen && !isClosed && this.capacity == capacity
    {
      this.capacity := capacity;
      isOpen, isClosed, unread := false, false, 0;
    }

    method Open()
      requires Valid()
      modifies this
      ensures Valid() && isOpen == (old(isOpen) || !old(isClosed)) && unread == old(unread) && isClosed == old(isClosed)
    {
      if !isOpen && !isClosed {
        isOpen := true;
      }
    }

    /** One byte, unless the pipe is full: then a wakeup is pending already. */
    method Notify()
      requires Valid()
      modifies this`unread
      ensures Valid() && (isOpen ==> unread > 0)
      ensures unread == if isOpen then Notified(old(unread), capacity) else old(unread)
    {
      if !isOpen {
        return;
      }
      if unread < capacity {
        unread := unread + 1;
      }
    }

    /** Read until the pipe would block. */
    method Drain()
      requires Valid()
      modifies this`unread
      ensures Valid() && unread == 0
    {
      if !isOpen {
        return;
      }
      while unread > 0
        invariant unread <= capacity
      {
        unread := if unread <= READ_SIZE then 0 else unread - READ_SIZE;
      }
    }

    method Close()
      requires Valid()
      modifies this
      ensures Valid() && !isOpen && isClosed && unread == 0
    {
      isClosed := true;
      isOpen := false;
      unread := 0;
    }
  }

  function Notified(unread: nat, capacity: nat): nat {
    if unread < capacity then unread + 1 else unread
  }

  /** Where the consumer is: about to read the state, holding a snapshot, blocked on it, or woken. */
  datatype Consumer = Looking | Holding(seen: nat) | Blocked(seen: nat) | Woken

  /**
   * An authority whose state has a version, producers that have published
   * but not yet notified, the pipe, and the one consumer.
   */
  datatype Exchange = Exchange(version: nat, between: set<nat>, unread: nat, capacity: nat, consumer: Consumer)

  datatype Move =
    | Publish(producer: nat)
    | Wake(producer: nat)
    | Snapshot
    | Wait
    | Resume(other: bool)
    | Drain

  /** Publication precedes notification; a wait that found the notifier ready drains it before looking again. */
  function Do(x: Exchange, m: Move): Exchange {
    match m
    case Publish(p) => if p in x.between then x else x.(version := x.version + 1, between := x.between + {p})
    case Wake(p) =>
      if p in x.between then x.(between := x.between - {p}, unread := Notified(x.unread, x.capacity)) else x
    case Snapshot => if x.consumer.Looking? then x.(consumer := Holding(x.version)) else x
    case Wait => if x.consumer.Holding? then x.(consumer := Blocked(x.consumer.seen)) else x
    case Resume(other) =>
      if x.consumer.Blocked? && x.unread > 0 then x.(consumer := Woken)
      else if x.consumer.Blocked? && other then x.(consumer := Looking)
      else x
    case Drain => if x.consumer.Woken? then x.(unread := 0, consumer := Looking) else x
  }

  function Run(x: Exchange, moves: seq<Move>): Exchange
    decreases |moves|
  {
    if |moves| == 0 then x else Run(Do(x, moves[0]), moves[1..])
  }

  /** A stale snapshot always has a wakeup pending, or a producer about to send one. */
  predicate NoLostWakeup(x: Exchange) {
    && x.unread <= x.capacity && x.capacity > 0
    && (x.consumer.Holding? || x.consumer.Blocked? ==> x.consumer.seen <= x.version)
    && ((x.consumer.Holding? || x.consumer.Blocked?) && x.consumer.seen < x.version ==>
          x.unread > 0 || x.between != {})
  }

  lemma StepKeeps(x: Exchange, m: Move)
    requires NoLostWakeup(x)
    ensures NoLostWakeup(Do(x, m))
  {
    if m.Publish? {
      assert m.producer in x.between + {m.producer};
    }
  }

  /** Any number of producers and a full pipe included: no wakeup is lost. */
  lemma {:induction false} EveryRun(x: Exchange, moves: seq<Move>)
    requires NoLostWakeup(x)
    ensures NoLostWakeup(Run(x, moves))
    decreases |moves|
  {
    if |moves| > 0 {
      StepKeeps(x, moves[0]);
      EveryRun(Do(x, moves[0]), moves[1..]);
    }
  }

  /**
   * A consumer that stays blocked has seen everything: with every producer
   * past its notification and nothing to read, its snapshot is current. And a
   * consumer that is woken looks again at a state no older than the wakeup.
   */
  lemma BlockedMeansCurrent(capacity: nat, moves: seq<Move>)
    requires capacity > 0
    ensures
      var x := Run(Exchange(0, {}, 0, capacity, Looking), moves);
      && (x.consumer.Blocked? && x.between == {} && Do(x, Resume(false)) == x ==> x.consumer.seen == x.version)
      && (x.consumer.Woken? ==> Do(Do(x, Drain), Snapshot).consumer == Holding(x.version))
  {
    EveryRun(Exchange(0, {}, 0, capacity, Looking), moves);
  }

  /** Draining after the look instead would lose a wakeup: the order matters. */
  lemma DrainAfterLookingLoses(p: nat)
    ensures
      var woken := Exchange(0, {}, 1, 1, Holding(0));
      var published := Do(Do(woken, Publish(p)), Wake(p));
      NoLostWakeup(published) && !NoLostWakeup(published.(unread := 0))
  {
  }
}
