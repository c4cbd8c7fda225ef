/**
 The notifier's queue and send loop (notifier/manager.go). Every method of
 Manager below is one atomic step: what runs under the mutex, one channel
 operation, or one hand-over to the Alertmanagers. Any interleaving of senders and
 the send loop is a sequence of such steps, so what Valid says holds throughout.

 `more` is the one-slot signal channel: true while the signal is in it.
 */
module Notifier {
  import opened Prelude

  type Alert = nat  // alerts are told apart by nothing but themselves

  /** Where the send loop is. */
  datatype Loop =
    | Waiting  // at the select
    | Woken  // has taken the signal
    | Sending(batch: seq<Alert>)
    | Sent  // before it looks at the length of the queue
    | Signalling  // has seen a non-empty queue
    | Draining  // after the stop request
    | DrainSending(batch: seq<Alert>)
    | Stopped

  function InFlight(loop: Loop): seq<Alert> {
    if loop.Sending? || loop.DrainSending? then loop.batch else []
  }

  /** The newest `capacity` alerts. */
  function Newest(alerts: seq<Alert>, capacity: nat): seq<Alert> {
    if |alerts| > capacity then alerts[|alerts| - capacity..] else alerts
  }

  /** Cutting the new alerts down first and the queue after that keeps the newest of both together. */
  lemma NewestOfBoth(queue: seq<Alert>, alerts: seq<Alert>, capacity: nat)
    requires |queue| <= capacity
    ensures var fresh_ := Newest(alerts, capacity);
            var d := |queue| + |fresh_| - capacity;
            Newest(queue + alerts, capacity) == (if d > 0 then queue[d..] else queue) + fresh_
  {
  }

  /** The positions from `a` up to `b`. */
  ghost function Range(a: nat, b: nat): (r: set<nat>)
    requires a <= b
    ensures |r| == b - a && forall i: nat :: i in r <==> a <= i < b
    decreases b
  {
    if a == b then {} else Range(a, b - 1) + {b - 1}
  }

  /** Where the accepted alerts are, by position: all before `head` have been delivered, lost, or are in flight
      (those from `from` up to `to`), and none in two of these ways. */
  datatype Fate = Fate(delivered: set<nat>, lost: set<nat>, from: nat, to: nat, head: nat)

  ghost predicate Partition(f: Fate) {
    && f.from <= f.to <= f.head
    && (forall i: nat :: i < f.head <==> i in f.delivered || i in f.lost || f.from <= i < f.to)
    && f.delivered !! f.lost
    && (forall i: nat | f.from <= i < f.to :: i !in f.delivered && i !in f.lost)
  }

  /** The queued alerts before `head` are lost. */
  ghost function LoseTo(f: Fate, head: nat): Fate
    requires f.head <= head
  {
    f.(lost := f.lost + Range(f.head, head), head := head)
  }

  lemma Lose(f: Fate, head: nat)
    requires Partition(f) && f.head <= head
    ensures Partition(LoseTo(f, head)) && |LoseTo(f, head).lost| == |f.lost| + head - f.head
  {
    assert f.lost !! Range(f.head, head);
  }

  lemma Take(f: Fate, head: nat)
    requires Partition(f) && f.from == f.to && f.head <= head
    ensures Partition(f.(from := f.head, to := head, head := head))
  {
  }

  lemma Land(f: Fate)
    requires Partition(f)
    ensures Partition(f.(delivered := f.delivered + Range(f.from, f.to), from := f.to))
    ensures var f' := f.(lost := f.lost + Range(f.from, f.to), from := f.to);
            Partition(f') && |f'.lost| == |f.lost| + f.to - f.from
  {
    assert f.lost !! Range(f.from, f.to);
  }

  /** Make room in the queue and append: the oldest alerts are cut off. */
  method Enqueue(queue: seq<Alert>, relabelled: seq<Alert>, capacity: nat) returns (queue': seq<Alert>, d: nat)
    requires |queue| <= capacity
    ensures queue' == Newest(queue + relabelled, capacity)
    ensures d == |queue| + |relabelled| - |queue'|
  {
    NewestOfBoth(queue, relabelled, capacity);
    var alerts, rest := relabelled, queue;
    d := 0;
    if |alerts| > capacity {
      d := |alerts| - capacity;
      alerts := alerts[d..];
    }
    if |queue| + |alerts| > capacity {
      rest := queue[|queue| + |alerts| - capacity..];
      d := d + (|queue| + |alerts| - capacity);
    }
    queue' := rest + alerts;
  }

  /** What is left of the queue, and what is in flight, in the longer list of accepted alerts. */
  lemma SendSlices(accepted: seq<Alert>, head: nat, queue: seq<Alert>, alerts: seq<Alert>, capacity: nat,
                   all: seq<Alert>, queue': seq<Alert>, from: nat, to: nat)
    requires head <= |accepted| && queue == accepted[head..] && from <= to <= head
    requires all == accepted + alerts && queue' == Newest(queue + alerts, capacity)
    ensures |queue'| <= |queue| + |alerts| && |accepted| <= |all| && queue' == all[|all| - |queue'|..]
    ensures all[from..to] == accepted[from..to]
  {
    assert all[head..] == queue + alerts;
  }

  /** The alerts taken out by the loop and those lost, among all that were accepted. */
  ghost predicate Traced(accepted: seq<Alert>, f: Fate, inFlight: seq<Alert>, dropped: nat) {
    Partition(f) && f.head <= |accepted| && inFlight == accepted[f.from..f.to] && dropped == |f.lost|
  }

  lemma LoseTraces(accepted: seq<Alert>, f: Fate, all: seq<Alert>, head: nat, inFlight: seq<Alert>, dropped: nat)
    requires Traced(accepted, f, inFlight, dropped) && f.head <= head <= |all| && |accepted| <= |all|
    requires all[f.from..f.to] == accepted[f.from..f.to]
    ensures Traced(all, LoseTo(f, head), inFlight, dropped + head - f.head)
  {
    Lose(f, head);
  }

  /** More alerts are accepted, and the oldest in the queue are lost to make room. */
  lemma AcceptTraces(accepted: seq<Alert>, f: Fate, queue: seq<Alert>, alerts: seq<Alert>, capacity: nat,
                     queue': seq<Alert>, d: nat, inFlight: seq<Alert>, dropped: nat)
    returns (all: seq<Alert>, f': Fate)
    requires Traced(accepted, f, inFlight, dropped) && queue == accepted[f.head..]
    requires queue' == Newest(queue + alerts, capacity) && d == |queue| + |alerts| - |queue'|
    ensures all == accepted + alerts && Traced(all, f', inFlight, dropped + d) && queue' == all[f'.head..]
    ensures f'.delivered == f.delivered
  {
    all := accepted + alerts;
    SendSlices(accepted, f.head, queue, alerts, capacity, all, queue', f.from, f.to);
    LoseTraces(accepted, f, all, f.head + d, inFlight, dropped);
    f' := LoseTo(f, f.head + d);
  }

  class Manager {
    const capacity: nat
    const maxBatchSize: nat
    const drainOnShutdown: bool
    var queue: seq<Alert>
    var more: bool
    var dropped: nat
    var loop: Loop
    ghost var accepted: seq<Alert>  // after relabelling
    ghost var fate: Fate

    /** Every accepted alert is in exactly one of queue, in-flight batch, delivered, or lost and counted as dropped;
        the queue holds the newest, in order, and never too many; a waiting loop with something to send has the
        signal. */
    ghost predicate Valid()
      reads this
    {
      && 0 < maxBatchSize
      && Traced(accepted, fate, InFlight(loop), dropped)
      && |queue| <= capacity && (queue == accepted[fate.head..] || (loop.Stopped? && !drainOnShutdown))
      && (loop.Waiting? && queue != [] ==> more)
    }

    constructor (capacity: nat, maxBatchSize: nat, drainOnShutdown: bool)
      requires 0 < maxBatchSize
      ensures Valid() && queue == [] && accepted == [] && loop == Waiting && !more
      ensures this.capacity == capacity && this.maxBatchSize == maxBatchSize
    {
      this.capacity, this.maxBatchSize, this.drainOnShutdown := capacity, maxBatchSize, drainOnShutdown;
      queue, more, dropped, loop := [], false, 0, Waiting;
      accepted, fate := [], Fate({}, {}, 0, 0, 0);
    }

    /** Take alerts in and note what becomes of the oldest. */
    method Accept(alerts: seq<Alert>)
      requires Valid() && !loop.Stopped?
      modifies this
      ensures Valid() && loop == old(loop) && more
      ensures accepted == old(accepted) + alerts && fate.delivered == old(fate).delivered
      ensures queue == Newest(old(queue) + alerts, capacity)
      ensures dropped == old(dropped) + |old(queue)| + |alerts| - |queue|
    {
      var queue', d := Enqueue(queue, alerts, capacity);
      accepted, fate := AcceptTraces(accepted, fate, queue, alerts, capacity, queue', d, InFlight(loop), dropped);
      queue := queue';
      dropped := dropped + d;
      SetMore();
    }

    /** Queue alerts, which have been relabelled. The oldest give way when there are too many. */
    method Send(relabelled: seq<Alert>)
      requires Valid() && !loop.Stopped?
      modifies this
      ensures Valid() && loop == old(loop)
      ensures accepted == old(accepted) + relabelled && fate.delivered == old(fate).delivered
      ensures queue == Newest(old(queue) + relabelled, capacity)
      ensures more == (old(more) || relabelled != [])
      ensures dropped == old(dropped) + |old(queue)| + |relabelled| - |queue|
    {
      if |relabelled| == 0 {
        assert accepted + relabelled == accepted && queue + relabelled == queue;
        return;
      }
      Accept(relabelled);
    }

    method SetMore()
      modifies this`more
      ensures more
    {
      if !more {
        more := true;
      }
    }

    /** The select in the send loop takes the signal. */
    method Wake()
      requires Valid() && loop == Waiting && more
      modifies this`more, this`loop
      ensures Valid() && loop == Woken && !more
    {
      more, loop := false, Woken;
    }

    /** Take the oldest alerts off the queue. */
    method NextBatch()
      requires Valid() && (loop == Woken || loop == Draining)
      modifies this`queue, this`loop, this`fate
      ensures Valid() && old(queue) == InFlight(loop) + queue
      ensures |InFlight(loop)| == Min(maxBatchSize, |old(queue)|)
      ensures if old(loop) == Woken then loop.Sending? else loop.DrainSending?
      ensures fate.delivered == old(fate).delivered && fate.lost == old(fate).lost
    {
      var n := if |queue| > maxBatchSize then maxBatchSize else |queue|;
      var alerts := queue[..n];
      Take(fate, fate.head + n);
      fate := fate.(from := fate.head, to := fate.head + n, head := fate.head + n);
      queue := queue[n..];
      loop := if loop == Woken then Sending(alerts) else DrainSending(alerts);
    }

    /** The batch reaches an Alertmanager, or is dropped. */
    method SendAll(ok: bool)
      requires Valid() && (loop.Sending? || loop.DrainSending?)
      modifies this`fate, this`dropped, this`loop
      ensures Valid() && loop == if old(loop).Sending? then Sent else Draining
      ensures ok ==> fate.lost == old(fate).lost && dropped == old(dropped)
      ensures !ok ==> fate.delivered == old(fate).delivered && dropped == old(dropped) + |old(loop).batch|
    {
      Land(fate);
      if ok {
        fate := fate.(delivered := fate.delivered + Range(fate.from, fate.to), from := fate.to);
      } else {
        dropped := dropped + |loop.batch|;
        fate := fate.(lost := fate.lost + Range(fate.from, fate.to), from := fate.to);
      }
      loop := if loop.Sending? then Sent else Draining;
    }

    /** Look whether the queue still has items left. */
    method CheckQueue()
      requires Valid() && loop == Sent
      modifies this`loop
      ensures Valid() && loop == if queue == [] then Waiting else Signalling
    {
      loop := if |queue| > 0 then Signalling else Waiting;
    }

    /** Kick off the next iteration. */
    method Signal()
      requires Valid() && loop == Signalling
      modifies this`more, this`loop
      ensures Valid() && loop == Waiting && more
    {
      SetMore();
      loop := Waiting;
    }

    /** The select sees the stop request. */
    method Stop()
      requires Valid() && loop == Waiting
      modifies this`loop
      ensures Valid() && loop == Draining
    {
      loop := Draining;
    }

    /** drainQueue, when nothing is sent any more: it ends, and then every alert has been delivered or is counted as
        dropped. `oks` says which batches reach an Alertmanager. */
    method DrainQueue(oks: nat -> bool)
      requires Valid() && loop == Draining
      modifies this`queue, this`loop, this`fate, this`dropped
      ensures Valid() && loop == Stopped && (drainOnShutdown ==> queue == [])
      ensures forall i: nat :: i < |accepted| <==> i in fate.delivered || i in fate.lost
      ensures drainOnShutdown && (forall n :: oks(n)) ==> dropped == old(dropped)
    {
      if !drainOnShutdown {
        Lose(fate, |accepted|);
        fate := LoseTo(fate, |accepted|);
        dropped := dropped + |queue|;
        loop := Stopped;
        return;
      }
      var n := 0;
      while |queue| > 0
        invariant Valid() && loop == Draining
        invariant (forall n :: oks(n)) ==> dropped == old(dropped)
        decreases |queue|
      {
        NextBatch();
        SendAll(oks(n));
        n := n + 1;
      }
      loop := Stopped;
    }
  }
}
