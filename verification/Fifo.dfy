/** The bounded blocking queue (rpc/fifo.h) under any number of producers and consumers. */
module Fifo {
  import opened Basics

  // A capacity of 0 means no bound.
  predicate Room<T>(q: seq<T>, max: nat) {
    max == 0 || |q| < max
  }

  // How a mutex-held region of enq ends.
  datatype Turn = Added | Waits | Refused

  function EnqTurn<T>(q: seq<T>, max: nat, blocking: bool): Turn {
    if Room(q, max) then Added else if blocking then Waits else Refused
  }

  class FifoQueue<T> {
    var q: seq<T>
    const max: nat

    constructor (limit: nat)
      ensures q == [] && max == limit
    {
      q, max := [], limit;
    }

    // One region of enq, and whether non_empty_c_ is signalled.
    method Enq(e: T, blocking: bool) returns (r: Turn, signal: bool)
      modifies this
      ensures r == EnqTurn(old(q), max, blocking)
      ensures q == if r == Added then old(q) + [e] else old(q)
      ensures signal <==> r == Added
    {
      signal := false;
      if max == 0 || |q| < max {
        q := q + [e];
        r, signal := Added, true;
      } else if blocking {
        r := Waits;
      } else {
        r := Refused;
      }
    }

    // One region of deq, and whether has_space_c_ is signalled.
    method Deq() returns (r: Option<T>, signal: bool)
      modifies this
      ensures old(q) == [] ==> r == None && unchanged(this) && !signal
      ensures old(q) != [] ==> r == Some(old(q)[0]) && q == old(q)[1..]
      ensures old(q) != [] && max > 0 && old(|q|) <= max ==> signal
      ensures signal ==> max > 0 && |q| < max
    {
      signal := false;
      if q == [] {
        r := None;
      } else {
        r := Some(q[0]);
        q := q[1..];
        if max > 0 && |q| < max {
          signal := true;
        }
      }
    }
  }

  // ---- Threads around the queue ----

  // asleep: inside pthread_cond_wait; woken: signalled (or woken for no reason) but not yet running.
  datatype Sys<T> = Sys(
    q: seq<T>,
    max: nat,
    consAsleep: set<ThreadId>,
    consWoken: set<ThreadId>,
    prodAsleep: set<ThreadId>,
    prodWoken: set<ThreadId>,
    items: map<ThreadId, T>,     // what each waiting producer wants to add
    entered: seq<T>,
    left: seq<T>)

  function Start<T>(max: nat): Sys<T> {
    Sys([], max, {}, {}, {}, {}, map[], [], [])
  }

  // wakes: the sleepers that the region's signal lets go, at least one if there is any.
  datatype Event<T> =
    | Enq(t: ThreadId, e: T, blocking: bool, wakes: set<ThreadId>)
    | EnqAgain(t: ThreadId, wakes: set<ThreadId>)
    | Deq(t: ThreadId, wakes: set<ThreadId>)
    | DeqAgain(t: ThreadId, wakes: set<ThreadId>)
    | StrayConsumer(t: ThreadId)
    | StrayProducer(t: ThreadId)

  predicate Signals(asleep: set<ThreadId>, wakes: set<ThreadId>) {
    wakes <= asleep && (asleep != {} ==> wakes != {})
  }

  predicate Absent<T>(s: Sys<T>, t: ThreadId) {
    t !in s.consAsleep && t !in s.consWoken && t !in s.prodAsleep && t !in s.prodWoken
  }

  predicate Enabled<T>(s: Sys<T>, ev: Event<T>) {
    match ev
    case Enq(t, _, _, wakes) => Absent(s, t) && (if Room(s.q, s.max) then Signals(s.consAsleep, wakes) else wakes == {})
    case EnqAgain(t, wakes) =>
      t in s.prodWoken && t in s.items && (if Room(s.q, s.max) then Signals(s.consAsleep, wakes) else wakes == {})
    case Deq(t, wakes) => Absent(s, t) && DeqSignals(s, wakes)
    case DeqAgain(t, wakes) => t in s.consWoken && DeqSignals(s, wakes)
    case StrayConsumer(t) => t in s.consAsleep
    case StrayProducer(t) => t in s.prodAsleep
  }

  predicate DeqSignals<T>(s: Sys<T>, wakes: set<ThreadId>) {
    if s.q != [] && s.max > 0 && |s.q| <= s.max then Signals(s.prodAsleep, wakes) else wakes == {}
  }

  function Enqueue<T>(s: Sys<T>, t: ThreadId, e: T, blocking: bool, wakes: set<ThreadId>): Sys<T> {
    match EnqTurn(s.q, s.max, blocking)
    case Added =>
      s.(q := s.q + [e], entered := s.entered + [e],
         consAsleep := s.consAsleep - wakes, consWoken := s.consWoken + wakes)
    case Waits => s.(prodAsleep := s.prodAsleep + {t}, items := s.items[t := e])
    case Refused => s
  }

  function Dequeue<T>(s: Sys<T>, t: ThreadId, wakes: set<ThreadId>): Sys<T> {
    if s.q == [] then s.(consAsleep := s.consAsleep + {t})
    else
      s.(q := s.q[1..], left := s.left + [s.q[0]],
         prodAsleep := s.prodAsleep - wakes, prodWoken := s.prodWoken + wakes)
  }

  function Next<T>(s: Sys<T>, ev: Event<T>): Sys<T>
    requires Enabled(s, ev)
  {
    match ev
    case Enq(t, e, blocking, wakes) => Enqueue(s, t, e, blocking, wakes)
    case EnqAgain(t, wakes) => Enqueue(s.(prodWoken := s.prodWoken - {t}), t, s.items[t], true, wakes)
    case Deq(t, wakes) => Dequeue(s, t, wakes)
    case DeqAgain(t, wakes) => Dequeue(s.(consWoken := s.consWoken - {t}), t, wakes)
    case StrayConsumer(t) => s.(consAsleep := s.consAsleep - {t}, consWoken := s.consWoken + {t})
    case StrayProducer(t) => s.(prodAsleep := s.prodAsleep - {t}, prodWoken := s.prodWoken + {t})
  }

  // ---- What one call does ----

  // An item is appended if there is room; a blocking producer otherwise waits with it, and a
  // non-blocking one is refused without any change.
  lemma EnqOutcome<T>(s: Sys<T>, t: ThreadId, e: T, blocking: bool, wakes: set<ThreadId>)
    requires Enabled(s, Event.Enq(t, e, blocking, wakes))
    ensures var s' := Next(s, Event.Enq(t, e, blocking, wakes));
            if s.max == 0 || |s.q| < s.max then
              s'.q == s.q + [e] && s'.entered == s.entered + [e] && t !in s'.prodAsleep && s'.items == s.items
            else if blocking then
              s'.q == s.q && s'.entered == s.entered && t in s'.prodAsleep && t in s'.items && s'.items[t] == e
            else s' == s
  {
  }

  // A woken producer appends the item it came with, or waits on with it.
  lemma EnqAgainOutcome<T>(s: Sys<T>, t: ThreadId, wakes: set<ThreadId>)
    requires Enabled(s, Event.EnqAgain(t, wakes)) && t !in s.prodAsleep
    ensures var s', e := Next(s, Event.EnqAgain(t, wakes)), s.items[t];
            if s.max == 0 || |s.q| < s.max then
              s'.q == s.q + [e] && s'.entered == s.entered + [e] && t !in s'.prodAsleep && t !in s'.prodWoken
            else s'.q == s.q && s'.entered == s.entered && t in s'.prodAsleep && s'.items == s.items
  {
    if !Room(s.q, s.max) {
      assert s.items[t := s.items[t]] == s.items;
    }
  }

  // A consumer gets the oldest item, or waits on an empty queue.
  lemma DeqOutcome<T>(s: Sys<T>, t: ThreadId, wakes: set<ThreadId>)
    requires Enabled(s, Event.Deq(t, wakes))
    ensures var s' := Next(s, Event.Deq(t, wakes));
            if s.q != [] then s'.left == s.left + [s.q[0]] && s'.q == s.q[1..] && t !in s'.consAsleep
            else t in s'.consAsleep && s'.q == s.q && s'.left == s.left
  {
  }

  // Nobody changes the item that a waiting producer came with.
  lemma ItemKept<T>(s: Sys<T>, ev: Event<T>, t: ThreadId)
    requires Enabled(s, ev) && t in s.items && (t in s.prodAsleep || t in s.prodWoken)
    ensures t in Next(s, ev).items && Next(s, ev).items[t] == s.items[t]
  {
  }

  // ---- No wakeup is lost ----

  ghost predicate Disjoint<T>(s: Sys<T>) {
    s.consAsleep !! s.consWoken && s.prodAsleep !! s.prodWoken && s.prodAsleep + s.prodWoken <= s.items.Keys
  }

  // While a consumer sleeps, enough others have been woken for the items queued.
  ghost predicate ConsumersServed<T>(s: Sys<T>) {
    s.consAsleep != {} ==> |s.consWoken| >= |s.q|
  }

  // While a producer sleeps, enough others have been woken for the free slots.
  ghost predicate ProducersServed<T>(s: Sys<T>) {
    s.prodAsleep != {} ==> s.max > 0 && |s.prodWoken| >= s.max - |s.q|
  }

  ghost predicate Inv<T>(s: Sys<T>) {
    && Disjoint(s) && ConsumersServed(s) && ProducersServed(s)
    && (s.max > 0 ==> |s.q| <= s.max)
    && s.entered == s.left + s.q
  }

  lemma MovedCount(a: set<ThreadId>, b: set<ThreadId>, w: set<ThreadId>)
    requires a !! b && w <= a
    ensures |b + w| == |b| + |w| && (a - w) !! (b + w)
  {
  }

  // A signal on a condition with sleepers lets at least one go.
  lemma SignalCount(a: set<ThreadId>, b: set<ThreadId>, w: set<ThreadId>)
    requires a !! b && Signals(a, w)
    ensures (a - w) !! (b + w) && (a != {} ==> |b + w| >= |b| + 1)
  {
    MovedCount(a, b, w);
    if a != {} {
      var u :| u in w;
      assert w == {u} + (w - {u});
    }
  }

  lemma EnqueueKeeps<T>(s: Sys<T>, t: ThreadId, e: T, blocking: bool, wakes: set<ThreadId>)
    requires Inv(s) && t !in s.prodWoken
    requires if Room(s.q, s.max) then Signals(s.consAsleep, wakes) else wakes == {}
    ensures Inv(Enqueue(s, t, e, blocking, wakes))
  {
    if Room(s.q, s.max) {
      SignalCount(s.consAsleep, s.consWoken, wakes);
      assert s.left + s.q + [e] == s.left + (s.q + [e]);
    }
  }

  lemma DequeueKeeps<T>(s: Sys<T>, t: ThreadId, wakes: set<ThreadId>)
    requires Inv(s) && t !in s.consWoken && DeqSignals(s, wakes)
    ensures Inv(Dequeue(s, t, wakes))
  {
    if s.q != [] {
      assert s.left + s.q == s.left + [s.q[0]] + s.q[1..];
      if s.max > 0 { SignalCount(s.prodAsleep, s.prodWoken, wakes); }
    }
  }

  // A woken producer or consumer runs: its own wakeup is used up, for a slot or an item.
  lemma EnqAgainKeeps<T>(s: Sys<T>, t: ThreadId, wakes: set<ThreadId>)
    requires Inv(s) && Enabled(s, EnqAgain(t, wakes))
    ensures Inv(Next(s, EnqAgain(t, wakes)))
  {
    if Room(s.q, s.max) {
      SignalCount(s.consAsleep, s.consWoken, wakes);
      assert s.left + s.q + [s.items[t]] == s.left + (s.q + [s.items[t]]);
    }
  }

  lemma DeqAgainKeeps<T>(s: Sys<T>, t: ThreadId, wakes: set<ThreadId>)
    requires Inv(s) && Enabled(s, DeqAgain(t, wakes))
    ensures Inv(Next(s, DeqAgain(t, wakes)))
  {
    if s.q != [] {
      assert s.left + s.q == s.left + [s.q[0]] + s.q[1..];
      if s.max > 0 { SignalCount(s.prodAsleep, s.prodWoken, wakes); }
    }
  }

  lemma EventKeeps<T>(s: Sys<T>, ev: Event<T>)
    requires Inv(s) && Enabled(s, ev)
    ensures Inv(Next(s, ev))
  {
    match ev
    case Enq(t, e, blocking, wakes) => EnqueueKeeps(s, t, e, blocking, wakes);
    case EnqAgain(t, wakes) => EnqAgainKeeps(s, t, wakes);
    case Deq(t, wakes) => DequeueKeeps(s, t, wakes);
    case DeqAgain(t, wakes) => DeqAgainKeeps(s, t, wakes);
    case StrayConsumer(t) => MovedCount(s.consAsleep, s.consWoken, {t});
    case StrayProducer(t) => MovedCount(s.prodAsleep, s.prodWoken, {t});
  }

  predicate Run<T>(s: Sys<T>, evs: seq<Event<T>>)
    decreases |evs|
  {
    evs == [] || (Enabled(s, evs[0]) && Run(Next(s, evs[0]), evs[1..]))
  }

  function After<T>(s: Sys<T>, evs: seq<Event<T>>): Sys<T>
    requires Run(s, evs)
    decreases |evs|
  {
    if evs == [] then s else After(Next(s, evs[0]), evs[1..])
  }

  lemma {:induction false} RunKeeps<T>(s: Sys<T>, evs: seq<Event<T>>)
    requires Inv(s) && Run(s, evs)
    ensures Inv(After(s, evs)) && After(s, evs).max == s.max
    decreases |evs|
  {
    if evs != [] {
      EventKeeps(s, evs[0]);
      RunKeeps(Next(s, evs[0]), evs[1..]);
    }
  }

  // In every run: no wakeup is lost on either side, the capacity holds, and items leave in entry order.
  lemma NoLostWakeups<T>(max: nat, evs: seq<Event<T>>)
    requires Run(Start(max), evs)
    ensures var s := After(Start(max), evs);
            && (s.consAsleep != {} ==> |s.consWoken| >= |s.q|)
            && (s.prodAsleep != {} ==> max > 0 && |s.prodWoken| >= max - |s.q|)
            && (max > 0 ==> |s.q| <= max)
            && s.entered == s.left + s.q
  {
    RunKeeps(Start(max), evs);
  }

  // Once every woken thread has run, sleepers have nothing to do: consumers sleep only on an empty
  // queue, producers only on a full one, and never both.
  lemma QuietMeansDone<T>(max: nat, evs: seq<Event<T>>)
    requires Run(Start(max), evs)
    requires After(Start(max), evs).consWoken == {} && After(Start(max), evs).prodWoken == {}
    ensures var s := After(Start(max), evs);
            && (s.consAsleep != {} ==> s.q == [])
            && (s.prodAsleep != {} ==> max > 0 && |s.q| == max)
            && (s.consAsleep == {} || s.prodAsleep == {})
  {
    RunKeeps(Start(max), evs);
  }
}
