/** The whole lock service: any number of locks that share the server's two work queues and
    each client's releaser queue, every queue served in order. */
module LockSystem {
  import opened Basics
  import opened LockProtocol
  import opened LockTheorems

  datatype QueueId = Revoker | Retryer | Releaser(client: ClientId)

  datatype System = System(locks: map<LockId, LockState>, queues: map<QueueId, seq<LockId>>)

  const EMPTY := System(map[], map[])

  // An event of one lock.
  datatype Action = Action(lock: LockId, ev: Event)

  function LockOf(s: System, l: LockId): LockState {
    Lookup(s.locks, l, INIT)
  }

  function QueueAt(s: System, q: QueueId): seq<LockId> {
    Lookup(s.queues, q, [])
  }

  // The work item that stands for an id in queue q.
  function Queued(q: QueueId): Msg {
    match q
    case Revoker => RevokeQueued
    case Retryer => RetryQueued
    case Releaser(c) => ReleaseQueued(c)
  }

  function QueueOf(m: Msg): Option<QueueId> {
    match m
    case RevokeQueued => Some(Revoker)
    case RetryQueued => Some(Retryer)
    case ReleaseQueued(c) => Some(Releaser(c))
    case _ => None
  }

  // Work items left after ev has taken its own out.
  function Rest(st: LockState, ev: Event): seq<Msg>
    requires Enabled(st, ev)
  {
    if ev.Handle? then RemoveAt(st.handoff, ev.i) else st.handoff
  }

  predicate SysEnabled(s: System, a: Action) {
    var st := LockOf(s, a.lock);
    && Enabled(st, a.ev)
    && (a.ev.Handle? && QueueOf(st.handoff[a.ev.i]).Some? ==>
          var q := QueueAt(s, QueueOf(st.handoff[a.ev.i]).value); q != [] && q[0] == a.lock)
  }

  predicate SysGuarded(s: System, a: Action) {
    a.ev.Serve? ==> a.lock !in QueueAt(s, Retryer)
  }

  function Popped(s: System, a: Action): map<QueueId, seq<LockId>>
    requires SysEnabled(s, a)
  {
    if !a.ev.Handle? then s.queues
    else
      match QueueOf(LockOf(s, a.lock).handoff[a.ev.i])
      case None => s.queues
      case Some(q) => s.queues[q := QueueAt(s, q)[1..]]
  }

  function Pushed(queues: map<QueueId, seq<LockId>>, l: LockId, emitted: seq<Msg>): map<QueueId, seq<LockId>> {
    if emitted == [] || QueueOf(emitted[0]).None? then queues
    else
      var q := QueueOf(emitted[0]).value;
      queues[q := Lookup(queues, q, []) + [l]]
  }

  // h' is h with at most one work item added at the end.
  predicate Grew(h: seq<Msg>, h': seq<Msg>) {
    h' == h || (|h'| == |h| + 1 && h' == h + [h'[|h|]])
  }

  lemma DeliverGrows(st: LockState, m: Msg)
    ensures Grew(st.handoff, Deliver(st, m).handoff)
  {
  }

  lemma EmitsOne(st: LockState, ev: Event)
    requires Enabled(st, ev)
    ensures Grew(Rest(st, ev), Next(st, ev).handoff)
  {
    if ev.Handle? {
      DeliverGrows(st.(handoff := Rest(st, ev)), st.handoff[ev.i]);
    }
  }

  function SysNext(s: System, a: Action): System
    requires SysEnabled(s, a)
  {
    var st := LockOf(s, a.lock);
    var st' := Next(st, a.ev);
    EmitsOne(st, a.ev);
    System(s.locks[a.lock := st'], Pushed(Popped(s, a), a.lock, st'.handoff[|Rest(st, a.ev)|..]))
  }

  predicate SysRun(s: System, acts: seq<Action>)
    decreases |acts|
  {
    acts == [] || (SysEnabled(s, acts[0]) && SysGuarded(s, acts[0]) && SysRun(SysNext(s, acts[0]), acts[1..]))
  }

  function SysAfter(s: System, acts: seq<Action>): System
    requires SysRun(s, acts)
    decreases |acts|
  {
    if acts == [] then s else SysAfter(SysNext(s, acts[0]), acts[1..])
  }

  function Project(acts: seq<Action>, l: LockId): seq<Event> {
    if acts == [] then []
    else (if acts[0].lock == l then [acts[0].ev] else []) + Project(acts[1..], l)
  }

  // Each queue holds a lock's id as often as the lock has a work item queued there.
  ghost predicate Matched(s: System) {
    forall q, l :: multiset(QueueAt(s, q))[l] == multiset(LockOf(s, l).handoff)[Queued(q)]
  }

  lemma RemoveCount<T>(q: seq<T>, i: nat)
    requires i < |q|
    ensures multiset(RemoveAt(q, i)) == multiset(q) - multiset{q[i]}
  {
    assert q == q[..i] + [q[i]] + q[i + 1..];
  }

  lemma QueueInverse(q: QueueId, m: Msg)
    ensures QueueOf(m) == Some(q) <==> m == Queued(q)
  {
  }

  lemma PopFront(w: seq<LockId>)
    requires w != []
    ensures multiset(w[1..]) == multiset(w) - multiset{w[0]}
  {
    RemoveCount(w, 0);
    assert RemoveAt(w, 0) == w[1..];
  }

  // The queue q after a's pop.
  lemma PoppedAt(s: System, a: Action, q: QueueId)
    requires SysEnabled(s, a)
    ensures Lookup(Popped(s, a), q, []) ==
            if a.ev.Handle? && LockOf(s, a.lock).handoff[a.ev.i] == Queued(q) then QueueAt(s, q)[1..] else QueueAt(s, q)
  {
    if a.ev.Handle? {
      QueueInverse(q, LockOf(s, a.lock).handoff[a.ev.i]);
    }
  }

  lemma PopKeeps(s: System, a: Action, q: QueueId, l: LockId)
    requires Matched(s) && SysEnabled(s, a)
    ensures multiset(Lookup(Popped(s, a), q, []))[l] ==
            multiset(if l == a.lock then Rest(LockOf(s, l), a.ev) else LockOf(s, l).handoff)[Queued(q)]
  {
    var h := LockOf(s, a.lock).handoff;
    assert multiset(QueueAt(s, q))[l] == multiset(LockOf(s, l).handoff)[Queued(q)];
    PoppedAt(s, a, q);
    if a.ev.Handle? {
      RemoveCount(h, a.ev.i);
      QueueInverse(q, h[a.ev.i]);
      if h[a.ev.i] == Queued(q) {
        PopFront(QueueAt(s, q));
      }
    }
  }

  lemma PushKeeps(queues: map<QueueId, seq<LockId>>, at: LockId, rest: seq<Msg>, all: seq<Msg>, q: QueueId, l: LockId)
    requires Grew(rest, all)
    ensures var q' := Lookup(Pushed(queues, at, all[|rest|..]), q, []);
            multiset(q')[l] == multiset(Lookup(queues, q, []))[l] +
                               if l == at && all != rest && all[|rest|] == Queued(q) then 1 else 0
  {
    if all != rest {
      assert all[|rest|..] == [all[|rest|]];
      QueueInverse(q, all[|rest|]);
    }
  }

  lemma ActionKeeps(s: System, a: Action)
    requires Matched(s) && SysEnabled(s, a)
    ensures Matched(SysNext(s, a))
  {
    var s' := SysNext(s, a);
    var st := LockOf(s, a.lock);
    forall q, l ensures multiset(QueueAt(s', q))[l] == multiset(LockOf(s', l).handoff)[Queued(q)] {
      EmitsOne(st, a.ev);
      PopKeeps(s, a, q, l);
      PushKeeps(Popped(s, a), a.lock, Rest(st, a.ev), Next(st, a.ev).handoff, q, l);
    }
  }

  // Each lock of a run of the service goes through a run of its own protocol.
  lemma {:induction false} RunProjects(s: System, acts: seq<Action>, l: LockId)
    requires Matched(s) && SysRun(s, acts)
    ensures Run(LockOf(s, l), Project(acts, l))
    ensures LockOf(SysAfter(s, acts), l) == After(LockOf(s, l), Project(acts, l))
    ensures Matched(SysAfter(s, acts))
    decreases |acts|
  {
    if acts != [] {
      var a := acts[0];
      ActionKeeps(s, a);
      RunProjects(SysNext(s, a), acts[1..], l);
      var rest := Project(acts[1..], l);
      if a.lock == l {
        assert multiset(QueueAt(s, Retryer))[l] == multiset(LockOf(s, l).handoff)[Queued(Retryer)];
        assert Guarded(LockOf(s, l), a.ev);
        Prepend(LockOf(s, l), a.ev, rest);
      } else {
        assert [] + rest == rest;
      }
    }
  }

  // For every lock, at most one thread in the whole system holds it, and each queue names it at most once.
  lemma ServiceExcludes(acts: seq<Action>, l: LockId)
    requires SysRun(EMPTY, acts)
    ensures Exclusive(LockOf(SysAfter(EMPTY, acts), l))
    ensures forall q :: multiset(QueueAt(SysAfter(EMPTY, acts), q))[l] <= 1
  {
    RunProjects(EMPTY, acts, l);
    MutualExclusion(Project(acts, l));
    SingleHandoff(Project(acts, l));
    forall q ensures multiset(QueueAt(SysAfter(EMPTY, acts), q))[l] <= 1 {
      var s := SysAfter(EMPTY, acts);
      assert multiset(QueueAt(s, q))[l] == multiset(LockOf(s, l).handoff)[Queued(q)];
    }
  }

  // ---- The queues are served in order ----

  // The id that an action takes out of queue q, if any.
  function PopOf(s: System, a: Action, q: QueueId): seq<LockId>
    requires SysEnabled(s, a)
  {
    if a.ev.Handle? && QueueOf(LockOf(s, a.lock).handoff[a.ev.i]) == Some(q) then [a.lock] else []
  }

  // The id that an action puts into queue q, if any: its lock has a new work item queued there.
  function PushOf(s: System, a: Action, q: QueueId): seq<LockId>
    requires SysEnabled(s, a)
  {
    var st := LockOf(s, a.lock);
    var h, n := Next(st, a.ev).handoff, |Rest(st, a.ev)|;
    if |h| > n && QueueOf(h[n]) == Some(q) then [a.lock] else []
  }

  function PopLog(s: System, acts: seq<Action>, q: QueueId): seq<LockId>
    requires SysRun(s, acts)
    decreases |acts|
  {
    if acts == [] then [] else PopOf(s, acts[0], q) + PopLog(SysNext(s, acts[0]), acts[1..], q)
  }

  function PushLog(s: System, acts: seq<Action>, q: QueueId): seq<LockId>
    requires SysRun(s, acts)
    decreases |acts|
  {
    if acts == [] then [] else PushOf(s, acts[0], q) + PushLog(SysNext(s, acts[0]), acts[1..], q)
  }

  lemma PopsFront(s: System, a: Action, q: QueueId)
    requires SysEnabled(s, a)
    ensures QueueAt(s, q) == PopOf(s, a, q) + Lookup(Popped(s, a), q, [])
  {
    PoppedAt(s, a, q);
  }

  lemma PushesBack(queues: map<QueueId, seq<LockId>>, l: LockId, h: seq<Msg>, n: nat, q: QueueId)
    requires n <= |h| <= n + 1
    ensures Lookup(Pushed(queues, l, h[n..]), q, []) ==
            Lookup(queues, q, []) + if |h| > n && QueueOf(h[n]) == Some(q) then [l] else []
  {
  }

  lemma StepInOrder(s: System, a: Action, q: QueueId)
    requires SysEnabled(s, a)
    ensures QueueAt(s, q) + PushOf(s, a, q) == PopOf(s, a, q) + QueueAt(SysNext(s, a), q)
  {
    var st := LockOf(s, a.lock);
    var h, n := Next(st, a.ev).handoff, |Rest(st, a.ev)|;
    EmitsOne(st, a.ev);
    PopsFront(s, a, q);
    PushesBack(Popped(s, a), a.lock, h, n, q);
    JoinAssoc(PopOf(s, a, q), Lookup(Popped(s, a), q, []), PushOf(s, a, q));
  }

  lemma FourJoin(q0: seq<LockId>, push: seq<LockId>, pop: seq<LockId>, q1: seq<LockId>, pushes: seq<LockId>,
                 pops: seq<LockId>, q2: seq<LockId>)
    requires q0 + push == pop + q1 && q1 + pushes == pops + q2
    ensures q0 + (push + pushes) == (pop + pops) + q2
  {
    JoinAssoc(q0, push, pushes);
    JoinAssoc(pop, q1, pushes);
    JoinAssoc(pop, pops, q2);
  }

  lemma {:induction false} RunInOrder(s: System, acts: seq<Action>, q: QueueId)
    requires SysRun(s, acts)
    ensures QueueAt(s, q) + PushLog(s, acts, q) == PopLog(s, acts, q) + QueueAt(SysAfter(s, acts), q)
    decreases |acts|
  {
    if acts != [] {
      var s1, rest := SysNext(s, acts[0]), acts[1..];
      StepInOrder(s, acts[0], q);
      RunInOrder(s1, rest, q);
      FourJoin(QueueAt(s, q), PushOf(s, acts[0], q), PopOf(s, acts[0], q), QueueAt(s1, q),
               PushLog(s1, rest, q), PopLog(s1, rest, q), QueueAt(SysAfter(s, acts), q));
    }
  }

  // In every run each queue gives out exactly what was put in, in that order; the rest is still queued.
  lemma QueuesInOrder(acts: seq<Action>, q: QueueId)
    requires SysRun(EMPTY, acts)
    ensures PushLog(EMPTY, acts, q) == PopLog(EMPTY, acts, q) + QueueAt(SysAfter(EMPTY, acts), q)
  {
    RunInOrder(EMPTY, acts, q);
    assert QueueAt(EMPTY, q) == [] && [] + PushLog(EMPTY, acts, q) == PushLog(EMPTY, acts, q);
  }
}
