/** What the caching lock service can always still do.

    The theorems about runs say what never happens.  Here: what each step of a thread gives it, that
    every handoff can be completed, and that no thread inside acquire is ever stuck. */
module LockProgress {
  import opened Basics
  import opened LockServer
  import opened LockClient
  import opened LockProtocol
  import opened LockTheorems

  // ---- What a thread's own step gives it ----

  // The thread takes a free cached lock without the server, asks the server for a lock the client
  // has not, and waits for every other state of the cache.
  ghost predicate Settled(s: LockState, s': LockState, th: Thread) {
    var c := th.client;
    && s'.entry == s.entry && s'.handoff == s.handoff && s'.acks == s.acks
    && (match St(s, c)
        case FREE => In(s', th, Holding) && St(s', c) == LOCKED && Cached(s', c).owner == Some(th.id)
        case NONE => In(s', th, Requesting) && St(s', c) == ACQUIRING
        case _ => In(s', th, Waiting) && St(s', c) == St(s, c) && Cached(s', c).owner == Cached(s, c).owner)
    && (forall u: Thread, p: Phase :: u != th ==> (In(s', u, p) <==> In(s, u, p)))
    && (forall d :: d != c ==> Cached(s', d) == Cached(s, d))
  }

  // Waiting, or back from the server with RETRY.
  predicate Blocked(s: LockState, th: Thread) {
    In(s, th, Waiting) || In(s, th, Replied(RETRY))
  }

  function Resume(s: LockState, th: Thread): Event {
    if In(s, th, Waiting) then Wake(th) else Return(th)
  }

  lemma EnterSettles(s: LockState, th: Thread)
    requires Inv(s) && Outside(s, th)
    ensures Settled(s, Next(s, Enter(th)), th)
  {
    assert ViewOk(ViewOf(s, th.client));
  }

  lemma ResumeSettles(s: LockState, th: Thread)
    requires Blocked(s, th)
    ensures Enabled(s, Resume(s, th)) && Settled(s, Next(s, Resume(s, th)), th)
  {
  }

  // In every reached state: what acquire does at once for a thread that calls it.
  lemma EnterOutcome(evs: seq<Event>, th: Thread)
    requires Run(INIT, evs) && Outside(After(INIT, evs), th)
    ensures Settled(After(INIT, evs), Next(After(INIT, evs), Enter(th)), th)
  {
    Reached(evs);
    EnterSettles(After(INIT, evs), th);
  }

  // A grant on its way is taken when it arrives.
  lemma GrantTaken(s: LockState, th: Thread)
    requires In(s, th, Replied(OK))
    ensures Enabled(s, Return(th)) && In(Next(s, Return(th)), th, Holding)
    ensures var s', c := Next(s, Return(th)), th.client;
            && s'.entry == s.entry && s'.handoff == s.handoff
            && St(s', c) == LOCKED && Cached(s', c).owner == Some(th.id)
            && (forall u: Thread, p: Phase :: u != th ==> (In(s', u, p) <==> In(s, u, p)))
            && (forall d :: d != c ==> Cached(s', d) == Cached(s, d))
  {
  }

  // A release frees the lock and touches nobody else.
  lemma LeaveFrees(s: LockState, th: Thread)
    requires Inv(s) && In(s, th, Holding)
    ensures var s', c := Next(s, Leave(th)), th.client;
            && Outside(s', th) && St(s', c) == FREE
            && s'.entry == s.entry && s'.handoff == s.handoff
            && (forall u: Thread, p: Phase :: u != th ==> (In(s', u, p) <==> In(s, u, p)))
            && (forall d :: d != c ==> Cached(s', d) == Cached(s, d))
  {
    assert ViewOk(ViewOf(s, th.client));
  }

  // ---- What each step of a handoff leads to ----

  // Handling the one work item of s leads to the items h and leaves threads and other clients alone.
  ghost predicate Leads(s: LockState, s': LockState, h: seq<Msg>, c: Option<ClientId>) {
    && s'.handoff == h && s'.threads == s.threads
    && (forall d: ClientId :: c != Some(d) ==> Cached(s', d) == Cached(s, d))
  }

  lemma RevokeLeads(s: LockState, m: Msg)
    requires Inv(s) && s.handoff == [m] && (m.RevokeQueued? || m.RevokeScheduled?)
    ensures var s' := Next(s, Handle(0));
            && s'.entry == s.entry && s.entry.owner.Some?
            && Leads(s, s', [if m.RevokeQueued? then RevokeScheduled else RevokeCalled(s.entry.owner.value)], None)
  {
  }

  // The revoke goes through to the releaser exactly when the lock is free.
  lemma RevokeReaches(s: LockState, m: Msg)
    requires Inv(s) && s.handoff == [m] && (m.RevokeCalled? || m.RevokeBlocked?)
    ensures var s', c := Next(s, Handle(0)), m.client;
            && s'.entry == s.entry
            && Leads(s, s', [if St(s, c) == FREE then ReleaseQueued(c) else RevokeBlocked(c)], Some(c))
            && St(s', c) == (if St(s, c) == FREE then RELEASING else St(s, c))
  {
    assert ViewOk(ViewOf(s, m.client));
    assert m.client in s.cache;
  }

  // The releaser lets local waiters in first; the timed wait ends exactly when the lock is free.
  lemma ReleaserLeads(s: LockState, m: Msg)
    requires Inv(s) && s.handoff == [m] && (m.ReleaseQueued? || m.ReleaseScheduled? || m.ReleaseTimed?)
    ensures var s', c := Next(s, Handle(0)), m.client;
            && s'.entry == s.entry
            && (m.ReleaseQueued? ==> Leads(s, s', [ReleaseScheduled(c)], None))
            && (m.ReleaseScheduled? ==>
                  if Cached(s, c).waitThreads > 0
                  then Leads(s, s', [ReleaseTimed(c)], Some(c)) && St(s', c) == FREE
                  else Leads(s, s', [ReleaseCalled(c)], Some(c)) && St(s', c) == RELEASING)
            && (m.ReleaseTimed? ==>
                  if St(s, c) == FREE
                  then Leads(s, s', [ReleaseCalled(c)], Some(c)) && St(s', c) == RELEASING && !Cached(s', c).ifTimeout
                  else Leads(s, s', [ReleaseTimed(c)], Some(c)) && St(s', c) == St(s, c) && Cached(s', c).ifTimeout)
  {
    assert ViewOk(ViewOf(s, m.client));
  }

  lemma ReleaseLeads(s: LockState, c: ClientId)
    requires Inv(s) && s.handoff == [ReleaseCalled(c)]
    ensures var s' := Next(s, Handle(0));
            && s'.entry == s.entry.(owner := None) && s'.acks == s.acks + multiset{ReleaseAck(c, OK)}
            && Leads(s, s', [RetryQueued], None)
  {
  }

  lemma RetryLeads(s: LockState, m: Msg)
    requires Inv(s) && s.handoff == [m] && (m.RetryQueued? || m.RetryScheduled? || m.RetryCalled?)
    ensures s.entry.waiting != []
    ensures var s', w := Next(s, Handle(0)), s.entry.waiting[0];
            && s'.entry == s.entry.(owner := Some(w))
            && (m.RetryQueued? ==> Leads(s, s', [RetryScheduled], None))
            && (m.RetryScheduled? ==> Leads(s, s', [RetryCalled(w)], None))
            && (m.RetryCalled? ==> Leads(s, s', [RetryReplied(OK)], Some(w)) && St(s', w) == FREE)
  {
    if m.RetryCalled? {
      assert ViewOk(ViewOf(s, m.client)) && RoleOf(s, m.client) == InLine;
    }
  }

  lemma RepliedLeads(s: LockState, m: Msg)
    requires Inv(s) && s.handoff == [m] && m.RetryReplied?
    ensures s.entry.waiting != [] && Completes(s, Handle(0))
    ensures var s', rest := Next(s, Handle(0)), s.entry.waiting[1..];
            && s'.entry == LockEntry(Some(s.entry.waiting[0]), rest)
            && Leads(s, s', if rest == [] then [] else [RevokeQueued], None)
  {
  }

  // A revoke or a release that failed is queued again, with the server's and the client's records as
  // they were.
  lemma FailuresRepeat(s: LockState, c: ClientId, st: Status)
    requires st != OK
    ensures RevokeAck(st) in s.acks ==>
              var s' := Next(s, Absorb(RevokeAck(st)));
              s' == s.(acks := s.acks - multiset{RevokeAck(st)}, handoff := s.handoff + [RevokeQueued])
    ensures ReleaseAck(c, st) in s.acks ==>
              var s' := Next(s, Absorb(ReleaseAck(c, st)));
              s'.handoff == s.handoff + [ReleaseQueued(c)] && s'.entry == s.entry && Cached(s', c) == Cached(s, c)
  {
  }

  // A retry that failed is queued again and leaves nobody the owner; a client that knows nothing of
  // the lock answers RPCERR.
  lemma UnknownRefused(s: LockState, c: ClientId, st: Status)
    requires st != OK
    ensures s.handoff == [RetryReplied(st)] ==>
              Next(s, Handle(0)) == s.(handoff := [RetryQueued], entry := s.entry.(owner := None))
    ensures s.handoff == [RetryCalled(c)] && c !in s.cache ==>
              Next(s, Handle(0)) == s.(handoff := [RetryReplied(RPCERR)])
    ensures s.handoff == [RevokeCalled(c)] && c !in s.cache ==>
              Next(s, Handle(0)) == s.(handoff := [], acks := s.acks + multiset{RevokeAck(RPCERR)})
  {
  }

  // ---- Every handoff can be completed ----

  function TokenRank(m: Msg): nat {
    match m
    case RevokeQueued => 12
    case RevokeScheduled => 11
    case RevokeCalled(_) => 10
    case RevokeBlocked(_) => 9
    case ReleaseQueued(_) => 8
    case ReleaseScheduled(_) => 7
    case ReleaseTimed(_) => 6
    case ReleaseCalled(_) => 5
    case RetryQueued => 4
    case RetryScheduled => 3
    case RetryCalled(_) => 2
    case RetryReplied(_) => 1
  }

  // How far the owner is from giving the lock up.
  function Busy(k: LockPhase): nat {
    match k
    case ACQUIRING => 2
    case LOCKED => 1
    case _ => 0
  }

  function Rank(s: LockState): nat {
    if s.handoff == [] then 0
    else
      match s.handoff[0]
      case RevokeBlocked(c) => 27 + Busy(St(s, c))
      case ReleaseTimed(c) => 18 + Busy(St(s, c))
      case m => 3 * TokenRank(m)
  }

  // What one step towards the next handoff keeps for those in line.
  ghost predicate LineKept(s: LockState, s': LockState) {
    forall d :: d in Queue(s) ==>
      Threads(s', d) == Threads(s, d) && (St(s', d) == FREE || (d in Queue(s') && Cached(s', d) == Cached(s, d)))
  }

  ghost predicate Advances(s: LockState, ev: Event) {
    && Enabled(s, ev) && Guarded(s, ev) && s.entry.waiting != [] && LineKept(s, Next(s, ev))
    && var s' := Next(s, ev);
       if Completes(s, ev)
       then s'.entry == LockEntry(Some(s.entry.waiting[0]), s.entry.waiting[1..])
       else s'.entry.waiting == s.entry.waiting && Rank(s') < Rank(s)
  }

  // A holder releases, or a granted thread takes the lock, while a handoff waits for the client.
  lemma HolderAdvances(s: LockState, c: ClientId) returns (ev: Event)
    requires Inv(s) && (s.handoff == [RevokeBlocked(c)] || s.handoff == [ReleaseTimed(c)]) && St(s, c) != FREE
    ensures Advances(s, ev)
  {
    var v := ViewOf(s, c);
    assert ViewOk(v);
    if St(s, c) == LOCKED {
      var th := Thread(c, v.lock.owner.value);
      ev := Leave(th);
      LeaveFrees(s, th);
    } else {
      var t :| t in v.threads && v.threads[t] == Replied(OK);
      ev := Return(Thread(c, t));
      GrantTaken(s, Thread(c, t));
    }
  }

  lemma RevokeAdvances(s: LockState, m: Msg)
    requires Inv(s) && s.handoff == [m] && (m.RevokeQueued? || m.RevokeScheduled?)
    ensures Advances(s, Handle(0))
  {
    RevokeLeads(s, m);
  }

  lemma ReachAdvances(s: LockState, m: Msg)
    requires Inv(s) && s.handoff == [m] && (m.RevokeCalled? || (m.RevokeBlocked? && St(s, m.client) == FREE))
    ensures Advances(s, Handle(0))
  {
    RevokeReaches(s, m);
  }

  lemma ReleaserAdvances(s: LockState, m: Msg)
    requires Inv(s) && s.handoff == [m]
    requires m.ReleaseQueued? || m.ReleaseScheduled? || (m.ReleaseTimed? && St(s, m.client) == FREE)
    ensures Advances(s, Handle(0))
  {
    ReleaserLeads(s, m);
  }

  lemma ReleaseAdvances(s: LockState, m: Msg)
    requires Inv(s) && s.handoff == [m] && m.ReleaseCalled?
    ensures Advances(s, Handle(0))
  {
    ReleaseLeads(s, m.client);
  }

  lemma RetryAdvances(s: LockState, m: Msg)
    requires Inv(s) && s.handoff == [m] && (m.RetryQueued? || m.RetryScheduled? || m.RetryCalled?)
    ensures Advances(s, Handle(0))
  {
    RetryLeads(s, m);
  }

  lemma RepliedAdvances(s: LockState, m: Msg)
    requires Inv(s) && s.handoff == [m] && m.RetryReplied?
    ensures Advances(s, Handle(0))
  {
    RepliedLeads(s, m);
  }

  lemma Advance(s: LockState) returns (ev: Event)
    requires Inv(s) && s.entry.waiting != []
    ensures Advances(s, ev)
  {
    var m := s.handoff[0];
    assert s.handoff == [m];
    ev := Handle(0);
    if m.RevokeQueued? || m.RevokeScheduled? {
      RevokeAdvances(s, m);
    } else if m.RevokeCalled? {
      ReachAdvances(s, m);
    } else if m.RevokeBlocked? || m.ReleaseTimed? {
      if St(s, m.client) != FREE {
        ev := HolderAdvances(s, m.client);
      } else if m.RevokeBlocked? {
        ReachAdvances(s, m);
      } else {
        ReleaserAdvances(s, m);
      }
    } else if m.ReleaseQueued? || m.ReleaseScheduled? {
      ReleaserAdvances(s, m);
    } else if m.ReleaseCalled? {
      ReleaseAdvances(s, m);
    } else if m.RetryReplied? {
      RepliedAdvances(s, m);
    } else {
      RetryAdvances(s, m);
    }
  }

  lemma {:induction false} Complete(s: LockState) returns (evs: seq<Event>)
    requires Inv(s) && s.entry.waiting != []
    ensures Run(s, evs) && After(s, evs).entry == LockEntry(Some(s.entry.waiting[0]), s.entry.waiting[1..])
    decreases Rank(s)
  {
    var ev := Advance(s);
    EventKeeps(s, ev);
    var rest := [];
    if !Completes(s, ev) {
      rest := Complete(Next(s, ev));
    }
    Prepend(s, ev, rest);
    evs := [ev] + rest;
  }

  // From every reached state in which a client waits, some run makes the front client owner and pops it.
  lemma HandoffCompletes(evs: seq<Event>) returns (more: seq<Event>)
    requires Run(INIT, evs) && After(INIT, evs).entry.waiting != []
    ensures var s := After(INIT, evs);
            Run(s, more) && After(s, more).entry == LockEntry(Some(s.entry.waiting[0]), s.entry.waiting[1..])
  {
    Reached(evs);
    more := Complete(After(INIT, evs));
  }

  // ---- No thread is stuck ----

  // Some run from s has the thread holding the lock.
  ghost predicate CanHold(s: LockState, th: Thread) {
    exists evs :: Run(s, evs) && In(After(s, evs), th, Holding)
  }

  lemma HoldsNow(s: LockState, th: Thread)
    requires In(s, th, Holding)
    ensures CanHold(s, th)
  {
    assert Run(s, []) && After(s, []) == s;
  }

  lemma StepHolds(s: LockState, ev: Event, th: Thread)
    requires Enabled(s, ev) && Guarded(s, ev) && CanHold(Next(s, ev), th)
    ensures CanHold(s, th)
  {
    var evs :| Run(Next(s, ev), evs) && In(After(Next(s, ev), evs), th, Holding);
    Prepend(s, ev, evs);
    assert Run(s, [ev] + evs) && In(After(s, [ev] + evs), th, Holding);
  }

  lemma FreeHolds(s: LockState, th: Thread)
    requires Blocked(s, th) && St(s, th.client) == FREE
    ensures CanHold(s, th)
  {
    ResumeSettles(s, th);
    HoldsNow(Next(s, Resume(s, th)), th);
    StepHolds(s, Resume(s, th), th);
  }

  lemma GrantHolds(s: LockState, th: Thread)
    requires In(s, th, Replied(OK))
    ensures CanHold(s, th)
  {
    GrantTaken(s, th);
    HoldsNow(Next(s, Return(th)), th);
    StepHolds(s, Return(th), th);
  }

  lemma LockedHolds(s: LockState, th: Thread)
    requires Inv(s) && Blocked(s, th) && St(s, th.client) == LOCKED
    ensures CanHold(s, th)
  {
    var v := ViewOf(s, th.client);
    assert ViewOk(v);
    var u := Thread(th.client, v.lock.owner.value);
    assert In(s, u, Holding) && u != th;
    LeaveFrees(s, u);
    FreeHolds(Next(s, Leave(u)), th);
    StepHolds(s, Leave(u), th);
  }

  // Another thread of the client has the grant on its way.
  lemma GrantedHolds(s: LockState, u: Thread, th: Thread)
    requires Inv(s) && In(s, u, Replied(OK)) && Blocked(s, th) && u.client == th.client
    ensures CanHold(s, th)
  {
    GrantTaken(s, u);
    EventKeeps(s, Return(u));
    LockedHolds(Next(s, Return(u)), th);
    StepHolds(s, Return(u), th);
  }

  lemma {:induction false} InLineHolds(s: LockState, th: Thread)
    requires Inv(s) && Blocked(s, th) && th.client in Queue(s)
    ensures CanHold(s, th)
    decreases |s.entry.waiting|, Rank(s)
  {
    var ev := Advance(s);
    var s' := Next(s, ev);
    EventKeeps(s, ev);
    assert Threads(s', th.client) == Threads(s, th.client);
    assert Blocked(s', th);
    if St(s', th.client) == FREE {
      FreeHolds(s', th);
    } else {
      InLineHolds(s', th);
    }
    StepHolds(s, ev, th);
  }

  // What the server's answer to an acquire leads to.
  lemma ServeOutcome(s: LockState, u: Thread)
    requires Inv(s) && In(s, u, Requesting)
    ensures var s' := Next(s, Serve(u));
            && (if s.entry.owner.None? then In(s', u, Replied(OK))
                else In(s', u, Replied(RETRY)) && u.client in Queue(s'))
            && (forall w: Thread, p: Phase :: w != u ==> (In(s', w, p) <==> In(s, w, p)))
  {
    if s.entry.owner.Some? {
      RefuseToken(s, u);
    }
  }

  lemma ServedHolds(s: LockState, u: Thread, th: Thread)
    requires Inv(s) && In(s, u, Requesting) && RetryQueued !in s.handoff
    requires th == u || (Blocked(s, th) && th.client == u.client)
    ensures CanHold(s, th)
  {
    var s' := Next(s, Serve(u));
    ServeOutcome(s, u);
    EventKeeps(s, Serve(u));
    if s.entry.owner.Some? {
      InLineHolds(s', th);
    } else if th == u {
      GrantHolds(s', th);
    } else {
      GrantedHolds(s', u, th);
    }
    StepHolds(s, Serve(u), th);
  }

  lemma RequestHolds(s: LockState, u: Thread, th: Thread)
    requires Inv(s) && In(s, u, Requesting) && (th == u || (Blocked(s, th) && th.client == u.client))
    ensures CanHold(s, th)
  {
    if RetryQueued in s.handoff {
      var h := Handle(0);
      assert s.handoff == [RetryQueued];
      RetryLeads(s, RetryQueued);
      EventKeeps(s, h);
      assert Next(s, h).threads == s.threads;
      ServedHolds(Next(s, h), u, th);
      StepHolds(s, h, th);
    } else {
      ServedHolds(s, u, th);
    }
  }

  lemma NoneHolds(s: LockState, th: Thread)
    requires Inv(s) && Blocked(s, th) && St(s, th.client) == NONE
    ensures CanHold(s, th)
  {
    ResumeSettles(s, th);
    EventKeeps(s, Resume(s, th));
    RequestHolds(Next(s, Resume(s, th)), th, th);
    StepHolds(s, Resume(s, th), th);
  }

  lemma AbsorbFrees(s: LockState, c: ClientId)
    requires ReleaseAck(c, OK) in s.acks
    ensures var s' := Next(s, Absorb(ReleaseAck(c, OK))); St(s', c) == NONE && s'.threads == s.threads
  {
  }

  lemma AnsweredHolds(s: LockState, th: Thread)
    requires Inv(s) && Blocked(s, th) && ReleaseAck(th.client, OK) in s.acks
    ensures CanHold(s, th)
  {
    var ev := Absorb(ReleaseAck(th.client, OK));
    AbsorbFrees(s, th.client);
    EventKeeps(s, ev);
    assert Next(s, ev).threads == s.threads;
    NoneHolds(Next(s, ev), th);
    StepHolds(s, ev, th);
  }

  lemma BlockedCounted(s: LockState, th: Thread)
    requires Inv(s) && Blocked(s, th)
    ensures Cached(s, th.client).waitThreads > 0
  {
    var v := ViewOf(s, th.client);
    assert ViewOk(v);
    assert th.id in BlockedThreads(v.threads);
  }

  lemma ScheduledHolds(s: LockState, th: Thread)
    requires Inv(s) && Blocked(s, th) && s.handoff == [ReleaseScheduled(th.client)]
    ensures CanHold(s, th)
  {
    BlockedCounted(s, th);
    ReleaserLeads(s, s.handoff[0]);
    var s' := Next(s, Handle(0));
    assert s'.threads == s.threads;
    FreeHolds(s', th);
    StepHolds(s, Handle(0), th);
  }

  lemma ReleasingHolds(s: LockState, th: Thread)
    requires Inv(s) && Blocked(s, th) && St(s, th.client) == RELEASING
    ensures CanHold(s, th)
  {
    var c, h := th.client, Handle(0);
    assert ViewOk(ViewOf(s, c));
    if ReleaseAck(c, OK) in s.acks {
      AnsweredHolds(s, th);
    } else if s.handoff == [ReleaseScheduled(c)] {
      ScheduledHolds(s, th);
    } else {
      EventKeeps(s, h);
      if s.handoff == [ReleaseQueued(c)] {
        ReleaserLeads(s, s.handoff[0]);
        assert Next(s, h).threads == s.threads;
        ScheduledHolds(Next(s, h), th);
      } else {
        ReleaseLeads(s, c);
        assert Next(s, h).threads == s.threads;
        AnsweredHolds(Next(s, h), th);
      }
      StepHolds(s, h, th);
    }
  }

  lemma AcquiringHolds(s: LockState, th: Thread)
    requires Inv(s) && Blocked(s, th) && St(s, th.client) == ACQUIRING
    ensures CanHold(s, th)
  {
    var v := ViewOf(s, th.client);
    assert ViewOk(v);
    if v.role == InLine {
      InLineHolds(s, th);
    } else if v.role == Stranger {
      var t :| t in v.threads && v.threads[t] == Requesting;
      RequestHolds(s, Thread(th.client, t), th);
    } else {
      var t :| t in v.threads && v.threads[t] == Replied(OK);
      GrantedHolds(s, Thread(th.client, t), th);
    }
  }

  lemma BlockedHolds(s: LockState, th: Thread)
    requires Inv(s) && Blocked(s, th)
    ensures CanHold(s, th)
  {
    match St(s, th.client)
    case FREE => FreeHolds(s, th);
    case NONE => NoneHolds(s, th);
    case LOCKED => LockedHolds(s, th);
    case ACQUIRING => AcquiringHolds(s, th);
    case RELEASING => ReleasingHolds(s, th);
  }

  // In every reached state every thread inside acquire can still come to hold the lock.
  lemma NoThreadStuck(evs: seq<Event>, th: Thread)
    requires Run(INIT, evs) && !Outside(After(INIT, evs), th)
    ensures CanHold(After(INIT, evs), th)
  {
    var s := After(INIT, evs);
    Reached(evs);
    assert ViewOk(ViewOf(s, th.client));
    match Threads(s, th.client)[th.id]
    case Holding => HoldsNow(s, th);
    case Waiting => BlockedHolds(s, th);
    case Requesting => RequestHolds(s, th, th);
    case Replied(st) => if st == OK { GrantHolds(s, th); } else { BlockedHolds(s, th); }
  }
}
