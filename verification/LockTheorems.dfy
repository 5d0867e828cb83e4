/** What the lock protocol guarantees over whole runs, for one lock. */
module LockTheorems {
  import opened Basics
  import opened LockServer
  import opened LockClient
  import opened LockProtocol

  lemma InitHolds()
    ensures Inv(INIT)
  {
    forall c ensures ViewOk(ViewOf(INIT, c)) {
      assert BlockedThreads(map[]) == {};
    }
  }

  lemma Prepend(s: LockState, ev: Event, evs: seq<Event>)
    requires Enabled(s, ev) && Guarded(s, ev) && Run(Next(s, ev), evs)
    ensures Run(s, [ev] + evs) && After(s, [ev] + evs) == After(Next(s, ev), evs)
  {
    assert ([ev] + evs)[1..] == evs;
  }

  lemma HeadOff(a: seq<Event>, b: seq<Event>)
    requires a != []
    ensures a + b == [a[0]] + (a[1..] + b)
  {
  }

  lemma {:induction false} Join(s: LockState, a: seq<Event>, mid: LockState, b: seq<Event>)
    requires Run(s, a) && After(s, a) == mid && Run(mid, b)
    ensures Run(s, a + b) && After(s, a + b) == After(mid, b)
    decreases |a|
  {
    if a == [] {
      assert a + b == b;
    } else {
      Join(Next(s, a[0]), a[1..], mid, b);
      Prepend(s, a[0], a[1..] + b);
      HeadOff(a, b);
    }
  }

  lemma {:induction false} RunKeeps(s: LockState, evs: seq<Event>)
    requires Inv(s) && Run(s, evs)
    ensures Inv(After(s, evs))
    decreases |evs|
  {
    if evs != [] {
      EventKeeps(s, evs[0]);
      RunKeeps(Next(s, evs[0]), evs[1..]);
    }
  }

  lemma Reached(evs: seq<Event>)
    requires Run(INIT, evs)
    ensures Inv(After(INIT, evs))
  {
    InitHolds();
    RunKeeps(INIT, evs);
  }

  // ---- Mutual exclusion ----

  // At most one thread in the whole system is between a returned acquire and its release.
  ghost predicate Exclusive(s: LockState) {
    forall a, b :: In(s, a, Holding) && In(s, b, Holding) ==> a == b
  }

  lemma InvExcludes(s: LockState)
    requires Inv(s)
    ensures Exclusive(s)
  {
    forall a, b | In(s, a, Holding) && In(s, b, Holding) ensures a == b {
      assert ViewOk(ViewOf(s, a.client)) && ViewOk(ViewOf(s, b.client));
    }
  }

  lemma MutualExclusion(evs: seq<Event>)
    requires Run(INIT, evs)
    ensures Exclusive(After(INIT, evs))
  {
    Reached(evs);
    InvExcludes(After(INIT, evs));
  }

  // A thread that holds the lock can always give it back.
  lemma HolderReleases(evs: seq<Event>, th: Thread)
    requires Run(INIT, evs) && In(After(INIT, evs), th, Holding)
    ensures var s := After(INIT, evs);
            th.client in s.cache && ReleaseLock(s.cache[th.client], th.id).1 == OK && Outside(Next(s, Leave(th)), th)
  {
    var s := After(INIT, evs);
    Reached(evs);
    assert ViewOk(ViewOf(s, th.client));
    LeaveEventKeeps(s, th);
  }

  // ---- Cache and server agree ----

  // The client's own evidence that it has the lock.
  ghost predicate Possesses(s: LockState, c: ClientId) {
    || St(s, c) == FREE || St(s, c) == LOCKED
    || (St(s, c) == RELEASING &&
        (ReleaseQueued(c) in s.handoff || ReleaseScheduled(c) in s.handoff || ReleaseCalled(c) in s.handoff))
    || (St(s, c) == ACQUIRING && exists t :: In(s, Thread(c, t), Replied(OK)))
  }

  // The retryer has named c owner and c has not handled the retry yet.
  ghost predicate AwaitsRetry(s: LockState, c: ClientId) {
    s.entry.waiting != [] && s.entry.waiting[0] == c && (RetryScheduled in s.handoff || RetryCalled(c) in s.handoff)
  }

  lemma InvAgrees(s: LockState, c: ClientId)
    requires Inv(s)
    ensures s.entry.owner == Some(c) <==> Possesses(s, c) || AwaitsRetry(s, c)
    ensures !(Possesses(s, c) && AwaitsRetry(s, c))
  {
    var v := ViewOf(s, c);
    assert ViewOk(v);
    if v.lock.state == ACQUIRING && (v.role == Owner || v.role == Revoked) {
      var t :| t in v.threads && v.threads[t] == Replied(OK);
      assert In(s, Thread(c, t), Replied(OK));
    }
    forall t | In(s, Thread(c, t), Replied(OK)) ensures s.entry.owner == Some(c) && c !in Queue(s) {
      assert t in v.threads && Calling(v.threads[t]);
    }
    assert s.handoff != [] ==> s.handoff == [s.handoff[0]];
  }

  lemma CacheAgrees(evs: seq<Event>, c: ClientId)
    requires Run(INIT, evs)
    ensures var s := After(INIT, evs);
            && (s.entry.owner == Some(c) <==> Possesses(s, c) || AwaitsRetry(s, c))
            && !(Possesses(s, c) && AwaitsRetry(s, c))
  {
    Reached(evs);
    InvAgrees(After(INIT, evs), c);
  }

  // Every release RPC finds its caller as owner and is answered OK.
  lemma ReleaseSucceeds(evs: seq<Event>, c: ClientId)
    requires Run(INIT, evs) && ReleaseCalled(c) in After(INIT, evs).handoff
    ensures ReleaseEntry(After(INIT, evs).entry, c).status == OK
  {
    Reached(evs);
  }

  // ---- One handoff at a time ----

  lemma SingleHandoff(evs: seq<Event>)
    requires Run(INIT, evs)
    ensures var s := After(INIT, evs);
            && |s.handoff| <= 1
            && (|s.handoff| == 1 <==> s.entry.waiting != [])
            && (RevokeQueued in s.handoff ==> s.entry.waiting != [] && s.entry.owner.Some?)
            && (RetryQueued in s.handoff ==> s.entry.waiting != [] && s.entry.owner.None?)
            && (forall st :: RetryReplied(st) in s.handoff ==> st == OK)
            && (forall st :: RevokeAck(st) in s.acks ==> st == OK)
  {
    Reached(evs);
    var s := After(INIT, evs);
    forall st | RevokeAck(st) in s.acks ensures st == OK {
      assert RevokeAck(st).status == OK;
    }
  }

  // ---- The client's own assertions ----

  // Releaser work for client c: queued, scheduled, in its RPC, or its answer on the way back.
  ghost function ReleaserTokens(s: LockState, c: ClientId): nat {
    var h := multiset(s.handoff);
    h[ReleaseQueued(c)] + h[ReleaseScheduled(c)] + h[ReleaseCalled(c)] + s.acks[ReleaseAck(c, OK)]
  }

  lemma InvCountsReleasers(s: LockState, c: ClientId)
    requires Inv(s)
    ensures ReleaserTokens(s, c) == if St(s, c) == RELEASING then 1 else 0
  {
    assert ViewOk(ViewOf(s, c));
    if s.handoff != [] {
      assert s.handoff == [s.handoff[0]];
    }
  }

  // Both VERIFY(state == RELEASING) checks hold, and so does "ifrevoke must be false" at line 276.
  lemma AssertionsHold(evs: seq<Event>, c: ClientId)
    requires Run(INIT, evs)
    ensures var s := After(INIT, evs);
            && ReleaserTokens(s, c) == (if St(s, c) == RELEASING then 1 else 0)
            && (ReleaseScheduled(c) in s.handoff ==> St(s, c) == RELEASING)
            && (forall st :: ReleaseAck(c, st) in s.acks ==>
                  st == OK && St(s, c) == RELEASING && !Cached(s, c).ifRevoke)
  {
    var s := After(INIT, evs);
    Reached(evs);
    InvCountsReleasers(s, c);
    assert ViewOk(ViewOf(s, c));
    forall st | ReleaseAck(c, st) in s.acks ensures st == OK {
      assert ReleaseAck(c, st).status == OK;
    }
  }

  // wait_threads counts exactly the threads blocked inside acquire.
  lemma WaitersCounted(evs: seq<Event>, c: ClientId)
    requires Run(INIT, evs)
    ensures var s := After(INIT, evs); Cached(s, c).waitThreads == |BlockedThreads(Threads(s, c))|
  {
    Reached(evs);
    assert ViewOk(ViewOf(After(INIT, evs), c));
  }

  // ---- First come, first served ----

  // The event that completes a handoff: the retry RPC returns and the front client is popped.
  predicate Completes(s: LockState, ev: Event) {
    ev.Handle? && ev.i < |s.handoff| && s.handoff[ev.i] == RetryReplied(OK)
  }

  function Completed(s: LockState, evs: seq<Event>): nat
    requires Run(s, evs)
    decreases |evs|
  {
    if evs == [] then 0
    else (if Completes(s, evs[0]) then 1 else 0) + Completed(Next(s, evs[0]), evs[1..])
  }

  lemma WaitingChange(s: LockState, ev: Event)
    requires Inv(s) && Enabled(s, ev)
    ensures var w, w' := s.entry.waiting, Next(s, ev).entry.waiting;
            if Completes(s, ev) then w != [] && w' == w[1..] else w <= w'
  {
    if ev.Handle? {
      assert s.handoff[ev.i] == s.handoff[0];
    }
  }

  // The first event of a run, and the rest of the run from there.
  lemma Peel(s: LockState, evs: seq<Event>) returns (s1: LockState, done: bool)
    requires Inv(s) && Run(s, evs) && evs != []
    ensures Inv(s1) && Run(s1, evs[1..]) && After(s, evs) == After(s1, evs[1..])
    ensures Completed(s, evs) == (if done then 1 else 0) + Completed(s1, evs[1..])
    ensures var w, w' := s.entry.waiting, s1.entry.waiting; if done then w != [] && w' == w[1..] else w <= w'
  {
    s1, done := Next(s, evs[0]), Completes(s, evs[0]);
    WaitingChange(s, evs[0]);
    EventKeeps(s, evs[0]);
  }

  // The waiting lists of a run, and which of its events completed a handoff.
  datatype Line = Line(waiting: seq<ClientId>, done: bool)

  predicate Follows(l: Line, next: seq<ClientId>) {
    if l.done then l.waiting != [] && next == l.waiting[1..] else l.waiting <= next
  }

  predicate Chained(ls: seq<Line>, last: seq<ClientId>)
    decreases |ls|
  {
    ls == [] || (Follows(ls[0], if |ls| == 1 then last else ls[1].waiting) && Chained(ls[1..], last))
  }

  function Dones(ls: seq<Line>): nat {
    if ls == [] then 0 else (if ls[0].done then 1 else 0) + Dones(ls[1..])
  }

  lemma ChainedPrepend(l: Line, ls: seq<Line>, last: seq<ClientId>)
    requires Chained(ls, last) && Follows(l, if ls == [] then last else ls[0].waiting)
    ensures Chained([l] + ls, last) && Dones([l] + ls) == (if l.done then 1 else 0) + Dones(ls)
  {
    assert ([l] + ls)[1..] == ls;
  }

  lemma {:induction false} Lines(s: LockState, evs: seq<Event>) returns (ls: seq<Line>)
    requires Inv(s) && Run(s, evs)
    ensures Chained(ls, After(s, evs).entry.waiting) && Dones(ls) == Completed(s, evs)
    ensures s.entry.waiting == if ls == [] then After(s, evs).entry.waiting else ls[0].waiting
    decreases |evs|
  {
    ls := [];
    if evs != [] {
      var s1, done := Peel(s, evs);
      var rest := Lines(s1, evs[1..]);
      ChainedPrepend(Line(s.entry.waiting, done), rest, After(s, evs).entry.waiting);
      ls := [Line(s.entry.waiting, done)] + rest;
    }
  }

  lemma {:induction false} ChainMoves(ls: seq<Line>, last: seq<ClientId>, k: nat)
    requires Chained(ls, last) && Dones(ls) <= k
    requires k < |if ls == [] then last else ls[0].waiting|
    ensures var w := if ls == [] then last else ls[0].waiting;
            k - Dones(ls) < |last| && last[k - Dones(ls)] == w[k]
    decreases |ls|
  {
    if ls != [] {
      ChainMoves(ls[1..], last, if ls[0].done then k - 1 else k);
    }
  }

  lemma LineMoves(s: LockState, evs: seq<Event>, k: nat)
    requires Inv(s) && Run(s, evs) && k < |s.entry.waiting| && Completed(s, evs) <= k
    ensures var w, n := After(s, evs).entry.waiting, Completed(s, evs);
            k - n < |w| && w[k - n] == s.entry.waiting[k]
  {
    var ls := Lines(s, evs);
    ChainMoves(ls, After(s, evs).entry.waiting, k);
  }

  // The client at position k becomes owner after exactly k further completed handoffs.
  lemma FirstCome(evs: seq<Event>, more: seq<Event>, k: nat)
    requires Run(INIT, evs) && Run(After(INIT, evs), more)
    requires k < |After(INIT, evs).entry.waiting| && Completed(After(INIT, evs), more) <= k
    ensures var s, n := After(After(INIT, evs), more), Completed(After(INIT, evs), more);
            var c := After(INIT, evs).entry.waiting[k];
            && NoDup(s.entry.waiting)
            && k - n < |s.entry.waiting| && s.entry.waiting[k - n] == c
            && (s.entry.owner == Some(c) <==>
                  && n == k && |s.handoff| == 1
                  && (s.handoff[0].RetryScheduled? || s.handoff[0].RetryCalled? || s.handoff[0].RetryReplied?))
  {
    Reached(evs);
    RunKeeps(After(INIT, evs), more);
    LineMoves(After(INIT, evs), more, k);
  }
}
