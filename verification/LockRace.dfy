/** The handover condition is exact.

    acquire grants whenever it finds no owner, while the retryer names the next owner without
    looking.  Serving an acquire while the lock's id sits in retryer_queue therefore lets two
    threads hold the lock; serving it at any other time never does. */
module LockRace {
  import opened Basics
  import opened LockServer
  import opened LockClient
  import opened LockProtocol
  import opened LockTheorems

  // Every continuation that meets the handover condition keeps mutual exclusion.
  ghost predicate Safe(s: LockState) {
    forall evs :: Run(s, evs) ==> Exclusive(After(s, evs))
  }

  // The front client is named owner and told to retry in three steps.
  lemma RetriedInThree(s: LockState, w: ClientId) returns (evs: seq<Event>)
    requires s.handoff == [RetryQueued] && s.entry.waiting != [] && s.entry.waiting[0] == w
    requires w in s.cache && s.cache[w].state == ACQUIRING
    ensures Run(s, evs)
    ensures After(s, evs) == s.(handoff := [RetryReplied(OK)], entry := s.entry.(owner := Some(w)),
                                cache := s.cache[w := s.cache[w].(state := FREE)])
  {
    var h := Handle(0);
    var s1 := Next(s, h);
    assert s1 == s.(handoff := [RetryScheduled], entry := s.entry.(owner := Some(w)));
    var s2 := Next(s1, h);
    assert s2 == s1.(handoff := [RetryCalled(w)]);
    Prepend(s2, h, []);
    Prepend(s1, h, [h] + []);
    Prepend(s, h, [h] + ([h] + []));
    evs := [h] + ([h] + ([h] + []));
  }

  // The free lock is then taken by a thread that wakes or returns.
  lemma RetryReachesHolder(s: LockState, w: ClientId, u: ThreadId) returns (evs: seq<Event>)
    requires s.handoff == [RetryQueued] && s.entry.waiting != [] && s.entry.waiting[0] == w
    requires w in s.cache && s.cache[w].state == ACQUIRING
    requires In(s, Thread(w, u), Waiting) || In(s, Thread(w, u), Replied(RETRY))
    ensures Run(s, evs) && In(After(s, evs), Thread(w, u), Holding)
    ensures forall th: Thread :: th.client != w && In(s, th, Holding) ==> In(After(s, evs), th, Holding)
  {
    var told := RetriedInThree(s, w);
    var s3 := After(s, told);
    var last := if In(s, Thread(w, u), Waiting) then Wake(Thread(w, u)) else Return(Thread(w, u));
    assert s3.threads == s.threads && Cached(s3, w).state == FREE;
    Prepend(s3, last, []);
    Join(s, told, s3, [last] + []);
    evs := told + ([last] + []);
  }

  // While the retry is queued, the front client has a thread ready to take the lock.
  lemma FrontIsReady(s: LockState) returns (w: ClientId, u: ThreadId)
    requires Inv(s) && RetryQueued in s.handoff
    ensures s.handoff == [RetryQueued] && s.entry.waiting != [] && s.entry.owner.None?
    ensures w == s.entry.waiting[0] && w in Queue(s) && w in s.cache && s.cache[w].state == ACQUIRING
    ensures In(s, Thread(w, u), Waiting) || In(s, Thread(w, u), Replied(RETRY))
  {
    w := s.entry.waiting[0];
    assert s.handoff == [RetryQueued];
    var v := ViewOf(s, w);
    assert ViewOk(v) && v.role == InLine;
    u :| u in BlockedThreads(v.threads);
  }

  // An acquire that finds no owner takes the lock in two steps, unseen by other clients.
  lemma EarlyTake(s: LockState, th: Thread, w: ClientId)
    requires Enabled(s, Serve(th)) && s.entry.owner.None? && w in s.cache && th.client != w
    ensures var s1 := Next(s, Serve(th));
            && Enabled(s1, Return(th))
            && var s2 := Next(s1, Return(th));
               && In(s2, th, Holding) && Threads(s2, w) == Threads(s, w) && w in s2.cache && s2.cache[w] == s.cache[w]
               && s2.handoff == s.handoff && s2.entry.waiting == s.entry.waiting
  {
  }

  lemma EarlyGrantUnsafe(s: LockState, th: Thread)
    requires Inv(s) && Enabled(s, Serve(th)) && RetryQueued in s.handoff
    ensures !Safe(Next(s, Serve(th)))
  {
    var w, u := FrontIsReady(s);
    AnswerKeeps(ViewOf(s, th.client), th.id, OK);
    EarlyTake(s, th, w);
    var s1 := Next(s, Serve(th));
    var s2 := Next(s1, Return(th));
    var evs := RetryReachesHolder(s2, w, u);
    Prepend(s1, Return(th), evs);
    var end := After(s1, [Return(th)] + evs);
    assert In(end, th, Holding) && In(end, Thread(w, u), Holding);
  }

  lemma HandoverConditionExact(evs: seq<Event>, th: Thread)
    requires Run(INIT, evs) && Enabled(After(INIT, evs), Serve(th))
    ensures var s := After(INIT, evs); Guarded(s, Serve(th)) <==> Safe(Next(s, Serve(th)))
  {
    var s := After(INIT, evs);
    Reached(evs);
    if Guarded(s, Serve(th)) {
      EventKeeps(s, Serve(th));
      forall more | Run(Next(s, Serve(th)), more) ensures Exclusive(After(Next(s, Serve(th)), more)) {
        RunKeeps(Next(s, Serve(th)), more);
        InvExcludes(After(Next(s, Serve(th)), more));
      }
    } else {
      EarlyGrantUnsafe(s, th);
    }
  }

  // ---- A concrete run that breaks the condition ----

  // Client 1 held the lock, was revoked for client 2 and has released it; client 3 asks.
  const A := Thread(1, 1)
  const B := Thread(2, 1)
  const C := Thread(3, 1)

  // A first client gets the lock in three steps.
  lemma FirstHolder() returns (evs: seq<Event>)
    ensures Run(INIT, evs)
    ensures After(INIT, evs) == LockState(LockEntry(Some(1), []),
                                          map[1 := CacheLock(LOCKED, Some(1), false, false, false, 0)],
                                          map[1 := map[1 := Holding]], [], multiset{})
  {
    var s1 := Next(INIT, Enter(A));
    var s2 := Next(s1, Serve(A));
    Prepend(s2, Return(A), []);
    Prepend(s1, Serve(A), [Return(A)] + []);
    Prepend(INIT, Enter(A), [Serve(A)] + ([Return(A)] + []));
    evs := [Enter(A)] + ([Serve(A)] + ([Return(A)] + []));
    var s3 := Next(s2, Return(A));
    assert s3.cache == map[1 := CacheLock(LOCKED, Some(1), false, false, false, 0)];
    assert Threads(s3, 1) == map[1 := Holding];
    assert s3.threads == map[1 := map[1 := Holding]];
  }

  // Client 1 holds and client 2 has been put in line.
  lemma ContendedPrefix() returns (evs: seq<Event>)
    ensures Run(INIT, evs)
    ensures var s := After(INIT, evs);
            && s.entry == LockEntry(Some(1), [2]) && s.handoff == [RevokeQueued]
            && 1 in s.cache && s.cache[1].state == LOCKED && s.cache[1].owner == Some(1) && s.cache[1].waitThreads == 0
            && In(s, A, Holding) && Outside(s, C) && St(s, 3) == NONE
  {
    var first := FirstHolder();
    var s3 := After(INIT, first);
    var s4 := Next(s3, Enter(B));
    Prepend(s4, Serve(B), []);
    Prepend(s3, Enter(B), [Serve(B)] + []);
    Join(INIT, first, s3, [Enter(B)] + ([Serve(B)] + []));
    evs := first + ([Enter(B)] + ([Serve(B)] + []));
  }

  // A free lock is revoked in three steps, and released in three more when nobody waits locally.
  lemma RevokedInThree(s: LockState, c: ClientId) returns (evs: seq<Event>)
    requires s.handoff == [RevokeQueued] && s.entry.owner == Some(c) && s.entry.waiting != []
    requires c in s.cache && s.cache[c].state == FREE
    ensures Run(s, evs)
    ensures After(s, evs) == s.(handoff := [ReleaseQueued(c)], acks := s.acks + multiset{RevokeAck(OK)},
                                cache := s.cache[c := s.cache[c].(ifRevoke := false, state := RELEASING)])
  {
    var h := Handle(0);
    var s1 := Next(s, h);
    assert s1 == s.(handoff := [RevokeScheduled]);
    var s2 := Next(s1, h);
    assert s2 == s.(handoff := [RevokeCalled(c)]);
    Prepend(s2, h, []);
    Prepend(s1, h, [h] + []);
    Prepend(s, h, [h] + ([h] + []));
    evs := [h] + ([h] + ([h] + []));
  }

  lemma ReleasedInThree(s: LockState, c: ClientId) returns (evs: seq<Event>)
    requires s.handoff == [ReleaseQueued(c)] && s.entry.owner == Some(c)
    requires c in s.cache && s.cache[c].state == RELEASING && s.cache[c].waitThreads == 0
    ensures Run(s, evs) && After(s, evs).handoff == [RetryQueued]
    ensures After(s, evs).threads == s.threads && forall d :: d != c ==> Cached(After(s, evs), d) == Cached(s, d)
  {
    var h := Handle(0);
    var s1 := Next(s, h);
    assert s1 == s.(handoff := [ReleaseScheduled(c)]);
    var s2 := Next(s1, h);
    assert s2.handoff == [ReleaseCalled(c)] && s2.entry == s.entry;
    Prepend(s2, h, []);
    Prepend(s1, h, [h] + []);
    Prepend(s, h, [h] + ([h] + []));
    evs := [h] + ([h] + ([h] + []));
  }

  // From there client 1 is revoked and its release served.
  lemma HandedBack() returns (evs: seq<Event>)
    ensures Run(INIT, evs)
    ensures var s := After(INIT, evs); s.handoff == [RetryQueued] && Outside(s, C) && St(s, 3) == NONE
  {
    var start := ContendedPrefix();
    var s0 := After(INIT, start);
    var s1 := Next(s0, Leave(A));
    var revoke := RevokedInThree(s1, 1);
    var mid := After(s1, revoke);
    var release := ReleasedInThree(mid, 1);
    Join(s1, revoke, mid, release);
    Prepend(s0, Leave(A), revoke + release);
    evs := start + ([Leave(A)] + (revoke + release));
    Join(INIT, start, s0, [Leave(A)] + (revoke + release));
  }

  // Client 3's acquire is then pending, and serving it is not safe.
  lemma HandoverRaceReached() returns (evs: seq<Event>)
    ensures Run(INIT, evs) && Enabled(After(INIT, evs), Serve(C)) && !Safe(Next(After(INIT, evs), Serve(C)))
  {
    var back := HandedBack();
    var s := After(INIT, back);
    Prepend(s, Enter(C), []);
    evs := back + ([Enter(C)] + []);
    Join(INIT, back, s, [Enter(C)] + []);
    assert After(INIT, evs) == Next(s, Enter(C));
    HandoverConditionExact(evs, C);
  }
}
