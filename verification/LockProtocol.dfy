/** The caching lock protocol for one lock, with any number of clients and threads.

    One event is one mutex-held region of lock_server_cache.cc or lock_client_cache.cc, or
    the delivery of an RPC.  RPCs are reliable: each call reaches its handler once and
    returns the handler's own status, at any later time and in any order. */
module LockProtocol {
  import opened Basics
  import opened LockServer
  import opened LockClient

  datatype Thread = Thread(client: ClientId, id: ThreadId)

  // Where a thread is between its call of acquire and its release; absent means outside.
  datatype Phase = Waiting | Requesting | Replied(status: Status) | Holding

  // Work of the revoker, the releasers and the retryer that is queued, scheduled or called.
  datatype Msg =
    | RevokeQueued                        // id in revoker_queue
    | RevokeScheduled                     // revoker_rpc in the job pool
    | RevokeCalled(client: ClientId)      // revoke RPC on its way to the owner read by the job
    | RevokeBlocked(client: ClientId)     // revoke_handler waits for FREE
    | ReleaseQueued(client: ClientId)     // id in releaser_queue of the client
    | ReleaseScheduled(client: ClientId)  // releaser_rpc in the client's job pool
    | ReleaseTimed(client: ClientId)      // releaser_rpc in its timed wait
    | ReleaseCalled(client: ClientId)     // release RPC on its way to the server
    | RetryQueued                         // id in retryer_queue
    | RetryScheduled                      // retryer_rpc in the job pool
    | RetryCalled(client: ClientId)       // retry RPC on its way to the owner read by the job
    | RetryReplied(status: Status)        // its answer on the way back

  // Answers of revoke and release RPCs on their way back.
  datatype Ack = RevokeAck(status: Status) | ReleaseAck(client: ClientId, status: Status)

  datatype LockState = LockState(
    entry: LockEntry,
    cache: map<ClientId, CacheLock>,
    threads: map<ClientId, map<ThreadId, Phase>>,
    handoff: seq<Msg>,       // in no particular order; an event names a position
    acks: multiset<Ack>)

  const INIT := LockState(FRESH_ENTRY, map[], map[], [], multiset{})

  datatype Event =
    | Enter(th: Thread)    // thread calls acquire
    | Wake(th: Thread)     // thread leaves pthread_cond_wait in acquire
    | Serve(th: Thread)    // server handles the thread's acquire RPC
    | Return(th: Thread)   // the acquire RPC returns to the thread
    | Leave(th: Thread)    // thread calls release
    | Handle(i: nat)       // the work item at position i takes its next step
    | Absorb(a: Ack)       // a revoke or release RPC returns to its caller

  function Cached(s: LockState, c: ClientId): CacheLock {
    Lookup(s.cache, c, FRESH_LOCK)
  }

  function St(s: LockState, c: ClientId): LockPhase {
    Cached(s, c).state
  }

  function Threads(s: LockState, c: ClientId): map<ThreadId, Phase> {
    Lookup(s.threads, c, map[])
  }

  predicate Outside(s: LockState, th: Thread) {
    th.id !in Threads(s, th.client)
  }

  predicate In(s: LockState, th: Thread, p: Phase) {
    !Outside(s, th) && Threads(s, th.client)[th.id] == p
  }

  predicate Enabled(s: LockState, ev: Event) {
    match ev
    case Enter(th) => Outside(s, th)   // a thread that holds the lock does not ask again
    case Wake(th) => In(s, th, Waiting)
    case Serve(th) => In(s, th, Requesting)
    case Return(th) => !Outside(s, th) && Threads(s, th.client)[th.id].Replied?
    case Leave(th) => Outside(s, th) || In(s, th, Holding)
    case Handle(i) => i < |s.handoff|
    case Absorb(a) => a in s.acks
  }

  // The handover condition: no acquire is served while the lock's id is in retryer_queue.
  predicate Guarded(s: LockState, ev: Event) {
    ev.Serve? ==> RetryQueued !in s.handoff
  }

  function PhaseOf(p: Progress): Phase {
    match p
    case Took => Holding
    case Blocks => Waiting
    case Calls => Requesting
  }

  function SetCache(s: LockState, c: ClientId, k: CacheLock): LockState {
    s.(cache := s.cache[c := k])
  }

  function SetPhase(s: LockState, th: Thread, p: Phase): LockState {
    s.(threads := s.threads[th.client := Threads(s, th.client)[th.id := p]])
  }

  function SetThread(s: LockState, th: Thread, a: Acquired): LockState {
    SetCache(SetPhase(s, th, PhaseOf(a.progress)), th.client, a.entry)
  }

  function Emit(s: LockState, m: Msg): LockState {
    s.(handoff := s.handoff + [m])
  }

  function Answer(s: LockState, a: Ack): LockState {
    s.(acks := s.acks + multiset{a})
  }

  function Apply(s: LockState, o: Outcome): LockState {
    var s1 := s.(entry := o.entry);
    match o.push
    case NoPush => s1
    case PushRevoke => Emit(s1, RevokeQueued)
    case PushRetry => Emit(s1, RetryQueued)
  }

  // Effect of revoke_handler once it has (through) or has not got past its wait loop.
  function Revoking(s: LockState, c: ClientId, r: (CacheLock, bool)): LockState {
    var s1 := SetCache(s, c, r.0);
    if r.1 then Answer(Emit(s1, ReleaseQueued(c)), RevokeAck(OK)) else Emit(s1, RevokeBlocked(c))
  }

  // Next step of work item m, already taken out of s.
  function Deliver(s: LockState, m: Msg): LockState {
    match m
    case RevokeQueued => if |s.entry.waiting| > 0 then Emit(s, RevokeScheduled) else s
    case RevokeScheduled =>
      if s.entry.owner.Some? then Emit(s, RevokeCalled(s.entry.owner.value)) else Answer(s, RevokeAck(RPCERR))
    case RevokeCalled(c) =>
      if c in s.cache then Revoking(s, c, RevokeArrives(s.cache[c])) else Answer(s, RevokeAck(RPCERR))
    case RevokeBlocked(c) => Revoking(s, c, RevokeWoken(Cached(s, c)))
    case ReleaseQueued(c) => Emit(s, ReleaseScheduled(c))
    case ReleaseScheduled(c) =>
      var (k, calls) := ReleaserStarts(Cached(s, c));
      Emit(SetCache(s, c, k), if calls then ReleaseCalled(c) else ReleaseTimed(c))
    case ReleaseTimed(c) =>
      var (k, calls) := ReleaserWoken(Cached(s, c));
      Emit(SetCache(s, c, k), if calls then ReleaseCalled(c) else ReleaseTimed(c))
    case ReleaseCalled(c) =>
      var o := ReleaseEntry(s.entry, c);
      Answer(Apply(s, o), ReleaseAck(c, o.status))
    case RetryQueued =>
      var s1 := s.(entry := HandOver(s.entry));
      if |s.entry.waiting| > 0 then Emit(s1, RetryScheduled) else s1
    case RetryScheduled =>
      Emit(s, if s.entry.owner.Some? then RetryCalled(s.entry.owner.value) else RetryReplied(RPCERR))
    case RetryCalled(c) =>
      if c in s.cache then
        var (k, st) := RetryArrives(s.cache[c]);
        Emit(SetCache(s, c, k), RetryReplied(st))
      else Emit(s, RetryReplied(RPCERR))
    case RetryReplied(st) => Apply(s, RetryAnswered(s.entry, st))
  }

  function Received(s: LockState, a: Ack): LockState {
    match a
    case RevokeAck(st) => if RevokeAnswered(st) == PushRevoke then Emit(s, RevokeQueued) else s
    case ReleaseAck(c, st) =>
      var (k, again) := ReleaseAnswered(Cached(s, c), st);
      var s1 := SetCache(s, c, k);
      if again then Emit(s1, ReleaseQueued(c)) else s1
  }

  function Served(s: LockState, th: Thread): LockState {
    var o := AcquireEntry(s.entry, th.client);
    SetPhase(Apply(s, o), th, Replied(o.status))
  }

  function Left(s: LockState, th: Thread): LockState {
    if th.client !in s.cache then s
    else
      var (k, st) := ReleaseLock(s.cache[th.client], th.id);
      if st != OK then s
      else SetCache(s, th.client, k).(threads := s.threads[th.client := Threads(s, th.client) - {th.id}])
  }

  function Next(s: LockState, ev: Event): LockState
    requires Enabled(s, ev)
  {
    match ev
    case Enter(th) => SetThread(s, th, EnterAcquire(Cached(s, th.client), th.id))
    case Wake(th) => SetThread(s, th, Settle(Cached(s, th.client), th.id))
    case Serve(th) => Served(s, th)
    case Return(th) =>
      SetThread(s, th, AcquireAnswered(Cached(s, th.client), th.id, Threads(s, th.client)[th.id].status))
    case Leave(th) => Left(s, th)
    case Handle(i) => Deliver(s.(handoff := RemoveAt(s.handoff, i)), s.handoff[i])
    case Absorb(a) => Received(s.(acks := s.acks - multiset{a}), a)
  }

  // A run is a sequence of events, each enabled and meeting the handover condition.
  predicate Run(s: LockState, evs: seq<Event>)
    decreases |evs|
  {
    evs == [] || (Enabled(s, evs[0]) && Guarded(s, evs[0]) && Run(Next(s, evs[0]), evs[1..]))
  }

  function After(s: LockState, evs: seq<Event>): LockState
    requires Run(s, evs)
    decreases |evs|
  {
    if evs == [] then s else After(Next(s, evs[0]), evs[1..])
  }

  // ---- The invariant ----

  // The handoff under way, seen from the server: consistent with owner and waiting list.
  ghost predicate TokenOk(s: LockState, m: Msg)
    requires s.entry.waiting != []
  {
    var e := s.entry;
    match m
    case RevokeQueued => e.owner.Some? && e.owner.value !in e.waiting
    case RevokeScheduled => e.owner.Some? && e.owner.value !in e.waiting
    case RevokeCalled(c) => e.owner == Some(c) && c !in e.waiting
    case RevokeBlocked(c) => e.owner == Some(c) && c !in e.waiting
    case ReleaseQueued(c) => e.owner == Some(c) && c !in e.waiting
    case ReleaseScheduled(c) => e.owner == Some(c) && c !in e.waiting
    case ReleaseTimed(c) => e.owner == Some(c) && c !in e.waiting
    case ReleaseCalled(c) => e.owner == Some(c) && c !in e.waiting
    case RetryQueued => e.owner == None
    case RetryScheduled => e.owner == Some(e.waiting[0])
    case RetryCalled(c) => e.owner == Some(c) && c == e.waiting[0]
    case RetryReplied(st) => st == OK && e.owner == Some(e.waiting[0])
  }

  // Exactly one handoff is under way when some client waits, and none otherwise.
  ghost predicate TokenInv(s: LockState) {
    && |s.handoff| <= 1
    && (s.handoff == [] <==> s.entry.waiting == [])
    && (s.handoff != [] ==> TokenOk(s, s.handoff[0]))
    && NoDup(s.entry.waiting)
    && (forall a :: a in s.acks ==> a.status == OK)
  }

  // Clients that wait at the server and have not yet been told to retry.
  function Queue(s: LockState): seq<ClientId> {
    if |s.handoff| == 1 && s.handoff[0].RetryReplied? && s.entry.waiting != [] then s.entry.waiting[1..]
    else s.entry.waiting
  }

  // What a client is to the server and to the handoff under way.
  datatype Role = Stranger | InLine | Owner | Revoked | Draining | Releasing

  function RoleOf(s: LockState, c: ClientId): Role {
    if c in Queue(s) then InLine
    else if s.entry.owner != Some(c) then Stranger
    else if s.handoff == [RevokeBlocked(c)] then Revoked
    else if s.handoff == [ReleaseTimed(c)] then Draining
    else if s.handoff == [ReleaseQueued(c)] || s.handoff == [ReleaseScheduled(c)]
            || s.handoff == [ReleaseCalled(c)] then Releasing
    else Owner
  }

  datatype ClientView = ClientView(lock: CacheLock, threads: map<ThreadId, Phase>, role: Role, acks: nat)

  function ViewOf(s: LockState, c: ClientId): ClientView {
    ClientView(Cached(s, c), Threads(s, c), RoleOf(s, c), s.acks[ReleaseAck(c, OK)])
  }

  predicate Calling(p: Phase) {
    p == Requesting || p == Replied(OK)
  }

  ghost predicate NoCaller(m: map<ThreadId, Phase>) {
    forall t :: t in m ==> !Calling(m[t])
  }

  ghost predicate OneCaller(m: map<ThreadId, Phase>, p: Phase) {
    exists t :: t in m && m[t] == p && forall u :: u in m && u != t ==> !Calling(m[u])
  }

  function BlockedThreads(m: map<ThreadId, Phase>): set<ThreadId> {
    set t | t in m && m[t] != Holding
  }

  ghost predicate ThreadsOk(v: ClientView) {
    && (forall t :: t in v.threads && v.threads[t].Replied? ==>
          v.threads[t].status == OK || v.threads[t].status == RETRY)
    && (forall t :: t in v.threads && v.threads[t] == Holding ==> v.lock.state == LOCKED && v.lock.owner == Some(t))
    && (v.lock.state == LOCKED ==>
          v.lock.owner.Some? && v.lock.owner.value in v.threads && v.threads[v.lock.owner.value] == Holding)
    && v.lock.waitThreads == |BlockedThreads(v.threads)|
  }

  // The state a client's cache may be in, given its role.
  ghost predicate StateOk(v: ClientView) {
    match v.lock.state
    case NONE => v.role == Stranger && v.acks == 0 && NoCaller(v.threads)
    case ACQUIRING =>
      && v.acks == 0
      && (match v.role
          case Stranger => OneCaller(v.threads, Requesting)
          case InLine => NoCaller(v.threads) && BlockedThreads(v.threads) != {}
          case Owner => OneCaller(v.threads, Replied(OK))
          case Revoked => OneCaller(v.threads, Replied(OK))
          case _ => false)
    case RELEASING =>
      && NoCaller(v.threads)
      && ((v.role == Releasing && v.acks == 0) || (v.role == Stranger && v.acks == 1))
    case _ => (v.role == Owner || v.role == Revoked || v.role == Draining) && v.acks == 0 && NoCaller(v.threads)
  }

  ghost predicate ViewOk(v: ClientView) {
    && ThreadsOk(v)
    && StateOk(v)
    && (v.lock.ifRevoke <==> v.role == Revoked)
    && (v.lock.ifRelease <==> v.role == Draining)
    && (v.lock.ifTimeout ==> v.lock.ifRelease)
  }

  ghost predicate Inv(s: LockState) {
    TokenInv(s) && forall c :: ViewOk(ViewOf(s, c))
  }

  // ---- Steps inside one client ----

  lemma BlockedChange(m: map<ThreadId, Phase>, t: ThreadId, p: Phase)
    ensures BlockedThreads(m[t := p]) == if p == Holding then BlockedThreads(m) - {t} else BlockedThreads(m) + {t}
  {
  }

  lemma CallerStays(m: map<ThreadId, Phase>, t: ThreadId, p: Phase, q: Phase)
    requires OneCaller(m, q) && Calling(q) && !Calling(p) && (t in m ==> !Calling(m[t]))
    ensures OneCaller(m[t := p], q)
  {
    var u :| u in m && m[u] == q && forall w :: w in m && w != u ==> !Calling(m[w]);
    var m' := m[t := p];
    assert u in m' && m'[u] == q;
  }

  lemma CallerArrives(m: map<ThreadId, Phase>, t: ThreadId, p: Phase)
    requires Calling(p) && forall u :: u in m && u != t ==> !Calling(m[u])
    ensures OneCaller(m[t := p], p)
  {
    assert m[t := p][t] == p;
  }

  // A thread outside, or back from a wait or a refusal.
  ghost predicate Idle(v: ClientView, t: ThreadId) {
    t in v.threads ==> v.threads[t] == Waiting || v.threads[t] == Replied(RETRY)
  }

  function Moved(v: ClientView, t: ThreadId, a: Acquired): ClientView {
    v.(lock := a.entry, threads := v.threads[t := PhaseOf(a.progress)])
  }

  // The view with waitThreads set to the number of blocked threads.
  function Counted(v: ClientView): ClientView {
    v.(lock := v.lock.(waitThreads := |BlockedThreads(v.threads)|))
  }

  lemma TakeKeeps(v: ClientView, t: ThreadId)
    requires ViewOk(Counted(v)) && v.lock.waitThreads == |BlockedThreads(v.threads) + {t}|
    requires (Idle(v, t) && v.lock.state == FREE) || (t in v.threads && v.threads[t] == Replied(OK))
    ensures ViewOk(Moved(v, t, Acquired(Take(v.lock, t), Took)))
  {
    BlockedChange(v.threads, t, Holding);
    var b := BlockedThreads(v.threads);
    assert b + {t} - {t} == b - {t};
    assert |b + {t} - {t}| == |b + {t}| - 1;
  }

  lemma CallKeeps(v: ClientView, t: ThreadId)
    requires ViewOk(Counted(v)) && v.lock.waitThreads == |BlockedThreads(v.threads) + {t}|
    requires Idle(v, t) && v.lock.state == NONE
    ensures ViewOk(Moved(v, t, Acquired(v.lock.(state := ACQUIRING), Calls)))
  {
    BlockedChange(v.threads, t, Requesting);
    CallerArrives(v.threads, t, Requesting);
  }

  lemma BlockKeeps(v: ClientView, t: ThreadId)
    requires ViewOk(Counted(v)) && v.lock.waitThreads == |BlockedThreads(v.threads) + {t}|
    requires Idle(v, t) && v.lock.state != NONE && v.lock.state != FREE
    ensures ViewOk(Moved(v, t, Acquired(v.lock, Blocks)))
  {
    BlockedChange(v.threads, t, Waiting);
    if v.lock.state == ACQUIRING {
      if v.role == Stranger { CallerStays(v.threads, t, Waiting, Requesting); }
      if v.role == Owner || v.role == Revoked { CallerStays(v.threads, t, Waiting, Replied(OK)); }
    }
  }

  // The wait loop keeps a view sound once the thread has been counted in waitThreads.
  lemma SettleKeeps(v: ClientView, t: ThreadId)
    requires ViewOk(Counted(v)) && v.lock.waitThreads == |BlockedThreads(v.threads) + {t}|
    requires Idle(v, t)
    ensures ViewOk(Moved(v, t, Settle(v.lock, t)))
  {
    if v.lock.state == FREE {
      TakeKeeps(v, t);
    } else if v.lock.state == NONE {
      CallKeeps(v, t);
    } else {
      BlockKeeps(v, t);
    }
  }

  lemma LeaveKeeps(v: ClientView, t: ThreadId)
    requires ViewOk(v) && t in v.threads && v.threads[t] == Holding
    ensures ReleaseLock(v.lock, t).1 == OK
    ensures ViewOk(v.(lock := ReleaseLock(v.lock, t).0, threads := v.threads - {t}))
  {
    assert BlockedThreads(v.threads - {t}) == BlockedThreads(v.threads);
  }

  // An acquire RPC is answered by the server: the caller becomes owner or joins the line.
  lemma AnswerKeeps(v: ClientView, t: ThreadId, st: Status)
    requires ViewOk(v) && t in v.threads && v.threads[t] == Requesting
    requires st == OK || st == RETRY
    ensures v.role == Stranger
    ensures ViewOk(v.(threads := v.threads[t := Replied(st)], role := if st == OK then Owner else InLine))
  {
    BlockedChange(v.threads, t, Replied(st));
    assert BlockedThreads(v.threads) + {t} == BlockedThreads(v.threads);
    assert t in BlockedThreads(v.threads);
    if st == OK { CallerArrives(v.threads, t, Replied(OK)); }
  }

  // The handlers and the releaser act on a client's record.

  lemma RevokeKeeps(v: ClientView)
    requires ViewOk(v) && (v.role == Owner || v.role == Revoked)
    ensures var (k, through) := RevokeWoken(v.lock.(ifRevoke := true));
            ViewOk(v.(lock := k, role := if through then Releasing else Revoked))
  {
  }

  lemma ReleaserKeeps(v: ClientView)
    requires ViewOk(v) && (v.role == Releasing || v.role == Draining)
    ensures v.role == Releasing ==>
              && v.lock.state == RELEASING
              && var (k, calls) := ReleaserStarts(v.lock);
                 ViewOk(v.(lock := k, role := if calls then Releasing else Draining))
    ensures v.role == Draining ==>
              var (k, calls) := ReleaserWoken(v.lock);
              ViewOk(v.(lock := k, role := if calls then Releasing else Draining))
  {
  }

  lemma ReleaseKeeps(v: ClientView)
    requires ViewOk(v)
    ensures v.role == Releasing ==> ViewOk(v.(role := Stranger, acks := v.acks + 1))
    ensures v.acks > 0 ==>
              && v.lock.state == RELEASING && !v.lock.ifRevoke
              && ViewOk(v.(lock := ReleaseAnswered(v.lock, OK).0, acks := v.acks - 1))
  {
  }

  lemma RetryKeeps(v: ClientView)
    requires ViewOk(v) && v.role == InLine
    ensures RetryArrives(v.lock).1 == OK
    ensures ViewOk(v.(lock := RetryArrives(v.lock).0, role := Owner))
  {
  }

  // ---- Every event keeps the invariant ----

  // Only the view of c may differ between s and s'.
  ghost predicate OthersSame(s: LockState, s': LockState, c: ClientId) {
    forall d :: d != c ==> ViewOf(s', d) == ViewOf(s, d)
  }

  lemma OneClientMoved(s: LockState, s': LockState, c: ClientId)
    requires Inv(s) && TokenInv(s') && OthersSame(s, s', c) && ViewOk(ViewOf(s', c))
    ensures Inv(s')
  {
    forall d ensures ViewOk(ViewOf(s', d)) {
      if d != c { assert ViewOf(s', d) == ViewOf(s, d); }
    }
  }

  lemma SameRoles(s: LockState, s': LockState)
    requires s'.entry == s.entry && s'.handoff == s.handoff
    ensures forall d :: RoleOf(s', d) == RoleOf(s, d)
  {
  }

  lemma SameToken(s: LockState, s': LockState)
    requires TokenInv(s) && s'.entry == s.entry && s'.handoff == s.handoff && s'.acks == s.acks
    ensures TokenInv(s')
  {
  }

  lemma ThreadMoved(s: LockState, th: Thread, a: Acquired)
    requires Inv(s) && ViewOk(Moved(ViewOf(s, th.client), th.id, a))
    ensures Inv(SetThread(s, th, a))
  {
    var s' := SetThread(s, th, a);
    SameRoles(s, s');
    SameToken(s, s');
    assert OthersSame(s, s', th.client);
    assert ViewOf(s', th.client) == Moved(ViewOf(s, th.client), th.id, a);
    OneClientMoved(s, s', th.client);
  }

  lemma EnterKeeps(s: LockState, th: Thread)
    requires Inv(s) && Outside(s, th)
    ensures Inv(Next(s, Enter(th)))
  {
    var v := ViewOf(s, th.client);
    var v1 := v.(lock := v.lock.(waitThreads := v.lock.waitThreads + 1));
    assert Counted(v1) == v;
    SettleKeeps(v1, th.id);
    assert EnterAcquire(v.lock, th.id) == Settle(v1.lock, th.id);
    assert Moved(v1, th.id, EnterAcquire(v.lock, th.id)) == Moved(v, th.id, EnterAcquire(v.lock, th.id));
    ThreadMoved(s, th, EnterAcquire(v.lock, th.id));
  }

  lemma WakeKeeps(s: LockState, th: Thread)
    requires Inv(s) && Enabled(s, Wake(th))
    ensures Inv(Next(s, Wake(th)))
  {
    var v := ViewOf(s, th.client);
    assert Counted(v) == v && BlockedThreads(v.threads) + {th.id} == BlockedThreads(v.threads);
    SettleKeeps(v, th.id);
    ThreadMoved(s, th, Settle(v.lock, th.id));
  }

  lemma ReturnKeeps(s: LockState, th: Thread)
    requires Inv(s) && Enabled(s, Return(th))
    ensures Inv(Next(s, Return(th)))
  {
    var v := ViewOf(s, th.client);
    var st := v.threads[th.id].status;
    assert Counted(v) == v && BlockedThreads(v.threads) + {th.id} == BlockedThreads(v.threads);
    if st == RETRY { SettleKeeps(v, th.id); } else { TakeKeeps(v, th.id); }
    ThreadMoved(s, th, AcquireAnswered(v.lock, th.id, st));
  }

  lemma LeaveEventKeeps(s: LockState, th: Thread)
    requires Inv(s) && Enabled(s, Leave(th))
    ensures Inv(Next(s, Leave(th)))
    ensures In(s, th, Holding) ==> Outside(Next(s, Leave(th)), th)
  {
    var v := ViewOf(s, th.client);
    if In(s, th, Holding) {
      LeaveKeeps(v, th.id);
      var s' := Next(s, Leave(th));
      assert ViewOf(s', th.client) == v.(lock := ReleaseLock(v.lock, th.id).0, threads := v.threads - {th.id});
      OneClientMoved(s, s', th.client);
    }
  }

  lemma GrantKeeps(s: LockState, th: Thread)
    requires Inv(s) && Enabled(s, Serve(th)) && Guarded(s, Serve(th)) && s.entry.owner.None?
    ensures Inv(Next(s, Serve(th)))
  {
    var s', c := Next(s, Serve(th)), th.client;
    AnswerKeeps(ViewOf(s, c), th.id, OK);
    assert s.handoff == [] && s'.handoff == [];
    assert forall d :: d != c ==> RoleOf(s', d) == RoleOf(s, d);
    assert ViewOf(s', c) == ViewOf(s, c).(threads := Threads(s, c)[th.id := Replied(OK)], role := Owner);
    OneClientMoved(s, s', c);
  }

  lemma RefuseToken(s: LockState, th: Thread)
    requires Inv(s) && Enabled(s, Serve(th)) && s.entry.owner.Some?
    ensures var s' := Next(s, Serve(th));
            && TokenInv(s') && Queue(s') == Queue(s) + [th.client]
            && s'.handoff == if s.handoff != [] then s.handoff else [RevokeQueued]
  {
    var s', c := Next(s, Serve(th)), th.client;
    AnswerKeeps(ViewOf(s, c), th.id, RETRY);
    assert c !in s.entry.waiting;
    assert s'.entry.waiting == s.entry.waiting + [c];
  }

  lemma RefuseRoles(s: LockState, s': LockState, c: ClientId)
    requires s'.entry.owner == s.entry.owner && Queue(s') == Queue(s) + [c]
    requires s'.handoff == s.handoff || (s.handoff == [] && s'.handoff == [RevokeQueued])
    ensures forall d :: d != c ==> RoleOf(s', d) == RoleOf(s, d)
    ensures RoleOf(s', c) == InLine
  {
  }

  lemma RefuseKeeps(s: LockState, th: Thread)
    requires Inv(s) && Enabled(s, Serve(th)) && s.entry.owner.Some?
    ensures Inv(Next(s, Serve(th)))
  {
    var s', c := Next(s, Serve(th)), th.client;
    RefuseToken(s, th);
    AnswerKeeps(ViewOf(s, c), th.id, RETRY);
    RefuseRoles(s, s', c);
    assert ViewOf(s', c) == ViewOf(s, c).(threads := Threads(s, c)[th.id := Replied(RETRY)], role := InLine);
    OneClientMoved(s, s', c);
  }

  // The state with its one work item taken out, and that item's next step.
  function Step(s: LockState, m: Msg): LockState {
    Deliver(s.(handoff := []), m)
  }

  // Clients other than the owner are in line or strangers, whatever the handoff does.
  lemma OthersUnaware(s: LockState, s': LockState, c: ClientId)
    requires s.entry.owner == Some(c) && (s'.entry.owner == Some(c) || s'.entry.owner == None)
    requires Queue(s') == Queue(s)
    requires forall d :: d != c ==> Cached(s', d) == Cached(s, d)
    requires s'.threads == s.threads && forall d :: d != c ==> s'.acks[ReleaseAck(d, OK)] == s.acks[ReleaseAck(d, OK)]
    ensures OthersSame(s, s', c)
  {
  }

  predicate ServerWork(m: Msg) {
    m in {RevokeQueued, RevokeScheduled, RetryQueued, RetryScheduled} || m.RetryReplied? || m.ReleaseQueued?
  }

  lemma ServerWorkToken(s: LockState, m: Msg)
    requires Inv(s) && s.handoff == [m] && ServerWork(m)
    ensures TokenInv(Step(s, m))
  {
  }

  lemma ServerWorkRoles(s: LockState, m: Msg)
    requires Inv(s) && s.handoff == [m] && ServerWork(m)
    ensures forall c :: RoleOf(Step(s, m), c) == RoleOf(s, c)
  {
    var s' := Step(s, m);
    assert Queue(s') == Queue(s);
  }

  // Work that stays inside the server, or moves through a queue: no client notices.
  lemma ServerWorkKeeps(s: LockState, m: Msg)
    requires Inv(s) && s.handoff == [m]
    requires ServerWork(m)
    ensures Inv(Step(s, m))
  {
    ServerWorkToken(s, m);
    ServerWorkRoles(s, m);
    var s' := Step(s, m);
    forall c ensures ViewOk(ViewOf(s', c)) {
      assert ViewOf(s', c) == ViewOf(s, c);
    }
  }

  lemma RevokeStepKeeps(s: LockState, m: Msg)
    requires Inv(s) && s.handoff == [m] && (m.RevokeCalled? || m.RevokeBlocked?)
    ensures Inv(Step(s, m))
  {
    var s', c := Step(s, m), m.client;
    var v := ViewOf(s, c);
    var r := RevokeWoken(v.lock.(ifRevoke := true));
    assert v.role == if m.RevokeBlocked? then Revoked else Owner;
    assert c in s.cache;
    RevokeKeeps(v);
    assert s' == Revoking(s.(handoff := []), c, r);
    RevokingKeeps(s, c, r);
  }

  lemma RevokingKeeps(s: LockState, c: ClientId, r: (CacheLock, bool))
    requires Inv(s) && |s.handoff| == 1 && !s.handoff[0].RetryReplied?
    requires s.entry.owner == Some(c) && c !in s.entry.waiting
    requires ViewOk(ViewOf(s, c).(lock := r.0, role := if r.1 then Releasing else Revoked))
    ensures Inv(Revoking(s.(handoff := []), c, r))
  {
    var s' := Revoking(s.(handoff := []), c, r);
    assert s'.handoff == [if r.1 then ReleaseQueued(c) else RevokeBlocked(c)];
    OthersUnaware(s, s', c);
    assert ViewOf(s', c) == ViewOf(s, c).(lock := r.0, role := if r.1 then Releasing else Revoked);
    OneClientMoved(s, s', c);
  }

  lemma ReleaserStepKeeps(s: LockState, m: Msg)
    requires Inv(s) && s.handoff == [m] && (m.ReleaseScheduled? || m.ReleaseTimed?)
    ensures Inv(Step(s, m))
  {
    var s', c := Step(s, m), m.client;
    ReleaserKeeps(ViewOf(s, c));
    OthersUnaware(s, s', c);
    OneClientMoved(s, s', c);
  }

  lemma ReleaseStepKeeps(s: LockState, m: Msg)
    requires Inv(s) && s.handoff == [m] && m.ReleaseCalled?
    ensures ReleaseEntry(s.entry, m.client).status == OK
    ensures Inv(Step(s, m))
  {
    var s', c := Step(s, m), m.client;
    ReleaseKeeps(ViewOf(s, c));
    OthersUnaware(s, s', c);
    OneClientMoved(s, s', c);
  }

  lemma RetryStepKeeps(s: LockState, m: Msg)
    requires Inv(s) && s.handoff == [m] && m.RetryCalled?
    ensures Inv(Step(s, m))
  {
    var s', c := Step(s, m), m.client;
    RetryKeeps(ViewOf(s, c));
    assert TokenInv(s');
    assert OthersSame(s, s', c);
    OneClientMoved(s, s', c);
  }

  lemma AbsorbRevokeKeeps(s: LockState, a: Ack)
    requires Inv(s) && a in s.acks && a.RevokeAck?
    ensures Inv(Next(s, Absorb(a)))
  {
    var s' := Next(s, Absorb(a));
    SameRoles(s, s');
    assert OthersSame(s, s', 0) && ViewOf(s', 0) == ViewOf(s, 0);
    OneClientMoved(s, s', 0);
  }

  lemma AbsorbReleaseKeeps(s: LockState, a: Ack)
    requires Inv(s) && a in s.acks && a.ReleaseAck?
    ensures Inv(Next(s, Absorb(a)))
  {
    var s', c := Next(s, Absorb(a)), a.client;
    ReleaseKeeps(ViewOf(s, c));
    assert s' == SetCache(s.(acks := s.acks - multiset{a}), c, ReleaseAnswered(Cached(s, c), OK).0);
    SameRoles(s, s');
    assert ViewOf(s', c) == ViewOf(s, c).(lock := ReleaseAnswered(Cached(s, c), OK).0, acks := s.acks[a] - 1);
    OneClientMoved(s, s', c);
  }

  lemma HandleKeeps(s: LockState, i: nat)
    requires Inv(s) && i < |s.handoff|
    ensures Inv(Next(s, Handle(i)))
  {
    var m := s.handoff[i];
    assert s.handoff == [m] && RemoveAt(s.handoff, i) == [];
    match m
    case RevokeCalled(_) => RevokeStepKeeps(s, m);
    case RevokeBlocked(_) => RevokeStepKeeps(s, m);
    case ReleaseScheduled(_) => ReleaserStepKeeps(s, m);
    case ReleaseTimed(_) => ReleaserStepKeeps(s, m);
    case ReleaseCalled(_) => ReleaseStepKeeps(s, m);
    case RetryCalled(_) => RetryStepKeeps(s, m);
    case _ => ServerWorkKeeps(s, m);
  }

  lemma EventKeeps(s: LockState, ev: Event)
    requires Inv(s) && Enabled(s, ev) && Guarded(s, ev)
    ensures Inv(Next(s, ev))
  {
    match ev
    case Enter(th) => EnterKeeps(s, th);
    case Wake(th) => WakeKeeps(s, th);
    case Serve(th) => if s.entry.owner.None? { GrantKeeps(s, th); } else { RefuseKeeps(s, th); }
    case Return(th) => ReturnKeeps(s, th);
    case Leave(th) => LeaveEventKeeps(s, th);
    case Handle(i) => HandleKeeps(s, i);
    case Absorb(a) => if a.RevokeAck? { AbsorbRevokeKeeps(s, a); } else { AbsorbReleaseKeeps(s, a); }
  }
}
