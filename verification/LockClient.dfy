/** The client half of the caching lock protocol (lock_client_cache.cc).

    Each function is what one mutex-held region does to the cached record of one lock; the
    class runs the same regions on the cache table and the releaser queue.  A region ends
    where the source waits on a condition variable or starts an RPC, and a waiting thread
    may run again at any time, so the choice of condition variable to signal is immaterial. */
module LockClient {
  import opened Basics

  datatype LockPhase = NONE | FREE | LOCKED | ACQUIRING | RELEASING

  datatype CacheLock = CacheLock(
    state: LockPhase,
    owner: Option<ThreadId>,
    ifRevoke: bool,      // a revoke handler waits for the lock
    ifTimeout: bool,     // the releaser's wait has run out at least once
    ifRelease: bool,     // the releaser waits for the local queue to drain
    waitThreads: int)

  const FRESH_LOCK := CacheLock(NONE, None, false, false, false, 0)

  // How a region of acquire ends: lock taken, blocked on queue_cond, or an RPC to the server.
  datatype Progress = Took | Blocks | Calls
  datatype Acquired = Acquired(entry: CacheLock, progress: Progress)

  function Take(k: CacheLock, t: ThreadId): CacheLock {
    k.(state := LOCKED, owner := Some(t), waitThreads := k.waitThreads - 1)
  }

  // The wait loop at RETRY_WAIT, and the fall-through to NONE.
  function Settle(k: CacheLock, t: ThreadId): Acquired {
    if k.state == FREE then Acquired(Take(k, t), Took)
    else if k.state == NONE then Acquired(k.(state := ACQUIRING), Calls)
    else Acquired(k, Blocks)
  }

  function EnterAcquire(k: CacheLock, t: ThreadId): Acquired {
    var k1 := k.(waitThreads := k.waitThreads + 1);
    if k1.state == LOCKED && k1.owner == Some(t) then Acquired(Take(k1, t), Took) else Settle(k1, t)
  }

  // Every answer other than RETRY counts as a grant.
  function AcquireAnswered(k: CacheLock, t: ThreadId, ret: Status): Acquired {
    if ret == RETRY then Settle(k, t) else Acquired(Take(k, t), Took)
  }

  function ReleaseLock(k: CacheLock, t: ThreadId): (CacheLock, Status) {
    if k.state == LOCKED && k.owner == Some(t) then (k.(state := FREE), OK) else (k, NOENT)
  }

  // The wait loop of revoke_handler: true when it gets past and queues the lock for release.
  function RevokeWoken(k: CacheLock): (CacheLock, bool) {
    if k.state == FREE then (k.(ifRevoke := false, state := RELEASING), true) else (k, false)
  }

  function RevokeArrives(k: CacheLock): (CacheLock, bool) {
    RevokeWoken(k.(ifRevoke := true))
  }

  function RetryArrives(k: CacheLock): (CacheLock, Status) {
    if k.state == ACQUIRING then (k.(state := FREE), OK) else (k, RPCERR)
  }

  function ReleaseBegins(k: CacheLock): CacheLock {
    k.(ifTimeout := false, ifRelease := false, state := RELEASING)
  }

  // First region of releaser_rpc: true when it goes straight to the release RPC.
  function ReleaserStarts(k: CacheLock): (CacheLock, bool) {
    if k.waitThreads > 0 then (k.(state := FREE, ifRelease := true), false)
    else (ReleaseBegins(k), true)
  }

  // The timed wait of releaser_rpc returns, for whatever reason.
  function ReleaserWoken(k: CacheLock): (CacheLock, bool) {
    if k.state == FREE then (ReleaseBegins(k), true) else (k.(ifTimeout := true), false)
  }

  // Last region of releaser_rpc: true when the lock goes back on the releaser queue.
  function ReleaseAnswered(k: CacheLock, ret: Status): (CacheLock, bool) {
    if ret == OK then (k.(owner := None, state := NONE), false) else (k, true)
  }

  // A thread that holds the lock and acquires it again gets it at once, but is not counted: the first
  // release frees the lock.
  lemma ReentryNotCounted(k: CacheLock, t: ThreadId)
    requires k.state == LOCKED && k.owner == Some(t)
    ensures EnterAcquire(k, t) == Acquired(k, Took)
    ensures ReleaseLock(EnterAcquire(k, t).entry, t) == (k.(state := FREE), OK)
  {
  }

  // Only the thread that holds a lock frees it, and only a lock being acquired is freed by a retry;
  // anything else is refused without a change.
  lemma RefusedUnchanged(k: CacheLock, t: ThreadId)
    ensures ReleaseLock(k, t).1 == OK <==> k.state == LOCKED && k.owner == Some(t)
    ensures ReleaseLock(k, t).1 != OK ==> ReleaseLock(k, t) == (k, NOENT)
    ensures RetryArrives(k).1 == OK <==> k.state == ACQUIRING
    ensures RetryArrives(k).1 != OK ==> RetryArrives(k) == (k, RPCERR)
  {
  }

  // A release that the server refused is queued again with the record as it was; one that it took
  // leaves a record with no owner that the next acquire asks the server for.
  lemma ReleaseAnswers(k: CacheLock, ret: Status, t: ThreadId)
    ensures ret != OK ==> ReleaseAnswered(k, ret) == (k, true)
    ensures ret == OK ==>
              var (k', again) := ReleaseAnswered(k, ret);
              !again && k'.owner == None && EnterAcquire(k', t).progress == Calls
  {
  }

  class LockClientCache {
    var table: map<LockId, CacheLock>
    var releaserQueue: seq<LockId>

    constructor ()
      ensures table == map[] && releaserQueue == []
    {
      table, releaserQueue := map[], [];
    }

    function Entry(lid: LockId): CacheLock
      reads this
    {
      Lookup(table, lid, FRESH_LOCK)
    }

    // Record lid becomes k, nothing else in the table changes, and lid is queued iff queued.
    twostate predicate Became(lid: LockId, k: CacheLock, queued: bool)
      reads this
    {
      && table == old(table)[lid := k]
      && releaserQueue == old(releaserQueue) + (if queued then [lid] else [])
    }

    method AcquireEnter(lid: LockId, self: ThreadId) returns (p: Progress)
      modifies this
      ensures var a := EnterAcquire(old(Entry(lid)), self); Became(lid, a.entry, false) && p == a.progress
    {
      if lid !in table {
        table := table[lid := FRESH_LOCK];
      }
      var req := table[lid];
      req := req.(waitThreads := req.waitThreads + 1);
      if req.state == LOCKED && req.owner == Some(self) {
        p := Took;
      } else if req.state == NONE {
        req := req.(state := ACQUIRING);
        p := Calls;
      } else if req.state == FREE {
        p := Took;
      } else {
        p := Blocks;
      }
      if p == Took {
        req := req.(state := LOCKED, owner := Some(self), waitThreads := req.waitThreads - 1);
      }
      table := table[lid := req];
    }

    method AcquireWake(lid: LockId, self: ThreadId) returns (p: Progress)
      requires lid in table
      modifies this
      ensures var a := Settle(old(Entry(lid)), self); Became(lid, a.entry, false) && p == a.progress
    {
      var req := table[lid];
      if req.state != FREE && req.state != NONE {
        p := Blocks;
      } else if req.state != NONE {
        req := req.(state := LOCKED, owner := Some(self), waitThreads := req.waitThreads - 1);
        p := Took;
      } else {
        req := req.(state := ACQUIRING);
        p := Calls;
      }
      table := table[lid := req];
    }

    method AcquireReturn(lid: LockId, self: ThreadId, ret: Status) returns (p: Progress)
      requires lid in table
      modifies this
      ensures var a := AcquireAnswered(old(Entry(lid)), self, ret); Became(lid, a.entry, false) && p == a.progress
    {
      if ret == RETRY {
        p := AcquireWake(lid, self);
      } else {
        var req := table[lid];
        table := table[lid := req.(state := LOCKED, owner := Some(self), waitThreads := req.waitThreads - 1)];
        p := Took;
      }
    }

    method Release(lid: LockId, self: ThreadId) returns (ret: Status)
      modifies this
      ensures lid in old(table) ==>
                var (k, st) := ReleaseLock(old(Entry(lid)), self); Became(lid, k, false) && ret == st
      ensures lid !in old(table) ==> unchanged(this) && ret == NOENT
    {
      ret := NOENT;
      if lid in table {
        if table[lid].state == LOCKED && table[lid].owner == Some(self) {
          table := table[lid := table[lid].(state := FREE)];
          ret := OK;
        }
      }
    }

    // Runs until the handler either queues the lock for release (ret OK), waits (blocked), or fails.
    method RevokeHandler(lid: LockId) returns (ret: Status, blocked: bool)
      modifies this
      ensures lid in old(table) ==>
                var (k, through) := RevokeArrives(old(Entry(lid)));
                Became(lid, k, through) && blocked == !through && (through ==> ret == OK)
      ensures lid !in old(table) ==> unchanged(this) && ret == RPCERR && !blocked
    {
      ret, blocked := RPCERR, false;
      if lid in table {
        table := table[lid := table[lid].(ifRevoke := true)];
        ret, blocked := RevokeWake(lid);
      }
    }

    method RevokeWake(lid: LockId) returns (ret: Status, blocked: bool)
      requires lid in table
      modifies this
      ensures var (k, through) := RevokeWoken(old(Entry(lid)));
              Became(lid, k, through) && blocked == !through && (through ==> ret == OK)
    {
      ret, blocked := RPCERR, true;
      if table[lid].state == FREE {
        ret, blocked := OK, false;
        table := table[lid := table[lid].(ifRevoke := false, state := RELEASING)];
        releaserQueue := releaserQueue + [lid];
      }
    }

    method RetryHandler(lid: LockId) returns (ret: Status)
      modifies this
      ensures lid in old(table) ==>
                var (k, st) := RetryArrives(old(Entry(lid))); Became(lid, k, false) && ret == st
      ensures lid !in old(table) ==> unchanged(this) && ret == RPCERR
    {
      ret := RPCERR;
      if lid in table {
        if table[lid].state == ACQUIRING {
          table := table[lid := table[lid].(state := FREE)];
          ret := OK;
        }
      }
    }

    // One turn of the releaser loop: the lock whose release job is scheduled.
    method ReleaserTurn() returns (lid: LockId)
      requires releaserQueue != []
      modifies this
      ensures lid == old(releaserQueue)[0] && releaserQueue == old(releaserQueue)[1..]
      ensures forall l :: Entry(l) == old(Entry(l))
    {
      lid := releaserQueue[0];
      table := table[lid := Lookup(table, lid, FRESH_LOCK)];
      releaserQueue := releaserQueue[1..];
    }

    method ReleaserRpcStart(lid: LockId) returns (calls: bool)
      requires lid in table
      modifies this
      ensures var (k, c) := ReleaserStarts(old(Entry(lid))); Became(lid, k, false) && calls == c
    {
      var k := table[lid];
      if k.waitThreads > 0 {
        table := table[lid := k.(state := FREE, ifRelease := true)];
        calls := false;
      } else {
        table := table[lid := k.(ifTimeout := false, ifRelease := false, state := RELEASING)];
        calls := true;
      }
    }

    method ReleaserRpcWake(lid: LockId) returns (calls: bool)
      requires lid in table
      modifies this
      ensures var (k, c) := ReleaserWoken(old(Entry(lid))); Became(lid, k, false) && calls == c
    {
      var k := table[lid].(ifTimeout := true);
      if k.state != FREE {
        calls := false;
      } else {
        k := k.(ifTimeout := false, ifRelease := false, state := RELEASING);
        calls := true;
      }
      table := table[lid := k];
    }

    method ReleaserRpcEnd(lid: LockId, ret: Status)
      requires lid in table
      modifies this
      ensures var (k, again) := ReleaseAnswered(old(Entry(lid)), ret); Became(lid, k, again)
    {
      if ret == OK {
        table := table[lid := table[lid].(owner := None, state := NONE)];
      } else {
        releaserQueue := releaserQueue + [lid];
      }
    }
  }
}
