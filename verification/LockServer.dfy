/** The server half of the caching lock protocol (lock_server_cache.cc).

    Each function below is what one mutex-held region does to the record of one lock;
    the class runs the same regions on the lock table and the two work queues. */
module LockServer {
  import opened Basics

  datatype LockEntry = LockEntry(owner: Option<ClientId>, waiting: seq<ClientId>)

  const FRESH_ENTRY := LockEntry(None, [])

  // What a region leaves behind: the record, the status returned, and the queue pushed.
  datatype Push = NoPush | PushRevoke | PushRetry
  datatype Outcome = Outcome(entry: LockEntry, status: Status, push: Push)

  function AcquireEntry(e: LockEntry, id: ClientId): Outcome {
    if e.owner.None? then
      Outcome(e.(owner := Some(id)), OK, NoPush)
    else
      Outcome(e.(waiting := e.waiting + [id]), RETRY, if |e.waiting| == 0 then PushRevoke else NoPush)
  }

  function ReleaseEntry(e: LockEntry, id: ClientId): Outcome {
    if e.owner == Some(id) then Outcome(e.(owner := None), OK, PushRetry)
    else Outcome(e, IOERR, NoPush)
  }

  // The retryer writes the owner without looking at it.
  function HandOver(e: LockEntry): LockEntry {
    if |e.waiting| > 0 then e.(owner := Some(e.waiting[0])) else e
  }

  function RetryAnswered(e: LockEntry, ret: Status): Outcome {
    if ret != OK then
      Outcome(e.(owner := None), ret, PushRetry)
    else
      var rest := if |e.waiting| > 0 then e.waiting[1..] else [];
      Outcome(e.(waiting := rest), ret, if rest != [] then PushRevoke else NoPush)
  }

  function RevokeAnswered(ret: Status): Push {
    if ret != OK then PushRevoke else NoPush
  }

  // ---- What failures leave behind ----

  // A failed retry RPC starts the same handover again: the retryer's next turn names the same owner.
  lemma FailedRetryRepeats(e: LockEntry, ret: Status)
    requires ret != OK && e.waiting != []
    ensures var o := RetryAnswered(e, ret);
            o.push == PushRetry && o.entry.owner.None? && HandOver(o.entry) == HandOver(e)
  {
  }

  // A revoke RPC is made again exactly if it failed.
  lemma FailedRevokeRepeats(ret: Status)
    ensures RevokeAnswered(ret) == PushRevoke <==> ret != OK
    ensures RevokeAnswered(ret) == NoPush <==> ret == OK
  {
  }

  // Only the owner can release; a stranger's release is refused and changes nothing.
  lemma ReleaseByOwnerOnly(e: LockEntry, id: ClientId)
    ensures var o := ReleaseEntry(e, id);
            && (o.status == OK <==> e.owner == Some(id))
            && (o.status == OK ==> o.push == PushRetry && o.entry.owner.None? && o.entry.waiting == e.waiting)
            && (o.status != OK ==> o.push == NoPush && o.entry == e)
  {
  }

  class LockServerCache {
    var table: map<LockId, LockEntry>
    var retryerQueue: seq<LockId>
    var revokerQueue: seq<LockId>

    constructor ()
      ensures table == map[] && retryerQueue == [] && revokerQueue == []
    {
      table, retryerQueue, revokerQueue := map[], [], [];
    }

    function Entry(lid: LockId): LockEntry
      reads this
    {
      Lookup(table, lid, FRESH_ENTRY)
    }

    // The table, queues and returned status are those of outcome o for lock lid.
    twostate predicate Became(lid: LockId, o: Outcome)
      reads this
    {
      && Entry(lid) == o.entry
      && (forall l :: l != lid ==> Entry(l) == old(Entry(l)))
      && revokerQueue == old(revokerQueue) + (if o.push == PushRevoke then [lid] else [])
      && retryerQueue == old(retryerQueue) + (if o.push == PushRetry then [lid] else [])
    }

    method Acquire(lid: LockId, id: ClientId) returns (ret: Status)
      modifies this
      ensures Became(lid, AcquireEntry(old(Entry(lid)), id))
      ensures ret == AcquireEntry(old(Entry(lid)), id).status
    {
      if lid !in table {
        table := table[lid := FRESH_ENTRY];
      }
      var req := table[lid];
      if req.owner.None? {
        ret := OK;
        req := req.(owner := Some(id));
      } else {
        if |req.waiting| == 0 {
          revokerQueue := revokerQueue + [lid];
        }
        ret := RETRY;
        req := req.(waiting := req.waiting + [id]);
      }
      table := table[lid := req];
    }

    method Release(lid: LockId, id: ClientId) returns (ret: Status)
      modifies this
      ensures Became(lid, ReleaseEntry(old(Entry(lid)), id))
      ensures ret == ReleaseEntry(old(Entry(lid)), id).status
    {
      ret := IOERR;
      if lid in table {
        if table[lid].owner == Some(id) {
          ret := OK;
          table := table[lid := table[lid].(owner := None)];
          retryerQueue := retryerQueue + [lid];
        }
      }
    }

    // One turn of the retryer loop: the id popped, and whether a retry job was scheduled for it.
    method RetryerTurn() returns (lid: LockId, scheduled: bool)
      requires retryerQueue != []
      modifies this
      ensures lid == old(retryerQueue)[0] && retryerQueue == old(retryerQueue)[1..]
      ensures revokerQueue == old(revokerQueue)
      ensures Entry(lid) == HandOver(old(Entry(lid)))
      ensures forall l :: l != lid ==> Entry(l) == old(Entry(l))
      ensures scheduled <==> old(Entry(lid)).waiting != []
    {
      lid := retryerQueue[0];
      var target := Lookup(table, lid, FRESH_ENTRY);
      retryerQueue := retryerQueue[1..];
      scheduled := false;
      if |target.waiting| > 0 {
        target := target.(owner := Some(target.waiting[0]));
        scheduled := true;
      }
      table := table[lid := target];
    }

    // One turn of the revoker loop; an empty waiting list is the "revoke wrong" branch.
    method RevokerTurn() returns (lid: LockId, scheduled: bool)
      requires revokerQueue != []
      modifies this
      ensures lid == old(revokerQueue)[0] && revokerQueue == old(revokerQueue)[1..]
      ensures retryerQueue == old(retryerQueue)
      ensures forall l :: Entry(l) == old(Entry(l))
      ensures scheduled <==> old(Entry(lid)).waiting != []
    {
      lid := revokerQueue[0];
      table := table[lid := Lookup(table, lid, FRESH_ENTRY)];
      revokerQueue := revokerQueue[1..];
      scheduled := |table[lid].waiting| > 0;
    }

    // The mutex-held end of retryer_rpc.
    method RetryReturned(lid: LockId, ret: Status)
      requires lid in table
      modifies this
      ensures Became(lid, RetryAnswered(old(Entry(lid)), ret))
    {
      var target := table[lid];
      if ret != OK {
        target := target.(owner := None);
        retryerQueue := retryerQueue + [lid];
      } else {
        target := target.(waiting := if |target.waiting| > 0 then target.waiting[1..] else []);
        if target.waiting != [] {
          revokerQueue := revokerQueue + [lid];
        }
      }
      table := table[lid := target];
    }

    // The mutex-held end of revoker_rpc.
    method RevokeReturned(lid: LockId, ret: Status)
      requires lid in table
      modifies this
      ensures Became(lid, Outcome(old(Entry(lid)), ret, RevokeAnswered(ret)))
    {
      if ret != OK {
        revokerQueue := revokerQueue + [lid];
      }
    }
  }
}
