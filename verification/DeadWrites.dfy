/** The window in which a write callback meets a dead connection.

    write_cb asserts that its connection is not dead.  closeconn and a failed send set dead_ first
    and remove the callback afterwards, so until block_remove_fd is done a write callback that is
    due still runs, and aborts. */
module DeadWrites {
  import opened Basics
  import opened PollMgr

  // The step with which the poll thread calls write_cb for fd.
  predicate StartsWrite(s: State, ev: Event, fd: Fd) {
    && ev.NextCallback? && s.loop.Dispatch? && s.loop.toRead == [] && s.loop.toWrite != []
    && s.loop.toWrite[0] == fd && fd in s.shared.callbacks
  }

  predicate Writes(s: State, evs: seq<Event>, fd: Fd)
    requires Run(s, evs)
    decreases |evs|
  {
    evs != [] && (StartsWrite(s, evs[0], fd) || Writes(Next(s, evs[0]), evs[1..], fd))
  }

  // Some future without a new add calls write_cb for fd.
  ghost predicate CanWrite(s: State, fd: Fd) {
    exists evs :: Run(s, evs) && AddsNot(evs, fd) && Writes(s, evs, fd)
  }

  // The poll thread will get to the write callback of fd without looking at the watched sets again.
  predicate DueWrite(l: Loop, fd: Fd) {
    match l
    case Top => false
    case Polling => false
    case Selecting(_, ws) => fd in ws
    case Dispatch(_, toWrite) => fd in toWrite
    case InCallback(_, _, toWrite) => fd in toWrite
  }

  predicate Open(s: State, fd: Fd) {
    fd in s.shared.callbacks && (fd in s.shared.wfds || DueWrite(s.loop, fd))
  }

  lemma ClosedStep(s: State, ev: Event, fd: Fd)
    requires !Open(s, fd) && Enabled(s, ev) && !(ev.Add? && ev.fd == fd)
    ensures !Open(Next(s, ev), fd) && !StartsWrite(s, ev, fd)
  {
  }

  lemma {:induction false} ClosedStays(s: State, evs: seq<Event>, fd: Fd)
    requires !Open(s, fd) && Run(s, evs) && AddsNot(evs, fd)
    ensures !Writes(s, evs, fd)
    decreases |evs|
  {
    if evs != [] {
      assert !(evs[0].Add? && evs[0].fd == fd);
      ClosedStep(s, evs[0], fd);
      assert AddsNot(evs[1..], fd);
      ClosedStays(Next(s, evs[0]), evs[1..], fd);
    }
  }

  // ---- The poll thread's way to the callback ----

  function Far(s: State, fd: Fd): nat {
    var due := DueWrite(s.loop, fd);
    match s.loop
    case Top => 6
    case Polling => 5
    case Selecting(_, _) => if due then 4 else 8
    case Dispatch(toRead, toWrite) => (if due then 1 else 7) + 2 * |toRead| + 2 * |toWrite|
    case InCallback(_, toRead, toWrite) => (if due then 2 else 8) + 2 * |toRead| + 2 * |toWrite|
  }

  function Toward(s: State, fd: Fd): Event {
    match s.loop
    case Top => Answer
    case Polling => Snapshot
    case Selecting(_, ws) => Ready([], if fd in ws then [fd] else [])
    case Dispatch(toRead, toWrite) => if toRead + toWrite == [] then Again else NextCallback
    case InCallback(_, _, _) => CallbackReturns
  }

  lemma TowardStep(s: State, fd: Fd)
    requires Open(s, fd)
    ensures var ev := Toward(s, fd);
            && Enabled(s, ev) && !ev.EndEarly? && !ev.Add?
            && (StartsWrite(s, ev, fd) || (Open(Next(s, ev), fd) && Far(Next(s, ev), fd) < Far(s, fd)))
  {
  }

  lemma WritesPrepend(s: State, ev: Event, evs: seq<Event>, fd: Fd)
    requires Enabled(s, ev) && !ev.EndEarly? && !ev.Add? && Run(Next(s, ev), evs) && AddsNot(evs, fd)
    requires StartsWrite(s, ev, fd) || Writes(Next(s, ev), evs, fd)
    ensures Run(s, [ev] + evs) && AddsNot([ev] + evs, fd) && Writes(s, [ev] + evs, fd)
  {
    Prepend(s, ev, evs);
    assert ([ev] + evs)[1..] == evs;
  }

  lemma {:induction false} OpenWrites(s: State, fd: Fd) returns (evs: seq<Event>)
    requires Open(s, fd)
    ensures Run(s, evs) && AddsNot(evs, fd) && Writes(s, evs, fd)
    decreases Far(s, fd)
  {
    var ev := Toward(s, fd);
    TowardStep(s, fd);
    var rest := [];
    if !StartsWrite(s, ev, fd) {
      rest := OpenWrites(Next(s, ev), fd);
    }
    WritesPrepend(s, ev, rest, fd);
    evs := [ev] + rest;
  }

  // ---- The window ----

  // A connection that is dead from now on: write_cb can still be called, and aborts, if and only if
  // the callback is set and the descriptor is watched for writing or already due.
  lemma WindowExact(s: State, fd: Fd)
    ensures CanWrite(s, fd) <==> Open(s, fd)
  {
    if Open(s, fd) {
      var evs := OpenWrites(s, fd);
    } else {
      forall evs | Run(s, evs) && AddsNot(evs, fd) ensures !Writes(s, evs, fd) {
        ClosedStays(s, evs, fd);
      }
    }
  }

  // block_remove_fd narrows the window to what is already due when it starts, and closes it when
  // it ends; read_cb and write_cb delete the callback before they set dead_, which leaves none.
  lemma WindowCloses(s: State, t: ThreadId, fd: Fd)
    ensures t !in s.removers ==>
              (CanWrite(Next(s, BeginRemove(t, fd)), fd) <==> fd in s.shared.callbacks && DueWrite(s.loop, fd))
    ensures t in s.removers && s.removers[t].fd == fd ==> !CanWrite(Ended(s, t), fd)
    ensures !CanWrite(Next(s, Del(fd, RdWr)), fd)
  {
    if t !in s.removers {
      WindowExact(Next(s, BeginRemove(t, fd)), fd);
    } else if s.removers[t].fd == fd {
      WindowExact(Ended(s, t), fd);
    }
    WindowExact(Next(s, Del(fd, RdWr)), fd);
  }

  // For every descriptor some run has the callback due while its remover waits.
  lemma WindowReached(fd: Fd, cb: nat, t: ThreadId) returns (evs: seq<Event>)
    ensures Run(INIT, evs) && t in After(INIT, evs).removers && After(INIT, evs).removers[t].fd == fd
    ensures CanWrite(After(INIT, evs), fd)
  {
    var s1 := Next(INIT, Add(fd, WrOnly, cb));
    var s2 := Next(s1, Answer);
    var s3 := Next(s2, Snapshot);
    assert s3.loop == Selecting({}, {fd});
    Prepend(s3, BeginRemove(t, fd), []);
    Prepend(s2, Snapshot, [BeginRemove(t, fd)] + []);
    Prepend(s1, Answer, [Snapshot] + ([BeginRemove(t, fd)] + []));
    evs := [Add(fd, WrOnly, cb)] + ([Answer] + ([Snapshot] + ([BeginRemove(t, fd)] + [])));
    Prepend(INIT, Add(fd, WrOnly, cb), [Answer] + ([Snapshot] + ([BeginRemove(t, fd)] + [])));
    WindowExact(After(INIT, evs), fd);
  }
}
