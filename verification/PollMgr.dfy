/** The poll loop and the removal of descriptors from it (rpc/pollmgr.cc). */
module PollMgr {
  import opened Basics

  type Fd = nat
  datatype Flag = RdOnly | WrOnly | RdWr

  // ---- The descriptor sets ----

  // SelectAIO: two descriptor sets and the highest descriptor handed to select.
  class SelectAIO {
    const pipe: Fd
    var rfds: set<Fd>
    var wfds: set<Fd>
    var high: Fd

    // high is the largest watched descriptor; the pipe's reading end is always watched.
    ghost predicate Valid()
      reads this
    {
      pipe in rfds && high in rfds + wfds && forall f :: f in rfds + wfds ==> f <= high
    }

    constructor (p: Fd)
      ensures Valid() && pipe == p && rfds == {p} && wfds == {}
    {
      pipe, rfds, wfds, high := p, {p}, {}, p;
    }

    method WatchFd(fd: Fd, flag: Flag)
      requires Valid()
      modifies this
      ensures Valid()
      ensures rfds == old(rfds) + (if flag != WrOnly then {fd} else {})
      ensures wfds == old(wfds) + (if flag != RdOnly then {fd} else {})
    {
      if high <= fd {
        high := fd;
      }
      if flag == RdOnly {
        rfds := rfds + {fd};
      } else if flag == WrOnly {
        wfds := wfds + {fd};
      } else {
        rfds := rfds + {fd};
        wfds := wfds + {fd};
      }
    }

    method UnwatchFd(fd: Fd, flag: Flag) returns (gone: bool)
      requires Valid() && fd != pipe
      modifies this
      ensures Valid()
      ensures rfds == old(rfds) - (if flag != WrOnly then {fd} else {})
      ensures wfds == old(wfds) - (if flag != RdOnly then {fd} else {})
      ensures gone <==> fd !in rfds && fd !in wfds
    {
      if flag != WrOnly {
        rfds := rfds - {fd};
      }
      if flag != RdOnly {
        wfds := wfds - {fd};
      }
      if fd !in rfds && fd !in wfds {
        if fd == high {
          var newh := pipe;
          var i := 0;
          while i <= high
            invariant 0 <= i <= high + 1 && newh in rfds + wfds
            invariant newh == pipe || newh < i
            invariant forall f :: f in rfds + wfds && f < i ==> f <= newh
          {
            if i in rfds {
              newh := i;
            } else if i in wfds {
              newh := i;
            }
            i := i + 1;
          }
          high := newh;
        }
      }
      gone := fd !in rfds && fd !in wfds;
    }

    // The loop of wait_ready over what select reported for a snapshot: every ready descriptor
    // but the pipe is listed once, in ascending order.
    method Collect(trfds: set<Fd>, twfds: set<Fd>, top: Fd) returns (readable: seq<Fd>, writable: seq<Fd>)
      requires (forall f :: f in trfds ==> f <= top) && (forall f :: f in twfds ==> f <= top)
      ensures forall f :: f in readable <==> f in trfds && f != pipe
      ensures forall f :: f in writable <==> f in twfds && (f == pipe ==> pipe !in trfds)
      ensures Ascending(readable) && Ascending(writable)
    {
      readable, writable := [], [];
      var fd := 0;
      while fd <= top
        invariant 0 <= fd <= top + 1
        invariant forall f :: f in readable <==> f < fd && f in trfds && f != pipe
        invariant forall f :: f in writable <==> f < fd && f in twfds && (f == pipe ==> pipe !in trfds)
        invariant Ascending(readable) && Ascending(writable)
      {
        if fd == pipe && fd in trfds {
        } else {
          if fd in twfds {
            AscendingMore(writable, fd);
            writable := writable + [fd];
          }
          if fd in trfds {
            AscendingMore(readable, fd);
            readable := readable + [fd];
          }
        }
        fd := fd + 1;
      }
    }
  }

  ghost predicate Ascending(s: seq<Fd>) {
    forall i, j :: 0 <= i < j < |s| ==> s[i] < s[j]
  }

  lemma AscendingMore(s: seq<Fd>, fd: Fd)
    requires Ascending(s) && forall f :: f in s ==> f < fd
    ensures Ascending(s + [fd])
  {
    assert forall i :: 0 <= i < |s| ==> s[i] in s;
  }

  // ---- The shared part, changed under m_ ----

  // callbacks is callbacks_ without its NULL entries; the pipe is left out of rfds.
  datatype Shared = Shared(rfds: set<Fd>, wfds: set<Fd>, callbacks: map<Fd, nat>, pending: bool)

  predicate Watched(h: Shared, fd: Fd) {
    fd in h.rfds || fd in h.wfds
  }

  function Unwatch(h: Shared, fd: Fd, flag: Flag): Shared {
    h.(rfds := if flag != WrOnly then h.rfds - {fd} else h.rfds,
       wfds := if flag != RdOnly then h.wfds - {fd} else h.wfds)
  }

  function AddCallback(h: Shared, fd: Fd, flag: Flag, cb: nat): Shared {
    h.(rfds := if flag != WrOnly then h.rfds + {fd} else h.rfds,
       wfds := if flag != RdOnly then h.wfds + {fd} else h.wfds,
       callbacks := h.callbacks[fd := cb])
  }

  function DelCallback(h: Shared, fd: Fd, flag: Flag): Shared {
    var h1 := Unwatch(h, fd, flag);
    if Watched(h1, fd) then h1 else h1.(callbacks := h.callbacks - {fd})
  }

  class PollManager {
    const aio: SelectAIO
    var callbacks: map<Fd, nat>
    var pending: bool

    ghost predicate Valid()
      reads this, aio
    {
      aio.Valid() && aio.pipe !in aio.wfds
    }

    ghost function View(): Shared
      reads this, aio
    {
      Shared(aio.rfds - {aio.pipe}, aio.wfds, callbacks, pending)
    }

    constructor (pipe: Fd)
      ensures Valid() && fresh(aio) && aio.pipe == pipe && View() == Shared({}, {}, map[], false)
    {
      aio := new SelectAIO(pipe);
      callbacks, pending := map[], false;
    }

    method Add(fd: Fd, flag: Flag, cb: nat)
      requires Valid() && fd != aio.pipe && (fd in callbacks ==> callbacks[fd] == cb)
      modifies this, aio
      ensures Valid() && View() == AddCallback(old(View()), fd, flag, cb)
    {
      aio.WatchFd(fd, flag);
      callbacks := callbacks[fd := cb];
    }

    method Del(fd: Fd, flag: Flag)
      requires Valid() && fd != aio.pipe
      modifies this, aio
      ensures Valid() && View() == DelCallback(old(View()), fd, flag)
    {
      var gone := aio.UnwatchFd(fd, flag);
      if gone {
        callbacks := callbacks - {fd};
      }
    }

    // block_remove_fd up to its wait, and from its wait on.
    method BeginRemove(fd: Fd)
      requires Valid() && fd != aio.pipe
      modifies this, aio
      ensures Valid() && View() == Unwatch(old(View()), fd, RdWr).(pending := true)
    {
      var gone := aio.UnwatchFd(fd, RdWr);
      pending := true;
    }

    method EndRemove(fd: Fd)
      requires Valid()
      modifies this`callbacks
      ensures Valid() && View() == old(View()).(callbacks := old(callbacks) - {fd})
    {
      callbacks := callbacks - {fd};
    }

    // The region at the top of wait_loop; says whether the removers are woken.
    method AnswerRemovers() returns (broadcast: bool)
      requires Valid()
      modifies this`pending
      ensures Valid() && View() == old(View()).(pending := false) && broadcast == old(pending)
    {
      broadcast := false;
      if pending {
        pending, broadcast := false, true;
      }
    }
  }

  // ---- The poll thread and the removers ----

  // Where the poll thread is in wait_loop.
  datatype Loop =
    | Top                                           // before the region that answers removers
    | Polling                                       // before wait_ready takes its snapshot
    | Selecting(rs: set<Fd>, ws: set<Fd>)           // in select, on the snapshot
    | Dispatch(toRead: seq<Fd>, toWrite: seq<Fd>)     // callbacks still to be made
    | InCallback(fd: Fd, toRead: seq<Fd>, toWrite: seq<Fd>)

  // A thread inside block_remove_fd.
  datatype Remover = Remover(fd: Fd, woken: bool, readded: bool)

  datatype State = State(
    shared: Shared,
    loop: Loop,
    removers: map<ThreadId, Remover>,
    removed: set<Fd>)                 // removed by a returned block_remove_fd and not added since

  const INIT := State(Shared({}, {}, map[], false), Top, map[], {})

  datatype Event =
    | Add(fd: Fd, flag: Flag, cb: nat)
    | Del(fd: Fd, flag: Flag)
    | BeginRemove(t: ThreadId, fd: Fd)
    | EndRemove(t: ThreadId)
    | EndEarly(t: ThreadId)               // the wait ends without a broadcast
    | Answer                              // the region at the top of wait_loop
    | Snapshot
    | Ready(toRead: seq<Fd>, toWrite: seq<Fd>)
    | NextCallback
    | CallbackReturns
    | Again                               // back to the top

  predicate Enabled(s: State, ev: Event) {
    match ev
    case Add(fd, _, cb) => fd in s.shared.callbacks ==> s.shared.callbacks[fd] == cb
    case Del(_, _) => true
    case BeginRemove(t, _) => t !in s.removers
    case EndRemove(t) => t in s.removers && s.removers[t].woken
    case EndEarly(t) => t in s.removers && !s.removers[t].woken
    case Answer => s.loop == Top
    case Snapshot => s.loop == Polling
    case Ready(toRead, toWrite) =>
      s.loop.Selecting? && (forall f :: f in toRead ==> f in s.loop.rs) && (forall f :: f in toWrite ==> f in s.loop.ws)
    case NextCallback => s.loop.Dispatch? && s.loop.toRead + s.loop.toWrite != []
    case CallbackReturns => s.loop.InCallback?
    case Again => s.loop == Dispatch([], [])
  }

  // The region of block_remove_fd behind its wait.
  function Ended(s: State, t: ThreadId): State
    requires t in s.removers
  {
    var r := s.removers[t];
    s.(shared := s.shared.(callbacks := s.shared.callbacks - {r.fd}), removers := s.removers - {t},
       removed := if r.readded then s.removed else s.removed + {r.fd})
  }

  function Next(s: State, ev: Event): State
    requires Enabled(s, ev)
  {
    match ev
    case Add(fd, flag, cb) =>
      s.(shared := AddCallback(s.shared, fd, flag, cb),
         removers := map t | t in s.removers ::
           if s.removers[t].fd == fd then s.removers[t].(readded := true) else s.removers[t],
         removed := s.removed - {fd})
    case Del(fd, flag) => s.(shared := DelCallback(s.shared, fd, flag))
    case BeginRemove(t, fd) =>
      s.(shared := Unwatch(s.shared, fd, RdWr).(pending := true),
         removers := s.removers[t := Remover(fd, false, false)])
    case EndRemove(t) => Ended(s, t)
    case EndEarly(t) => Ended(s, t)
    case Answer =>
      var s1 := s.(loop := Polling);
      if !s.shared.pending then s1
      else
        s1.(shared := s.shared.(pending := false),
            removers := map t | t in s.removers :: s.removers[t].(woken := true))
    case Snapshot => s.(loop := Selecting(s.shared.rfds, s.shared.wfds))
    case Ready(toRead, toWrite) => s.(loop := Dispatch(toRead, toWrite))
    case NextCallback =>
      if s.loop.toRead != [] then Call(s, s.loop.toRead[0], s.loop.toRead[1..], s.loop.toWrite)
      else Call(s, s.loop.toWrite[0], [], s.loop.toWrite[1..])
    case CallbackReturns => s.(loop := Dispatch(s.loop.toRead, s.loop.toWrite))
    case Again => s.(loop := Top)
  }

  // callbacks_[fd] is looked up without the lock, when the poll thread gets to it.
  function Call(s: State, fd: Fd, toRead: seq<Fd>, toWrite: seq<Fd>): State {
    s.(loop := if fd in s.shared.callbacks then InCallback(fd, toRead, toWrite) else Dispatch(toRead, toWrite))
  }

  // ---- Quiescence ----

  // The poll thread is busy with fd, or will be without looking at the watched sets again.
  predicate Touches(l: Loop, fd: Fd) {
    match l
    case Top => false
    case Polling => false
    case Selecting(rs, ws) => fd in rs || fd in ws
    case Dispatch(toRead, toWrite) => fd in toRead || fd in toWrite
    case InCallback(f, toRead, toWrite) => fd == f || fd in toRead || fd in toWrite
  }

  ghost predicate Inv(s: State) {
    && (forall t :: t in s.removers && !s.removers[t].readded ==>
          !Watched(s.shared, s.removers[t].fd) && (s.removers[t].woken ==> !Touches(s.loop, s.removers[t].fd)))
    && (forall t :: t in s.removers && !s.removers[t].woken ==> s.shared.pending)
    && (forall fd :: fd in s.removed ==> !Watched(s.shared, fd) && !Touches(s.loop, fd))
  }

  lemma EventKeeps(s: State, ev: Event)
    requires Inv(s) && Enabled(s, ev) && !ev.EndEarly?
    ensures Inv(Next(s, ev))
    ensures forall fd :: fd in s.removed && !(ev.Add? && ev.fd == fd) ==> fd in Next(s, ev).removed
  {
    if ev.NextCallback? {
      var l := s.loop;
      assert forall fd :: Touches(Next(s, ev).loop, fd) ==> Touches(l, fd);
    }
  }

  // A run without spurious wakeups.
  predicate Run(s: State, evs: seq<Event>)
    decreases |evs|
  {
    evs == [] || (Enabled(s, evs[0]) && !evs[0].EndEarly? && Run(Next(s, evs[0]), evs[1..]))
  }

  function After(s: State, evs: seq<Event>): State
    requires Run(s, evs)
    decreases |evs|
  {
    if evs == [] then s else After(Next(s, evs[0]), evs[1..])
  }

  predicate AddsNot(evs: seq<Event>, fd: Fd) {
    forall i :: 0 <= i < |evs| ==> !(evs[i].Add? && evs[i].fd == fd)
  }

  lemma {:induction false} RunKeeps(s: State, evs: seq<Event>)
    requires Inv(s) && Run(s, evs)
    ensures Inv(After(s, evs))
    ensures forall fd :: fd in s.removed && AddsNot(evs, fd) ==> fd in After(s, evs).removed
    decreases |evs|
  {
    if evs != [] {
      EventKeeps(s, evs[0]);
      RunKeeps(Next(s, evs[0]), evs[1..]);
      forall fd | fd in s.removed && AddsNot(evs, fd) ensures fd in After(s, evs).removed {
        assert AddsNot(evs[1..], fd);
      }
    }
  }

  // Once block_remove_fd has returned, in any later state reached without adding fd again, no
  // callback for fd runs or is due.
  lemma CallbackQuiescence(evs: seq<Event>, t: ThreadId, more: seq<Event>)
    requires Run(INIT, evs) && Enabled(After(INIT, evs), EndRemove(t)) && !After(INIT, evs).removers[t].readded
    requires Run(Next(After(INIT, evs), EndRemove(t)), more) && AddsNot(more, After(INIT, evs).removers[t].fd)
    ensures var fd := After(INIT, evs).removers[t].fd;
            var s := After(Next(After(INIT, evs), EndRemove(t)), more);
            !Touches(s.loop, fd) && !Watched(s.shared, fd)
  {
    RunKeeps(INIT, evs);
    EventKeeps(After(INIT, evs), EndRemove(t));
    RunKeeps(Next(After(INIT, evs), EndRemove(t)), more);
  }

  lemma Prepend(s: State, ev: Event, evs: seq<Event>)
    requires Enabled(s, ev) && !ev.EndEarly? && Run(Next(s, ev), evs)
    ensures Run(s, [ev] + evs) && After(s, [ev] + evs) == After(Next(s, ev), evs)
  {
    assert ([ev] + evs)[1..] == evs;
  }

  // ---- Which callback, and what is watched ----

  // The callback that a run last added for fd.
  function LastAdded(evs: seq<Event>, fd: Fd, before: Option<nat>): Option<nat> {
    if evs == [] then before
    else LastAdded(evs[1..], fd, if evs[0].Add? && evs[0].fd == fd then Some(evs[0].cb) else before)
  }

  lemma {:induction false} CallbackFrom(s: State, evs: seq<Event>, fd: Fd, before: Option<nat>)
    requires Run(s, evs) && (fd in s.shared.callbacks ==> before == Some(s.shared.callbacks[fd]))
    ensures var h := After(s, evs).shared;
            fd in h.callbacks ==> LastAdded(evs, fd, before) == Some(h.callbacks[fd])
    decreases |evs|
  {
    if evs != [] {
      var ev := evs[0];
      CallbackFrom(Next(s, ev), evs[1..], fd, if ev.Add? && ev.fd == fd then Some(ev.cb) else before);
    }
  }

  // In every run the callback of a descriptor, while it has one, is the one last added for it.
  lemma CallbackIsLastAdded(evs: seq<Event>, fd: Fd)
    requires Run(INIT, evs) && fd in After(INIT, evs).shared.callbacks
    ensures LastAdded(evs, fd, None) == Some(After(INIT, evs).shared.callbacks[fd])
  {
    CallbackFrom(INIT, evs, fd, None);
  }

  // Reading and writing are watched apart: adding or deleting one direction leaves the other, and
  // every other descriptor, as it was; the callback goes only when no direction is left.
  lemma DirectionsApart(s: State, fd: Fd, flag: Flag, cb: nat, f: Fd)
    requires Enabled(s, Add(fd, flag, cb))
    ensures var h, a, d := s.shared, Next(s, Add(fd, flag, cb)).shared, Next(s, Del(fd, flag)).shared;
            && (f in a.rfds <==> f in h.rfds || (f == fd && flag != WrOnly))
            && (f in a.wfds <==> f in h.wfds || (f == fd && flag != RdOnly))
            && (f in d.rfds <==> f in h.rfds && !(f == fd && flag != WrOnly))
            && (f in d.wfds <==> f in h.wfds && !(f == fd && flag != RdOnly))
            && (f in d.callbacks <==> f in h.callbacks && (f != fd || f in d.rfds || f in d.wfds))
            && (f != fd ==> (f in a.callbacks <==> f in h.callbacks))
            && fd in a.callbacks && a.callbacks[fd] == cb
  {
  }

  // ---- A watched descriptor has its callback ----

  // No descriptor is added while its own remover waits.
  predicate Careful(s: State, ev: Event) {
    ev.Add? ==> forall t :: t in s.removers ==> s.removers[t].fd != ev.fd
  }

  predicate CarefulRun(s: State, evs: seq<Event>)
    requires Run(s, evs)
    decreases |evs|
  {
    evs == [] || (Careful(s, evs[0]) && CarefulRun(Next(s, evs[0]), evs[1..]))
  }

  ghost predicate AllHaveCallbacks(s: State) {
    forall fd :: Watched(s.shared, fd) ==> fd in s.shared.callbacks
  }

  ghost predicate Kept(s: State) {
    && AllHaveCallbacks(s)
    && (forall t :: t in s.removers ==> !s.removers[t].readded)
  }

  lemma CarefulKeeps(s: State, ev: Event)
    requires Inv(s) && Kept(s) && Enabled(s, ev) && !ev.EndEarly? && Careful(s, ev)
    ensures Kept(Next(s, ev))
  {
  }

  lemma {:induction false} CarefulRunKeeps(s: State, evs: seq<Event>)
    requires Inv(s) && Kept(s) && Run(s, evs) && CarefulRun(s, evs)
    ensures Kept(After(s, evs))
    decreases |evs|
  {
    if evs != [] {
      EventKeeps(s, evs[0]);
      CarefulKeeps(s, evs[0]);
      CarefulRunKeeps(Next(s, evs[0]), evs[1..]);
    }
  }

  // In every such run each watched descriptor has its callback.
  lemma WatchedHasCallback(evs: seq<Event>, fd: Fd)
    requires Run(INIT, evs) && CarefulRun(INIT, evs) && Watched(After(INIT, evs).shared, fd)
    ensures fd in After(INIT, evs).shared.callbacks
  {
    CarefulRunKeeps(INIT, evs);
  }

  // Otherwise not: added while its remover waits, a descriptor is left watched without a callback.
  lemma CarelessReached(fd: Fd, cb: nat, t: ThreadId) returns (evs: seq<Event>)
    ensures Run(INIT, evs)
    ensures var s := After(INIT, evs); Watched(s.shared, fd) && fd !in s.shared.callbacks
  {
    var s1 := Next(INIT, BeginRemove(t, fd));
    var s2 := Next(s1, Add(fd, RdOnly, cb));
    var s3 := Next(s2, Answer);
    assert s3.removers[t].woken;
    Prepend(s3, EndRemove(t), []);
    Prepend(s2, Answer, [EndRemove(t)] + []);
    Prepend(s1, Add(fd, RdOnly, cb), [Answer] + ([EndRemove(t)] + []));
    evs := [BeginRemove(t, fd)] + ([Add(fd, RdOnly, cb)] + ([Answer] + ([EndRemove(t)] + [])));
    Prepend(INIT, BeginRemove(t, fd), [Add(fd, RdOnly, cb)] + ([Answer] + ([EndRemove(t)] + [])));
  }

  predicate Runs(s: State, fd: Fd) {
    s.loop.InCallback? && s.loop.fd == fd
  }

  // The poll thread, by itself, gets to the callback of every descriptor that it has been told is ready.
  lemma {:induction false} ReadyRuns(s: State, fd: Fd) returns (evs: seq<Event>)
    requires fd in s.shared.callbacks && (s.loop.Dispatch? || s.loop.InCallback?)
    requires fd in s.loop.toRead || fd in s.loop.toWrite
    ensures Run(s, evs) && Runs(After(s, evs), fd) && |evs| <= Left(s.loop)
    ensures forall i :: 0 <= i < |evs| ==> evs[i].NextCallback? || evs[i].CallbackReturns?
    decreases Left(s.loop)
  {
    var ev := if s.loop.Dispatch? then NextCallback else CallbackReturns;
    var rest := [];
    if !Runs(Next(s, ev), fd) {
      rest := ReadyRuns(Next(s, ev), fd);
    }
    Prepend(s, ev, rest);
    evs := [ev] + rest;
  }

  // A watched descriptor that select reports gets its callback.
  lemma ReportedRuns(evs: seq<Event>, fd: Fd, toRead: seq<Fd>, toWrite: seq<Fd>) returns (more: seq<Event>)
    requires Run(INIT, evs) && CarefulRun(INIT, evs) && Watched(After(INIT, evs).shared, fd)
    requires Enabled(After(INIT, evs), Ready(toRead, toWrite)) && (fd in toRead || fd in toWrite)
    ensures var s := Next(After(INIT, evs), Ready(toRead, toWrite));
            Run(s, more) && Runs(After(s, more), fd) && |more| <= Left(s.loop)
  {
    WatchedHasCallback(evs, fd);
    more := ReadyRuns(Next(After(INIT, evs), Ready(toRead, toWrite)), fd);
  }

  // The request flag stands exactly while some remover has not been answered.
  ghost predicate Requested(s: State) {
    s.shared.pending <==> exists t :: t in s.removers && !s.removers[t].woken
  }

  lemma RequestedKeeps(s: State, ev: Event)
    requires Requested(s) && Enabled(s, ev) && !ev.EndEarly?
    ensures Requested(Next(s, ev))
  {
    var s' := Next(s, ev);
    if t :| t in s.removers && !s.removers[t].woken {
      assert ev.Answer? || (t in s'.removers && !s'.removers[t].woken);
    }
    if ev.BeginRemove? {
      assert ev.t in s'.removers && !s'.removers[ev.t].woken;
    }
  }

  lemma {:induction false} RequestExact(s: State, evs: seq<Event>)
    requires Requested(s) && Run(s, evs)
    ensures Requested(After(s, evs))
    decreases |evs|
  {
    if evs != [] {
      RequestedKeeps(s, evs[0]);
      RequestExact(Next(s, evs[0]), evs[1..]);
    }
  }

  // ---- Removers are answered ----

  // What is left of the poll thread's round before it answers removers again.
  function Left(l: Loop): nat {
    match l
    case Top => 0
    case Polling => 3
    case Selecting(_, _) => 2
    case Dispatch(toRead, toWrite) => 1 + 2 * |toRead| + 2 * |toWrite|
    case InCallback(_, toRead, toWrite) => 2 + 2 * |toRead| + 2 * |toWrite|
  }

  // The poll thread's own next step; select returns at once, as the remover has written to the pipe.
  function PollStep(s: State): Event {
    match s.loop
    case Top => Answer
    case Polling => Snapshot
    case Selecting(_, _) => Ready([], [])
    case Dispatch(toRead, toWrite) => if toRead + toWrite == [] then Again else NextCallback
    case InCallback(_, _, _) => CallbackReturns
  }

  predicate ByPollThread(ev: Event) {
    ev.Answer? || ev.Snapshot? || ev.Ready? || ev.NextCallback? || ev.CallbackReturns? || ev.Again?
  }

  lemma PollStepCounts(s: State)
    requires s.loop != Top
    ensures Enabled(s, PollStep(s)) && Left(Next(s, PollStep(s)).loop) < Left(s.loop)
    ensures Next(s, PollStep(s)).removers == s.removers
  {
  }

  // A remover is never left waiting: from every reached state the poll thread alone, in as many
  // steps as its round still has and one more, wakes every remover.
  lemma {:induction false} RoundAnswers(s: State, t: ThreadId) returns (evs: seq<Event>)
    requires Inv(s) && t in s.removers
    ensures Run(s, evs) && |evs| <= Left(s.loop) + 1 && forall i :: 0 <= i < |evs| ==> ByPollThread(evs[i])
    ensures t in After(s, evs).removers && After(s, evs).removers[t].woken
    decreases Left(s.loop)
  {
    if s.loop == Top {
      Prepend(s, Answer, []);
      evs := [Answer] + [];
    } else {
      PollStepCounts(s);
      EventKeeps(s, PollStep(s));
      var rest := RoundAnswers(Next(s, PollStep(s)), t);
      Prepend(s, PollStep(s), rest);
      evs := [PollStep(s)] + rest;
    }
  }

  lemma RemoverAnswered(evs: seq<Event>, t: ThreadId) returns (more: seq<Event>)
    requires Run(INIT, evs) && t in After(INIT, evs).removers
    ensures var s := After(INIT, evs);
            && Run(s, more) && |more| <= Left(s.loop) + 1 && (forall i :: 0 <= i < |more| ==> ByPollThread(more[i]))
            && t in After(s, more).removers && After(s, more).removers[t].woken
  {
    RunKeeps(INIT, evs);
    more := RoundAnswers(After(INIT, evs), t);
  }

  // ---- A descriptor added while its remover waits ----

  lemma PrependCareful(s: State, ev: Event, evs: seq<Event>)
    requires Enabled(s, ev) && !ev.EndEarly? && !ev.Add? && Run(Next(s, ev), evs) && CarefulRun(Next(s, ev), evs)
    ensures Run(s, [ev] + evs) && CarefulRun(s, [ev] + evs) && After(s, [ev] + evs) == After(Next(s, ev), evs)
  {
    assert ([ev] + evs)[1..] == evs;
  }

  // What the remover does next, or else the poll thread.
  function TowardsEnd(s: State, t: ThreadId): Event
    requires t in s.removers
  {
    if s.removers[t].woken then EndRemove(t) else PollStep(s)
  }

  lemma StepTowardsEnd(s: State, t: ThreadId)
    requires Inv(s) && t in s.removers && !s.removers[t].woken
    ensures var ev := PollStep(s);
            && Enabled(s, ev) && ByPollThread(ev)
            && var s' := Next(s, ev);
               && Inv(s') && t in s'.removers && s'.removers[t].fd == s.removers[t].fd
               && s'.shared.rfds == s.shared.rfds && s'.shared.wfds == s.shared.wfds
               && (s'.removers[t].woken || Left(s'.loop) < Left(s.loop))
  {
    EventKeeps(s, PollStep(s));
    if s.loop != Top {
      PollStepCounts(s);
    }
  }

  // A descriptor that is watched while its remover waits loses its callback and stays watched.
  lemma {:induction false} LosesCallback(s: State, t: ThreadId) returns (evs: seq<Event>)
    requires Inv(s) && t in s.removers && Watched(s.shared, s.removers[t].fd)
    ensures Run(s, evs) && CarefulRun(s, evs)
    ensures var fd := s.removers[t].fd; Watched(After(s, evs).shared, fd) && fd !in After(s, evs).shared.callbacks
    decreases if s.removers[t].woken then 0 else 1 + Left(s.loop)
  {
    var rest := [];
    if !s.removers[t].woken {
      StepTowardsEnd(s, t);
      rest := LosesCallback(Next(s, PollStep(s)), t);
    }
    PrependCareful(s, TowardsEnd(s, t), rest);
    evs := [TowardsEnd(s, t)] + rest;
  }

  // In no future without a further add of this kind is a descriptor watched without its callback.
  ghost predicate KeepsCallbacks(s: State) {
    forall evs :: Run(s, evs) && CarefulRun(s, evs) ==> AllHaveCallbacks(After(s, evs))
  }

  // In every careful run the next add is safe for all careful futures if and only if no remover of its
  // descriptor waits.
  lemma AddExact(evs: seq<Event>, fd: Fd, flag: Flag, cb: nat)
    requires Run(INIT, evs) && CarefulRun(INIT, evs) && Enabled(After(INIT, evs), Add(fd, flag, cb))
    ensures var s, ev := After(INIT, evs), Add(fd, flag, cb);
            KeepsCallbacks(Next(s, ev)) <==> forall t :: t in s.removers ==> s.removers[t].fd != fd
  {
    var s, ev := After(INIT, evs), Add(fd, flag, cb);
    var s' := Next(s, ev);
    RunKeeps(INIT, evs);
    CarefulRunKeeps(INIT, evs);
    EventKeeps(s, ev);
    if t :| t in s.removers && s.removers[t].fd == fd {
      assert Watched(s'.shared, fd);
      var more := LosesCallback(s', t);
      assert !AllHaveCallbacks(After(s', more));
    } else {
      CarefulKeeps(s, ev);
      forall more | Run(s', more) && CarefulRun(s', more)
        ensures AllHaveCallbacks(After(s', more))
      {
        CarefulRunKeeps(s', more);
      }
    }
  }

  // ---- A wait that ends early ----

  predicate LooseRun(s: State, evs: seq<Event>)
    decreases |evs|
  {
    evs == [] || (Enabled(s, evs[0]) && LooseRun(Next(s, evs[0]), evs[1..]))
  }

  function LooseAfter(s: State, evs: seq<Event>): State
    requires LooseRun(s, evs)
    decreases |evs|
  {
    if evs == [] then s else LooseAfter(Next(s, evs[0]), evs[1..])
  }

  // No future, spurious wakeups of others included, runs fd's callback before fd is added again.
  ghost predicate Quiet(s: State, fd: Fd) {
    forall evs :: LooseRun(s, evs) && AddsNot(evs, fd) ==> !Runs(LooseAfter(s, evs), fd)
  }

  lemma {:induction false} GoneStaysGone(s: State, evs: seq<Event>, fd: Fd)
    requires fd !in s.shared.callbacks && !Runs(s, fd) && LooseRun(s, evs) && AddsNot(evs, fd)
    ensures !Runs(LooseAfter(s, evs), fd)
    decreases |evs|
  {
    if evs != [] {
      assert !(evs[0].Add? && evs[0].fd == fd);
      var s1 := Next(s, evs[0]);
      assert fd !in s1.shared.callbacks && !Runs(s1, fd);
      assert AddsNot(evs[1..], fd);
      GoneStaysGone(s1, evs[1..], fd);
    }
  }

  // Whenever the wait ends, broadcast or not, the descriptor is quiet from then on if and only if
  // its callback is not running at that moment.
  lemma EarlyEndExact(s: State, t: ThreadId)
    requires t in s.removers
    ensures var fd := s.removers[t].fd; Quiet(Ended(s, t), fd) <==> !Runs(s, fd)
  {
    var fd, s1 := s.removers[t].fd, Ended(s, t);
    if Runs(s, fd) {
      assert LooseRun(s1, []) && AddsNot([], fd) && LooseAfter(s1, []) == s1;
      assert Runs(s1, fd);
    } else {
      forall evs | LooseRun(s1, evs) && AddsNot(evs, fd) ensures !Runs(LooseAfter(s1, evs), fd) {
        GoneStaysGone(s1, evs, fd);
      }
    }
  }

  // For every descriptor some run gets there: its callback runs while its remover waits, and a
  // wait that ends then returns too soon.
  lemma EarlyEndReached(fd: Fd, cb: nat, t: ThreadId) returns (evs: seq<Event>)
    ensures Run(INIT, evs) && Enabled(After(INIT, evs), EndEarly(t))
    ensures After(INIT, evs).removers[t].fd == fd && !Quiet(Next(After(INIT, evs), EndEarly(t)), fd)
  {
    evs := WaitingWhileRunning(fd, cb, t);
    EarlyEndExact(After(INIT, evs), t);
  }

  // The callback of fd can be running while its remover waits.
  lemma WaitingWhileRunning(fd: Fd, cb: nat, t: ThreadId) returns (evs: seq<Event>)
    ensures Run(INIT, evs)
    ensures var s := After(INIT, evs);
            t in s.removers && s.removers[t] == Remover(fd, false, false) && s.loop == InCallback(fd, [], [])
  {
    var s1 := Next(INIT, Add(fd, RdOnly, cb));
    var s2 := Next(s1, Answer);
    var s3 := Next(s2, Snapshot);
    var s4 := Next(s3, Ready([fd], []));
    var s5 := Next(s4, NextCallback);
    Prepend(s5, BeginRemove(t, fd), []);
    evs := [BeginRemove(t, fd)] + [];
    Prepend(s4, NextCallback, evs);
    evs := [NextCallback] + evs;
    Prepend(s3, Ready([fd], []), evs);
    evs := [Ready([fd], [])] + evs;
    Prepend(s2, Snapshot, evs);
    evs := [Snapshot] + evs;
    Prepend(s1, Answer, evs);
    evs := [Answer] + evs;
    Prepend(INIT, Add(fd, RdOnly, cb), evs);
    evs := [Add(fd, RdOnly, cb)] + evs;
  }
}
