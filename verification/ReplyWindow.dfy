/** The RPC server's window of replies, which gives at-most-once execution
    (rpcs::checkduplicate_and_update and rpcs::add_reply). */
module ReplyWindow {
  import opened Basics
  import opened XidWindow

  type Buf = seq<bv8>

  // reply_t; the reply bytes are meaningful once present.
  datatype Reply = Reply(xid: Xid, present: bool, buf: Buf)

  // DoneUnset: the result DONE with the reply pointer left unassigned.
  datatype Verdict = New | InProgress | Done(buf: Buf) | DoneUnset | Forgotten

  datatype Checked = Checked(list: seq<Reply>, verdict: Verdict)

  const SENTINEL := Reply(0, true, [])

  function Opened(l: seq<Reply>): (r: seq<Reply>)
    ensures r != []
  {
    if l == [] then [SENTINEL] else l
  }

  function Last(l: seq<Reply>): Xid
    requires l != []
  {
    l[|l| - 1].xid
  }

  // The front entry is dropped when it has its reply and its successor is the next xid.
  predicate Movable(l: seq<Reply>) {
    |l| > 1 && l[0].present && l[1].xid == Succ(l[0].xid)
  }

  // The scan from position i on.  The successor is read before the window moves, so after a
  // move (stale) it is the entry at i itself; a missing successor fails both comparisons.
  function Scan(l: seq<Reply>, i: nat, x: Xid, stale: bool): Checked
    requires l != []
    decreases |l| - i
  {
    if i >= |l| then Checked(l, DoneUnset)
    else if x < l[0].xid then Checked(l, Forgotten)
    else if x == l[i].xid then Checked(l, if l[i].present then Done(l[i].buf) else InProgress)
    else if !stale && i + 1 < |l| && l[i].xid < x < l[i + 1].xid then
      Checked(l[..i] + [Reply(x, false, [])] + l[i..], New)
    else Scan(l, i + 1, x, false)
  }

  function Check(l: seq<Reply>, x: Xid): Checked {
    var l1 := Opened(l);
    if x > Last(l1) then
      Checked(l1 + [Reply(x, false, [])], if x < l1[0].xid then Forgotten else New)
    else if x < l1[0].xid then Checked(l1, Forgotten)
    else if Movable(l1) then Scan(l1[1..], 0, x, true)
    else Scan(l1, 0, x, false)
  }

  function Record(l: seq<Reply>, x: Xid, b: Buf): (r: seq<Reply>)
    ensures |r| == |l|
    ensures forall i :: 0 <= i < |l| ==> r[i] == if l[i].xid == x then Reply(x, true, b) else l[i]
  {
    if l == [] then [] else [if l[0].xid == x then Reply(x, true, b) else l[0]] + Record(l[1..], x, b)
  }

  class RpcServer {
    var windows: map<nat, seq<Reply>>   // reply_window_, by client nonce

    function Window(clt: nat): seq<Reply>
      reads this
    {
      Lookup(windows, clt, [])
    }

    constructor ()
      ensures windows == map[]
    {
      windows := map[];
    }

    method CheckDuplicateAndUpdate(clt: nat, xid: Xid) returns (v: Verdict)
      modifies this
      ensures v == Check(old(Window(clt)), xid).verdict
      ensures windows == old(windows)[clt := Check(old(Window(clt)), xid).list]
    {
      var l := Lookup(windows, clt, []);
      if l == [] {
        l := [Reply(0, true, [])];
      }
      v := DoneUnset;
      if xid > l[|l| - 1].xid {
        v := New;
        l := l + [Reply(xid, false, [])];
      }
      if xid < l[0].xid {
        v := Forgotten;
      }
      if v != New && v != Forgotten {
        var stale := false;
        if |l| > 1 && l[0].present && l[1].xid == Succ(l[0].xid) {
          l := l[1..];
          stale := true;
        }
        var i := 0;
        ghost var moved := l;
        ghost var spec := Scan(l, 0, xid, stale);
        while i < |l|
          invariant 0 <= i <= |l| && l == moved && l != [] && v == DoneUnset
          invariant Scan(l, i, xid, stale) == spec
        {
          if xid < l[0].xid {
            v := Forgotten;
            break;
          }
          if xid == l[i].xid {
            v := if l[i].present then Done(l[i].buf) else InProgress;
            break;
          }
          if !stale && i + 1 < |l| && xid > l[i].xid && xid < l[i + 1].xid {
            v := New;
            l := l[..i] + [Reply(xid, false, [])] + l[i..];
            break;
          }
          i, stale := i + 1, false;
        }
      }
      windows := windows[clt := l];
    }

    method AddReply(clt: nat, xid: Xid, b: Buf)
      modifies this
      ensures windows == old(windows)[clt := Record(old(Window(clt)), xid, b)]
    {
      var l := Lookup(windows, clt, []);
      ghost var l0 := l;
      var i := 0;
      while i < |l|
        invariant 0 <= i <= |l| == |l0|
        invariant forall k :: 0 <= k < i ==> l[k] == Record(l0, xid, b)[k]
        invariant forall k :: i <= k < |l| ==> l[k] == l0[k]
      {
        if l[i].xid == xid {
          l := l[i := Reply(l[i].xid, true, b)];
        }
        i := i + 1;
      }
      assert l == Record(l0, xid, b);
      windows := windows[clt := l];
    }
  }

  // ---- Reference: what has arrived and what was replied, with nothing ever dropped ----

  type History = map<Xid, Option<Buf>>

  datatype Event = Request(xid: Xid) | Replied(xid: Xid, buf: Buf)

  // First arrivals come in increasing order; a reply is recorded once for each request let through.
  predicate Allowed(h: History, ev: Event) {
    match ev
    case Request(x) => 1 <= x < TWO32 && (x in h || forall y :: y in h ==> y < x)
    case Replied(x, _) => x in h && h[x].None?
  }

  function Remember(h: History, ev: Event): History {
    match ev
    case Request(x) => if x in h then h else h[x := None]
    case Replied(x, b) => h[x := Some(b)]
  }

  function Next(l: seq<Reply>, ev: Event): seq<Reply> {
    match ev
    case Request(x) => Check(l, x).list
    case Replied(x, b) => Record(l, x, b)
  }

  predicate Run(h: History, evs: seq<Event>)
    decreases |evs|
  {
    evs == [] || (Allowed(h, evs[0]) && Run(Remember(h, evs[0]), evs[1..]))
  }

  function Past(h: History, evs: seq<Event>): History
    decreases |evs|
  {
    if evs == [] then h else Past(Remember(h, evs[0]), evs[1..])
  }

  function After(l: seq<Reply>, evs: seq<Event>): seq<Reply>
    decreases |evs|
  {
    if evs == [] then l else After(Next(l, evs[0]), evs[1..])
  }

  // ---- The window refines the history ----

  ghost predicate Increasing(l: seq<Reply>) {
    forall i, j :: 0 <= i < j < |l| ==> l[i].xid < l[j].xid
  }

  ghost predicate Entry(r: Reply, h: History) {
    if r.xid == 0 then r == SENTINEL
    else r.xid in h && r.present == h[r.xid].Some? && (r.present ==> r.buf == h[r.xid].value)
  }

  ghost predicate Listed(l: seq<Reply>, x: Xid) {
    exists i :: 0 <= i < |l| && l[i].xid == x
  }

  // Every arrival from the front on is listed, and what lies before the front has been replied.
  ghost predicate Refines(l: seq<Reply>, h: History) {
    && Increasing(l)
    && (forall i :: 0 <= i < |l| ==> Entry(l[i], h))
    && (forall x :: x in h ==> 1 <= x < TWO32)
    && (l == [] ==> h == map[])
    && (forall x :: x in h && l != [] && x >= l[0].xid ==> Listed(l, x))
    && (forall x :: x in h && l != [] && x < l[0].xid ==> h[x].Some?)
  }

  // What the history says of a request, given the front of the window.
  function Expected(h: History, x: Xid, front: Xid): Verdict {
    if x !in h then New
    else if h[x].None? then InProgress
    else if x < front then Forgotten
    else Done(h[x].value)
  }

  lemma {:induction false} ScanFinds(l: seq<Reply>, i: nat, k: nat, stale: bool)
    requires Increasing(l) && i <= k < |l|
    ensures Scan(l, i, l[k].xid, stale) == Checked(l, if l[k].present then Done(l[k].buf) else InProgress)
    decreases k - i
  {
    if i < k {
      ScanFinds(l, i + 1, k, false);
    }
  }

  lemma MoveKeeps(l: seq<Reply>, h: History)
    requires Refines(l, h) && Movable(l)
    ensures Refines(l[1..], h)
  {
    var r := l[1..];
    forall x | x in h && x >= r[0].xid ensures Listed(r, x) {
      assert Listed(l, x);
      var i :| 0 <= i < |l| && l[i].xid == x;
      assert r[i - 1].xid == x;
    }
    forall x | x in h && x < r[0].xid ensures h[x].Some? {
      if x >= l[0].xid {
        assert Listed(l, x);
        assert x == l[0].xid;
      }
    }
  }

  lemma ArrivalKeeps(l: seq<Reply>, h: History, x: Xid)
    requires Refines(l, h) && l != [] && x !in h && 1 <= x < TWO32 && x > Last(l)
    ensures Refines(l + [Reply(x, false, [])], h[x := None])
  {
    var r, h' := l + [Reply(x, false, [])], h[x := None];
    assert r[|l|].xid == x;
    forall y | y in h' && y >= r[0].xid ensures Listed(r, y) {
      if y != x {
        assert Listed(l, y);
        var i :| 0 <= i < |l| && l[i].xid == y;
        assert r[i].xid == y;
      }
    }
  }

  lemma OpenedKeeps(l: seq<Reply>, h: History)
    requires Refines(l, h)
    ensures Refines(Opened(l), h)
  {
  }

  lemma RequestKeeps(l: seq<Reply>, h: History, x: Xid)
    requires Refines(l, h) && Allowed(h, Request(x))
    ensures var c := Check(l, x);
            && c.list != [] && Refines(c.list, Remember(h, Request(x)))
            && c.verdict == Expected(h, x, c.list[0].xid)
            && c.list[0].xid >= Opened(l)[0].xid
  {
    OpenedKeeps(l, h);
    var l1 := Opened(l);
    assert Entry(l1[|l1| - 1], h);
    if x !in h {
      ArrivalKeeps(l1, h, x);
    } else if x < l1[0].xid {
    } else {
      assert Listed(l1, x);
      if Movable(l1) { MoveKeeps(l1, h); }
      KnownFound(if Movable(l1) then l1[1..] else l1, h, x, Movable(l1));
    }
  }

  lemma KnownFound(l: seq<Reply>, h: History, x: Xid, stale: bool)
    requires Refines(l, h) && l != [] && x in h
    ensures Scan(l, 0, x, stale) == Checked(l, Expected(h, x, l[0].xid))
  {
    if x >= l[0].xid {
      assert Listed(l, x);
      var k :| 0 <= k < |l| && l[k].xid == x;
      ScanFinds(l, 0, k, stale);
      assert Entry(l[k], h);
    }
  }

  // A window with the same xids, whose entries agree with h', refines h' if h' only adds replies.
  lemma SameXids(l: seq<Reply>, h: History, r: seq<Reply>, h': History)
    requires Refines(l, h) && |r| == |l| && h'.Keys == h.Keys
    requires forall i :: 0 <= i < |l| ==> r[i].xid == l[i].xid && Entry(r[i], h')
    requires forall x :: x in h && h[x].Some? ==> h'[x].Some?
    ensures Refines(r, h')
  {
    assert forall x :: x in h' <==> x in h;
    forall x | x in h' && r != [] && x >= r[0].xid ensures Listed(r, x) {
      assert Listed(l, x);
      var i :| 0 <= i < |l| && l[i].xid == x;
      assert r[i].xid == x;
    }
  }

  lemma RecordKeeps(l: seq<Reply>, h: History, x: Xid, b: Buf)
    requires Refines(l, h) && x in h
    ensures Refines(Record(l, x, b), h[x := Some(b)])
  {
    var r, h' := Record(l, x, b), h[x := Some(b)];
    forall i | 0 <= i < |l| ensures r[i].xid == l[i].xid && Entry(r[i], h') {
      assert Entry(l[i], h);
    }
    SameXids(l, h, r, h');
  }

  function Front(l: seq<Reply>): Xid {
    Opened(l)[0].xid
  }

  lemma {:induction false} RunRefines(l: seq<Reply>, h: History, evs: seq<Event>)
    requires Refines(l, h) && Run(h, evs)
    ensures Refines(After(l, evs), Past(h, evs))
    ensures Front(After(l, evs)) >= Front(l)
    decreases |evs|
  {
    if evs != [] {
      match evs[0] {
        case Request(x) => RequestKeeps(l, h, x);
        case Replied(x, b) => RecordKeeps(l, h, x, b);
      }
      RunRefines(Next(l, evs[0]), Remember(h, evs[0]), evs[1..]);
    }
  }

  // For every interleaving: NEW exactly for a first arrival, INPROGRESS until the reply is
  // recorded, then DONE with exactly the recorded bytes, or FORGOTTEN once the window has passed.
  lemma VerdictMatchesHistory(evs: seq<Event>, x: Xid)
    requires Run(map[], evs) && Allowed(Past(map[], evs), Request(x))
    ensures var c := Check(After([], evs), x);
            c.list != [] && c.verdict == Expected(Past(map[], evs), x, c.list[0].xid)
  {
    RunRefines([], map[], evs);
    RequestKeeps(After([], evs), Past(map[], evs), x);
  }

  // Forgotten once, forgotten for ever.
  lemma ForgottenForEver(evs: seq<Event>, more: seq<Event>, x: Xid)
    requires Run(map[], evs) && Run(Past(map[], evs), more)
    requires Allowed(Past(map[], evs), Request(x)) && Check(After([], evs), x).verdict == Forgotten
    ensures Check(After(Check(After([], evs), x).list, more), x).verdict == Forgotten
  {
    var l, h := After([], evs), Past(map[], evs);
    RunRefines([], map[], evs);
    RequestKeeps(l, h, x);
    var c := Check(l, x);
    assert Remember(h, Request(x)) == h;
    RunRefines(c.list, h, more);
    PassedForgotten(After(c.list, more), x);
  }

  lemma PassedForgotten(l: seq<Reply>, x: Xid)
    requires x < Front(l) && Increasing(l)
    ensures Check(l, x).verdict == Forgotten
  {
  }

  // ---- The ordering condition is exact ----

  lemma {:induction false} ScanUnseen(l: seq<Reply>, i: nat, x: Xid, stale: bool)
    requires Increasing(l) && l != [] && !Listed(l, x) && x >= l[0].xid && (i < |l| ==> l[i].xid < x)
    ensures var c := Scan(l, i, x, stale); c.verdict == New ==> !Increasing(c.list)
    decreases |l| - i
  {
    if i < |l| {
      if !stale && i + 1 < |l| && x < l[i + 1].xid {
        var c := Scan(l, i, x, stale).list;
        assert c[i].xid == x && c[i + 1].xid == l[i].xid;
      } else if i + 1 < |l| && l[i + 1].xid < x {
        ScanUnseen(l, i + 1, x, false);
      } else {
        if i + 1 < |l| { assert l[i + 1].xid != x; }
        ScanPast(l, i + 1, x);
      }
    }
  }

  // Beyond the gap nothing matches.
  lemma {:induction false} ScanPast(l: seq<Reply>, i: nat, x: Xid)
    requires Increasing(l) && l != [] && x >= l[0].xid && (i < |l| ==> x < l[i].xid)
    ensures Scan(l, i, x, false) == Checked(l, DoneUnset)
    decreases |l| - i
  {
    if i < |l| {
      ScanPast(l, i + 1, x);
    }
  }

  lemma LastIsLargest(l: seq<Reply>, h: History, x: Xid)
    requires Refines(l, h) && l != [] && x !in h && x >= 1
    ensures !Listed(l, x)
    ensures x > Last(l) <==> forall y :: y in h ==> y < x
  {
    assert Entry(l[|l| - 1], h);
    forall i | 0 <= i < |l| ensures l[i].xid != x {
      assert Entry(l[i], h);
    }
    forall y | y in h ensures y <= Last(l) {
      if y >= l[0].xid { assert Listed(l, y); }
    }
  }

  lemma OutOfOrder(l: seq<Reply>, x: Xid)
    requires Increasing(l) && l != [] && !Listed(l, x) && l[0].xid < x < Last(l)
    ensures var c := Check(l, x); c.verdict == New ==> !Increasing(c.list)
  {
    if Movable(l) {
      var r := l[1..];
      assert l[1].xid != x;
      forall i | 0 <= i < |r| ensures r[i].xid != x {
        assert l[i + 1].xid != x;
      }
      ScanUnseen(r, 0, x, true);
    } else {
      ScanUnseen(l, 0, x, false);
    }
  }

  // A first arrival is answered NEW and leaves the window in order if and only if it is above all before it.
  lemma OrderConditionExact(evs: seq<Event>, x: Xid)
    requires Run(map[], evs) && 1 <= x < TWO32 && x !in Past(map[], evs)
    ensures var c := Check(After([], evs), x);
            Allowed(Past(map[], evs), Request(x)) <==> c.verdict == New && Increasing(c.list)
  {
    var l, h := After([], evs), Past(map[], evs);
    RunRefines([], map[], evs);
    OpenedKeeps(l, h);
    var l1 := Opened(l);
    LastIsLargest(l1, h, x);
    if x > Last(l1) {
      RequestKeeps(l, h, x);
    } else {
      assert l1[0].xid != x && l1[|l1| - 1].xid != x;
      assert Check(l, x) == Check(l1, x);
      if x > l1[0].xid { OutOfOrder(l1, x); }
    }
  }

  // After requests 1 and 4, a first request 2 is taken for DONE with no reply to send, and a
  // first request 3 behind it goes in front of its smaller neighbour.
  lemma LateArrivalsMisplaced()
    ensures Check(After([], [Request(1), Request(4)]), 2) ==
            Checked([Reply(1, false, []), Reply(4, false, [])], DoneUnset)
    ensures Check([Reply(1, false, []), Reply(4, false, [])], 3) ==
            Checked([Reply(3, false, []), Reply(1, false, []), Reply(4, false, [])], New)
  {
    var l1 := Check([], 1).list;
    assert l1 == [SENTINEL, Reply(1, false, [])];
    var l2 := Check(l1, 4).list;
    assert l2 == [SENTINEL, Reply(1, false, []), Reply(4, false, [])];
    assert [Request(1), Request(4)][1..] == [Request(4)];
    assert l2[1..] == [Reply(1, false, []), Reply(4, false, [])];
  }

  // ---- When the window moves ----

  predicate Passable(h: History, f: Xid) {
    (f == 0 || (f in h && h[f].Some?)) && f + 1 in h
  }

  lemma MovableExact(l: seq<Reply>, h: History)
    requires Refines(l, h) && l != []
    ensures Movable(l) <==> Passable(h, l[0].xid)
  {
    var f := l[0].xid;
    assert Entry(l[0], h);
    if Passable(h, f) {
      assert Listed(l, f + 1);
      assert l[1].xid == f + 1;
    }
    if |l| > 1 { assert Entry(l[1], h); }
  }

  lemma RepeatMoves(l: seq<Reply>, h: History, x: Xid)
    requires Refines(l, h) && l != [] && x in h && x >= l[0].xid
    ensures Check(l, x).list == if Movable(l) then l[1..] else l
  {
    assert Listed(l, x);
    if Movable(l) { MoveKeeps(l, h); }
    KnownFound(if Movable(l) then l[1..] else l, h, x, Movable(l));
  }

  lemma RequestMoves(l: seq<Reply>, h: History, x: Xid)
    requires Refines(l, h) && l != [] && Allowed(h, Request(x))
    ensures var f := l[0].xid;
            Front(Check(l, x).list) == if x in h && f <= x && Passable(h, f) then f + 1 else f
  {
    MovableExact(l, h);
    if x !in h {
      LastIsLargest(l, h, x);
    } else if x >= l[0].xid {
      RepeatMoves(l, h, x);
    }
  }

  // A request moves the window past its front f, by one, exactly when it repeats a request not
  // yet forgotten, f has its reply and f + 1 has arrived.
  lemma MovesExactly(evs: seq<Event>, x: Xid)
    requires Run(map[], evs) && Allowed(Past(map[], evs), Request(x))
    ensures var h, f := Past(map[], evs), Front(After([], evs));
            Front(Check(After([], evs), x).list) == if x in h && f <= x && Passable(h, f) then f + 1 else f
  {
    var l, h := After([], evs), Past(map[], evs);
    RunRefines([], map[], evs);
    OpenedKeeps(l, h);
    assert Check(l, x) == Check(Opened(l), x);
    RequestMoves(Opened(l), h, x);
  }
}
