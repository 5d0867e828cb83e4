/** The calls of one RPC client (rpcc): xid allocation, replies and the acknowledgements in headers. */
module RpcClient {
  import opened Basics
  import opened XidWindow

  // nextXid is xid_; calls maps an outstanding xid to its `done` flag; closing is destroy_wait_.
  datatype Calls = Calls(nextXid: Xid, calls: map<Xid, bool>, window: seq<Xid>, bound: bool, closing: bool)

  const FRESH := Calls(1, map[], [0], false, false)

  datatype Issued = Refused(error: int) | Header(xid: Xid, xidRep: Xid)

  const BIND_FAILURE: int := -6
  const CANCEL_FAILURE: int := -7

  // The first region of call1, up to the packed header.
  function Answer(s: Calls, bind: bool): Issued
    requires s.window != []
  {
    if bind == s.bound then Refused(BIND_FAILURE)
    else if s.closing then Refused(CANCEL_FAILURE)
    else Header(s.nextXid, s.window[0])
  }

  datatype Event = Issue(bind: bool) | Bound | Reply(xid: Xid) | Finish(xid: Xid) | Cancel

  // Xids handed out so far, while the 32-bit counter has not wrapped past 0.
  predicate IssuedXid(s: Calls, x: Xid) {
    1 <= x < TWO32 && (s.nextXid == 0 || x < s.nextXid)
  }

  predicate Enabled(s: Calls, ev: Event) {
    match ev
    case Issue(_) => true
    case Bound => true
    case Reply(x) => IssuedXid(s, x)   // replies carry issued xids
    case Finish(x) => x in s.calls
    case Cancel => true
  }

  function Next(s: Calls, ev: Event): (r: Calls)
    requires s.window != []
    ensures r.window != []
  {
    match ev
    case Issue(bind) =>
      if Answer(s, bind).Refused? then s
      else s.(nextXid := Succ(s.nextXid), calls := s.calls[s.nextXid := false])
    case Bound => s.(bound := true)
    case Reply(x) =>
      s.(window := Update(s.window, x), calls := if x in s.calls then s.calls[x := true] else s.calls)
    case Finish(x) => s.(window := Update(s.window, x), calls := s.calls - {x})
    case Cancel =>
      s.(calls := map x | x in s.calls :: true, closing := s.closing || s.calls != map[])
  }

  // The header acknowledgement is sound: every call it covers has its answer or is gone.
  ghost predicate AckSound(s: Calls)
    requires s.window != []
  {
    forall x :: x in s.calls && x <= s.window[0] ==> s.calls[x]
  }

  // seen: the xids replied to or finished.
  ghost predicate Accounts(s: Calls, seen: set<Xid>) {
    && s.nextXid < TWO32
    && WindowOf(s.window, seen)
    && (forall x :: x in seen || x in s.calls ==> IssuedXid(s, x))
    && (forall x :: IssuedXid(s, x) ==> x in seen || x in s.calls)
    && (forall x :: x in seen && x in s.calls ==> s.calls[x])
  }

  // The set of finished xids after an event.
  function Seen(seen: set<Xid>, ev: Event): set<Xid> {
    if ev.Reply? || ev.Finish? then seen + {ev.xid} else seen
  }

  lemma AnswerKeeps(s: Calls, seen: set<Xid>, ev: Event)
    requires Accounts(s, seen) && Enabled(s, ev) && (ev.Reply? || ev.Finish?)
    ensures Accounts(Next(s, ev), seen + {ev.xid}) && Next(s, ev).window[0] >= s.window[0]
  {
    assert IssuedXid(s, ev.xid);
    assert Xids(seen + {ev.xid});
    UpdateRefines(s.window, seen, ev.xid);
    var s' := Next(s, ev);
    assert s'.nextXid == s.nextXid;
    assert forall x :: x in s'.calls ==> x in s.calls;
    assert forall x :: x in s.calls ==> x in s'.calls || x == ev.xid;
  }

  lemma EventKeeps(s: Calls, seen: set<Xid>, ev: Event)
    requires Accounts(s, seen) && Enabled(s, ev) && (ev.Issue? ==> s.nextXid != 0)
    ensures Accounts(Next(s, ev), Seen(seen, ev)) && Next(s, ev).window[0] >= s.window[0]
  {
    if ev.Reply? || ev.Finish? {
      AnswerKeeps(s, seen, ev);
    }
  }

  lemma AccountsSound(s: Calls, seen: set<Xid>)
    requires Accounts(s, seen)
    ensures AckSound(s)
    ensures s.calls == map[] ==> Succ(s.window[0]) == s.nextXid
  {
    forall x | x in s.calls && x <= s.window[0] ensures s.calls[x] {
      assert IssuedXid(s, x);
    }
    if s.calls == map[] {
      var f := s.window[0];
      assert f in s.window;
      assert f == 0 || IssuedXid(s, f);
      assert !IssuedXid(s, f + 1);
    }
  }

  // Runs in which the xid counter has not wrapped to 0 when a call is issued.
  predicate Run(s: Calls, evs: seq<Event>)
    requires s.window != []
    decreases |evs|
  {
    evs == [] || (Enabled(s, evs[0]) && (evs[0].Issue? ==> s.nextXid != 0) && Run(Next(s, evs[0]), evs[1..]))
  }

  function After(s: Calls, evs: seq<Event>): (r: Calls)
    requires s.window != [] && Run(s, evs)
    ensures r.window != []
    decreases |evs|
  {
    if evs == [] then s else After(Next(s, evs[0]), evs[1..])
  }

  // The acknowledgements placed in the request headers of a run.
  function Acks(s: Calls, evs: seq<Event>): seq<Xid>
    requires s.window != [] && Run(s, evs)
    decreases |evs|
  {
    if evs == [] then []
    else
      var here := if evs[0].Issue? && Answer(s, evs[0].bind).Header? then [Answer(s, evs[0].bind).xidRep] else [];
      here + Acks(Next(s, evs[0]), evs[1..])
  }

  lemma {:induction false} RunAccounts(s: Calls, seen: set<Xid>, evs: seq<Event>) returns (seen': set<Xid>)
    requires Accounts(s, seen) && Run(s, evs)
    ensures Accounts(After(s, evs), seen')
    ensures forall i :: 0 <= i < |Acks(s, evs)| ==> s.window[0] <= Acks(s, evs)[i] <= After(s, evs).window[0]
    ensures After(s, evs).window[0] >= s.window[0]
    ensures Sorted(Acks(s, evs))
    decreases |evs|
  {
    if evs == [] {
      seen' := seen;
    } else {
      EventKeeps(s, seen, evs[0]);
      seen' := RunAccounts(Next(s, evs[0]), Seen(seen, evs[0]), evs[1..]);
    }
  }

  // In every run: acknowledgements never decrease, each covers only calls that are done or gone,
  // and with no call outstanding everything issued is acknowledged.
  lemma AcksSound(evs: seq<Event>)
    requires Run(FRESH, evs)
    ensures var s := After(FRESH, evs);
            && Sorted(Acks(FRESH, evs))
            && (forall a, x :: a in Acks(FRESH, evs) && x in s.calls && x <= a ==> s.calls[x])
            && AckSound(s)
            && (s.calls == map[] ==> Succ(s.window[0]) == s.nextXid)
  {
    assert Accounts(FRESH, {});
    var seen := RunAccounts(FRESH, {}, evs);
    AccountsSound(After(FRESH, evs), seen);
  }

  // Once the counter has wrapped to 0, the next call is covered by its own acknowledgement before it starts.
  lemma WrapExact(evs: seq<Event>, bind: bool)
    requires Run(FRESH, evs) && Answer(After(FRESH, evs), bind).Header?
    ensures var s := After(FRESH, evs); s.nextXid != 0 <==> AckSound(Next(s, Issue(bind)))
  {
    var s := After(FRESH, evs);
    assert Accounts(FRESH, {});
    var seen := RunAccounts(FRESH, {}, evs);
    if s.nextXid != 0 {
      EventKeeps(s, seen, Issue(bind));
      AccountsSound(Next(s, Issue(bind)), seen);
    } else {
      assert 0 in Next(s, Issue(bind)).calls;
    }
  }

  // ---- The xids in the headers ----

  // When a call is refused, and that a refusal changes nothing.
  lemma RefusedExactly(s: Calls, bind: bool)
    requires s.window != []
    ensures Answer(s, bind) == Refused(BIND_FAILURE) <==> (bind <==> s.bound)
    ensures Answer(s, bind) == Refused(CANCEL_FAILURE) <==> (bind <==> !s.bound) && s.closing
    ensures Answer(s, bind).Refused? ==> Next(s, Issue(bind)) == s
  {
  }

  // The xid of a header is new, and names the one call that is entered with it.
  lemma HeaderNamesCall(s: Calls, seen: set<Xid>, bind: bool)
    requires Accounts(s, seen) && s.nextXid != 0 && Answer(s, bind).Header?
    ensures var x, s' := Answer(s, bind).xid, Next(s, Issue(bind));
            && x !in s.calls && x !in seen && !IssuedXid(s, x)
            && s'.calls == s.calls[x := false] && IssuedXid(s', x) && s'.window == s.window
            && Answer(s, bind).xidRep == s.window[0]
  {
  }

  // The xids placed in the request headers of a run.
  function HeaderXids(s: Calls, evs: seq<Event>): seq<Xid>
    requires s.window != [] && Run(s, evs)
    decreases |evs|
  {
    if evs == [] then []
    else
      var here := if evs[0].Issue? && Answer(s, evs[0].bind).Header? then [Answer(s, evs[0].bind).xid] else [];
      here + HeaderXids(Next(s, evs[0]), evs[1..])
  }

  lemma {:induction false} HeadersFrom(s: Calls, evs: seq<Event>)
    requires s.window != [] && s.nextXid < TWO32 && Run(s, evs)
    ensures var xs := HeaderXids(s, evs);
            && (forall i :: 0 <= i < |xs| ==> xs[i] == s.nextXid + i)
            && s.nextXid + |xs| <= TWO32 && (xs != [] ==> s.nextXid != 0)
            && After(s, evs).nextXid == if s.nextXid + |xs| == TWO32 then 0 else s.nextXid + |xs|
    decreases |evs|
  {
    if evs != [] {
      var s' := Next(s, evs[0]);
      assert s'.nextXid == s.nextXid || s'.nextXid == if s.nextXid + 1 == TWO32 then 0 else s.nextXid + 1;
      HeadersFrom(s', evs[1..]);
    }
  }

  // In every run each header names the call just entered, under an xid that no call had before.
  lemma HeadersName(evs: seq<Event>, bind: bool)
    requires Run(FRESH, evs) && After(FRESH, evs).nextXid != 0 && Answer(After(FRESH, evs), bind).Header?
    ensures var s := After(FRESH, evs);
            var x, s' := Answer(s, bind).xid, Next(s, Issue(bind));
            && x !in s.calls && !IssuedXid(s, x) && s'.calls == s.calls[x := false] && IssuedXid(s', x)
            && Answer(s, bind).xidRep == s.window[0]
  {
    assert Accounts(FRESH, {});
    var seen := RunAccounts(FRESH, {}, evs);
    HeaderNamesCall(After(FRESH, evs), seen, bind);
  }

  // In every run the headers carry 1, 2, 3 and so on, whatever replies come, calls end or are refused.
  lemma HeadersCount(evs: seq<Event>, i: nat)
    requires Run(FRESH, evs) && i < |HeaderXids(FRESH, evs)|
    ensures HeaderXids(FRESH, evs)[i] == i + 1
  {
    HeadersFrom(FRESH, evs);
  }

  // ---- The counter does wrap ----

  lemma Prepend(s: Calls, ev: Event, evs: seq<Event>)
    requires s.window != [] && Enabled(s, ev) && (ev.Issue? ==> s.nextXid != 0) && Run(Next(s, ev), evs)
    ensures Run(s, [ev] + evs) && After(s, [ev] + evs) == After(Next(s, ev), evs)
  {
    assert ([ev] + evs)[1..] == evs;
  }

  // A bound client after n calls, the bind included, each finished before the next.
  function AfterCalls(n: nat): Calls {
    Calls(Succ(n), map[], [n], true, false)
  }

  lemma NextFinished(n: nat)
    requires n + 1 < TWO32
    ensures Update([n], n + 1) == [n + 1]
  {
    assert Insert([n], n + 1) == [n, n + 1];
    assert PopTo([n + 1], 0) == [n + 1];
    assert [n, n + 1][1..] == [n + 1];
    assert PopTo([n, n + 1], 1) == [n + 1];
    assert CompressAt([n + 1], 1) == [n + 1];
  }

  lemma {:induction false} CallsTo(n: nat, m: nat) returns (evs: seq<Event>)
    requires 1 <= n <= m < TWO32
    ensures Run(AfterCalls(n), evs) && After(AfterCalls(n), evs) == AfterCalls(m)
    decreases m - n
  {
    evs := [];
    if n < m {
      var s := AfterCalls(n);
      var s1 := Next(s, Issue(false));
      assert s1 == s.(nextXid := Succ(n + 1), calls := map[n + 1 := false]);
      NextFinished(n);
      assert s1.calls - {n + 1} == map[];
      assert Next(s1, Finish(n + 1)) == AfterCalls(n + 1);
      var rest := CallsTo(n + 1, m);
      Prepend(s1, Finish(n + 1), rest);
      evs := [Issue(false)] + ([Finish(n + 1)] + rest);
      Prepend(s, Issue(false), [Finish(n + 1)] + rest);
    }
  }

  // A client that has made 2^32 - 1 calls puts an unsound acknowledgement in the next one.
  lemma WrapReached() returns (evs: seq<Event>)
    ensures Run(FRESH, evs) && Answer(After(FRESH, evs), false).Header?
    ensures !AckSound(Next(After(FRESH, evs), Issue(false)))
  {
    var rest := CallsTo(1, TWO32 - 1);
    var s1 := Next(FRESH, Issue(true));
    var s2 := Next(s1, Finish(1));
    NextFinished(0);
    assert s1.calls - {1} == map[];
    assert Next(s2, Bound) == AfterCalls(1);
    Prepend(s2, Bound, rest);
    Prepend(s1, Finish(1), [Bound] + rest);
    Prepend(FRESH, Issue(true), [Finish(1)] + ([Bound] + rest));
    evs := [Issue(true)] + ([Finish(1)] + ([Bound] + rest));
    WrapExact(evs, false);
  }

  class Rpcc {
    var nextXid: Xid
    var calls: map<Xid, bool>
    var window: seq<Xid>
    var bound: bool
    var closing: bool

    function State(): Calls
      reads this
    {
      Calls(nextXid, calls, window, bound, closing)
    }

    constructor ()
      ensures State() == FRESH
    {
      nextXid, calls, window, bound, closing := 1, map[], [0], false, false;
    }

    method UpdateXidRep(xid: Xid)
      requires window != []
      modifies this`window
      ensures window == Update(old(window), xid)
    {
      if xid <= window[0] {
        return;
      }
      var i := 0;
      while i < |window| && window[i] <= xid
        invariant 0 <= i <= |window| && window == old(window)
        invariant Insert(window, xid) == window[..i] + Insert(window[i..], xid)
      {
        i := i + 1;
      }
      assert Insert(window[i..], xid) == [xid] + window[i..];
      window := window[..i] + [xid] + window[i..];
      assert window == Insert(old(window), xid);
      Compress();
    }

    // The part of update_xid_rep behind the label `compress`.
    method Compress()
      requires window != []
      modifies this`window
      ensures window == CompressAt(old(window), 1)
    {
      var p := 1;
      while p < |window|
        invariant window != [] && CompressAt(window, p) == CompressAt(old(window), 1)
        decreases |window| - p
      {
        ghost var w, q := window, p;
        while Succ(window[0]) == window[p]
          invariant 0 <= p < |window| && |w| - q == |window| - p
          invariant PopTo(window, p) == PopTo(w, q)
          decreases |window|
        {
          assert p > 0;
          window := window[1..];
          p := p - 1;
        }
        p := p + 1;
      }
    }

    // call1 up to the packed header.
    method Begin(bind: bool) returns (r: Issued)
      requires window != []
      modifies this
      ensures State() == Next(old(State()), Issue(bind)) && r == Answer(old(State()), bind)
    {
      if (!bind && !bound) || (bind && bound) {
        return Refused(BIND_FAILURE);
      }
      if closing {
        return Refused(CANCEL_FAILURE);
      }
      var xid := nextXid;
      nextXid := Succ(nextXid);
      calls := calls[xid := false];
      r := Header(xid, window[0]);
    }

    // got_pdu on a reply whose header unpacked; says whether the reply was taken by its caller.
    method GotReply(xid: Xid) returns (taken: bool)
      requires window != []
      modifies this
      ensures State() == Next(old(State()), Reply(xid))
      ensures taken <==> xid in old(calls) && !old(calls)[xid]
    {
      UpdateXidRep(xid);
      taken := false;
      if xid in calls {
        if !calls[xid] {
          taken := true;
          calls := calls[xid := true];
        }
      }
    }

    // The last region of call1.
    method End(xid: Xid)
      requires window != [] && xid in calls
      modifies this
      ensures State() == Next(old(State()), Finish(xid))
    {
      calls := calls - {xid};
      UpdateXidRep(xid);
    }
  }
}
