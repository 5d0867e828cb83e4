/** One client and one server together: which clients keep their first arrivals in order.

    The network delivers any copy of any request at any time.  A client that issues a call only when
    no other is outstanding, and gives none up before its reply, meets the condition under which
    the server's reply window is right. */
module AtMostOnce {
  import opened Basics
  import opened XidWindow
  import C = RpcClient
  import W = ReplyWindow

  datatype Pair = Pair(client: C.Calls, history: W.History)

  datatype Step = Client(c: C.Event) | Server(w: W.Event)

  const FRESH_PAIR := Pair(C.FRESH, map[])

  predicate Enabled(p: Pair, st: Step) {
    && p.client.window != []
    && match st
       case Client(ev) =>
         (match ev
          case Issue(bind) => p.client.nextXid != 0 && (C.Answer(p.client, bind).Header? ==> p.client.calls == map[])
          case Bound => true
          case Reply(x) => x in p.history && p.history[x].Some?
          case Finish(x) => x in p.client.calls && p.client.calls[x]
          case Cancel => true)
       case Server(ev) =>
         (match ev
          case Request(x) => C.IssuedXid(p.client, x)
          case Replied(x, _) => x in p.history && p.history[x].None?)
  }

  function Next(p: Pair, st: Step): (r: Pair)
    requires Enabled(p, st)
    ensures r.client.window != []
  {
    match st
    case Client(ev) => p.(client := C.Next(p.client, ev))
    case Server(ev) => p.(history := W.Remember(p.history, ev))
  }

  predicate Run(p: Pair, steps: seq<Step>)
    decreases |steps|
  {
    steps == [] || (Enabled(p, steps[0]) && Run(Next(p, steps[0]), steps[1..]))
  }

  function After(p: Pair, steps: seq<Step>): Pair
    requires Run(p, steps)
    decreases |steps|
  {
    if steps == [] then p else After(Next(p, steps[0]), steps[1..])
  }

  // What the server sees of a run.
  function Seen(steps: seq<Step>): seq<W.Event> {
    if steps == [] then [] else (if steps[0].Server? then [steps[0].w] else []) + Seen(steps[1..])
  }

  function Done(steps: seq<Step>): seq<C.Event> {
    if steps == [] then [] else (if steps[0].Client? then [steps[0].c] else []) + Done(steps[1..])
  }

  // ---- What every run keeps ----

  ghost predicate Latest(s: C.Calls, x: Xid) {
    forall y: Xid :: C.IssuedXid(s, y) ==> y <= x
  }

  ghost predicate Inv(p: Pair) {
    && p.client.window != [] && p.client.nextXid < TWO32
    && (forall x :: x in p.history ==> C.IssuedXid(p.client, x))
    && (forall x :: x in p.client.calls && p.client.calls[x] ==> x in p.history || p.client.closing)
    && (forall x :: C.IssuedXid(p.client, x) && x !in p.history ==>
          Latest(p.client, x) && (x in p.client.calls || p.client.closing))
  }

  lemma StepKeeps(p: Pair, st: Step)
    requires Inv(p) && Enabled(p, st)
    ensures Inv(Next(p, st)) && (st.Server? ==> W.Allowed(p.history, st.w))
  {
  }

  lemma {:induction false} SeenInOrder(p: Pair, steps: seq<Step>)
    requires Inv(p) && Run(p, steps)
    ensures W.Run(p.history, Seen(steps)) && After(p, steps).history == W.Past(p.history, Seen(steps))
    ensures C.Run(p.client, Done(steps)) && After(p, steps).client == C.After(p.client, Done(steps))
    ensures Inv(After(p, steps))
    decreases |steps|
  {
    if steps != [] {
      var st := steps[0];
      StepKeeps(p, st);
      SeenInOrder(Next(p, st), steps[1..]);
      if st.Server? {
        assert Seen(steps)[1..] == Seen(steps[1..]) && Done(steps) == Done(steps[1..]);
      } else {
        assert Seen(steps) == Seen(steps[1..]) && Done(steps)[1..] == Done(steps[1..]);
      }
    }
  }

  // In every run of such a client first arrivals increase, so the server answers each request as the
  // history says: executed once, then its recorded reply.
  lemma OneAtATime(steps: seq<Step>, x: Xid)
    requires Run(FRESH_PAIR, steps) && C.IssuedXid(After(FRESH_PAIR, steps).client, x)
    ensures C.Run(C.FRESH, Done(steps)) && W.Run(map[], Seen(steps))
    ensures var c := W.Check(W.After([], Seen(steps)), x);
            c.list != [] && c.verdict == W.Expected(After(FRESH_PAIR, steps).history, x, c.list[0].xid)
  {
    SeenInOrder(FRESH_PAIR, steps);
    StepKeeps(After(FRESH_PAIR, steps), Server(W.Request(x)));
    W.VerdictMatchesHistory(Seen(steps), x);
  }

  // ---- Which clients keep their arrivals in order ----

  // Copies of requests that s has issued, in any order and with repeats.
  ghost predicate Copies(s: C.Calls, reqs: seq<W.Event>) {
    forall i :: 0 <= i < |reqs| ==> reqs[i].Request? && C.IssuedXid(s, reqs[i].xid)
  }

  ghost predicate AlwaysInOrder(s: C.Calls, h: W.History) {
    forall reqs :: Copies(s, reqs) ==> W.Run(h, reqs)
  }

  ghost predicate OnlyLatestMissing(s: C.Calls, h: W.History) {
    forall x: Xid :: C.IssuedXid(s, x) && x !in h ==> Latest(s, x)
  }

  lemma {:induction false} LatestInOrder(s: C.Calls, h: W.History, reqs: seq<W.Event>)
    requires OnlyLatestMissing(s, h) && (forall x :: x in h ==> C.IssuedXid(s, x)) && Copies(s, reqs)
    ensures W.Run(h, reqs)
    decreases |reqs|
  {
    if reqs != [] {
      var x := reqs[0].xid;
      assert W.Allowed(h, reqs[0]) by {
        if x !in h { assert Latest(s, x); }
      }
      LatestInOrder(s, W.Remember(h, reqs[0]), reqs[1..]);
    }
  }

  lemma MissingOutOfOrder(s: C.Calls, h: W.History, x: Xid, y: Xid) returns (reqs: seq<W.Event>)
    requires C.IssuedXid(s, x) && C.IssuedXid(s, y) && x !in h && x < y
    ensures Copies(s, reqs) && !W.Run(h, reqs)
  {
    if y in h {
      reqs := [W.Request(x)];
      assert !W.Allowed(h, W.Request(x));
    } else {
      reqs := [W.Request(y), W.Request(x)];
      var h' := W.Remember(h, W.Request(y));
      assert y in h';
      assert reqs[1..] == [W.Request(x)];
      assert !W.Allowed(h', W.Request(x));
    }
  }

  // For every client and every history of what it issued: whatever copies arrive and when, first
  // arrivals increase if and only if no issued request is missing except the latest.
  lemma InOrderExact(s: C.Calls, h: W.History)
    requires forall x :: x in h ==> C.IssuedXid(s, x)
    ensures AlwaysInOrder(s, h) <==> OnlyLatestMissing(s, h)
  {
    if OnlyLatestMissing(s, h) {
      forall reqs | Copies(s, reqs) ensures W.Run(h, reqs) {
        LatestInOrder(s, h, reqs);
      }
    } else {
      var x: Xid :| C.IssuedXid(s, x) && x !in h && !Latest(s, x);
      var y: Xid :| C.IssuedXid(s, y) && y > x;
      var reqs := MissingOutOfOrder(s, h, x, y);
    }
  }

  lemma TwoMissing(s: C.Calls)
    requires C.IssuedXid(s, 1) && C.IssuedXid(s, 2)
    ensures !AlwaysInOrder(s, map[])
  {
    assert !Latest(s, 1);
    InOrderExact(s, map[]);
  }

  // A client with two calls outstanding, and one that has given its first call up, are not in order
  // once neither request has arrived.
  lemma OtherwiseOutOfOrder()
    ensures var two := [C.Bound, C.Issue(false), C.Issue(false)];
            && C.Run(C.FRESH, two) && C.After(C.FRESH, two).calls == map[1 := false, 2 := false]
            && !AlwaysInOrder(C.After(C.FRESH, two), map[])
    ensures var late := [C.Bound, C.Issue(false), C.Finish(1), C.Issue(false)];
            && C.Run(C.FRESH, late) && C.After(C.FRESH, late).calls == map[2 := false]
            && !AlwaysInOrder(C.After(C.FRESH, late), map[])
  {
    var i := C.Issue(false);
    var s1 := C.Next(C.FRESH, C.Bound);
    var s2 := C.Next(s1, i);
    C.Prepend(s2, i, []);
    C.Prepend(s1, i, [i] + []);
    C.Prepend(C.FRESH, C.Bound, [i] + ([i] + []));
    assert [C.Bound, i, i] == [C.Bound] + ([i] + ([i] + []));
    TwoMissing(C.Next(s2, i));
    var s3 := C.Next(s2, C.Finish(1));
    assert s3.calls == map[];
    C.Prepend(s3, i, []);
    C.Prepend(s2, C.Finish(1), [i] + []);
    C.Prepend(s1, i, [C.Finish(1)] + ([i] + []));
    C.Prepend(C.FRESH, C.Bound, [i] + ([C.Finish(1)] + ([i] + [])));
    assert [C.Bound, i, C.Finish(1), i] == [C.Bound] + ([i] + ([C.Finish(1)] + ([i] + [])));
    TwoMissing(C.Next(s3, i));
  }
}
