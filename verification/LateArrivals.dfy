/** First arrivals out of order, and when a request is then executed twice.

    The reply window is there so that no request is executed twice.  A late first arrival is put in
    front of its smaller neighbour; a repeat of that neighbour can then be taken for new. */
module LateArrivals {
  import opened Basics
  import opened XidWindow
  import opened ReplyWindow

  // Whatever comes next, in order, a request that has arrived before is answered NEW.
  ghost predicate TwiceAfter(l: seq<Reply>, h: History, more: seq<Event>, y: Xid) {
    Run(h, more) && y in Past(h, more) && Check(After(l, more), y).verdict == New
  }

  ghost predicate RunsTwice(l: seq<Reply>, h: History) {
    exists more, y :: TwiceAfter(l, h, more, y)
  }

  lemma InOrderOnce(l: seq<Reply>, h: History)
    requires Refines(l, h)
    ensures !RunsTwice(l, h)
  {
    forall more, y ensures !TwiceAfter(l, h, more, y) {
      if Run(h, more) && y in Past(h, more) {
        RunRefines(l, h, more);
        RequestKeeps(After(l, more), Past(h, more), y);
      }
    }
  }

  // ---- Where a late arrival goes ----

  function Inserted(l: seq<Reply>, k: nat, x: Xid): seq<Reply>
    requires k <= |l|
  {
    l[..k] + [Reply(x, false, [])] + l[k..]
  }

  lemma {:induction false} Placed(l: seq<Reply>, i: nat, k: nat, x: Xid, stale: bool)
    requires Increasing(l) && i <= k && k + 1 < |l| && l[k].xid < x < l[k + 1].xid
    ensures Scan(l, i, x, stale) == if stale && i == k then Checked(l, DoneUnset) else Checked(Inserted(l, k, x), New)
    decreases k - i
  {
    if i < k {
      Placed(l, i + 1, k, x, false);
    } else if stale {
      ScanPast(l, k + 1, x);
    }
  }

  lemma {:induction false} Gap(l: seq<Reply>, x: Xid) returns (k: nat)
    requires l != [] && Increasing(l) && !Listed(l, x) && l[0].xid < x < Last(l)
    ensures k + 1 < |l| && l[k].xid < x < l[k + 1].xid
    decreases |l|
  {
    assert l[1].xid != x;
    if x < l[1].xid {
      k := 0;
    } else {
      var r := l[1..];
      forall i | 0 <= i < |r| ensures r[i].xid != x {
        assert l[i + 1].xid != x;
      }
      var j := Gap(r, x);
      k := j + 1;
    }
  }

  // ---- Behind the front: the smaller neighbour runs again ----

  // x stands at p, in front of its smaller neighbour.
  ghost predicate Bent(l: seq<Reply>, p: nat) {
    && 1 <= p && p + 1 < |l| && Increasing(l[..p]) && l[p - 1].xid < l[p + 1].xid < l[p].xid < Last(l) < TWO32
  }

  lemma BentLower(l: seq<Reply>, p: nat, i: nat)
    requires Bent(l, p) && i < p
    ensures l[i].xid <= l[p - 1].xid && (i + 1 < p ==> l[i].xid < l[i + 1].xid <= l[p - 1].xid)
  {
    var a := l[..p];
    assert a[i] == l[i] && a[p - 1] == l[p - 1];
    if i + 1 < p {
      assert a[i + 1] == l[i + 1];
    }
  }

  // The scan for the neighbour stops at the gap before x.
  lemma {:induction false} BentScan(l: seq<Reply>, i: nat, p: nat, stale: bool)
    requires Bent(l, p) && i < p
    ensures var c := Scan(l, i, l[p + 1].xid, stale);
            if stale && i == p - 1 then c.list == l && c.verdict != New else c.verdict == New
    decreases p - i
  {
    BentLower(l, p, i);
    BentLower(l, p, 0);
    if i + 1 < p {
      BentScan(l, i + 1, p, false);
    } else if stale {
      var y := l[p + 1].xid;
      assert Scan(l, p + 1, y, false).list == l;
      assert Scan(l, p, y, false) == Scan(l, p + 1, y, false);
    }
  }

  lemma BentDrops(l: seq<Reply>, p: nat)
    requires Bent(l, p) && Movable(l)
    ensures p >= 2 && Bent(l[1..], p - 1)
  {
    BentLower(l, p, 0);
    if p >= 2 {
      var a, b := l[..p], l[1..][..p - 1];
      assert forall i :: 0 <= i < |b| ==> b[i] == a[i + 1];
    }
  }

  lemma {:induction false} BentTwice(l: seq<Reply>, h: History, p: nat) returns (more: seq<Event>)
    requires Bent(l, p) && l[p + 1].xid in h && l[p + 1].xid >= 1
    ensures TwiceAfter(l, h, more, l[p + 1].xid)
    decreases p
  {
    var y := l[p + 1].xid;
    BentLower(l, p, 0);
    more := [];
    if Movable(l) {
      BentDrops(l, p);
      var r := l[1..];
      BentScan(r, 0, p - 1, true);
      assert Check(l, y) == Scan(r, 0, y, true);
      if p == 2 {
        var rest := BentTwice(r, h, p - 1);
        more := [Request(y)] + rest;
        assert more[1..] == rest;
        assert Next(l, Request(y)) == r && Remember(h, Request(y)) == h;
      }
    } else {
      BentScan(l, 0, p, false);
      assert Check(l, y) == Scan(l, 0, y, false);
    }
  }

  // ---- At the front: nothing runs again ----

  ghost predicate ListedFrom(l: seq<Reply>, i: nat, y: Xid) {
    exists j :: i <= j < |l| && l[j].xid == y
  }

  // x stands at the front, before its smaller neighbour; the window never moves again.
  ghost predicate Crooked(l: seq<Reply>, h: History) {
    && |l| >= 3 && l[1].xid < l[0].xid < l[2].xid
    && (forall i, j :: 1 <= i < j < |l| ==> l[i].xid < l[j].xid)
    && (forall j :: 2 <= j < |l| ==> l[j].xid in h)
    && (forall y :: y in h ==> 1 <= y < TWO32)
    && (forall y :: y in h && y > l[0].xid ==> ListedFrom(l, 2, y))
  }

  lemma {:induction false} CrookedScan(l: seq<Reply>, h: History, i: nat, k: nat)
    requires Crooked(l, h) && 1 <= i <= k < |l| && 2 <= k
    ensures Scan(l, i, l[k].xid, false).verdict != New && Scan(l, i, l[k].xid, false).list == l
    decreases k - i
  {
    assert l[2].xid <= l[k].xid;
    if i < k {
      CrookedScan(l, h, i + 1, k);
    }
  }

  lemma CrookedLast(l: seq<Reply>, h: History)
    requires Crooked(l, h)
    ensures Last(l) in h && (forall y :: y in h ==> y <= Last(l)) && l[0].xid < Last(l) && !Movable(l)
  {
    assert l[2].xid <= Last(l);
    forall y | y in h ensures y <= Last(l) {
      if y > l[0].xid {
        assert ListedFrom(l, 2, y);
      }
    }
  }

  lemma CrookedRepeat(l: seq<Reply>, h: History, y: Xid)
    requires Crooked(l, h) && y in h
    ensures Check(l, y).list == l && Check(l, y).verdict != New
  {
    CrookedLast(l, h);
    if y > l[0].xid {
      assert ListedFrom(l, 2, y);
      var k :| 2 <= k < |l| && l[k].xid == y;
      CrookedScan(l, h, 1, k);
      assert Scan(l, 0, y, false) == Scan(l, 1, y, false);
    }
  }

  lemma CrookedArrival(l: seq<Reply>, h: History, y: Xid)
    requires Crooked(l, h) && y !in h && Allowed(h, Request(y))
    ensures Crooked(Check(l, y).list, h[y := None])
  {
    CrookedLast(l, h);
    var l', h' := l + [Reply(y, false, [])], h[y := None];
    assert Check(l, y).list == l';
    assert l'[|l|].xid == y;
    forall z | z in h' && z > l'[0].xid ensures ListedFrom(l', 2, z) {
      if z != y {
        assert ListedFrom(l, 2, z);
        var j :| 2 <= j < |l| && l[j].xid == z;
        assert l'[j].xid == z;
      }
    }
  }

  lemma CrookedRecord(l: seq<Reply>, h: History, x: Xid, b: Buf)
    requires Crooked(l, h) && x in h
    ensures Crooked(Record(l, x, b), h[x := Some(b)])
  {
    var r, h' := Record(l, x, b), h[x := Some(b)];
    assert forall i :: 0 <= i < |l| ==> r[i].xid == l[i].xid;
    forall z | z in h' && z > r[0].xid ensures ListedFrom(r, 2, z) {
      assert ListedFrom(l, 2, z);
      var j :| 2 <= j < |l| && l[j].xid == z;
      assert r[j].xid == z;
    }
  }

  lemma {:induction false} CrookedRun(l: seq<Reply>, h: History, more: seq<Event>)
    requires Crooked(l, h) && Run(h, more)
    ensures Crooked(After(l, more), Past(h, more)) && After(l, more)[0].xid == l[0].xid
    decreases |more|
  {
    if more != [] {
      match more[0] {
        case Request(y) =>
          if y in h { CrookedRepeat(l, h, y); } else { CrookedArrival(l, h, y); }
        case Replied(y, b) => CrookedRecord(l, h, y, b);
      }
      CrookedRun(Next(l, more[0]), Remember(h, more[0]), more[1..]);
    }
  }

  lemma CrookedOnce(l: seq<Reply>, h: History)
    requires Crooked(l, h)
    ensures !RunsTwice(l, h)
  {
    forall more, y ensures !TwiceAfter(l, h, more, y) {
      if Run(h, more) && y in Past(h, more) {
        CrookedRun(l, h, more);
        CrookedRepeat(After(l, more), Past(h, more), y);
      }
    }
  }

  // ---- The exact condition ----

  // The front of the window after the move that a request makes.
  function FrontThen(l: seq<Reply>, h: History): Xid {
    if Passable(h, Front(l)) then Front(l) + 1 else Front(l)
  }

  // Some arrivals stand on both sides of x, the lower one behind the front.
  ghost predicate Between(h: History, f: Xid, x: Xid) {
    exists y, z :: y in h && z in h && f < y < x < z
  }

  function After1(h: History, x: Xid, c: Checked): History {
    if c.verdict == New then h[x := None] else h
  }

  lemma FrontInsert(r: seq<Reply>, h: History, x: Xid)
    requires Refines(r, h) && |r| >= 2 && r[0].xid < x < r[1].xid && x < TWO32 && x !in h
    ensures Crooked(Inserted(r, 0, x), h[x := None]) && !Between(h, r[0].xid, x)
  {
    var l, h' := Inserted(r, 0, x), h[x := None];
    assert l == [Reply(x, false, [])] + r;
    forall j | 2 <= j < |l| ensures l[j].xid in h' {
      assert Entry(r[j - 1], h);
    }
    forall y | y in h' && y > x ensures ListedFrom(l, 2, y) {
      assert Listed(r, y);
      var i :| 0 <= i < |r| && r[i].xid == y;
      assert l[i + 1].xid == y;
    }
    forall y | y in h && r[0].xid < y ensures y >= r[1].xid {
      assert Listed(r, y);
    }
  }

  lemma InnerInsert(r: seq<Reply>, h: History, k: nat, x: Xid)
    requires Refines(r, h) && 1 <= k && k + 1 < |r| && r[k].xid < x < r[k + 1].xid
    ensures Between(h, r[0].xid, x) && RunsTwice(Inserted(r, k, x), h[x := None])
  {
    var l := Inserted(r, k, x);
    assert Entry(r[k], h) && Entry(r[k + 1], h) && Entry(r[|r| - 1], h);
    assert l[k].xid == x && l[k - 1] == r[k - 1] && l[k + 1] == r[k] && l[|l| - 1] == r[|r| - 1];
    assert l[..k] == r[..k];
    assert Bent(l, k);
    var more := BentTwice(l, h[x := None], k);
  }

  // The late arrival inside the window r that is left after the move.
  lemma InsideExact(r: seq<Reply>, h: History, x: Xid, stale: bool)
    requires Refines(r, h) && r != [] && x !in h && r[0].xid < x < Last(r)
    ensures var c := Scan(r, 0, x, stale);
            && (RunsTwice(c.list, After1(h, x, c)) <==> Between(h, r[0].xid, x))
            && c.verdict == if stale && !Between(h, r[0].xid, x) then DoneUnset else New
  {
    assert Entry(r[|r| - 1], h);
    LastIsLargest(r, h, x);
    var k := Gap(r, x);
    Placed(r, 0, k, x, stale);
    if k >= 1 {
      InnerInsert(r, h, k, x);
    } else {
      FrontInsert(r, h, x);
      if stale {
        InOrderOnce(r, h);
      } else {
        CrookedOnce(Inserted(r, 0, x), h[x := None]);
      }
    }
  }

  lemma NothingBetween(h: History, f: Xid, x: Xid)
    requires (forall y :: y in h ==> y < x) || x <= f
    ensures !Between(h, f, x)
  {
  }

  // What a first arrival is told, given the front and what has arrived.
  ghost function FirstVerdict(l: seq<Reply>, h: History, x: Xid): Verdict {
    if x < Front(l) then Forgotten
    else if Passable(h, Front(l)) && !Allowed(h, Request(x)) && !Between(h, FrontThen(l, h), x) then DoneUnset
    else New
  }

  lemma InOrderCase(l: seq<Reply>, h: History, x: Xid)
    requires Refines(l, h) && x !in h && Allowed(h, Request(x))
    ensures !RunsTwice(Check(l, x).list, h[x := None]) && Check(l, x).verdict == New
  {
    RequestKeeps(l, h, x);
    InOrderOnce(Check(l, x).list, h[x := None]);
  }

  lemma LateCase(l: seq<Reply>, h: History, x: Xid)
    requires Refines(l, h) && l != [] && x !in h && l[0].xid < x < Last(l)
    ensures var c, f := Check(l, x), FrontThen(l, h);
            && (RunsTwice(c.list, After1(h, x, c)) <==> Between(h, f, x))
            && c.verdict == if Passable(h, Front(l)) && !Between(h, f, x) then DoneUnset else New
  {
    MovableExact(l, h);
    LastIsLargest(l, h, x);
    if Movable(l) {
      MoveKeeps(l, h);
      assert l[1].xid != x;
      InsideExact(l[1..], h, x, true);
    } else {
      InsideExact(l, h, x, false);
    }
  }

  // A first arrival x on a window that refines its history.
  lemma UnseenExact(l: seq<Reply>, h: History, x: Xid)
    requires Refines(l, h) && 1 <= x < TWO32 && x !in h
    ensures var c := Check(l, x);
            && (RunsTwice(c.list, After1(h, x, c)) <==> Between(h, FrontThen(l, h), x))
            && c.verdict == FirstVerdict(l, h, x)
  {
    OpenedKeeps(l, h);
    var l1 := Opened(l);
    LastIsLargest(l1, h, x);
    assert Check(l, x) == Check(l1, x) && Front(l) == l1[0].xid == Front(l1);
    if x > Last(l1) {
      InOrderCase(l, h, x);
      NothingBetween(h, FrontThen(l, h), x);
    } else if x < l1[0].xid {
      InOrderOnce(l1, h);
      NothingBetween(h, FrontThen(l, h), x);
    } else {
      assert l1[0].xid != x && l1[|l1| - 1].xid != x;
      LateCase(l1, h, x);
    }
  }

  // After any in-order run, a first arrival lets some request be executed twice if and only if it is
  // late and an arrival between it and the front came before it.
  lemma TwiceExact(evs: seq<Event>, x: Xid)
    requires Run(map[], evs) && 1 <= x < TWO32 && x !in Past(map[], evs)
    ensures var l, h := After([], evs), Past(map[], evs);
            var c := Check(l, x);
            RunsTwice(c.list, After1(h, x, c)) <==> Between(h, FrontThen(l, h), x)
  {
    RunRefines([], map[], evs);
    UnseenExact(After([], evs), Past(map[], evs), x);
  }

  // What the first arrival itself is told: FORGOTTEN below the front, DONE with no reply if it comes
  // late right behind a front that moves, NEW otherwise.
  lemma FirstVerdictExact(evs: seq<Event>, x: Xid)
    requires Run(map[], evs) && 1 <= x < TWO32 && x !in Past(map[], evs)
    ensures Check(After([], evs), x).verdict == FirstVerdict(After([], evs), Past(map[], evs), x)
  {
    RunRefines([], map[], evs);
    UnseenExact(After([], evs), Past(map[], evs), x);
  }

  function Open(x: Xid): Reply {
    Reply(x, false, [])
  }

  lemma ThreeArrived()
    ensures After([], [Request(1), Request(2), Request(4)]) == [SENTINEL, Open(1), Open(2), Open(4)]
  {
    var evs := [Request(1), Request(2), Request(4)];
    var l1 := Check([], 1).list;
    assert l1 == [SENTINEL, Open(1)];
    var l2 := Check(l1, 2).list;
    assert l2 == [SENTINEL, Open(1), Open(2)];
    var l4 := Check(l2, 4).list;
    assert l4 == [SENTINEL, Open(1), Open(2), Open(4)];
    assert evs[1..] == [Request(2), Request(4)];
    assert After(l2, [Request(4)]) == l4 by { assert [Request(4)][1..] == []; }
    assert After(l1, evs[1..]) == l4 by { assert evs[1..][1..] == [Request(4)]; }
  }

  // Requests 1, 2 and 4, then a late 3: the repeat of 2 is executed a second time.
  lemma TwiceReached()
    ensures var l := Check(After([], [Request(1), Request(2), Request(4)]), 3).list;
            && l == [Open(1), Open(3), Open(2), Open(4)]
            && Check(After([], [Request(1), Request(2), Request(4)]), 2).verdict == InProgress
            && Check(l, 2).verdict == New
  {
    ThreeArrived();
    var l, r := [SENTINEL, Open(1), Open(2), Open(4)], [Open(1), Open(2), Open(4)];
    assert l[1..] == r && Movable(l);
    Placed(r, 0, 1, 3, true);
    assert Inserted(r, 1, 3) == [Open(1), Open(3), Open(2), Open(4)];
    ScanFinds(r, 0, 1, true);
    assert Check(l, 3) == Scan(r, 0, 3, true) && Check(l, 2) == Scan(r, 0, 2, true);
    var bent := [Open(1), Open(3), Open(2), Open(4)];
    assert bent[..1] == [Open(1)];
    BentScan(bent, 0, 1, false);
  }
}
