/** The RPC client's window of acknowledged xids (rpcc::update_xid_rep) and the calls around it. */
module XidWindow {
  import opened Basics

  // xids are 32-bit unsigned numbers.
  type Xid = nat

  function Succ(x: Xid): Xid {
    (x + 1) % TWO32
  }

  // Insertion before the first larger element.
  function Insert(w: seq<Xid>, x: Xid): seq<Xid> {
    if w == [] || w[0] > x then [x] + w else [w[0]] + Insert(w[1..], x)
  }

  // Pop the front while it is one below the element at p.
  function PopTo(w: seq<Xid>, p: nat): (r: seq<Xid>)
    requires p < |w|
    ensures |w| - p <= |r| <= |w|
    decreases p
  {
    if Succ(w[0]) == w[p] && p > 0 then PopTo(w[1..], p - 1) else w
  }

  // The compress loop from iterator position p on.
  function CompressAt(w: seq<Xid>, p: nat): (r: seq<Xid>)
    ensures w != [] ==> r != []
    decreases |w| - p
  {
    if p >= |w| then w
    else
      var r := PopTo(w, p);
      CompressAt(r, p + 1 - (|w| - |r|))
  }

  function Update(w: seq<Xid>, x: Xid): (r: seq<Xid>)
    requires w != []
    ensures r != []
  {
    if x <= w[0] then w else CompressAt(Insert(w, x), 1)
  }

  // ---- The window refines the set of finished xids ----

  ghost predicate Sorted(w: seq<Xid>) {
    forall i, j :: 0 <= i < j < |w| ==> w[i] <= w[j]
  }

  ghost predicate AllUpTo(f: Xid, seen: set<Xid>) {
    forall n: Xid :: 1 <= n <= f ==> n in seen
  }

  // f is the largest number with all of 1..f finished.
  ghost predicate Acked(f: Xid, seen: set<Xid>) {
    AllUpTo(f, seen) && f + 1 !in seen
  }

  // w lists, in order, exactly the finished xids and 0 from its front on.
  ghost predicate Lists(w: seq<Xid>, seen: set<Xid>) {
    w != [] && Sorted(w) && forall x: Xid :: x in w <==> (x in seen || x == 0) && x >= w[0]
  }

  ghost predicate WindowOf(w: seq<Xid>, seen: set<Xid>) {
    Lists(w, seen) && Acked(w[0], seen)
  }

  ghost predicate Xids(seen: set<Xid>) {
    forall x :: x in seen ==> x < TWO32
  }

  // Insertion splits the window between the elements up to x and those above it.
  lemma {:induction false} InsertSplits(w: seq<Xid>, x: Xid) returns (k: nat)
    requires Sorted(w)
    ensures k <= |w| && Insert(w, x) == w[..k] + [x] + w[k..]
    ensures (forall i :: 0 <= i < k ==> w[i] <= x) && (forall i :: k <= i < |w| ==> x < w[i])
    decreases |w|
  {
    if w == [] || w[0] > x {
      k := 0;
    } else {
      var j := InsertSplits(w[1..], x);
      k := j + 1;
      assert w[..k] == [w[0]] + w[1..][..j] && w[k..] == w[1..][j..];
      assert forall i :: 1 <= i < |w| ==> w[i] == w[1..][i - 1];
    }
  }

  lemma InsertLists(w: seq<Xid>, seen: set<Xid>, x: Xid)
    requires Lists(w, seen) && x > w[0]
    ensures Lists(Insert(w, x), seen + {x}) && Insert(w, x)[0] == w[0]
  {
    var k := InsertSplits(w, x);
    var r := Insert(w, x);
    assert r[0] == w[0] && k > 0;
    assert forall y :: y in r <==> y in w[..k] || y == x || y in w[k..];
    assert w == w[..k] + w[k..];
  }

  // Nothing in the part before p is one above the front.
  ghost predicate Tight(w: seq<Xid>, p: nat) {
    p <= |w| && forall i :: 0 <= i < p ==> w[i] != w[0] + 1
  }

  lemma {:induction false} PopToStops(w: seq<Xid>, p: nat) returns (k: nat)
    requires Sorted(w) && p < |w| && Tight(w, p) && w[p] < TWO32
    ensures k <= p && PopTo(w, p) == w[k..] && Tight(w[k..], p + 1 - k)
    ensures w[k] == w[0] || (w[k] == w[0] + 1 && w[k] == w[p])
    decreases p
  {
    if Succ(w[0]) == w[p] && p > 0 {
      assert w[p] == w[0] + 1;
      assert w[1] == w[0] || p == 1;
      var j := PopToStops(w[1..], p - 1);
      k := j + 1;
    } else {
      k := 0;
    }
  }

  lemma DropLists(w: seq<Xid>, seen: set<Xid>, p: nat, k: nat)
    requires Lists(w, seen) && k <= p < |w| && Tight(w, p) && (w[k] == w[0] || w[k] == w[0] + 1)
    ensures Lists(w[k..], seen)
  {
    var r := w[k..];
    forall x: Xid ensures x in r <==> (x in seen || x == 0) && x >= r[0] {
      if x in w && x >= r[0] {
        var i :| 0 <= i < |w| && w[i] == x;
        if i < k {
          assert w[i] <= w[k];
          assert r[0] == x;
        } else {
          assert r[i - k] == x;
        }
      }
    }
  }

  lemma PopsSoundly(w: seq<Xid>, p: nat, seen: set<Xid>)
    requires Lists(w, seen) && Xids(seen) && 1 <= p < |w| && Tight(w, p) && AllUpTo(w[0], seen)
    ensures var r := PopTo(w, p);
            && Lists(r, seen) && Tight(r, p + 1 - (|w| - |r|))
            && AllUpTo(r[0], seen) && r[0] >= w[0]
  {
    assert w[p] in w;
    var k := PopToStops(w, p);
    DropLists(w, seen, p, k);
    assert w[k] in w;
  }

  lemma {:induction false} Compresses(w: seq<Xid>, p: nat, seen: set<Xid>)
    requires Lists(w, seen) && Xids(seen) && Tight(w, p) && p >= 1 && AllUpTo(w[0], seen)
    ensures WindowOf(CompressAt(w, p), seen) && CompressAt(w, p)[0] >= w[0]
    decreases |w| - p
  {
    if p >= |w| {
      assert w[0] + 1 !in w;
    } else {
      PopsSoundly(w, p, seen);
      var r := PopTo(w, p);
      Compresses(r, p + 1 - (|w| - |r|), seen);
    }
  }

  // One update: the window goes on listing the finished xids, and its front never moves back.
  lemma UpdateRefines(w: seq<Xid>, seen: set<Xid>, x: Xid)
    requires WindowOf(w, seen) && Xids(seen + {x})
    ensures WindowOf(Update(w, x), seen + {x}) && Update(w, x)[0] >= w[0]
  {
    if x > w[0] {
      InsertLists(w, seen, x);
      Compresses(Insert(w, x), 1, seen + {x});
    } else {
      assert x == 0 || x in seen;
    }
  }

  function UpdateAll(w: seq<Xid>, xs: seq<Xid>): (r: seq<Xid>)
    requires w != []
    ensures r != []
    decreases |xs|
  {
    if xs == [] then w else UpdateAll(Update(w, xs[0]), xs[1..])
  }

  lemma {:induction false} UpdatesFrom(w: seq<Xid>, seen: set<Xid>, xs: seq<Xid>)
    requires WindowOf(w, seen) && Xids(seen) && (forall x :: x in xs ==> x < TWO32)
    ensures WindowOf(UpdateAll(w, xs), seen + (set x | x in xs)) && UpdateAll(w, xs)[0] >= w[0]
    decreases |xs|
  {
    if xs == [] {
      assert seen + (set x | x in xs) == seen;
    } else {
      var x := xs[0];
      assert x in xs;
      assert Xids(seen + {x});
      UpdateRefines(w, seen, x);
      assert forall y :: y in xs[1..] ==> y in xs;
      UpdatesFrom(Update(w, x), seen + {x}, xs[1..]);
      assert seen + {xs[0]} + (set x | x in xs[1..]) == seen + (set x | x in xs);
    }
  }

  // After any updates, in any order and with repeats, the window is that of the set of updated xids.
  lemma WindowRefinesSet(xs: seq<Xid>)
    requires forall x :: x in xs ==> x < TWO32
    ensures WindowOf(UpdateAll([0], xs), set x | x in xs)
  {
    UpdatesFrom([0], {}, xs);
    assert {} + (set x | x in xs) == set x | x in xs;
  }
}
