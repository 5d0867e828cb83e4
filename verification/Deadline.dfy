/** Deadlines of a call: timespec arithmetic and the wait and retransmit loop of call1 (rpc/rpc.cc). */
module Deadline {
  import opened Basics

  const BILLION: nat := 1_000_000_000
  const MILLION: nat := 1_000_000
  const TO_MIN: nat := 1000

  // Timeouts are ints, and wrap when doubled.
  function Wrap(x: int): Int32 {
    (x + TWO31) % TWO32 - TWO31
  }

  datatype Timespec = Timespec(sec: int, nsec: int)

  // The point in time that a timespec stands for, in nanoseconds.
  function Instant(t: Timespec): int {
    t.sec * BILLION + t.nsec
  }

  // What a clock returns.
  predicate Normal(t: Timespec) {
    0 <= t.nsec < BILLION
  }

  // What add_timespec returns: its loop stops at a full second of nanoseconds.
  predicate Near(t: Timespec) {
    0 <= t.nsec <= BILLION
  }

  // Division truncates toward zero.
  function Quot(b: int): int {
    if b >= 0 then b / 1000 else 0 - (0 - b) / 1000
  }

  function Rem(b: int): int {
    b - 1000 * Quot(b)
  }

  // The assertion inside add_timespec.
  predicate Addable(a: Timespec, b: int) {
    a.nsec + Rem(b) * MILLION >= 0
  }

  // The assertion fails exactly for a negative timeout whose part below a second exceeds the clock's.
  lemma AddableExact(a: Timespec, b: int)
    requires Normal(a)
    ensures Addable(a, b) <==> b >= 0 || a.nsec >= (0 - b) % 1000 * MILLION
  {
    if b < 0 {
      var n := 0 - b;
      assert Rem(b) == 0 - (n - 1000 * (n / 1000)) == 0 - n % 1000;
    }
  }

  // The one timespec for that instant whose nanoseconds are 1 to a full second, or 0 when nothing was added up.
  function Sum(a: Timespec, b: int): (r: Timespec)
    requires Addable(a, b)
    ensures Near(r) && Instant(r) == Instant(a) + b * MILLION
    ensures r.nsec == 0 <==> a.nsec + Rem(b) * MILLION == 0
  {
    var n := a.nsec + Rem(b) * MILLION;
    var carry := if n == 0 then 0 else (n - 1) / BILLION;
    Timespec(a.sec + Quot(b) + carry, n - carry * BILLION)
  }

  lemma NearUnique(a: Timespec, b: Timespec)
    requires Near(a) && Near(b) && Instant(a) == Instant(b) && (a.nsec == 0 <==> b.nsec == 0)
    ensures a == b
  {
  }

  method AddTimespec(a: Timespec, b: int) returns (r: Timespec)
    requires Addable(a, b)
    ensures r == Sum(a, b)
  {
    var sec, nsec := a.sec + Quot(b), a.nsec + Rem(b) * MILLION;
    while nsec > BILLION
      invariant 0 <= nsec && sec * BILLION + nsec == Instant(a) + b * MILLION
      invariant nsec == 0 <==> a.nsec + Rem(b) * MILLION == 0
    {
      sec, nsec := sec + 1, nsec - BILLION;
    }
    r := Timespec(sec, nsec);
    NearUnique(r, Sum(a, b));
  }

  function Cmp(a: Timespec, b: Timespec): int {
    if a.sec > b.sec then 1
    else if a.sec < b.sec then -1
    else if a.nsec > b.nsec then 1
    else if a.nsec < b.nsec then -1
    else 0
  }

  function Sign(x: int): int {
    if x > 0 then 1 else if x < 0 then -1 else 0
  }

  // cmp_timespec orders the results of add_timespec by time, except when one instant is written in two ways.
  lemma CmpExact(a: Timespec, b: Timespec)
    requires Near(a) && Near(b)
    ensures Cmp(a, b) == Sign(Instant(a) - Instant(b)) <==> (Instant(a) == Instant(b) ==> a.nsec == b.nsec)
    ensures Cmp(a, b) > 0 ==> Instant(a) >= Instant(b)
    ensures Cmp(a, b) <= 0 ==> Instant(a) <= Instant(b)
  {
    if a.sec > b.sec {
      assert Instant(a) - Instant(b) >= BILLION + a.nsec - b.nsec;
    } else if a.sec < b.sec {
      assert Instant(b) - Instant(a) >= BILLION + b.nsec - a.nsec;
    }
  }

  lemma OneInstantTwoWays()
    ensures var a, b := Timespec(6, 0), Sum(Timespec(5, 999_000_000), 1);
            Instant(a) == Instant(b) && Cmp(a, b) == 1
  {
    assert Rem(1) == 1;
    assert Sum(Timespec(5, 999_000_000), 1) == Timespec(5, BILLION);
  }

  // ---- The loop of call1 ----

  // One pass: the clock reading, whether the reply came before the wait ended, whether the channel is gone or dead.
  datatype Round = Round(now: Timespec, done: bool, dead: bool)

  // At the test of the final deadline: over holds once the loop has been left.
  // reached is the latest instant the call knows to have passed.
  datatype State = State(final: Timespec, curr: int, sent: nat, deadlines: seq<Timespec>, reached: int, over: bool)

  // The head of the loop: transmit if asked, then leave if the final deadline has been used up.
  function Head(s: State, transmit: bool): State {
    var s1 := if transmit then s.(sent := s.sent + 1) else s;
    if s1.final.sec == 0 then s1.(over := true) else s1
  }

  function Begin(start: Timespec, to: Int32): State
    requires Addable(start, to)
  {
    Head(State(Sum(start, to), TO_MIN, 0, [], Instant(start), false), true)
  }

  predicate Timely(s: State, r: Round) {
    Normal(r.now) && Instant(r.now) >= s.reached
  }

  predicate IsLast(s: State, r: Round)
    requires Normal(r.now) && s.curr >= 0
  {
    Cmp(Sum(r.now, s.curr), s.final) > 0
  }

  function WaitUntil(s: State, r: Round): Timespec
    requires Normal(r.now) && s.curr >= 0
  {
    if IsLast(s, r) then s.final else Sum(r.now, s.curr)
  }

  // From the final-deadline test to the next one; the wait ends with the reply or at its deadline.
  function Next(s: State, r: Round, retrans: bool): State
    requires Normal(r.now) && s.curr >= 0
  {
    var next := WaitUntil(s, r);
    var s1 := s.(deadlines := s.deadlines + [next],
                 final := if IsLast(s, r) then s.final.(sec := 0) else s.final);
    if r.done then s1.(over := true)
    else
      var passed := if Instant(next) > Instant(r.now) then Instant(next) else Instant(r.now);
      Head(s1.(curr := Wrap(2 * s.curr), reached := passed), retrans && r.dead)
  }

  // A clock that never runs backwards and waits that time out only at their deadline.
  predicate Run(s: State, rounds: seq<Round>, retrans: bool)
    decreases |rounds|
  {
    rounds == [] ||
    (!s.over && s.curr >= 0 && Timely(s, rounds[0]) && Run(Next(s, rounds[0], retrans), rounds[1..], retrans))
  }

  function After(s: State, rounds: seq<Round>, retrans: bool): State
    requires Run(s, rounds, retrans)
    decreases |rounds|
  {
    if rounds == [] then s else After(Next(s, rounds[0], retrans), rounds[1..], retrans)
  }

  function Pow2(n: nat): (p: nat)
    ensures p >= 1
  {
    if n == 0 then 1 else 2 * Pow2(n - 1)
  }

  // The milliseconds that n timed-out waits take together.
  function Total(n: nat): nat {
    TO_MIN * (Pow2(n) - 1)
  }

  lemma {:induction false} TotalGrows(m: nat, n: nat)
    requires m <= n
    ensures Total(m) <= Total(n)
    decreases n
  {
    if m < n {
      TotalGrows(m, n - 1);
    }
  }

  // The least r of at least one whose doubling waits outlast the timeout.
  predicate IsBound(r: nat, to: int) {
    r >= 1 && Total(r) > to && (r > 1 ==> Total(r - 1) <= to)
  }

  lemma {:induction false} TotalAtLeast(n: nat)
    ensures n > 0 ==> Total(n) > n
    decreases n
  {
    if n > 0 {
      TotalAtLeast(n - 1);
    }
  }

  lemma {:induction false} BoundFrom(to: int, n: nat) returns (r: nat)
    requires n >= 1 && (n > 1 ==> Total(n - 1) <= to)
    ensures IsBound(r, to)
    decreases if to > n then to - n else 0
  {
    r := n;
    if Total(n) <= to {
      TotalAtLeast(n);
      r := BoundFrom(to, n + 1);
    }
  }

  // Every timeout has its bound, and only one.
  lemma BoundExists(to: int) returns (r: nat)
    ensures IsBound(r, to) && forall q: nat :: IsBound(q, to) ==> q == r
  {
    r := BoundFrom(to, 1);
    forall q: nat | IsBound(q, to) ensures q == r {
      if q < r {
        TotalGrows(q, r - 1);
      } else if r < q {
        TotalGrows(r, q - 1);
      }
    }
  }

  // A doubled timeout that is still waited for has not overflowed.
  lemma DoublingFits(n: nat, to: Int32)
    requires n > 0 && Total(n) <= to
    ensures Wrap(2 * (TO_MIN * Pow2(n - 1))) == TO_MIN * Pow2(n)
  {
    assert InInt32(to) && Pow2(7) == 128;
    assert Pow2(14) == 128 * Pow2(7) by { PowAdds(7, 7); }
    assert Pow2(21) == 128 * Pow2(14) by { PowAdds(7, 14); }
    if n > 21 {
      TotalGrows(22, n);
    } else {
      TotalGrows(n, 21);
    }
  }

  lemma {:induction false} PowAdds(m: nat, n: nat)
    ensures Pow2(m + n) == Pow2(m) * Pow2(n)
    decreases m
  {
    if m > 0 {
      PowAdds(m - 1, n);
    }
  }

  // ---- What holds between rounds ----

  predicate Within(s: State, f: Timespec) {
    forall i :: 0 <= i < |s.deadlines| ==> Instant(s.deadlines[i]) <= Instant(f)
  }

  // Before the loop is left, the waits so far have taken their full time, and fit in the timeout.
  predicate Waiting(s: State, start: Timespec, to: Int32)
    requires Addable(start, to)
  {
    var i := |s.deadlines|;
    && s.final == Sum(start, to) && s.final.sec != 0
    && s.curr == TO_MIN * Pow2(i)
    && s.reached >= Instant(start) + Total(i) * MILLION
    && (i >= 1 ==> Total(i) <= to)
  }

  predicate Inv(s: State, start: Timespec, to: Int32)
    requires Addable(start, to)
  {
    var i := |s.deadlines|;
    && Within(s, Sum(start, to))
    && s.sent <= i + 1
    && (i >= 2 ==> Total(i - 1) <= to)
    && (s.over || Waiting(s, start, to))
  }

  lemma BeginHolds(start: Timespec, to: Int32)
    requires Addable(start, to)
    ensures Inv(Begin(start, to), start, to)
  {
  }

  lemma DoublingStep(i: nat)
    ensures Total(i) + TO_MIN * Pow2(i) == Total(i + 1)
  {
  }

  // A wait that the timeout cannot hold is the last one.
  lemma LastWhenLong(s: State, r: Round, start: Timespec, to: Int32)
    requires Addable(start, to) && Waiting(s, start, to) && Timely(s, r)
    ensures s.curr >= 0 && Instant(Sum(r.now, s.curr)) >= Instant(start) + Total(|s.deadlines| + 1) * MILLION
    ensures Total(|s.deadlines| + 1) > to ==> IsLast(s, r)
  {
    var i := |s.deadlines|;
    DoublingStep(i);
    CmpExact(Sum(r.now, s.curr), s.final);
  }

  lemma NextKeeps(s: State, r: Round, retrans: bool, start: Timespec, to: Int32)
    requires Addable(start, to) && Inv(s, start, to) && !s.over && s.curr >= 0 && Timely(s, r)
    ensures Inv(Next(s, r, retrans), start, to)
  {
    LastWhenLong(s, r, start, to);
    CmpExact(Sum(r.now, s.curr), s.final);
    var s', i := Next(s, r, retrans), |s.deadlines|;
    assert s'.deadlines == s.deadlines + [WaitUntil(s, r)];
    assert Within(s', Sum(start, to));
    if !s'.over {
      assert !IsLast(s, r) && Total(i + 1) <= to;
      DoublingFits(i + 1, to);
    }
  }

  lemma {:induction false} RunKeeps(s: State, rounds: seq<Round>, retrans: bool, start: Timespec, to: Int32)
    requires Addable(start, to) && Inv(s, start, to) && Run(s, rounds, retrans)
    ensures Inv(After(s, rounds, retrans), start, to)
    decreases |rounds|
  {
    if rounds != [] {
      NextKeeps(s, rounds[0], retrans, start, to);
      RunKeeps(Next(s, rounds[0], retrans), rounds[1..], retrans, start, to);
    }
  }

  lemma InvBounds(s: State, start: Timespec, to: Int32, r: nat)
    requires Addable(start, to) && Inv(s, start, to) && IsBound(r, to)
    ensures |s.deadlines| <= r && s.sent <= r + 1
    ensures !s.over ==> |s.deadlines| < r && 0 < s.curr <= (if to > 0 then to else 0) + TO_MIN
  {
    var i := |s.deadlines|;
    if i >= r {
      TotalGrows(r, i);
    }
    if i > r {
      TotalGrows(r, i - 1);
    }
  }

  // No wait of a call ends past its final deadline, and the doubling bounds its waits and transmissions.
  lemma DeadlineBound(start: Timespec, to: Int32, retrans: bool, rounds: seq<Round>, r: nat)
    requires Addable(start, to) && Run(Begin(start, to), rounds, retrans) && IsBound(r, to)
    ensures var s := After(Begin(start, to), rounds, retrans);
            && Within(s, Sum(start, to))
            && |s.deadlines| <= r && s.sent <= r + 1
            && (!s.over ==> |s.deadlines| < r && 0 < s.curr <= (if to > 0 then to else 0) + TO_MIN)
  {
    BeginHolds(start, to);
    RunKeeps(Begin(start, to), rounds, retrans, start, to);
    InvBounds(After(Begin(start, to), rounds, retrans), start, to, r);
  }

  lemma BoundsFor(start: Timespec, to: Int32, retrans: bool, rounds: seq<Round>)
    requires Addable(start, to) && Run(Begin(start, to), rounds, retrans)
    ensures var s := After(Begin(start, to), rounds, retrans);
            && Within(s, Sum(start, to))
            && forall r: nat :: IsBound(r, to) ==> |s.deadlines| <= r && s.sent <= r + 1
  {
    BeginHolds(start, to);
    RunKeeps(Begin(start, to), rounds, retrans, start, to);
    forall r: nat | IsBound(r, to)
      ensures var s := After(Begin(start, to), rounds, retrans); |s.deadlines| <= r && s.sent <= r + 1
    {
      DeadlineBound(start, to, retrans, rounds, r);
    }
  }

  // ---- Exactly what a run does ----

  // Rounds that timed out with the channel gone, when retransmission is on.
  function Resent(rounds: seq<Round>, retrans: bool): nat {
    if rounds == [] then 0
    else (if retrans && rounds[0].dead && !rounds[0].done then 1 else 0) + Resent(rounds[1..], retrans)
  }

  lemma {:induction false} SentFrom(s: State, rounds: seq<Round>, retrans: bool)
    requires Run(s, rounds, retrans)
    ensures After(s, rounds, retrans).sent == s.sent + Resent(rounds, retrans)
    decreases |rounds|
  {
    if rounds != [] {
      SentFrom(Next(s, rounds[0], retrans), rounds[1..], retrans);
    }
  }

  // The request is transmitted once, and once more for each round that timed out on a dead channel.
  lemma SentExact(start: Timespec, to: Int32, retrans: bool, rounds: seq<Round>)
    requires Addable(start, to) && Run(Begin(start, to), rounds, retrans)
    ensures After(Begin(start, to), rounds, retrans).sent == 1 + Resent(rounds, retrans)
  {
    SentFrom(Begin(start, to), rounds, retrans);
  }

  // The i-th wait would end 1000 * 2^i milliseconds after the clock reading.
  function Ideal(now: Timespec, i: nat): Timespec
    requires Normal(now)
  {
    Sum(now, TO_MIN * Pow2(i))
  }

  // The deadline of wait i: the ideal one, or the final one if the ideal one is later.
  function DeadlineOf(start: Timespec, to: Int32, now: Timespec, i: nat): Timespec
    requires Addable(start, to) && Normal(now)
  {
    if Cmp(Ideal(now, i), Sum(start, to)) > 0 then Sum(start, to) else Ideal(now, i)
  }

  lemma NextExact(s: State, r: Round, retrans: bool, start: Timespec, to: Int32)
    requires Addable(start, to) && Waiting(s, start, to) && s.curr >= 0 && Timely(s, r) && !s.over
    ensures var s', i := Next(s, r, retrans), |s.deadlines|;
            && s'.deadlines == s.deadlines + [DeadlineOf(start, to, r.now, i)]
            && (s'.over <==> r.done || Cmp(Ideal(r.now, i), Sum(start, to)) > 0)
  {
  }

  // The deadlines of rounds whose first wait is number i.
  function Deadlines(start: Timespec, to: Int32, rounds: seq<Round>, i: nat): (ds: seq<Timespec>)
    requires Addable(start, to) && forall j :: 0 <= j < |rounds| ==> Normal(rounds[j].now)
    ensures |ds| == |rounds| && forall j :: 0 <= j < |rounds| ==> ds[j] == DeadlineOf(start, to, rounds[j].now, i + j)
    decreases |rounds|
  {
    if rounds == [] then [] else [DeadlineOf(start, to, rounds[0].now, i)] + Deadlines(start, to, rounds[1..], i + 1)
  }

  // The last of them brings the reply or reaches the final deadline.
  predicate Ends(start: Timespec, to: Int32, rounds: seq<Round>, i: nat)
    requires Addable(start, to) && rounds != [] && Normal(rounds[|rounds| - 1].now)
  {
    var last := rounds[|rounds| - 1];
    last.done || Cmp(Ideal(last.now, i + |rounds| - 1), Sum(start, to)) > 0
  }

  lemma {:induction false} RunNormal(s: State, rounds: seq<Round>, retrans: bool)
    requires Run(s, rounds, retrans)
    ensures forall j :: 0 <= j < |rounds| ==> Normal(rounds[j].now)
    decreases |rounds|
  {
    if rounds != [] {
      RunNormal(Next(s, rounds[0], retrans), rounds[1..], retrans);
      assert rounds == [rounds[0]] + rounds[1..];
    }
  }

  lemma {:induction false} ExactFrom(s: State, rounds: seq<Round>, retrans: bool, start: Timespec, to: Int32)
    requires Addable(start, to) && Inv(s, start, to) && Run(s, rounds, retrans)
    requires forall j :: 0 <= j < |rounds| ==> Normal(rounds[j].now)
    ensures After(s, rounds, retrans).deadlines == s.deadlines + Deadlines(start, to, rounds, |s.deadlines|)
    ensures After(s, rounds, retrans).over <==> if rounds == [] then s.over else Ends(start, to, rounds, |s.deadlines|)
    decreases |rounds|
  {
    if rounds != [] {
      var s', n, rest := Next(s, rounds[0], retrans), |s.deadlines|, rounds[1..];
      NextExact(s, rounds[0], retrans, start, to);
      NextKeeps(s, rounds[0], retrans, start, to);
      ExactFrom(s', rest, retrans, start, to);
      JoinAssoc(s.deadlines, [DeadlineOf(start, to, rounds[0].now, n)], Deadlines(start, to, rest, n + 1));
      if rest != [] {
        EndsRest(start, to, rounds, n);
      }
    }
  }

  lemma EndsRest(start: Timespec, to: Int32, rounds: seq<Round>, n: nat)
    requires Addable(start, to) && |rounds| > 1 && Normal(rounds[|rounds| - 1].now)
    ensures Ends(start, to, rounds, n) <==> Ends(start, to, rounds[1..], n + 1)
  {
    assert rounds[1..][|rounds| - 2] == rounds[|rounds| - 1];
    assert n + 1 + |rounds[1..]| - 1 == n + |rounds| - 1;
  }

  // Every wait of a run ends at its doubled timeout or at the final deadline, whichever is earlier.
  // The call ends with the round that brings the reply or whose wait reaches the final deadline, not
  // before; without a round, only if the final deadline has second 0.
  lemma WaitsExact(start: Timespec, to: Int32, retrans: bool, rounds: seq<Round>)
    requires Addable(start, to) && Run(Begin(start, to), rounds, retrans)
    ensures forall j :: 0 <= j < |rounds| ==> Normal(rounds[j].now)
    ensures var s := After(Begin(start, to), rounds, retrans);
            && |s.deadlines| == |rounds|
            && (forall j :: 0 <= j < |rounds| ==> s.deadlines[j] == DeadlineOf(start, to, rounds[j].now, j))
            && (s.over <==> if rounds == [] then Sum(start, to).sec == 0 else Ends(start, to, rounds, 0))
  {
    BeginHolds(start, to);
    RunNormal(Begin(start, to), rounds, retrans);
    ExactFrom(Begin(start, to), rounds, retrans, start, to);
    var ds := Deadlines(start, to, rounds, 0);
    assert [] + ds == ds;
    forall j | 0 <= j < |rounds| ensures ds[j] == DeadlineOf(start, to, rounds[j].now, j) {
      assert 0 + j == j;
    }
  }

  // ---- The bound is reached ----

  // A clock read exactly when each wait times out, with every channel found dead.
  function Prompt(start: Timespec, i: nat): Round {
    Round(Timespec(start.sec + Pow2(i) - 1, start.nsec), false, true)
  }

  predicate OnPace(s: State, start: Timespec, to: Int32)
    requires Addable(start, to)
  {
    var i := |s.deadlines|;
    !s.over && Waiting(s, start, to) && s.sent == i + 1 && s.reached == Instant(start) + Total(i) * MILLION
  }

  lemma PromptSum(start: Timespec, i: nat)
    requires Normal(start)
    ensures Sum(Prompt(start, i).now, TO_MIN * Pow2(i)) == Timespec(start.sec + Pow2(i + 1) - 1, start.nsec)
  {
    assert Quot(TO_MIN * Pow2(i)) == Pow2(i);
  }

  lemma PromptStep(s: State, start: Timespec, to: Int32)
    requires Normal(start) && Addable(start, to) && OnPace(s, start, to)
    ensures var i, r := |s.deadlines|, Prompt(start, |s.deadlines|);
            && s.curr >= 0 && Timely(s, r)
            && (Total(i + 1) <= to ==> OnPace(Next(s, r, true), start, to))
            && (Total(i + 1) > to ==> Next(s, r, true).over)
            && |Next(s, r, true).deadlines| == i + 1 && Next(s, r, true).sent == i + 2
  {
    var i, r := |s.deadlines|, Prompt(start, |s.deadlines|);
    PromptSum(start, i);
    LastWhenLong(s, r, start, to);
    if Total(i + 1) <= to {
      assert !IsLast(s, r);
      DoublingStep(i);
      DoublingFits(i + 1, to);
    }
  }

  lemma {:induction false} PromptRun(s: State, start: Timespec, to: Int32, r: nat) returns (rounds: seq<Round>)
    requires Normal(start) && Addable(start, to) && OnPace(s, start, to) && IsBound(r, to) && |s.deadlines| < r
    ensures Run(s, rounds, true)
    ensures var e := After(s, rounds, true); e.over && |e.deadlines| == r && e.sent == r + 1
    decreases r - |s.deadlines|
  {
    var i := |s.deadlines|;
    PromptStep(s, start, to);
    var s' := Next(s, Prompt(start, i), true);
    var rest := [];
    if i + 1 < r {
      TotalGrows(i + 1, r - 1);
      rest := PromptRun(s', start, to, r);
    }
    rounds := [Prompt(start, i)] + rest;
    assert rounds[1..] == rest;
  }

  // Some call does take that many waits and transmissions, unless its final deadline has second 0.
  lemma BoundReached(start: Timespec, to: Int32, r: nat) returns (rounds: seq<Round>)
    requires Normal(start) && Addable(start, to) && IsBound(r, to) && Sum(start, to).sec != 0
    ensures Run(Begin(start, to), rounds, true)
    ensures var s := After(Begin(start, to), rounds, true); s.over && |s.deadlines| == r && s.sent == r + 1
  {
    rounds := PromptRun(Begin(start, to), start, to, r);
  }

  // ---- The loop itself ----

  ghost predicate StepAt(states: seq<State>, rounds: seq<Round>, retrans: bool, k: nat)
    requires |states| == |rounds| + 1
  {
    k < |rounds| ==>
      && !states[k].over && states[k].curr >= 0 && Timely(states[k], rounds[k])
      && states[k + 1] == Next(states[k], rounds[k], retrans)
  }

  // The states that a run passes through.
  lemma {:induction false} Passed(s: State, rounds: seq<Round>, retrans: bool) returns (states: seq<State>)
    requires Run(s, rounds, retrans)
    ensures |states| == |rounds| + 1 && states[0] == s && states[|rounds|] == After(s, rounds, retrans)
    ensures forall k: nat :: StepAt(states, rounds, retrans, k)
    decreases |rounds|
  {
    if rounds == [] {
      states := [s];
    } else {
      var rest := Passed(Next(s, rounds[0], retrans), rounds[1..], retrans);
      states := [s] + rest;
      forall k: nat ensures StepAt(states, rounds, retrans, k) {
        if k > 0 {
          assert StepAt(rest, rounds[1..], retrans, k - 1);
        }
      }
    }
  }

  // The deadline of the next wait; the final one is used up by the wait that reaches it.
  method SetDeadline(final: Timespec, curr: int, now: Timespec) returns (next: Timespec, left: Timespec)
    requires Normal(now) && curr >= 0
    ensures var last := Cmp(Sum(now, curr), final) > 0;
            && next == (if last then final else Sum(now, curr))
            && left == if last then final.(sec := 0) else final
  {
    left := final;
    next := AddTimespec(now, curr);
    if Cmp(next, final) > 0 {
      next, left := final, final.(sec := 0);
    }
  }

  // The loop of call1 over the rounds it goes through; not over while it would still wait.
  method WaitForReply(start: Timespec, to: Int32, retrans: bool, rounds: seq<Round>)
    returns (sent: nat, deadlines: seq<Timespec>, over: bool)
    requires Addable(start, to) && Run(Begin(start, to), rounds, retrans)
    ensures var s := After(Begin(start, to), rounds, retrans);
            sent == s.sent && deadlines == s.deadlines && over == s.over
    ensures forall i :: 0 <= i < |deadlines| ==> Instant(deadlines[i]) <= Instant(start) + to * MILLION
    ensures forall r: nat :: IsBound(r, to) ==> |deadlines| <= r && sent <= r + 1
  {
    BoundsFor(start, to, retrans, rounds);
    ghost var states := Passed(Begin(start, to), rounds, retrans);
    var final := AddTimespec(start, to);
    var curr, transmit, k := TO_MIN, true, 0;
    ghost var reached := Instant(start);
    sent, deadlines, over := 0, [], false;
    while true
      invariant 0 <= k <= |rounds| && !over
      invariant states[k] == Head(State(final, curr, sent, deadlines, reached, false), transmit)
      decreases |rounds| - k
    {
      assert StepAt(states, rounds, retrans, k);
      if transmit {
        sent, transmit := sent + 1, false;
      }
      if final.sec == 0 {
        over := true;
        break;
      }
      if k == |rounds| {
        break;
      }
      var now := rounds[k].now;
      var next, left := SetDeadline(final, curr, now);
      final := left;
      deadlines, k := deadlines + [next], k + 1;
      assert StepAt(states, rounds, retrans, k);
      if rounds[k - 1].done {
        over := true;
        break;
      }
      transmit := retrans && rounds[k - 1].dead;
      curr := Wrap(2 * curr);
      reached := if Instant(next) > Instant(now) then Instant(next) else Instant(now);
    }
  }
}
