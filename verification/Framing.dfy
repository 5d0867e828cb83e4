/** PDU framing over a byte stream that is written and read in arbitrary chunks (rpc/connection.cc). */
module Framing {
  import opened Basics
  import opened Marshall
  import opened Unmarshall

  const MAX_PDU: nat := 10 * 0x10_0000

  // A buffer handed to send; its first four bytes are room for the size.
  type Pdu = seq<Byte>

  predicate Legal(p: Pdu) {
    4 < |p| <= MAX_PDU
  }

  // What goes over the wire, and what the receiver is handed.
  function Frame(p: Pdu): (f: seq<Byte>)
    requires |p| >= 4
    ensures |f| == |p|
  {
    Word(|p|) + p[4..]
  }

  function SizeOf(b: seq<Byte>): int {
    FromBits(ReadInt(b, START, 4).0, 4, true)
  }

  // ---- One end: what the callbacks do ----

  // Outcomes of write(2) and read(2).
  datatype Written = Wrote(n: nat) | WriteAgain | WriteError

  // StaleEnd: the stream has ended while errno still holds an old EAGAIN, which readpdu looks at.
  datatype Chunk = Got(bytes: seq<Byte>) | Again | End | StaleEnd

  // wpdu_ while a send is under way.
  datatype Writing = Writing(buf: seq<Byte>, solong: nat)

  // rpdu_: the announced size and the bytes so far; no buffer when buf is empty.
  datatype Reading = Reading(sz: int, buf: seq<Byte>)

  const NO_PDU := Reading(0, [])

  datatype Received = Received(r: Reading, ok: bool, taken: seq<Byte>)

  function ReadBody(r: Reading, second: Chunk, taken: seq<Byte>): Received {
    match second
    case Got(b) => Received(r.(buf := r.buf + b), true, taken + b)
    case Again => Received(r, true, taken)
    case StaleEnd => Received(r, true, taken)
    case End => Received(NO_PDU, false, taken)
  }

  function ReadPdu(r: Reading, first: Chunk, second: Chunk): Received {
    if r.sz != 0 then ReadBody(r, second, [])
    else
      match first
      case Got(b) =>
        if |b| != 4 || SizeOf(b) > MAX_PDU then Received(r, false, b)
        else ReadBody(Reading(SizeOf(b), b), second, b)
      case _ => Received(r, false, [])
  }

  predicate Complete(r: Reading) {
    r.buf != [] && r.sz == |r.buf|
  }

  // readpdu runs unless a complete PDU waits to be consumed.
  function ReadStep(r: Reading, first: Chunk, second: Chunk): Received {
    if r.buf == [] || |r.buf| < r.sz then ReadPdu(r, first, second) else Received(r, true, [])
  }

  // Between PDUs a read callback goes on, whoever sends, exactly if the four bytes of a size field no
  // larger than MAX_PDU come in one piece and no end follows; the size is then the one announced.
  lemma SizeReadExact(first: Chunk, second: Chunk)
    ensures var x := ReadStep(NO_PDU, first, second);
            && (x.ok <==> first.Got? && |first.bytes| == 4 && SizeOf(first.bytes) <= MAX_PDU && second != End)
            && (x.ok ==> x.r.sz == SizeOf(first.bytes))
            && (x.ok ==> x.r.buf == first.bytes + if second.Got? then second.bytes else [])
            && (!x.ok ==> x.r == NO_PDU)
  {
    if first.Got? {
      assert first.bytes + [] == first.bytes;
    }
  }

  // ---- The room for the body ----

  function SizeT(x: int): nat {
    x % TWO64
  }

  // malloc gives no buffer of half the address space.
  predicate Allocates(sz: int) {
    2 * SizeT(sz + 4) < TWO64
  }

  // The buffer has sz + 4 bytes, and read(2) is asked for sz - solong behind the first solong.
  predicate ReadInside(sz: int, solong: nat) {
    solong + SizeT(sz - solong) <= SizeT(sz + 4)
  }

  // The body read of a callback, if there is one, stays inside the buffer.
  predicate StaysInside(r: Reading, first: Chunk) {
    if r.buf != [] && |r.buf| >= r.sz then true
    else if r.sz != 0 then ReadInside(r.sz, |r.buf|)
    else if first.Got? && |first.bytes| == 4 && SizeOf(first.bytes) <= MAX_PDU then ReadInside(SizeOf(first.bytes), 4)
    else true
  }

  lemma ReadInsideExact(sz: int, solong: nat)
    requires -4 <= sz <= MAX_PDU && solong <= MAX_PDU
    ensures ReadInside(sz, solong) <==> solong <= sz
  {
    if solong <= sz {
      assert SizeT(sz - solong) == sz - solong && SizeT(sz + 4) == sz + 4;
    } else {
      assert SizeT(sz - solong) == TWO64 + sz - solong;
    }
  }

  lemma {:induction false} IntBounded(b: seq<Byte>, c: Cursor, w: nat)
    ensures ReadInt(b, c, w).0 < Pow256(w)
    decreases w
  {
    if w > 0 {
      IntBounded(b, c, w - 1);
    }
  }

  lemma SizeInt32(b: seq<Byte>)
    ensures InInt32(SizeOf(b))
  {
    IntBounded(b, START, 4);
    Pow256Four();
  }

  // For every size field that is let through and gets a buffer, the body is read inside it if and
  // only if the size is at least 4.
  lemma BodyInsideExact(b: seq<Byte>)
    requires |b| == 4 && SizeOf(b) <= MAX_PDU
    ensures Allocates(SizeOf(b)) <==> SizeOf(b) >= -4
    ensures Allocates(SizeOf(b)) ==> (StaysInside(NO_PDU, Got(b)) <==> SizeOf(b) >= 4)
  {
    var sz := SizeOf(b);
    SizeInt32(b);
    if sz >= -4 {
      assert SizeT(sz + 4) == sz + 4;
      ReadInsideExact(sz, 4);
    } else {
      assert SizeT(sz + 4) == TWO64 + sz + 4;
    }
  }

  // A size field of 3 is let through.
  lemma ShortSizeReached()
    ensures var b := Word(3); ReadStep(NO_PDU, Got(b), Again) == Received(Reading(3, b), true, b)
    ensures Allocates(3) && !StaysInside(NO_PDU, Got(Word(3)))
  {
    SizeReadBack(3);
    BodyInsideExact(Word(3));
  }

  // Once a size field below 4 has been taken, nothing more is read and nothing is ever offered.
  lemma ShortSizeStuck(r: Reading, first: Chunk, second: Chunk)
    requires r.sz < 4 <= |r.buf|
    ensures ReadStep(r, first, second) == Received(r, true, []) && !Complete(r)
  {
  }

  class Connection {
    var dead: bool
    var wbuf: seq<Byte>      // empty when no send is under way
    var wsolong: int
    var rpdu: Reading

    constructor ()
      ensures !dead && wbuf == [] && rpdu == NO_PDU
    {
      dead, wbuf, wsolong, rpdu := false, [], 0, NO_PDU;
    }

    // writepdu, with the outcome of its write; out is what reached the wire.
    method WritePdu(w: Written) returns (ok: bool, out: seq<Byte>)
      requires |wbuf| >= 4 && 0 <= wsolong <= |wbuf|
      requires wsolong > 0 ==> wbuf == Frame(wbuf)
      requires w.Wrote? ==> w.n <= |wbuf| - wsolong
      modifies this`wbuf, this`wsolong
      ensures wbuf != [] ==> |wbuf| == old(|wbuf|) && 0 <= wsolong <= |wbuf|
      ensures ok <==> wsolong >= 0
      ensures ok && old(wsolong) < old(|wbuf|) ==> wbuf == old(Frame(wbuf))
      ensures out == if w.Wrote? then old(Frame(wbuf)[wsolong..wsolong + w.n]) else []
      ensures ok ==> wsolong == old(wsolong) + |out|
      ensures !ok ==> w == WriteError && old(wsolong) < old(|wbuf|) && wbuf == []
    {
      out := [];
      if wsolong == |wbuf| {
        ok := true;
        assert w.Wrote? ==> old(Frame(wbuf)[wsolong..wsolong + w.n]) == [];
        return;
      }
      if wsolong == 0 {
        wbuf := Word(|wbuf|) + wbuf[4..];
      }
      match w {
        case Wrote(n) =>
          out := wbuf[wsolong..wsolong + n];
          wsolong := wsolong + n;
          ok := true;
        case WriteAgain => ok := true;
        case WriteError =>
          wsolong, wbuf := -1, [];
          ok := false;
      }
    }

    // The second half of readpdu, behind the size field.
    method ReadRest(second: Chunk) returns (succ: bool)
      modifies this`rpdu
      ensures var x := ReadBody(old(rpdu), second, []); rpdu == x.r && succ == x.ok
    {
      succ := true;
      match second {
        case Got(b) => rpdu := Reading(rpdu.sz, rpdu.buf + b);
        case Again =>
        case StaleEnd =>
        case End =>
          rpdu := NO_PDU;
          succ := false;
      }
    }

    // readpdu
    method DoReadPdu(first: Chunk, second: Chunk) returns (succ: bool)
      modifies this`rpdu
      ensures var x := ReadPdu(old(rpdu), first, second); rpdu == x.r && succ == x.ok
    {
      if rpdu.sz == 0 {
        if !first.Got? {
          return false;
        }
        if |first.bytes| != 4 {
          return false;
        }
        var sz := SizeOf(first.bytes);
        if sz > MAX_PDU {
          return false;
        }
        rpdu := Reading(sz, first.bytes);
      }
      succ := ReadRest(second);
    }

    // read_cb, with the outcomes of its reads and the answer of got_pdu.
    // inside says whether its reads stay in the PDU's buffer; if not, the rest is what the size asks for.
    method ReadCb(first: Chunk, second: Chunk, accept: bool) returns (offered: seq<Byte>, inside: bool)
      modifies this`dead, this`rpdu
      ensures old(dead) ==> unchanged(this) && offered == [] && inside
      ensures !old(dead) ==>
                var x := ReadStep(old(rpdu), first, second);
                && inside == StaysInside(old(rpdu), first)
                && dead == !x.ok
                && offered == (if Complete(x.r) then x.r.buf else [])
                && rpdu == if Complete(x.r) && accept then NO_PDU else x.r
    {
      offered, inside := [], true;
      if dead {
        return;
      }
      inside := StaysInside(rpdu, first);
      var succ := true;
      if rpdu.buf == [] || |rpdu.buf| < rpdu.sz {
        succ := DoReadPdu(first, second);
      }
      if !succ {
        dead := true;
      }
      if rpdu.buf != [] && rpdu.sz == |rpdu.buf| {
        offered := rpdu.buf;
        if accept {
          rpdu := NO_PDU;
        }
      }
    }
  }

  // ---- Two ends and the stream between them ----

  datatype Offer = Offer(pdu: seq<Byte>, taken: bool)

  datatype Link = Link(
    sent: seq<Pdu>,            // PDUs whose send got past its wait, in order
    writing: bool,             // the last of them is still being written
    solong: nat,               // bytes of it written so far
    sdead: bool,
    wire: seq<Byte>,           // written and not yet read
    r: Reading,
    rdead: bool,
    offers: seq<Offer>)        // every call of got_pdu with its answer

  const OPENED := Link([], false, 0, false, [], NO_PDU, false, [])

  datatype Event =
    | StartSend(p: Pdu)
    | Write(w: Written)
    | EndSend                       // send returns: all written, or the sender's end died
    | SenderDies
    | Receive(first: Chunk, second: Chunk, accept: bool)
    | ReceiverDies

  // Chunks come from the front of the stream and fit what was asked for.
  predicate Chunked(c: Chunk, stream: seq<Byte>, room: int) {
    c.Got? ==> 1 <= |c.bytes| <= room && c.bytes <= stream
  }

  predicate Readable(r: Reading, wire: seq<Byte>, first: Chunk, second: Chunk) {
    if r.sz != 0 then Chunked(second, wire, r.sz - |r.buf|)
    else
      && first != Again   // read_cb runs when there is something to read
      && Chunked(first, wire, 4)
      && (first.Got? && |first.bytes| == 4 ==> Chunked(second, wire[4..], SizeOf(first.bytes) - 4))
  }

  function LastSent(s: Link): Pdu
    requires s.sent != []
  {
    s.sent[|s.sent| - 1]
  }

  predicate Enabled(s: Link, ev: Event) {
    match ev
    case StartSend(p) => !s.writing && !s.sdead && Legal(p)
    case Write(w) =>
      && s.writing && !s.sdead && s.sent != [] && 4 <= |LastSent(s)| && s.solong < |LastSent(s)|
      && (w.Wrote? ==> s.solong + w.n <= |LastSent(s)|)
    case EndSend => s.writing && s.sent != [] && (s.sdead || s.solong == |LastSent(s)|)
    case SenderDies => true
    case Receive(first, second, _) => !s.rdead && Readable(s.r, s.wire, first, second)
    case ReceiverDies => true
  }

  predicate AllLegal(ps: seq<Pdu>) {
    forall i :: 0 <= i < |ps| ==> Legal(ps[i])
  }

  // The effect of a read callback whose reads came out as x.
  function Receives(s: Link, x: Received, accept: bool): Link {
    var s1 := s.(rdead := !x.ok, wire := if |x.taken| <= |s.wire| then s.wire[|x.taken|..] else []);
    if Complete(x.r) then s1.(offers := s.offers + [Offer(x.r.buf, accept)], r := if accept then NO_PDU else x.r)
    else s1.(r := x.r)
  }

  function Next(s: Link, ev: Event): Link
    requires Enabled(s, ev)
  {
    match ev
    case StartSend(p) => s.(sent := s.sent + [p], writing := true, solong := 0)
    case Write(w) =>
      (match w
       case Wrote(n) => s.(wire := s.wire + Frame(LastSent(s))[s.solong..s.solong + n], solong := s.solong + n)
       case WriteAgain => s
       case WriteError => s.(sdead := true))
    case EndSend => s.(writing := false)
    case SenderDies => s.(sdead := true)
    case Receive(first, second, accept) => Receives(s, ReadStep(s.r, first, second), accept)
    case ReceiverDies => s.(rdead := true)
  }

  // PDUs consumed so far.
  function Consumed(offers: seq<Offer>): (n: nat)
    ensures n <= |offers|
  {
    if offers == [] then 0
    else Consumed(offers[..|offers| - 1]) + if offers[|offers| - 1].taken then 1 else 0
  }

  function Frames(ps: seq<Pdu>): seq<Byte>
    requires AllLegal(ps)
  {
    if ps == [] then [] else Frame(ps[0]) + Frames(ps[1..])
  }

  lemma {:induction false} FramesJoin(a: seq<Pdu>, b: seq<Pdu>)
    requires AllLegal(a) && AllLegal(b)
    ensures AllLegal(a + b) && Frames(a + b) == Frames(a) + Frames(b)
    decreases |a|
  {
    if a == [] {
      assert a + b == b;
    } else {
      FramesJoin(a[1..], b);
      assert (a + b)[1..] == a[1..] + b;
      assert Frame(a[0]) + (Frames(a[1..]) + Frames(b)) == Frame(a[0]) + Frames(a[1..]) + Frames(b);
    }
  }

  // ---- The invariant ----

  // Bytes of the current PDU that the sender has yet to write.
  function Unwritten(s: Link): seq<Byte>
    requires AllLegal(s.sent)
  {
    if s.writing && s.sent != [] && s.solong <= |LastSent(s)| then Frame(LastSent(s))[s.solong..] else []
  }

  // A PDU half read is the first of those pending, with its announced size.
  ghost predicate ReaderOk(r: Reading, pend: seq<Pdu>) {
    r == NO_PDU || (pend != [] && 4 <= |r.buf| <= r.sz && r.sz == |pend[0]|)
  }

  // What has been read and what is on the wire begin the frames of the pending PDUs.
  ghost predicate Flows(r: Reading, wire: seq<Byte>, pend: seq<Pdu>) {
    AllLegal(pend) && ReaderOk(r, pend) && r.buf + wire <= Frames(pend)
  }

  function Pending(s: Link): seq<Pdu> {
    if Consumed(s.offers) <= |s.sent| then s.sent[Consumed(s.offers)..] else []
  }

  // Every offer is the next frame not yet consumed.
  ghost predicate OffersOk(s: Link)
    requires AllLegal(s.sent)
  {
    forall i :: 0 <= i < |s.offers| ==>
      Consumed(s.offers[..i]) < |s.sent| && s.offers[i].pdu == Frame(s.sent[Consumed(s.offers[..i])])
  }

  ghost predicate SenderOk(s: Link) {
    && AllLegal(s.sent)
    && (s.writing ==> s.sent != [] && s.solong <= |LastSent(s)|)
    && Consumed(s.offers) <= |s.sent|
    && OffersOk(s)
  }

  ghost predicate FlowOk(s: Link)
    requires SenderOk(s)
  {
    Flows(s.r, s.wire, Pending(s)) && (!s.sdead ==> s.r.buf + s.wire + Unwritten(s) == Frames(Pending(s)))
  }

  ghost predicate Inv(s: Link) {
    SenderOk(s) && (!s.rdead ==> FlowOk(s))
  }

  // ---- The sender's steps ----

  lemma StartKeeps(s: Link, p: Pdu)
    requires Inv(s) && Enabled(s, StartSend(p))
    ensures Inv(Next(s, StartSend(p)))
  {
    var s' := Next(s, StartSend(p));
    var pend := Pending(s);
    assert Pending(s') == pend + [p];
    FramesJoin(pend, [p]);
    assert Frames([p]) == Frame(p) + Frames([]) == Frame(p);
    assert Unwritten(s') == Frame(p);
    if !s.rdead {
      assert s.r.buf + s.wire + Unwritten(s) == s.r.buf + s.wire;
    }
  }

  lemma PieceMoves(a: seq<Byte>, wire: seq<Byte>, f: seq<Byte>, i: nat, n: nat)
    requires i + n <= |f|
    ensures a + wire + f[i..] == a + (wire + f[i..i + n]) + f[i + n..]
  {
    assert f[i..] == f[i..i + n] + f[i + n..];
  }

  lemma WriteKeeps(s: Link, n: nat)
    requires Inv(s) && Enabled(s, Write(Wrote(n)))
    ensures Inv(Next(s, Write(Wrote(n))))
  {
    var s' := Next(s, Write(Wrote(n)));
    assert SenderOk(s') by { SameOffers(s, s'); }
    if !s.rdead {
      var f := Frame(LastSent(s));
      PieceMoves(s.r.buf, s.wire, f, s.solong, n);
      assert Unwritten(s) == f[s.solong..] && Unwritten(s') == f[s.solong + n..];
      StillPrefix(s.r.buf, s.wire, f[s.solong..s.solong + n], Unwritten(s'), Frames(Pending(s)));
    }
  }

  lemma SameOffers(s: Link, s': Link)
    requires AllLegal(s.sent) && OffersOk(s) && s'.sent == s.sent && s'.offers == s.offers
    ensures OffersOk(s')
  {
  }

  lemma StillPrefix(a: seq<Byte>, wire: seq<Byte>, piece: seq<Byte>, left: seq<Byte>, all: seq<Byte>)
    requires a + (wire + piece) + left == all
    ensures a + (wire + piece) <= all
  {
  }

  lemma EndKeeps(s: Link)
    requires Inv(s) && Enabled(s, EndSend)
    ensures Inv(Next(s, EndSend))
  {
    if !s.sdead && !s.rdead {
      assert Unwritten(s) == [];
    }
  }

  // ---- The receiver's steps ----

  lemma FirstFrame(pend: seq<Pdu>)
    requires AllLegal(pend) && pend != []
    ensures Frames(pend)[..|pend[0]|] == Frame(pend[0])
    ensures Frames(pend)[|pend[0]|..] == Frames(pend[1..])
    ensures Frames(pend)[..4] == Word(|pend[0]|)
  {
  }

  lemma SizeReadBack(n: nat)
    requires n <= MAX_PDU
    ensures SizeOf(Word(n)) == n
  {
    var w := Word(n);
    assert w[0..4] == w;
    WordRoundTrip(n, true, w, START);
  }

  // The size field read from the stream is that of the first pending PDU.
  lemma SizeKnown(wire: seq<Byte>, pend: seq<Pdu>, b: seq<Byte>)
    requires AllLegal(pend) && wire <= Frames(pend) && b <= wire && |b| == 4
    ensures pend != [] && SizeOf(b) == |pend[0]|
  {
    FirstFrame(pend);
    assert b == Frames(pend)[..4];
    SizeReadBack(|pend[0]|);
  }

  lemma BodyKeeps(r: Reading, wire: seq<Byte>, pend: seq<Pdu>, c: Chunk)
    requires Flows(r, wire, pend) && r != NO_PDU && Chunked(c, wire, r.sz - |r.buf|) && c != End
    ensures var x := ReadBody(r, c, []);
            && x.ok && |x.taken| <= |wire| && Flows(x.r, wire[|x.taken|..], pend) && x.r != NO_PDU
            && x.r.buf + wire[|x.taken|..] == r.buf + wire
  {
    if c.Got? {
      assert wire == c.bytes + wire[|c.bytes|..];
      assert r.buf + c.bytes + wire[|c.bytes|..] == r.buf + wire;
    }
  }

  // A read callback that does not fail moves bytes from the stream to the PDU and changes nothing else.
  lemma ReadKeeps(r: Reading, wire: seq<Byte>, pend: seq<Pdu>, first: Chunk, second: Chunk)
    requires Flows(r, wire, pend) && Readable(r, wire, first, second) && ReadStep(r, first, second).ok
    ensures var x := ReadStep(r, first, second);
            && |x.taken| <= |wire| && Flows(x.r, wire[|x.taken|..], pend) && x.r != NO_PDU
            && x.r.buf + wire[|x.taken|..] == r.buf + wire
  {
    if r == NO_PDU {
      var b := first.bytes;
      SizeKnown(wire, pend, b);
      var r1 := Reading(SizeOf(b), b);
      assert b + wire[4..] == wire && [] + wire == wire;
      BodyKeeps(r1, wire[4..], pend, second);
      var x := ReadBody(r1, second, []);
      assert ReadBody(r1, second, b).taken == b + x.taken;
      assert wire[4..][|x.taken|..] == wire[|b + x.taken|..];
    } else if |r.buf| < r.sz {
      BodyKeeps(r, wire, pend, second);
    }
  }

  lemma CompleteIsFrame(r: Reading, wire: seq<Byte>, pend: seq<Pdu>)
    requires Flows(r, wire, pend) && Complete(r)
    ensures pend != [] && r.buf == Frame(pend[0]) && wire <= Frames(pend[1..]) && Flows(NO_PDU, wire, pend[1..])
  {
    FirstFrame(pend);
    assert r.buf == (r.buf + wire)[..|r.buf|] == Frames(pend)[..|r.buf|];
    assert wire == (r.buf + wire)[|r.buf|..];
    assert [] + wire == wire;
  }

  lemma OfferedKeeps(s: Link, s': Link, o: Offer)
    requires Inv(s) && s'.sent == s.sent && s'.offers == s.offers + [o]
    requires Consumed(s.offers) < |s.sent| && o.pdu == Frame(s.sent[Consumed(s.offers)])
    ensures OffersOk(s') && Consumed(s'.offers) == Consumed(s.offers) + if o.taken then 1 else 0
  {
    assert s'.offers[..|s.offers|] == s.offers;
    forall i | 0 <= i < |s'.offers|
      ensures Consumed(s'.offers[..i]) < |s.sent| && s'.offers[i].pdu == Frame(s.sent[Consumed(s'.offers[..i])])
    {
      assert s'.offers[..i] == s.offers[..i];
    }
  }

  lemma ReceiveKeeps(s: Link, first: Chunk, second: Chunk, accept: bool)
    requires Inv(s) && !s.rdead && Readable(s.r, s.wire, first, second)
    ensures Inv(Receives(s, ReadStep(s.r, first, second), accept))
  {
    var x := ReadStep(s.r, first, second);
    if !x.ok {
      FailureKeeps(s, x, accept);
    } else {
      ReadKeeps(s.r, s.wire, Pending(s), first, second);
      if Complete(x.r) {
        OfferKeeps(s, x.r, |x.taken|, accept);
      } else {
        PartKeeps(s, x, accept);
      }
    }
  }

  lemma SameSender(s: Link, s': Link)
    requires SenderOk(s)
    requires s'.sent == s.sent && s'.writing == s.writing && s'.solong == s.solong && s'.offers == s.offers
    ensures SenderOk(s')
  {
  }

  lemma FailureKeeps(s: Link, x: Received, accept: bool)
    requires Inv(s) && !x.ok && !Complete(x.r)
    ensures Inv(Receives(s, x, accept))
  {
    SameSender(s, Receives(s, x, accept));
  }

  lemma PartKeeps(s: Link, x: Received, accept: bool)
    requires Inv(s) && !s.rdead && x.ok && !Complete(x.r) && |x.taken| <= |s.wire|
    requires Flows(x.r, s.wire[|x.taken|..], Pending(s)) && x.r.buf + s.wire[|x.taken|..] == s.r.buf + s.wire
    ensures Inv(Receives(s, x, accept))
  {
    var s' := Receives(s, x, accept);
    SameSender(s, s');
    assert Pending(s') == Pending(s) && Unwritten(s') == Unwritten(s);
  }

  // The state after a complete PDU has been offered.
  function Offered(s: Link, r: Reading, n: nat, accept: bool): Link
    requires n <= |s.wire|
  {
    s.(wire := s.wire[n..], offers := s.offers + [Offer(r.buf, accept)], r := if accept then NO_PDU else r)
  }

  lemma OfferKeeps(s: Link, r: Reading, n: nat, accept: bool)
    requires Inv(s) && !s.rdead && n <= |s.wire| && Complete(r)
    requires Flows(r, s.wire[n..], Pending(s)) && r.buf + s.wire[n..] == s.r.buf + s.wire
    ensures Inv(Offered(s, r, n, accept))
  {
    var s', pend := Offered(s, r, n, accept), Pending(s);
    CompleteIsFrame(r, s.wire[n..], pend);
    OfferedKeeps(s, s', Offer(r.buf, accept));
    assert SenderOk(s');
    if accept {
      assert Pending(s') == pend[1..];
      if !s.sdead { AcceptedFlow(s, s', r, pend); }
    } else {
      assert Pending(s') == pend;
    }
  }

  lemma AcceptedFlow(s: Link, s': Link, r: Reading, pend: seq<Pdu>)
    requires AllLegal(pend) && pend != [] && AllLegal(s.sent) && r.buf == Frame(pend[0])
    requires r.buf + s'.wire == s.r.buf + s.wire && s.r.buf + s.wire + Unwritten(s) == Frames(pend)
    requires s'.r == NO_PDU && s'.sent == s.sent && s'.writing == s.writing && s'.solong == s.solong
    ensures s'.r.buf + s'.wire + Unwritten(s') == Frames(pend[1..])
  {
    FirstFrame(pend);
    var left := Unwritten(s);
    assert Unwritten(s') == left;
    JoinAssoc(r.buf, s'.wire, left);
    TailOf(r.buf, s'.wire + left);
    assert [] + s'.wire == s'.wire;
  }

  lemma TailOf(a: seq<Byte>, b: seq<Byte>)
    ensures (a + b)[|a|..] == b
  {
  }

  lemma DeathKeeps(s: Link)
    requires Inv(s)
    ensures Inv(s.(sdead := true)) && Inv(s.(rdead := true))
  {
    SameSender(s, s.(sdead := true));
    SameSender(s, s.(rdead := true));
    assert Pending(s.(sdead := true)) == Pending(s);
  }

  lemma EventKeeps(s: Link, ev: Event)
    requires Inv(s) && Enabled(s, ev)
    ensures Inv(Next(s, ev))
  {
    match ev
    case StartSend(p) => StartKeeps(s, p);
    case Write(w) => if w.Wrote? { WriteKeeps(s, w.n); } else { DeathKeeps(s); }
    case EndSend => EndKeeps(s);
    case SenderDies => DeathKeeps(s);
    case Receive(first, second, accept) => ReceiveKeeps(s, first, second, accept);
    case ReceiverDies => DeathKeeps(s);
  }

  // ---- Whole runs ----

  predicate Run(s: Link, evs: seq<Event>)
    decreases |evs|
  {
    evs == [] || (Enabled(s, evs[0]) && Run(Next(s, evs[0]), evs[1..]))
  }

  function After(s: Link, evs: seq<Event>): Link
    requires Run(s, evs)
    decreases |evs|
  {
    if evs == [] then s else After(Next(s, evs[0]), evs[1..])
  }

  lemma {:induction false} RunKeeps(s: Link, evs: seq<Event>)
    requires Inv(s) && Run(s, evs)
    ensures Inv(After(s, evs))
    decreases |evs|
  {
    if evs != [] {
      EventKeeps(s, evs[0]);
      RunKeeps(Next(s, evs[0]), evs[1..]);
    }
  }

  lemma Reached(evs: seq<Event>)
    requires Run(OPENED, evs)
    ensures Inv(After(OPENED, evs))
  {
    assert Inv(OPENED);
    RunKeeps(OPENED, evs);
  }

  // In every run, each call of got_pdu hands over the frame of the first PDU sent and not yet
  // consumed: intact, in order, each consumed once and offered again while refused.
  lemma FramingRoundTrip(evs: seq<Event>, i: nat)
    requires Run(OPENED, evs) && i < |After(OPENED, evs).offers|
    ensures var s := After(OPENED, evs);
            var k := Consumed(s.offers[..i]);
            k < |s.sent| && Legal(s.sent[k]) && s.offers[i].pdu == Frame(s.sent[k])
  {
    Reached(evs);
  }

  // What stands in a frame: the announced size, then every byte of the PDU behind its size field.
  lemma FrameHolds(p: Pdu)
    requires Legal(p)
    ensures |Frame(p)| == |p| && Frame(p)[4..] == p[4..] && SizeOf(Frame(p)[..4]) == |p|
  {
    assert Frame(p)[..4] == Word(|p|);
    SizeReadBack(|p|);
  }

  // In every run the i-th PDU handed over has the length and, behind the size field, the bytes of the
  // first PDU sent and not yet consumed, and its size field says that length.
  lemma DeliveredIntact(evs: seq<Event>, i: nat)
    requires Run(OPENED, evs) && i < |After(OPENED, evs).offers|
    ensures var s := After(OPENED, evs);
            var k, pdu := Consumed(s.offers[..i]), s.offers[i].pdu;
            && k < |s.sent| && |pdu| == |s.sent[k]| > 4 && pdu[4..] == s.sent[k][4..]
            && SizeOf(pdu[..4]) == |s.sent[k]|
  {
    FramingRoundTrip(evs, i);
    var s := After(OPENED, evs);
    FrameHolds(s.sent[Consumed(s.offers[..i])]);
  }

  lemma {:induction false} FramesCount(ps: seq<Pdu>)
    requires AllLegal(ps)
    ensures |Frames(ps)| >= |ps|
    decreases |ps|
  {
    if ps != [] { FramesCount(ps[1..]); }
  }

  // Nothing is lost while both ends live: with nothing in flight, every PDU sent has been consumed.
  lemma NothingLost(evs: seq<Event>)
    requires Run(OPENED, evs)
    ensures var s := After(OPENED, evs);
            !s.sdead && !s.rdead && !s.writing && s.wire == [] && s.r.buf == [] ==> Consumed(s.offers) == |s.sent|
  {
    var s := After(OPENED, evs);
    Reached(evs);
    if !s.sdead && !s.rdead && !s.writing && s.wire == [] && s.r.buf == [] {
      assert s.r.buf + s.wire + Unwritten(s) == [];
      FramesCount(Pending(s));
    }
  }

  lemma FailsExactly(s: Link, first: Chunk, second: Chunk)
    requires Inv(s) && !s.rdead && Readable(s.r, s.wire, first, second)
    ensures !ReadStep(s.r, first, second).ok <==>
              if s.r.buf == [] then !first.Got? || |first.bytes| < 4 || second == End
              else |s.r.buf| < s.r.sz && second == End
  {
    if s.r.buf == [] && first.Got? && |first.bytes| == 4 {
      assert [] + s.wire == s.wire;
      SizeKnown(s.wire, Pending(s), first.bytes);
    }
  }

  lemma DiesExactly(s: Link, first: Chunk, second: Chunk, accept: bool)
    requires Inv(s) && Enabled(s, Receive(first, second, accept))
    ensures Next(s, Receive(first, second, accept)).rdead <==>
              if s.r.buf == [] then !first.Got? || |first.bytes| < 4 || second == End
              else |s.r.buf| < s.r.sz && second == End
  {
    FailsExactly(s, first, second);
    assert Next(s, Receive(first, second, accept)).rdead == !ReadStep(s.r, first, second).ok;
  }

  lemma LegalStaysInside(s: Link, first: Chunk, second: Chunk)
    requires Inv(s) && !s.rdead && Readable(s.r, s.wire, first, second)
    ensures StaysInside(s.r, first)
  {
    if s.r == NO_PDU {
      if first.Got? && |first.bytes| == 4 {
        assert [] + s.wire == s.wire;
        SizeKnown(s.wire, Pending(s), first.bytes);
        ReadInsideExact(SizeOf(first.bytes), 4);
      }
    } else {
      ReadInsideExact(s.r.sz, |s.r.buf|);
    }
  }

  // What legal senders send is always read inside its buffer.
  lemma ReadsStayInside(evs: seq<Event>, first: Chunk, second: Chunk, accept: bool)
    requires Run(OPENED, evs) && Enabled(After(OPENED, evs), Receive(first, second, accept))
    ensures StaysInside(After(OPENED, evs).r, first)
  {
    Reached(evs);
    LegalStaysInside(After(OPENED, evs), first, second);
  }

  // A read fails by itself only when a size field comes in pieces or the stream ends; inside a PDU
  // an end goes unnoticed while errno holds an old EAGAIN.  A size over MAX_PDU is never seen.
  lemma SurvivalExact(evs: seq<Event>, first: Chunk, second: Chunk, accept: bool)
    requires Run(OPENED, evs) && Enabled(After(OPENED, evs), Receive(first, second, accept))
    ensures var s := After(OPENED, evs);
            Next(s, Receive(first, second, accept)).rdead <==>
              if s.r.buf == [] then !first.Got? || |first.bytes| < 4 || second == End
              else |s.r.buf| < s.r.sz && second == End
  {
    Reached(evs);
    DiesExactly(After(OPENED, evs), first, second, accept);
  }
}
