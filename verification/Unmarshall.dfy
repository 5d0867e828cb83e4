/** Reading messages back: the unmarshall object, headers, and whole messages. */
module Unmarshall {
  import opened Basics
  import opened Marshall

  // ---- Headers ----

  function ReadWord(b: seq<Byte>, c: Cursor, signed: bool): (int, Cursor) {
    var (n, c1) := ReadInt(b, c, 4);
    (FromBits(n, 4, signed), c1)
  }

  // The nonces are unsigned fields.
  function UnpackReq(b: seq<Byte>, c: Cursor): (ReqHeader, Cursor) {
    var (xid, c1) := ReadWord(b, c.(ind := 4), true);
    var (proc, c2) := ReadWord(b, c1, true);
    var (clt, c3) := ReadInt(b, c2, 4);
    var (srv, c4) := ReadInt(b, c3, 4);
    var (rep, c5) := ReadWord(b, c4, true);
    (ReqHeader(xid, proc, clt, srv, rep), c5.(ind := HEADER))
  }

  function UnpackReply(b: seq<Byte>, c: Cursor): (ReplyHeader, Cursor) {
    var (xid, c1) := ReadWord(b, c.(ind := 4), true);
    var (ret, c2) := ReadWord(b, c1, true);
    (ReplyHeader(xid, ret), c2.(ind := HEADER))
  }

  predicate InRange(h: ReqHeader) {
    InInt32(h.xid) && InInt32(h.proc) && h.cltNonce < TWO32 && h.srvNonce < TWO32 && InInt32(h.xidRep)
  }

  // A received message, before anything has been read.
  const START := Cursor(0, true, false)

  lemma WordRoundTrip(x: int, signed: bool, b: seq<Byte>, c: Cursor)
    requires (if signed then InInt32(x) else 0 <= x < TWO32) && At(b, c, Word(x))
    ensures ReadWord(b, c, signed) == (x, Past(c, Word(x)))
  {
    Pow256Four();
    BitsRoundTrip(x, 4, signed);
    IntRoundTrip(ToBits(x, 4), 4, b, c);
  }

  lemma ReqHeaderRoundTrip(b: seq<Byte>, h: ReqHeader)
    requires InRange(h) && At(b, START.(ind := 4), ReqBytes(h))
    ensures UnpackReq(b, START) == (h, BODY_START)
  {
    var c := START.(ind := 4);
    var w1, w2, w3, w4, w5 := Word(h.xid), Word(h.proc), Word(h.cltNonce), Word(h.srvNonce), Word(h.xidRep);
    AtSplit(b, c, w1 + w2 + w3 + w4, w5);
    AtSplit(b, c, w1 + w2 + w3, w4);
    AtSplit(b, c, w1 + w2, w3);
    AtSplit(b, c, w1, w2);
    WordRoundTrip(h.xid, true, b, c);
    WordRoundTrip(h.proc, true, b, Past(c, w1));
    WordRoundTrip(h.cltNonce, false, b, Past(c, w1 + w2));
    WordRoundTrip(h.srvNonce, false, b, Past(c, w1 + w2 + w3));
    WordRoundTrip(h.xidRep, true, b, Past(c, w1 + w2 + w3 + w4));
  }

  lemma ReplyHeaderRoundTrip(b: seq<Byte>, h: ReplyHeader)
    requires InInt32(h.xid) && InInt32(h.ret) && At(b, START.(ind := 4), ReplyBytes(h))
    ensures UnpackReply(b, START) == (h, BODY_START)
  {
    var c := START.(ind := 4);
    AtSplit(b, c, Word(h.xid), Word(h.ret));
    WordRoundTrip(h.xid, true, b, c);
    WordRoundTrip(h.ret, true, b, Past(c, Word(h.xid)));
  }

  // A whole request as sent: size word, header, arguments.  The receiver gets back the header
  // and the arguments, and nothing is left over.
  lemma RequestRoundTrip(size: seq<Byte>, h: ReqHeader, vs: seq<Value>, ts: seq<Type>)
    requires |size| == 4 && InRange(h) && HaveTypes(vs, ts) && HEADER + |EncodeAll(vs, ts)| < TWO31
    ensures var b := size + ReqBytes(h) + EncodeAll(vs, ts);
            var (h', c) := UnpackReq(b, START);
            var (vs', c') := DecodeAll(ts, b, c);
            h' == h && vs' == vs && OkDone(b, c')
  {
    var b := size + ReqBytes(h) + EncodeAll(vs, ts);
    assert b[4..HEADER] == ReqBytes(h);
    ReqHeaderRoundTrip(b, h);
    BodyRoundTrip(size + ReqBytes(h), vs, ts);
  }

  // The same for a reply: the twelve header bytes behind ret are whatever the buffer held.
  lemma ReplyRoundTrip(size: seq<Byte>, h: ReplyHeader, rest: seq<Byte>, vs: seq<Value>, ts: seq<Type>)
    requires |size| == 4 && |rest| == 12 && InInt32(h.xid) && InInt32(h.ret)
    requires HaveTypes(vs, ts) && HEADER + |EncodeAll(vs, ts)| < TWO31
    ensures var b := size + ReplyBytes(h) + rest + EncodeAll(vs, ts);
            var (h', c) := UnpackReply(b, START);
            var (vs', c') := DecodeAll(ts, b, c);
            h' == h && vs' == vs && OkDone(b, c')
  {
    var b := size + ReplyBytes(h) + rest + EncodeAll(vs, ts);
    assert b[4..12] == ReplyBytes(h);
    ReplyHeaderRoundTrip(b, h);
    BodyRoundTrip(size + ReplyBytes(h) + rest, vs, ts);
  }

  lemma {:induction false} IntOkExactly(b: seq<Byte>, c: Cursor, w: nat)
    requires c.ok
    ensures var c1 := ReadInt(b, c, w).1;
            (c1.ok <==> c.ind + w <= |b| || w == 0) && (c1.ok ==> c1.ind == c.ind + w)
    decreases w
  {
    if w > 0 {
      IntOkExactly(b, c, w - 1);
      assert w == 1 ==> ReadInt(b, c, 0).1 == c;
      if !ReadInt(b, c, w - 1).1.ok { assert c.ind + w > |b|; }
    }
  }

  lemma {:induction false} StaysFailed(b: seq<Byte>, c: Cursor, w: nat)
    requires !c.ok
    ensures !ReadInt(b, c, w).1.ok
    decreases w
  {
    if w > 0 { StaysFailed(b, c, w - 1); }
  }

  lemma NextWord(b: seq<Byte>, c: Cursor, at: nat)
    requires c.ok ==> c.ind == at
    requires c.ok <==> at <= |b|
    ensures var c1 := ReadInt(b, c, 4).1;
            (c1.ok <==> at + 4 <= |b|) && (c1.ok ==> c1.ind == at + 4)
  {
    if c.ok { IntOkExactly(b, c, 4); } else { StaysFailed(b, c, 4); }
  }

  // A request header unpacks from 24 bytes on, a reply header already from 12.
  lemma HeaderNeeds(b: seq<Byte>)
    ensures UnpackReq(b, START).1.ok <==> |b| >= 24
    ensures UnpackReply(b, START).1.ok <==> |b| >= 12
  {
    var c := START.(ind := 4);
    IntOkExactly(b, c, 4);
    var c1 := ReadInt(b, c, 4).1;
    NextWord(b, c1, 8);
    var c2 := ReadInt(b, c1, 4).1;
    NextWord(b, c2, 12);
    var c3 := ReadInt(b, c2, 4).1;
    NextWord(b, c3, 16);
    var c4 := ReadInt(b, c3, 4).1;
    NextWord(b, c4, 20);
  }

  // ---- The object ----

  class Unmarshaller {
    var buf: seq<Byte>
    var ind: nat
    var ok: bool
    ghost var wild: bool

    ghost function Cur(): Cursor
      reads this
    {
      Cursor(ind, ok, wild)
    }

    constructor (b: seq<Byte>)
      ensures buf == b && Cur() == START
    {
      buf, ind, ok, wild := b, 0, true, false;
    }

    // Take the content of a string behind an empty header.
    method TakeContent(s: seq<Byte>)
      modifies this
      ensures |buf| == HEADER + |s| && buf[HEADER..] == s && ind == HEADER && ok && wild == old(wild)
    {
      buf := seq(HEADER, _ => 0) + s;
      ind, ok := HEADER, true;
    }

    // Take over a received reply whose header has been read.
    method TakeIn(another: Unmarshaller)
      requires another != this
      modifies this, another
      ensures buf == old(another.buf) && ind == HEADER && ok == (|buf| >= HEADER)
      ensures another.buf == [] && another.ind == 0
    {
      buf := another.buf;
      another.buf, another.ind := [], 0;
      ind, ok := HEADER, |buf| >= HEADER;
    }

    method OkayDone() returns (r: bool)
      ensures r == OkDone(buf, Cur())
    {
      r := ok && ind == |buf|;
    }

    method GetByte() returns (x: Byte)
      modifies this`ind, this`ok
      ensures (x, Cur()) == RawByte(buf, old(Cur()))
    {
      x := 0;
      if ind >= |buf| {
        ok := false;
      } else {
        x := buf[ind];
        ind := ind + 1;
      }
    }

    method GetInt(w: nat) returns (x: nat)
      modifies this`ind, this`ok
      ensures (x, Cur()) == ReadInt(buf, old(Cur()), w)
    {
      x := 0;
      var i := 0;
      while i < w
        invariant 0 <= i <= w && buf == old(buf)
        invariant (x, Cur()) == ReadInt(buf, old(Cur()), i)
      {
        var lo := GetByte();
        x := 256 * x + lo;
        i := i + 1;
      }
    }

    method GetStr() returns (s: seq<Byte>)
      modifies this`ind, this`ok, this`wild
      ensures (s, Cur()) == ReadStr(buf, old(Cur()))
    {
      s := [];
      var n := GetInt(4);
      if ok {
        var end := (ind + n) % TWO32;
        if end > |buf| {
          ok := false;
        } else {
          if ind + n <= |buf| {
            s := buf[ind..ind + n];
          } else {
            wild := true;
          }
          ind := end;
        }
      }
    }

    // operator>> for every type, into an empty target.
    method Read(t: Type) returns (v: Value)
      modifies this`ind, this`ok, this`wild
      ensures (v, Cur()) == Decode(t, buf, old(Cur()))
      decreases t, 1
    {
      match t {
        case TBool =>
          var n := GetByte();
          v := Bool(n != 0);
        case TInt(w, signed) =>
          var n := GetInt(w);
          v := Int(FromBits(n, w, signed));
        case TStr =>
          var s := GetStr();
          v := Str(s);
        case TVec(_) =>
          var n := GetInt(4);
          ghost var c1 := Cur();
          var vs := ReadVec(t, n, []);
          assert vs == DecodeVec(t, n, buf, c1).0;
          v := Vec(vs);
        case TMap(_, _) =>
          var n := GetInt(4);
          var es := ReadMap(t, n);
          v := Map(es);
      }
    }

    // The elements are pushed behind those that the target already has.
    method ReadVec(t: Type, n: nat, target: seq<Value>) returns (vs: seq<Value>)
      requires t.TVec?
      modifies this`ind, this`ok, this`wild
      ensures vs == target + DecodeVec(t, n, buf, old(Cur())).0 && Cur() == DecodeVec(t, n, buf, old(Cur())).1
      decreases t, 0
    {
      vs := target;
      var i := 0;
      while i < n
        invariant 0 <= i <= n && buf == old(buf)
        invariant vs + DecodeVec(t, n - i, buf, Cur()).0 == target + DecodeVec(t, n, buf, old(Cur())).0
        invariant DecodeVec(t, n - i, buf, Cur()).1 == DecodeVec(t, n, buf, old(Cur())).1
      {
        var z := Read(t.elem);
        vs := vs + [z];
        i := i + 1;
      }
      assert vs + [] == vs;
    }

    method ReadMap(t: Type, n: nat) returns (es: seq<(Value, Value)>)
      requires t.TMap?
      modifies this`ind, this`ok, this`wild
      ensures (es, Cur()) == DecodeMap(t, n, buf, old(Cur()), [])
      decreases t, 0
    {
      es := [];
      var i := 0;
      while i < n
        invariant 0 <= i <= n && buf == old(buf)
        invariant DecodeMap(t, n - i, buf, Cur(), es) == DecodeMap(t, n, buf, old(Cur()), [])
      {
        var a := Read(t.key);
        var b := Read(t.val);
        es := Put(es, a, b);
        i := i + 1;
      }
    }

    method UnpackReqHeader() returns (h: ReqHeader)
      modifies this`ind, this`ok
      ensures (h, Cur()) == UnpackReq(buf, old(Cur()))
    {
      ind := 4;
      var xid := GetInt(4);
      var proc := GetInt(4);
      var clt := GetInt(4);
      var srv := GetInt(4);
      var rep := GetInt(4);
      h := ReqHeader(FromBits(xid, 4, true), FromBits(proc, 4, true), clt, srv, FromBits(rep, 4, true));
      ind := HEADER;
    }

    method UnpackReplyHeader() returns (h: ReplyHeader)
      modifies this`ind, this`ok
      ensures (h, Cur()) == UnpackReply(buf, old(Cur()))
    {
      ind := 4;
      var xid := GetInt(4);
      var ret := GetInt(4);
      h := ReplyHeader(FromBits(xid, 4, true), FromBits(ret, 4, true));
      ind := HEADER;
    }
  }
}
