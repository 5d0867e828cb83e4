/** Where each value stands in the bytes of a message, most significant byte first. */
module WireFormat {
  import opened Basics
  import opened Marshall
  import opened Unmarshall
  import opened InBounds

  // One and two bytes.
  lemma SmallLayout(x: nat)
    ensures BigEndian(x, 1) == [x % 256]
    ensures BigEndian(x, 2) == [x / 256 % 256, x % 256]
  {
    assert BigEndian(x, 0) == [];
    assert BigEndian(x / 256, 1) == [x / 256 % 256];
  }

  lemma FourDivisions(x: nat)
    ensures x / 256 / 256 / 256 / 256 == x / TWO32
  {
  }

  lemma LowBytes(x: nat)
    ensures var y := x % TWO32;
            && y % 256 == x % 256 && y / 256 % 256 == x / 256 % 256
            && y / 256 / 256 % 256 == x / 256 / 256 % 256 && y / 256 / 256 / 256 % 256 == x / 256 / 256 / 256 % 256
  {
    var q, y := x / TWO32, x % TWO32;
    assert x == q * TWO32 + y;
    assert x / 256 == q * 0x100_0000 + y / 256;
    assert x / 256 / 256 == q * 0x1_0000 + y / 256 / 256;
    assert x / 256 / 256 / 256 == q * 0x100 + y / 256 / 256 / 256;
  }

  lemma LastFour(x: nat, w: nat)
    ensures BigEndian(x, w + 4) ==
            BigEndian(x / TWO32, w) + [x / 256 / 256 / 256 % 256, x / 256 / 256 % 256, x / 256 % 256, x % 256]
  {
    FourDivisions(x);
    var x1, x2, x3 := x / 256, x / 256 / 256, x / 256 / 256 / 256;
    assert BigEndian(x3, w + 1) == BigEndian(x / TWO32, w) + [x3 % 256];
    assert BigEndian(x2, w + 2) == BigEndian(x / TWO32, w) + [x3 % 256, x2 % 256];
    assert BigEndian(x1, w + 3) == BigEndian(x / TWO32, w) + [x3 % 256, x2 % 256, x1 % 256];
  }

  // Eight bytes are the two words of the number, the upper one first.
  lemma LongLayout(x: nat)
    ensures BigEndian(x, 8) == BigEndian(x / TWO32, 4) + BigEndian(x % TWO32, 4)
  {
    LastFour(x, 4);
    LastFour(x % TWO32, 0);
    LowBytes(x);
    assert BigEndian(x % TWO32 / TWO32, 0) == [];
  }

  lemma WordLayout(x: int)
    ensures WordAt(Word(x), 0) == x % TWO32
  {
    var w := Word(x);
    Pow256Four();
    WordRead(w, START);
    assert w[0..4] == w;
    IntRoundTrip(x % TWO32, 4, w, START);
  }

  lemma WordInside(b: seq<Byte>, i: nat, w: seq<Byte>)
    requires |w| == 4 && i + 4 <= |b| && b[i..i + 4] == w
    ensures WordAt(b, i) == WordAt(w, 0)
  {
    assert w[0] == b[i] && w[1] == b[i + 1] && w[2] == b[i + 2] && w[3] == b[i + 3];
  }

  // A request header: xid, procedure, client nonce, server nonce and acknowledged xid, in that order.
  lemma ReqLayout(h: ReqHeader)
    ensures var b := ReqBytes(h);
            && |b| == 20
            && WordAt(b, 0) == h.xid % TWO32 && WordAt(b, 4) == h.proc % TWO32
            && WordAt(b, 8) == h.cltNonce % TWO32 && WordAt(b, 12) == h.srvNonce % TWO32
            && WordAt(b, 16) == h.xidRep % TWO32
  {
    var b := ReqBytes(h);
    assert b[0..4] == Word(h.xid) && b[4..8] == Word(h.proc) && b[8..12] == Word(h.cltNonce);
    assert b[12..16] == Word(h.srvNonce) && b[16..20] == Word(h.xidRep);
    WordInside(b, 0, Word(h.xid));
    WordInside(b, 4, Word(h.proc));
    WordInside(b, 8, Word(h.cltNonce));
    WordInside(b, 12, Word(h.srvNonce));
    WordInside(b, 16, Word(h.xidRep));
    WordLayout(h.xid);
    WordLayout(h.proc);
    WordLayout(h.cltNonce);
    WordLayout(h.srvNonce);
    WordLayout(h.xidRep);
  }

  lemma ReplyLayout(h: ReplyHeader)
    ensures var b := ReplyBytes(h);
            |b| == 8 && WordAt(b, 0) == h.xid % TWO32 && WordAt(b, 4) == h.ret % TWO32
  {
    var b := ReplyBytes(h);
    assert b[0..4] == Word(h.xid) && b[4..8] == Word(h.ret);
    WordInside(b, 0, Word(h.xid));
    WordInside(b, 4, Word(h.ret));
    WordLayout(h.xid);
    WordLayout(h.ret);
  }

  lemma WordOf(n: nat)
    requires n < TWO32
    ensures Word(n) == BigEndian(n, 4)
  {
    Pow256Four();
    ModOf(n, TWO32);
  }

  lemma CountLayout(n: nat, rest: seq<Byte>)
    requires n < TWO32
    ensures var b := BigEndian(n, 4) + rest; |b| >= 4 && WordAt(b, 0) == n && b[4..] == rest
  {
    var b := BigEndian(n, 4) + rest;
    WordOf(n);
    assert b[0..4] == Word(n) && b[4..] == rest;
    WordInside(b, 0, Word(n));
    WordLayout(n);
  }

  // Truth values are one byte, 1 or 0.
  lemma BoolLayout(b: bool)
    ensures Encode(Bool(b), TBool) == [if b then 1 else 0]
  {
  }

  // A string is its length and its bytes.
  lemma StrLayout(s: seq<Byte>)
    requires |s| < TWO32
    ensures var e := Encode(Str(s), TStr); |e| >= 4 && WordAt(e, 0) == |s| && e[4..] == s
  {
    CountLayout(|s|, s);
  }

  function EncodedAll(vs: seq<Value>, t: Type): seq<seq<Byte>> {
    seq(|vs|, i requires 0 <= i < |vs| => Encode(vs[i], t))
  }

  function Flat(bs: seq<seq<Byte>>): seq<Byte> {
    if bs == [] then [] else bs[0] + Flat(bs[1..])
  }

  lemma {:induction false} VecFlat(vs: seq<Value>, t: Type)
    requires t.TVec?
    ensures EncodeVec(vs, t) == Flat(EncodedAll(vs, t.elem))
    decreases |vs|
  {
    if vs != [] {
      VecFlat(vs[1..], t);
      assert EncodedAll(vs, t.elem)[1..] == EncodedAll(vs[1..], t.elem);
    }
  }

  // A vector is its length and its elements in order.
  lemma VecLayout(vs: seq<Value>, elem: Type)
    requires |vs| < TWO32
    ensures var e := Encode(Vec(vs), TVec(elem));
            |e| >= 4 && WordAt(e, 0) == |vs| && e[4..] == Flat(EncodedAll(vs, elem))
  {
    VecFlat(vs, TVec(elem));
    CountLayout(|vs|, EncodeVec(vs, TVec(elem)));
  }

  function EncodedEntries(es: seq<(Value, Value)>, k: Type, v: Type): seq<seq<Byte>> {
    seq(|es|, i requires 0 <= i < |es| => Encode(es[i].0, k) + Encode(es[i].1, v))
  }

  lemma {:induction false} MapFlat(es: seq<(Value, Value)>, t: Type)
    requires t.TMap?
    ensures EncodeMap(es, t) == Flat(EncodedEntries(es, t.key, t.val))
    decreases |es|
  {
    if es != [] {
      MapFlat(es[1..], t);
      assert EncodedEntries(es, t.key, t.val)[1..] == EncodedEntries(es[1..], t.key, t.val);
    }
  }

  // A map is its size and its entries, each key before its value.
  lemma MapLayout(es: seq<(Value, Value)>, k: Type, v: Type)
    requires |es| < TWO32
    ensures var e := Encode(Map(es), TMap(k, v));
            |e| >= 4 && WordAt(e, 0) == |es| && e[4..] == Flat(EncodedEntries(es, k, v))
  {
    MapFlat(es, TMap(k, v));
    CountLayout(|es|, EncodeMap(es, TMap(k, v)));
  }
}
