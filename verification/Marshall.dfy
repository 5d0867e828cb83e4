/** The wire format of RPC arguments and results (rpc/marshall.h and the operators of rpc/rpc.cc). */
module Marshall {
  import opened Basics

  type Byte = b: nat | b < 256

  const HEADER: nat := 24          // RPC_HEADER_SZ: a size word and the five words of req_header
  const DEFAULT_RPC_SZ: nat := 1024

  // ---- Types and values ----

  // Integers take 1, 2, 4 or 8 bytes; the 8-byte one is unsigned long long.
  datatype Type = TBool | TInt(width: nat, signed: bool) | TStr | TVec(elem: Type) | TMap(key: Type, val: Type)

  // A map is given by its entries in iteration order.
  datatype Value = Bool(b: bool) | Int(x: int) | Str(s: seq<Byte>) | Vec(vs: seq<Value>) | Map(es: seq<(Value, Value)>)

  function Pow256(w: nat): (r: nat)
    ensures r >= 1
  {
    if w == 0 then 1 else 256 * Pow256(w - 1)
  }

  // Reading a w-byte unsigned number as the target type, and back.
  function FromBits(n: nat, w: nat, signed: bool): int {
    if signed && 2 * n >= Pow256(w) then n - Pow256(w) else n
  }

  function ToBits(x: int, w: nat): nat {
    x % Pow256(w)
  }

  ghost predicate HasType(v: Value, t: Type)
    decreases t
  {
    match t
    case TBool => v.Bool?
    case TInt(w, signed) =>
      v.Int? && (if signed then 0 <= 2 * v.x + Pow256(w) < 2 * Pow256(w) else 0 <= v.x < Pow256(w))
    case TStr => v.Str? && |v.s| < TWO32
    case TVec(e) => v.Vec? && |v.vs| < TWO32 && forall i :: 0 <= i < |v.vs| ==> HasType(v.vs[i], e)
    case TMap(k, e) =>
      && v.Map? && |v.es| < TWO32
      && (forall i :: 0 <= i < |v.es| ==> HasType(v.es[i].0, k) && HasType(v.es[i].1, e))
      && (forall i, j :: 0 <= i < j < |v.es| ==> v.es[i].0 != v.es[j].0)
  }

  // ---- Encoding ----

  // w bytes of x, most significant first.
  function BigEndian(x: nat, w: nat): (r: seq<Byte>)
    ensures |r| == w
  {
    if w == 0 then [] else BigEndian(x / 256, w - 1) + [x % 256]
  }

  function Encode(v: Value, t: Type): seq<Byte>
    decreases t, 1, 0
  {
    match (t, v)
    case (TBool, Bool(b)) => [if b then 1 else 0]
    case (TInt(w, _), Int(x)) => BigEndian(ToBits(x, w), w)
    case (TStr, Str(s)) => BigEndian(|s|, 4) + s
    case (TVec(_), Vec(vs)) => BigEndian(|vs|, 4) + EncodeVec(vs, t)
    case (TMap(_, _), Map(es)) => BigEndian(|es|, 4) + EncodeMap(es, t)
    case _ => []
  }

  function EncodeVec(vs: seq<Value>, t: Type): seq<Byte>
    requires t.TVec?
    decreases t, 0, |vs|
  {
    if vs == [] then [] else Encode(vs[0], t.elem) + EncodeVec(vs[1..], t)
  }

  function EncodeMap(es: seq<(Value, Value)>, t: Type): seq<Byte>
    requires t.TMap?
    decreases t, 0, |es|
  {
    if es == [] then [] else Encode(es[0].0, t.key) + Encode(es[0].1, t.val) + EncodeMap(es[1..], t)
  }

  // ---- Decoding ----

  // The reading position; wild records a read outside the buffer, past the 32-bit length check.
  datatype Cursor = Cursor(ind: nat, ok: bool, wild: bool)

  function RawByte(b: seq<Byte>, c: Cursor): (Byte, Cursor) {
    if c.ind >= |b| then (0, c.(ok := false)) else (b[c.ind], c.(ind := c.ind + 1))
  }

  function ReadInt(b: seq<Byte>, c: Cursor, w: nat): (nat, Cursor) {
    if w == 0 then (0, c)
    else
      var (hi, c1) := ReadInt(b, c, w - 1);
      var (lo, c2) := RawByte(b, c1);
      (256 * hi + lo, c2)
  }

  // unmarshall::rawbytes: the sum is taken in 32-bit unsigned arithmetic.
  function RawBytes(b: seq<Byte>, c: Cursor, n: nat): (seq<Byte>, Cursor) {
    var end := (c.ind + n) % TWO32;
    if end > |b| then ([], c.(ok := false))
    else if c.ind + n <= |b| then (b[c.ind..c.ind + n], c.(ind := end))
    else ([], c.(ind := end, wild := true))
  }

  function ReadStr(b: seq<Byte>, c: Cursor): (seq<Byte>, Cursor) {
    var (n, c1) := ReadInt(b, c, 4);
    if c1.ok then RawBytes(b, c1, n) else ([], c1)
  }

  function Decode(t: Type, b: seq<Byte>, c: Cursor): (Value, Cursor)
    decreases t, 1, 0
  {
    match t
    case TBool => var (n, c1) := RawByte(b, c); (Bool(n != 0), c1)
    case TInt(w, signed) => var (n, c1) := ReadInt(b, c, w); (Int(FromBits(n, w, signed)), c1)
    case TStr => var (s, c1) := ReadStr(b, c); (Str(s), c1)
    case TVec(_) =>
      var (n, c1) := ReadInt(b, c, 4);
      var (vs, c2) := DecodeVec(t, n, b, c1);
      (Vec(vs), c2)
    case TMap(_, _) =>
      var (n, c1) := ReadInt(b, c, 4);
      var (es, c2) := DecodeMap(t, n, b, c1, []);
      (Map(es), c2)
  }

  function DecodeVec(t: Type, n: nat, b: seq<Byte>, c: Cursor): (seq<Value>, Cursor)
    requires t.TVec?
    decreases t, 0, n
  {
    if n == 0 then ([], c)
    else
      var (v, c1) := Decode(t.elem, b, c);
      var (vs, c2) := DecodeVec(t, n - 1, b, c1);
      ([v] + vs, c2)
  }

  // d[a] = b on the entries so far.
  function Put(es: seq<(Value, Value)>, k: Value, v: Value): seq<(Value, Value)> {
    if es == [] then [(k, v)]
    else if es[0].0 == k then [(k, v)] + es[1..]
    else [es[0]] + Put(es[1..], k, v)
  }

  function DecodeMap(t: Type, n: nat, b: seq<Byte>, c: Cursor, es: seq<(Value, Value)>): (seq<(Value, Value)>, Cursor)
    requires t.TMap?
    decreases t, 0, n
  {
    if n == 0 then (es, c)
    else
      var (k, c1) := Decode(t.key, b, c);
      var (v, c2) := Decode(t.val, b, c1);
      DecodeMap(t, n - 1, b, c2, Put(es, k, v))
  }

  // ---- Several values one after another, as the arguments of a call ----

  ghost predicate HaveTypes(vs: seq<Value>, ts: seq<Type>) {
    |vs| == |ts| && forall i :: 0 <= i < |ts| ==> HasType(vs[i], ts[i])
  }

  function EncodeAll(vs: seq<Value>, ts: seq<Type>): seq<Byte>
    requires |vs| == |ts|
  {
    if vs == [] then [] else Encode(vs[0], ts[0]) + EncodeAll(vs[1..], ts[1..])
  }

  function DecodeAll(ts: seq<Type>, b: seq<Byte>, c: Cursor): (seq<Value>, Cursor) {
    if ts == [] then ([], c)
    else
      var (v, c1) := Decode(ts[0], b, c);
      var (vs, c2) := DecodeAll(ts[1..], b, c1);
      ([v] + vs, c2)
  }

  predicate OkDone(b: seq<Byte>, c: Cursor) {
    c.ok && c.ind == |b|
  }

  // ---- Round trip ----

  lemma {:induction false} IntRoundTrip(x: nat, w: nat, b: seq<Byte>, c: Cursor)
    requires x < Pow256(w) && c.ind + w <= |b| && b[c.ind..c.ind + w] == BigEndian(x, w)
    ensures ReadInt(b, c, w) == (x, c.(ind := c.ind + w))
    decreases w
  {
    if w > 0 {
      var e := BigEndian(x, w);
      assert b[c.ind..c.ind + w - 1] == e[..w - 1] == BigEndian(x / 256, w - 1);
      IntRoundTrip(x / 256, w - 1, b, c);
      assert b[c.ind + w - 1] == e[w - 1];
    }
  }

  lemma ModOf(x: int, m: int)
    requires 0 < m && 0 - m <= x < m
    ensures x % m == if x == 0 - m then 0 else if x < 0 then x + m else x
  {
    if x < 0 {
      assert x == m * (-1) + (x + m);
    }
  }

  lemma BitsRoundTrip(x: int, w: nat, signed: bool)
    requires HasType(Int(x), TInt(w, signed))
    ensures ToBits(x, w) < Pow256(w) && FromBits(ToBits(x, w), w, signed) == x
  {
    ModOf(x, Pow256(w));
  }

  // Here b holds e at the cursor.
  ghost predicate At(b: seq<Byte>, c: Cursor, e: seq<Byte>) {
    c.ok && |b| < TWO31 && c.ind + |e| <= |b| && b[c.ind..c.ind + |e|] == e
  }

  function Past(c: Cursor, e: seq<Byte>): Cursor {
    c.(ind := c.ind + |e|)
  }

  lemma AtSplit(b: seq<Byte>, c: Cursor, e: seq<Byte>, f: seq<Byte>)
    requires At(b, c, e + f)
    ensures At(b, c, e) && At(b, Past(c, e), f) && Past(c, e + f) == Past(Past(c, e), f)
  {
    var s := b[c.ind..c.ind + |e + f|];
    assert s[..|e|] == e && s[|e|..] == f;
    assert b[c.ind..c.ind + |e|] == s[..|e|];
    assert b[c.ind + |e|..c.ind + |e| + |f|] == s[|e|..];
  }

  lemma Pow256Four()
    ensures Pow256(4) == TWO32
  {
    assert Pow256(1) == 256 && Pow256(2) == 0x1_0000 && Pow256(3) == 0x100_0000;
  }

  lemma CountRoundTrip(n: nat, b: seq<Byte>, c: Cursor)
    requires n < TWO32 && At(b, c, BigEndian(n, 4))
    ensures ReadInt(b, c, 4) == (n, Past(c, BigEndian(n, 4)))
  {
    Pow256Four();
    IntRoundTrip(n, 4, b, c);
  }

  lemma CountThen(n: nat, e: seq<Byte>, b: seq<Byte>, c: Cursor)
    requires n < TWO32 && At(b, c, BigEndian(n, 4) + e)
    ensures var c1 := Past(c, BigEndian(n, 4));
            ReadInt(b, c, 4) == (n, c1) && At(b, c1, e) && Past(c, BigEndian(n, 4) + e) == Past(c1, e)
  {
    AtSplit(b, c, BigEndian(n, 4), e);
    CountRoundTrip(n, b, c);
  }

  lemma RawBytesAt(s: seq<Byte>, b: seq<Byte>, c: Cursor)
    requires At(b, c, s)
    ensures RawBytes(b, c, |s|) == (s, Past(c, s))
  {
    ModOf(c.ind + |s|, TWO32);
  }

  lemma StrRoundTrip(s: seq<Byte>, b: seq<Byte>, c: Cursor)
    requires |s| < TWO32 && At(b, c, BigEndian(|s|, 4) + s)
    ensures ReadStr(b, c) == (s, Past(c, BigEndian(|s|, 4) + s))
  {
    CountThen(|s|, s, b, c);
    RawBytesAt(s, b, Past(c, BigEndian(|s|, 4)));
  }

  lemma ScalarRoundTrip(t: Type, v: Value, b: seq<Byte>, c: Cursor)
    requires !t.TVec? && !t.TMap? && HasType(v, t) && At(b, c, Encode(v, t))
    ensures Decode(t, b, c) == (v, Past(c, Encode(v, t)))
  {
    match t
    case TBool => assert b[c.ind..c.ind + 1][0] == Encode(v, t)[0];
    case TInt(w, signed) =>
      BitsRoundTrip(v.x, w, signed);
      IntRoundTrip(ToBits(v.x, w), w, b, c);
    case TStr => StrRoundTrip(v.s, b, c);
  }

  lemma {:induction false} RoundTrip(t: Type, v: Value, b: seq<Byte>, c: Cursor)
    requires HasType(v, t) && At(b, c, Encode(v, t))
    ensures Decode(t, b, c) == (v, Past(c, Encode(v, t)))
    decreases t, 1, 0
  {
    if t.TVec? {
      CountThen(|v.vs|, EncodeVec(v.vs, t), b, c);
      VecRoundTrip(t, v.vs, b, Past(c, BigEndian(|v.vs|, 4)));
    } else if t.TMap? {
      CountThen(|v.es|, EncodeMap(v.es, t), b, c);
      assert [] + v.es == v.es;
      MapRoundTrip(t, [], v.es, b, Past(c, BigEndian(|v.es|, 4)));
    } else {
      ScalarRoundTrip(t, v, b, c);
    }
  }

  lemma {:induction false} VecRoundTrip(t: Type, vs: seq<Value>, b: seq<Byte>, c: Cursor)
    requires t.TVec? && (forall i :: 0 <= i < |vs| ==> HasType(vs[i], t.elem)) && At(b, c, EncodeVec(vs, t))
    ensures DecodeVec(t, |vs|, b, c) == (vs, Past(c, EncodeVec(vs, t)))
    decreases t, 0, |vs|
  {
    if vs != [] {
      var e := Encode(vs[0], t.elem);
      AtSplit(b, c, e, EncodeVec(vs[1..], t));
      RoundTrip(t.elem, vs[0], b, c);
      VecRoundTrip(t, vs[1..], b, Past(c, e));
      assert [vs[0]] + vs[1..] == vs;
    }
  }

  lemma {:induction false} PutNew(es: seq<(Value, Value)>, k: Value, v: Value)
    requires forall i :: 0 <= i < |es| ==> es[i].0 != k
    ensures Put(es, k, v) == es + [(k, v)]
    decreases |es|
  {
    if es != [] {
      PutNew(es[1..], k, v);
      assert es == [es[0]] + es[1..];
    }
  }

  // The value last put under a key.
  function ValueAt(es: seq<(Value, Value)>, k: Value): Option<Value> {
    if es == [] then None else if es[0].0 == k then Some(es[0].1) else ValueAt(es[1..], k)
  }

  // d[a] = b: the key has the new value, whether or not it was there, and other keys keep theirs.
  lemma {:induction false} PutAssigns(es: seq<(Value, Value)>, k: Value, v: Value, other: Value)
    ensures ValueAt(Put(es, k, v), k) == Some(v)
    ensures other != k ==> ValueAt(Put(es, k, v), other) == ValueAt(es, other)
    ensures |Put(es, k, v)| == |es| + if ValueAt(es, k).None? then 1 else 0
    decreases |es|
  {
    if es != [] && es[0].0 != k {
      PutAssigns(es[1..], k, v, other);
      assert ([es[0]] + Put(es[1..], k, v))[1..] == Put(es[1..], k, v);
    } else if es != [] {
      assert ([(k, v)] + es[1..])[1..] == es[1..];
    } else {
      assert [(k, v)][1..] == [];
    }
  }

  ghost predicate EntriesOk(es: seq<(Value, Value)>, t: Type)
    requires t.TMap?
  {
    forall i :: 0 <= i < |es| ==> HasType(es[i].0, t.key) && HasType(es[i].1, t.val)
  }

  ghost predicate DistinctKeys(es: seq<(Value, Value)>) {
    forall i, j :: 0 <= i < j < |es| ==> es[i].0 != es[j].0
  }

  lemma {:induction false} MapRoundTrip(t: Type, done: seq<(Value, Value)>, es: seq<(Value, Value)>, b: seq<Byte>,
                                        c: Cursor)
    requires t.TMap? && EntriesOk(es, t) && DistinctKeys(done + es) && At(b, c, EncodeMap(es, t))
    ensures DecodeMap(t, |es|, b, c, done) == (done + es, Past(c, EncodeMap(es, t)))
    decreases t, 0, |es|
  {
    if es == [] {
      assert done + es == done;
    } else {
      var (k, v) := es[0];
      var ek, ev, rest := Encode(k, t.key), Encode(v, t.val), EncodeMap(es[1..], t);
      AtSplit(b, c, ek + ev, rest);
      AtSplit(b, c, ek, ev);
      RoundTrip(t.key, k, b, c);
      RoundTrip(t.val, v, b, Past(c, ek));
      forall i | 0 <= i < |done| ensures done[i].0 != k {
        assert (done + es)[i].0 != (done + es)[|done|].0;
      }
      PutNew(done, k, v);
      assert done + [(k, v)] + es[1..] == done + es;
      MapRoundTrip(t, done + [(k, v)], es[1..], b, Past(Past(c, ek), ev));
    }
  }

  lemma {:induction false} AllRoundTrip(vs: seq<Value>, ts: seq<Type>, b: seq<Byte>, c: Cursor)
    requires HaveTypes(vs, ts) && At(b, c, EncodeAll(vs, ts))
    ensures DecodeAll(ts, b, c) == (vs, Past(c, EncodeAll(vs, ts)))
    decreases |vs|
  {
    if vs != [] {
      var e := Encode(vs[0], ts[0]);
      AtSplit(b, c, e, EncodeAll(vs[1..], ts[1..]));
      RoundTrip(ts[0], vs[0], b, c);
      AllRoundTrip(vs[1..], ts[1..], b, Past(c, e));
      assert [vs[0]] + vs[1..] == vs;
    }
  }

  // A message as the receiver sees it: any header, then the body, read from behind the header.
  const BODY_START := Cursor(HEADER, true, false)

  // Whatever the header holds, decoding the body gives back the values with okdone true.
  lemma BodyRoundTrip(header: seq<Byte>, vs: seq<Value>, ts: seq<Type>)
    requires |header| == HEADER && HaveTypes(vs, ts) && HEADER + |EncodeAll(vs, ts)| < TWO31
    ensures var b := header + EncodeAll(vs, ts);
            DecodeAll(ts, b, BODY_START).0 == vs && OkDone(b, DecodeAll(ts, b, BODY_START).1)
  {
    var e := EncodeAll(vs, ts);
    assert (header + e)[HEADER..HEADER + |e|] == e;
    AllRoundTrip(vs, ts, header + e, BODY_START);
  }

  // ---- Truncated bodies ----

  // Reading a shortened buffer either fails or does what reading the whole buffer does.
  lemma {:induction false} IntCut(b: seq<Byte>, k: nat, c: Cursor, w: nat)
    requires k <= |b| && ReadInt(b[..k], c, w).1.ok
    ensures c.ok && ReadInt(b, c, w) == ReadInt(b[..k], c, w)
    ensures c.ind <= k ==> ReadInt(b, c, w).1.ind <= k
    decreases w
  {
    if w > 0 {
      IntCut(b, k, c, w - 1);
    }
  }

  lemma RawBytesCut(b: seq<Byte>, k: nat, c: Cursor, n: nat)
    requires k <= |b| < TWO31 && RawBytes(b[..k], c, n).1.ok
    ensures c.ok && RawBytes(b, c, n) == RawBytes(b[..k], c, n) && RawBytes(b, c, n).1.ind <= k
  {
    if c.ind + n < TWO32 {
      assert (c.ind + n) % TWO32 == c.ind + n;
      assert b[..k][c.ind..c.ind + n] == b[c.ind..c.ind + n];
    }
  }

  lemma {:induction false} Cut(t: Type, b: seq<Byte>, k: nat, c: Cursor)
    requires k <= |b| < TWO31 && Decode(t, b[..k], c).1.ok
    ensures c.ok && Decode(t, b, c) == Decode(t, b[..k], c)
    ensures c.ind <= k ==> Decode(t, b, c).1.ind <= k
    decreases t, 1, 0
  {
    match t
    case TBool =>
    case TInt(w, _) => IntCut(b, k, c, w);
    case TStr =>
      var (n, c1) := ReadInt(b[..k], c, 4);
      if c1.ok { RawBytesCut(b, k, c1, n); }
      IntCut(b, k, c, 4);
    case TVec(_) =>
      var (n, c1) := ReadInt(b[..k], c, 4);
      VecCut(t, n, b, k, c1);
      IntCut(b, k, c, 4);
    case TMap(_, _) =>
      var (n, c1) := ReadInt(b[..k], c, 4);
      MapCut(t, n, b, k, c1, []);
      IntCut(b, k, c, 4);
  }

  lemma {:induction false} VecCut(t: Type, n: nat, b: seq<Byte>, k: nat, c: Cursor)
    requires t.TVec? && k <= |b| < TWO31 && DecodeVec(t, n, b[..k], c).1.ok
    ensures c.ok && DecodeVec(t, n, b, c) == DecodeVec(t, n, b[..k], c)
    ensures c.ind <= k ==> DecodeVec(t, n, b, c).1.ind <= k
    decreases t, 0, n
  {
    if n > 0 {
      var c1 := Decode(t.elem, b[..k], c).1;
      VecCut(t, n - 1, b, k, c1);
      Cut(t.elem, b, k, c);
    }
  }

  lemma {:induction false} MapCut(t: Type, n: nat, b: seq<Byte>, k: nat, c: Cursor, es: seq<(Value, Value)>)
    requires t.TMap? && k <= |b| < TWO31 && DecodeMap(t, n, b[..k], c, es).1.ok
    ensures c.ok && DecodeMap(t, n, b, c, es) == DecodeMap(t, n, b[..k], c, es)
    ensures c.ind <= k ==> DecodeMap(t, n, b, c, es).1.ind <= k
    decreases t, 0, n
  {
    if n > 0 {
      var (x, c1) := Decode(t.key, b[..k], c);
      var (y, c2) := Decode(t.val, b[..k], c1);
      MapCut(t, n - 1, b, k, c2, Put(es, x, y));
      Cut(t.val, b, k, c1);
      Cut(t.key, b, k, c);
    }
  }

  lemma {:induction false} AllCut(ts: seq<Type>, b: seq<Byte>, k: nat, c: Cursor)
    requires k <= |b| < TWO31 && DecodeAll(ts, b[..k], c).1.ok
    ensures c.ok && DecodeAll(ts, b, c) == DecodeAll(ts, b[..k], c)
    ensures c.ind <= k ==> DecodeAll(ts, b, c).1.ind <= k
    decreases |ts|
  {
    if ts != [] {
      var c1 := Decode(ts[0], b[..k], c).1;
      AllCut(ts[1..], b, k, c1);
      Cut(ts[0], b, k, c);
    }
  }

  // Every strict prefix of a body decodes to not-ok.
  lemma PrefixFails(header: seq<Byte>, vs: seq<Value>, ts: seq<Type>, k: nat)
    requires |header| == HEADER && HaveTypes(vs, ts) && HEADER + |EncodeAll(vs, ts)| < TWO31
    requires k < |EncodeAll(vs, ts)|
    ensures !DecodeAll(ts, header + EncodeAll(vs, ts)[..k], BODY_START).1.ok
  {
    var b := header + EncodeAll(vs, ts);
    assert header + EncodeAll(vs, ts)[..k] == b[..HEADER + k];
    BodyRoundTrip(header, vs, ts);
    if DecodeAll(ts, b[..HEADER + k], BODY_START).1.ok {
      AllCut(ts, b, HEADER + k, BODY_START);
    }
  }

  // ---- Headers ----

  datatype ReqHeader = ReqHeader(xid: int, proc: int, cltNonce: nat, srvNonce: nat, xidRep: int)
  datatype ReplyHeader = ReplyHeader(xid: int, ret: int)

  // The four bytes that pack(int) writes.
  function Word(x: int): (r: seq<Byte>)
    ensures |r| == 4
  {
    BigEndian(ToBits(x, 4), 4)
  }

  function ReqBytes(h: ReqHeader): (r: seq<Byte>)
    ensures |r| == 20
  {
    Word(h.xid) + Word(h.proc) + Word(h.cltNonce) + Word(h.srvNonce) + Word(h.xidRep)
  }

  function ReplyBytes(h: ReplyHeader): (r: seq<Byte>)
    ensures |r| == 8
  {
    Word(h.xid) + Word(h.ret)
  }

  // ---- Steps of the writers, on values ----

  lemma SliceJoins(b: seq<Byte>, i: nat, j: nat, k: nat)
    requires i <= j <= k <= |b|
    ensures b[i..j] + b[j..k] == b[i..k]
  {
  }

  lemma PrefixSlices(c: seq<Byte>, b: seq<Byte>, i: nat, j: nat)
    requires i <= j <= |b| <= |c| && c[..|b|] == b
    ensures c[i..j] == b[i..j]
  {
    forall k | 0 <= k < j - i ensures c[i..j][k] == b[i..j][k] {
      assert c[i + k] == c[..|b|][i + k];
    }
  }

  lemma FourBytes(b: seq<Byte>, i: nat, w: seq<Byte>)
    requires |w| == 4 && i + 4 <= |b|
    ensures b[i := w[0]][i + 1 := w[1]][i + 2 := w[2]][i + 3 := w[3]] == b[..i] + w + b[i + 4..]
  {
  }

  lemma VecStep(body: seq<Byte>, vs: seq<Value>, t: Type, i: nat)
    requires t.TVec? && i < |vs|
    ensures body + EncodeVec(vs[i..], t) == body + Encode(vs[i], t.elem) + EncodeVec(vs[i + 1..], t)
  {
    assert vs[i..][1..] == vs[i + 1..];
  }

  lemma MapStep(body: seq<Byte>, es: seq<(Value, Value)>, t: Type, i: nat)
    requires t.TMap? && i < |es|
    ensures body + EncodeMap(es[i..], t) ==
            body + (Encode(es[i].0, t.key) + Encode(es[i].1, t.val)) + EncodeMap(es[i + 1..], t)
  {
    assert es[i..][1..] == es[i + 1..];
  }

  class Marshaller {
    var buf: array<Byte>
    var ind: nat

    ghost predicate Valid()
      reads this
    {
      buf.Length >= DEFAULT_RPC_SZ && HEADER <= ind <= buf.Length
    }

    // The capacity is at most twice what it holds.
    ghost predicate Slim()
      reads this
    {
      buf.Length <= DEFAULT_RPC_SZ || buf.Length <= 2 * ind
    }

    ghost function Head(): seq<Byte>
      requires Valid()
      reads this, buf
    {
      buf[..HEADER]
    }

    ghost function Body(): seq<Byte>
      requires Valid()
      reads this, buf
    {
      buf[HEADER..ind]
    }

    constructor ()
      ensures Valid() && Slim() && fresh(buf) && Body() == []
    {
      buf := new Byte[DEFAULT_RPC_SZ](_ => 0);
      ind := HEADER;
    }

    // realloc: a larger buffer with the same contents.
    method Grow(capacity: nat)
      requires capacity >= buf.Length
      modifies this`buf
      ensures fresh(buf) && buf.Length == capacity && buf[..old(buf.Length)] == old(buf[..])
    {
      var b := new Byte[capacity](_ => 0);
      forall i | 0 <= i < buf.Length {
        b[i] := buf[i];
      }
      buf := b;
    }

    // rawbyte at any position inside or at the end of the buffer; the write is always inside it.
    method RawByte(x: Byte)
      requires buf.Length >= DEFAULT_RPC_SZ && ind <= buf.Length
      modifies this, buf
      ensures ind == old(ind) + 1 <= buf.Length && buf.Length >= old(buf.Length) && (old(Slim()) ==> Slim())
      ensures if old(ind) < old(buf.Length) then buf == old(buf) else fresh(buf)
      ensures buf[..old(buf.Length)] == if old(ind) < old(buf.Length) then old(buf[..])[old(ind) := x] else old(buf[..])
      ensures buf[old(ind)] == x
    {
      if ind >= buf.Length {
        Grow(2 * buf.Length);
      }
      buf[ind] := x;
      ind := ind + 1;
    }

    method PutByte(x: Byte)
      requires Valid()
      modifies this, buf
      ensures Valid() && (buf == old(buf) || fresh(buf)) && (old(Slim()) ==> Slim())
      ensures Head() == old(Head()) && Body() == old(Body()) + [x]
    {
      ghost var b := buf[..];
      RawByte(x);
      ghost var c, i := buf[..], ind - 1;
      ghost var b' := c[..|b|];
      assert b'[..i] == b[..i];
      PrefixSlices(c, b', 0, HEADER);
      PrefixSlices(c, b', HEADER, i);
      assert b'[0..HEADER] == b[0..HEADER] && b'[HEADER..i] == b[HEADER..i] by {
        assert b'[0..HEADER] == b'[..i][0..HEADER] && b'[HEADER..i] == b'[..i][HEADER..];
      }
      SliceJoins(c, HEADER, i, ind);
      assert c[i..ind] == [x];
      assert buf[0..HEADER] == c[0..HEADER] && buf[HEADER..ind] == c[HEADER..ind];
    }

    // The growth rule of rawbytes always makes room for n more bytes.
    method MakeRoom(n: nat)
      requires Valid()
      modifies this
      ensures Valid() && (buf == old(buf) || fresh(buf)) && ind == old(ind) && ind + n <= buf.Length
      ensures old(Slim()) ==> buf.Length <= DEFAULT_RPC_SZ || buf.Length <= 2 * (ind + n)
      ensures Head() == old(Head()) && Body() == old(Body())
    {
      ghost var b := buf[..];
      if ind + n > buf.Length {
        Grow(if buf.Length > n then 2 * buf.Length else buf.Length + n);
        ghost var c := buf[..];
        assert c[..|b|] == b;
        PrefixSlices(c, b, 0, HEADER);
        PrefixSlices(c, b, HEADER, ind);
        assert buf[0..HEADER] == c[0..HEADER] && buf[HEADER..ind] == c[HEADER..ind];
      }
    }

    // memcpy behind the head.
    method CopyIn(p: seq<Byte>)
      requires ind + |p| <= buf.Length
      modifies buf
      ensures buf[..ind] == old(buf[..ind]) && buf[ind..ind + |p|] == p
    {
      forall i | 0 <= i < |p| {
        buf[ind + i] := p[i];
      }
    }

    // rawbytes
    method PutBytes(p: seq<Byte>)
      requires Valid()
      modifies this, buf
      ensures Valid() && (buf == old(buf) || fresh(buf)) && (old(Slim()) ==> Slim())
      ensures Head() == old(Head()) && Body() == old(Body()) + p
    {
      var n := |p|;
      MakeRoom(n);
      ghost var front := buf[..ind];
      assert front[..HEADER] == Head() && front[HEADER..] == Body();
      CopyIn(p);
      ghost var b := buf[..];
      assert b[..ind] == front && b[ind..ind + n] == p;
      SliceJoins(b, HEADER, ind, ind + n);
      assert b[..HEADER] == front[..HEADER] && b[HEADER..ind] == front[HEADER..];
      ind := ind + n;
      assert Head() == b[..HEADER] && Body() == b[HEADER..ind];
    }

    // A w-byte integer, byte by byte from the most significant.
    method PutInt(x: nat, w: nat)
      requires Valid()
      modifies this, buf
      ensures Valid() && (buf == old(buf) || fresh(buf)) && (old(Slim()) ==> Slim())
      ensures Head() == old(Head()) && Body() == old(Body()) + BigEndian(x, w)
      decreases w
    {
      if w > 0 {
        PutInt(x / 256, w - 1);
        PutByte(x % 256);
      }
    }

    // operator<< for strings.
    method WriteStr(s: seq<Byte>)
      requires Valid()
      modifies this, buf
      ensures Valid() && (buf == old(buf) || fresh(buf)) && (old(Slim()) ==> Slim())
      ensures Head() == old(Head()) && Body() == old(Body()) + (BigEndian(|s|, 4) + s)
    {
      PutInt(|s|, 4);
      PutBytes(s);
      assert old(Body()) + BigEndian(|s|, 4) + s == old(Body()) + (BigEndian(|s|, 4) + s);
    }

    // operator<< for every type.
    method Write(v: Value, t: Type)
      requires Valid()
      modifies this, buf
      ensures Valid() && (buf == old(buf) || fresh(buf)) && (old(Slim()) ==> Slim())
      ensures Head() == old(Head()) && Body() == old(Body()) + Encode(v, t)
      decreases t, 1
    {
      match (t, v) {
        case (TBool, Bool(b)) => PutByte(if b then 1 else 0);
        case (TInt(w, _), Int(x)) => PutInt(ToBits(x, w), w);
        case (TStr, Str(s)) => WriteStr(s);
        case (TVec(_), Vec(vs)) => WriteVec(vs, t);
        case (TMap(_, _), Map(es)) => WriteMap(es, t);
        case _ =>
      }
    }

    method WriteVec(vs: seq<Value>, t: Type)
      requires Valid() && t.TVec?
      modifies this, buf
      ensures Valid() && (buf == old(buf) || fresh(buf)) && (old(Slim()) ==> Slim())
      ensures Head() == old(Head()) && Body() == old(Body()) + (BigEndian(|vs|, 4) + EncodeVec(vs, t))
      decreases t, 0
    {
      ghost var start := Body();
      ghost var count := BigEndian(|vs|, 4);
      PutInt(|vs|, 4);
      ghost var body := start + count;
      var i := 0;
      while i < |vs|
        invariant 0 <= i <= |vs| && Valid() && (buf == old(buf) || fresh(buf)) && Head() == old(Head())
        invariant old(Slim()) ==> Slim()
        invariant Body() + EncodeVec(vs[i..], t) == body + EncodeVec(vs, t)
      {
        ghost var here := Body();
        VecStep(here, vs, t, i);
        Write(vs[i], t.elem);
        assert Body() == here + Encode(vs[i], t.elem);
        i := i + 1;
      }
      assert body + EncodeVec(vs, t) == start + (count + EncodeVec(vs, t));
    }

    // One entry of a map.
    method WriteEntry(e: (Value, Value), t: Type)
      requires Valid() && t.TMap?
      modifies this, buf
      ensures Valid() && (buf == old(buf) || fresh(buf)) && (old(Slim()) ==> Slim())
      ensures Head() == old(Head()) && Body() == old(Body()) + (Encode(e.0, t.key) + Encode(e.1, t.val))
      decreases t, 0, 0
    {
      Write(e.0, t.key);
      Write(e.1, t.val);
      JoinAssoc(old(Body()), Encode(e.0, t.key), Encode(e.1, t.val));
    }

    method WriteMap(es: seq<(Value, Value)>, t: Type)
      requires Valid() && t.TMap?
      modifies this, buf
      ensures Valid() && (buf == old(buf) || fresh(buf)) && (old(Slim()) ==> Slim())
      ensures Head() == old(Head()) && Body() == old(Body()) + (BigEndian(|es|, 4) + EncodeMap(es, t))
      decreases t, 0, 1
    {
      ghost var start := Body();
      ghost var count := BigEndian(|es|, 4);
      PutInt(|es|, 4);
      ghost var body := start + count;
      var i := 0;
      while i < |es|
        invariant 0 <= i <= |es| && Valid() && (buf == old(buf) || fresh(buf)) && Head() == old(Head())
        invariant old(Slim()) ==> Slim()
        invariant Body() + EncodeMap(es[i..], t) == body + EncodeMap(es, t)
      {
        ghost var here := Body();
        MapStep(here, es, t, i);
        WriteEntry(es[i], t);
        assert Body() == here + (Encode(es[i].0, t.key) + Encode(es[i].1, t.val));
        i := i + 1;
      }
      assert body + EncodeMap(es, t) == start + (count + EncodeMap(es, t));
    }

    // rawbyte inside the buffer, as a header is packed.
    method Poke(x: Byte)
      requires buf.Length >= DEFAULT_RPC_SZ && ind < buf.Length
      modifies this, buf
      ensures buf == old(buf) && ind == old(ind) + 1 && buf[..] == old(buf[..])[old(ind) := x]
    {
      RawByte(x);
      assert buf[..] == buf[..old(buf.Length)];
    }

    // pack(int) at the write head, which stands inside the header.
    method Pack(x: int)
      requires buf.Length >= DEFAULT_RPC_SZ && ind + 4 <= HEADER
      modifies this, buf
      ensures buf == old(buf) && ind == old(ind) + 4
      ensures buf[..ind] == old(buf[..ind]) + Word(x)
      ensures buf[ind..HEADER] == old(buf[ind + 4..HEADER]) && buf[HEADER..] == old(buf[HEADER..])
    {
      var w := Word(x);
      ghost var b: seq<Byte> := buf[..];
      ghost var i := ind;
      Poke(w[0]);
      Poke(w[1]);
      Poke(w[2]);
      Poke(w[3]);
      FourBytes(b, i, w);
      assert buf[..] == b[..i] + w + b[i + 4..];
    }

    // Packing a header, before or after the arguments, leaves the body and the size word alone.
    method PackReqHeader(h: ReqHeader)
      requires Valid()
      modifies this, buf
      ensures Valid() && buf == old(buf) && ind == old(ind) && Body() == old(Body())
      ensures Head() == old(Head()[..4]) + ReqBytes(h)
    {
      var saved := ind;
      ghost var size := buf[..4];
      assert size == Head()[..4];
      ind := 4;
      Pack(h.xid);
      Pack(h.proc);
      Pack(h.cltNonce);
      Pack(h.srvNonce);
      Pack(h.xidRep);
      HeaderJoins(size, h);
      ind := saved;
      assert buf[HEADER..ind] == buf[HEADER..][..ind - HEADER];
    }

    static lemma HeaderJoins(size: seq<Byte>, h: ReqHeader)
      ensures size + Word(h.xid) + Word(h.proc) + Word(h.cltNonce) + Word(h.srvNonce) + Word(h.xidRep) ==
              size + ReqBytes(h)
    {
    }

    method PackReplyHeader(h: ReplyHeader)
      requires Valid()
      modifies this, buf
      ensures Valid() && buf == old(buf) && ind == old(ind) && Body() == old(Body())
      ensures Head() == old(Head()[..4]) + ReplyBytes(h) + old(Head()[12..])
    {
      var saved := ind;
      ind := 4;
      Pack(h.xid);
      Pack(h.ret);
      assert buf[..HEADER] == buf[..ind] + buf[ind..HEADER];
      ind := saved;
      assert buf[HEADER..ind] == buf[HEADER..][..ind - HEADER];
    }
  }
}
