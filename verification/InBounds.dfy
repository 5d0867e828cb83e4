/** When decoding stays inside its buffer.

    unmarshall::rawbytes compares _ind + n with the size in 32 bits.  The sum can wrap, and then
    the string is taken from behind the buffer while the object stays ok and its head moves back. */
module InBounds {
  import opened Basics
  import opened Marshall
  import opened Unmarshall

  // The number in the four bytes at i.
  function WordAt(b: seq<Byte>, i: nat): nat
    requires i + 4 <= |b|
  {
    var b0: nat, b1: nat, b2: nat, b3: nat := b[i], b[i + 1], b[i + 2], b[i + 3];
    0x100_0000 * b0 + 0x1_0000 * b1 + 0x100 * b2 + b3
  }

  // A string length at i that wraps the sum with the position behind it.
  predicate Wraps(b: seq<Byte>, i: nat) {
    i + 4 <= |b| && i + 4 + WordAt(b, i) >= TWO32
  }

  lemma WordRead(b: seq<Byte>, c: Cursor)
    requires c.ok && c.ind + 4 <= |b|
    ensures ReadInt(b, c, 4) == (WordAt(b, c.ind), c.(ind := c.ind + 4))
  {
    var b0: nat, b1: nat, b2: nat := b[c.ind], b[c.ind + 1], b[c.ind + 2];
    assert ReadInt(b, c, 1) == (b0, c.(ind := c.ind + 1));
    assert ReadInt(b, c, 2) == (256 * b0 + b1, c.(ind := c.ind + 2));
    assert ReadInt(b, c, 3) == (256 * (256 * b0 + b1) + b2, c.(ind := c.ind + 3));
  }

  lemma {:induction false} IntAdvances(b: seq<Byte>, c: Cursor, w: nat)
    ensures var c1 := ReadInt(b, c, w).1; c1.ind >= c.ind && c1.wild == c.wild && (c1.ok ==> c.ok)
    decreases w
  {
    if w > 0 {
      IntAdvances(b, c, w - 1);
    }
  }

  // ---- One string ----

  lemma RawBytesStray(b: seq<Byte>, c: Cursor, n: nat)
    requires c.ok && !c.wild && c.ind <= |b| < TWO31 && n < TWO32
    ensures var c1 := RawBytes(b, c, n).1;
            && (c1.wild <==> c.ind + n >= TWO32)
            && (c1.wild ==> c1.ok && c1.ind == c.ind + n - TWO32 < c.ind)
            && (!c1.wild ==> c1.ind >= c.ind)
  {
    if c.ind + n >= TWO32 {
      assert (c.ind + n) % TWO32 == c.ind + n - TWO32;
    } else {
      assert (c.ind + n) % TWO32 == c.ind + n;
    }
  }

  // Reading a string leaves the buffer if and only if its length wraps; the object then stays ok
  // and its head moves back.
  lemma StrayExact(b: seq<Byte>, c: Cursor)
    requires !c.wild && |b| < TWO31
    ensures var c1 := ReadStr(b, c).1;
            && (c1.wild <==> c.ok && Wraps(b, c.ind))
            && (c1.wild ==> c1.ok && c1.ind < c.ind + 4)
            && (!c1.wild ==> c1.ind >= c.ind)
  {
    IntAdvances(b, c, 4);
    if c.ok && c.ind + 4 <= |b| {
      WordRead(b, c);
      RawBytesStray(b, c.(ind := c.ind + 4), WordAt(b, c.ind));
    } else if c.ok {
      IntOkExactly(b, c, 4);
    }
  }

  // A message of 28 bytes does it, whatever its header.
  lemma StrayReached(header: seq<Byte>)
    requires |header| == HEADER
    ensures var b := header + [255, 255, 255, 228]; ReadStr(b, BODY_START).1 == Cursor(0, true, true)
  {
    var b := header + [255, 255, 255, 228];
    WordRead(b, BODY_START);
    assert WordAt(b, HEADER) == 0xFFFF_FFE4;
    RawBytesStray(b, Cursor(28, true, false), 0xFFFF_FFE4);
  }

  // ---- What a read gives on every buffer ----

  // A number takes its bytes as far as they go, and the object stays ok exactly if they all were there.
  lemma {:induction false} IntReadExact(b: seq<Byte>, c: Cursor, w: nat)
    requires c.ind <= |b|
    ensures var c1 := ReadInt(b, c, w).1;
            && c1.ind == (if c.ind + w <= |b| then c.ind + w else |b|)
            && (c1.ok <==> c.ok && c.ind + w <= |b|)
            && (c.ind == |b| ==> ReadInt(b, c, w).0 == 0)
    decreases w
  {
    if w > 0 {
      IntReadExact(b, c, w - 1);
    }
  }

  // A string that fits is read whole; one that is too long for the buffer leaves the head behind the
  // length and the object failed.
  lemma StrReadExact(b: seq<Byte>, c: Cursor)
    requires c.ok && c.ind + 4 <= |b| < TWO31
    ensures var n, (s, c1) := WordAt(b, c.ind), ReadStr(b, c);
            && (c.ind + 4 + n <= |b| ==> s == b[c.ind + 4..c.ind + 4 + n] && c1 == c.(ind := c.ind + 4 + n))
            && (|b| < c.ind + 4 + n < TWO32 ==> s == [] && c1 == c.(ind := c.ind + 4, ok := false))
  {
    WordRead(b, c);
    var n := WordAt(b, c.ind);
    if c.ind + 4 + n < TWO32 {
      assert (c.ind + 4 + n) % TWO32 == c.ind + 4 + n;
    }
  }

  // Every byte but 0 reads as true.
  lemma BoolReadExact(b: seq<Byte>, c: Cursor)
    requires c.ind < |b|
    ensures Decode(TBool, b, c) == (Bool(b[c.ind] != 0), c.(ind := c.ind + 1))
  {
  }

  // ---- Every type ----

  // No string length met on the way wraps.
  predicate Fits(t: Type, b: seq<Byte>, c: Cursor)
    decreases t, 1, 0
  {
    match t
    case TBool => true
    case TInt(_, _) => true
    case TStr => c.ok ==> !Wraps(b, c.ind)
    case TVec(_) => var (n, c1) := ReadInt(b, c, 4); FitsVec(t, n, b, c1)
    case TMap(_, _) => var (n, c1) := ReadInt(b, c, 4); FitsMap(t, n, b, c1)
  }

  predicate FitsVec(t: Type, n: nat, b: seq<Byte>, c: Cursor)
    requires t.TVec?
    decreases t, 0, n
  {
    n == 0 || (Fits(t.elem, b, c) && FitsVec(t, n - 1, b, Decode(t.elem, b, c).1))
  }

  predicate FitsMap(t: Type, n: nat, b: seq<Byte>, c: Cursor)
    requires t.TMap?
    decreases t, 0, n
  {
    n == 0 ||
    var c1 := Decode(t.key, b, c).1;
    Fits(t.key, b, c) && Fits(t.val, b, c1) && FitsMap(t, n - 1, b, Decode(t.val, b, c1).1)
  }

  predicate FitsAll(ts: seq<Type>, b: seq<Byte>, c: Cursor) {
    ts == [] || (Fits(ts[0], b, c) && FitsAll(ts[1..], b, Decode(ts[0], b, c).1))
  }

  // A read outside the buffer is never forgotten.
  lemma {:induction false} WildStays(t: Type, b: seq<Byte>, c: Cursor)
    requires c.wild
    ensures Decode(t, b, c).1.wild
    decreases t, 1, 0
  {
    match t
    case TBool =>
    case TInt(w, _) => IntAdvances(b, c, w);
    case TStr => IntAdvances(b, c, 4);
    case TVec(_) => IntAdvances(b, c, 4); VecWildStays(t, ReadInt(b, c, 4).0, b, ReadInt(b, c, 4).1);
    case TMap(_, _) => IntAdvances(b, c, 4); MapWildStays(t, ReadInt(b, c, 4).0, b, ReadInt(b, c, 4).1, []);
  }

  lemma {:induction false} VecWildStays(t: Type, n: nat, b: seq<Byte>, c: Cursor)
    requires t.TVec? && c.wild
    ensures DecodeVec(t, n, b, c).1.wild
    decreases t, 0, n
  {
    if n > 0 {
      WildStays(t.elem, b, c);
      VecWildStays(t, n - 1, b, Decode(t.elem, b, c).1);
    }
  }

  lemma {:induction false} MapWildStays(t: Type, n: nat, b: seq<Byte>, c: Cursor, es: seq<(Value, Value)>)
    requires t.TMap? && c.wild
    ensures DecodeMap(t, n, b, c, es).1.wild
    decreases t, 0, n
  {
    if n > 0 {
      var (k, c1) := Decode(t.key, b, c);
      var (v, c2) := Decode(t.val, b, c1);
      WildStays(t.key, b, c);
      WildStays(t.val, b, c1);
      MapWildStays(t, n - 1, b, c2, Put(es, k, v));
    }
  }

  lemma {:induction false} AllWildStays(ts: seq<Type>, b: seq<Byte>, c: Cursor)
    requires c.wild
    ensures DecodeAll(ts, b, c).1.wild
    decreases |ts|
  {
    if ts != [] {
      WildStays(ts[0], b, c);
      AllWildStays(ts[1..], b, Decode(ts[0], b, c).1);
    }
  }

  // Decoding leaves the buffer if and only if some string length met on the way wraps; until then
  // the head only moves forward.
  lemma {:induction false} FitsExact(t: Type, b: seq<Byte>, c: Cursor)
    requires !c.wild && |b| < TWO31
    ensures var c1 := Decode(t, b, c).1; (c1.wild <==> !Fits(t, b, c)) && (!c1.wild ==> c1.ind >= c.ind)
    decreases t, 1, 0
  {
    match t
    case TBool =>
    case TInt(w, _) => IntAdvances(b, c, w);
    case TStr => StrayExact(b, c);
    case TVec(_) => IntAdvances(b, c, 4); VecFitsExact(t, ReadInt(b, c, 4).0, b, ReadInt(b, c, 4).1);
    case TMap(_, _) => IntAdvances(b, c, 4); MapFitsExact(t, ReadInt(b, c, 4).0, b, ReadInt(b, c, 4).1, []);
  }

  lemma {:induction false} VecFitsExact(t: Type, n: nat, b: seq<Byte>, c: Cursor)
    requires t.TVec? && !c.wild && |b| < TWO31
    ensures var c1 := DecodeVec(t, n, b, c).1; (c1.wild <==> !FitsVec(t, n, b, c)) && (!c1.wild ==> c1.ind >= c.ind)
    decreases t, 0, n
  {
    if n > 0 {
      var c1 := Decode(t.elem, b, c).1;
      FitsExact(t.elem, b, c);
      if c1.wild {
        VecWildStays(t, n - 1, b, c1);
      } else {
        VecFitsExact(t, n - 1, b, c1);
      }
    }
  }

  lemma {:induction false} MapFitsExact(t: Type, n: nat, b: seq<Byte>, c: Cursor, es: seq<(Value, Value)>)
    requires t.TMap? && !c.wild && |b| < TWO31
    ensures var c1 := DecodeMap(t, n, b, c, es).1;
            (c1.wild <==> !FitsMap(t, n, b, c)) && (!c1.wild ==> c1.ind >= c.ind)
    decreases t, 0, n
  {
    if n > 0 {
      var (k, c1) := Decode(t.key, b, c);
      var (v, c2) := Decode(t.val, b, c1);
      var es' := Put(es, k, v);
      FitsExact(t.key, b, c);
      if c1.wild {
        WildStays(t.val, b, c1);
        MapWildStays(t, n - 1, b, c2, es');
      } else {
        FitsExact(t.val, b, c1);
        if c2.wild {
          MapWildStays(t, n - 1, b, c2, es');
        } else {
          MapFitsExact(t, n - 1, b, c2, es');
        }
      }
    }
  }

  // The same for the arguments of a call, read one after another.
  lemma {:induction false} AllFitsExact(ts: seq<Type>, b: seq<Byte>, c: Cursor)
    requires !c.wild && |b| < TWO31
    ensures var c1 := DecodeAll(ts, b, c).1; (c1.wild <==> !FitsAll(ts, b, c)) && (!c1.wild ==> c1.ind >= c.ind)
    decreases |ts|
  {
    if ts != [] {
      var c1 := Decode(ts[0], b, c).1;
      FitsExact(ts[0], b, c);
      if c1.wild {
        AllWildStays(ts[1..], b, c1);
      } else {
        AllFitsExact(ts[1..], b, c1);
      }
    }
  }

  // What marshall wrote always fits.
  lemma WrittenFits(header: seq<Byte>, vs: seq<Value>, ts: seq<Type>)
    requires |header| == HEADER && HaveTypes(vs, ts) && HEADER + |EncodeAll(vs, ts)| < TWO31
    ensures FitsAll(ts, header + EncodeAll(vs, ts), BODY_START)
  {
    var e := EncodeAll(vs, ts);
    assert (header + e)[HEADER..HEADER + |e|] == e;
    AllRoundTrip(vs, ts, header + e, BODY_START);
    AllFitsExact(ts, header + e, BODY_START);
  }

  // ---- Messages that no receiver can stray on ----

  ghost predicate NoWraps(b: seq<Byte>, lo: nat) {
    forall i: nat :: lo <= i ==> !Wraps(b, i)
  }

  lemma {:induction false} NoWrapsFits(t: Type, b: seq<Byte>, c: Cursor, lo: nat)
    requires NoWraps(b, lo) && lo <= c.ind && !c.wild && |b| < TWO31
    ensures Fits(t, b, c)
    decreases t, 1, 0
  {
    match t
    case TBool =>
    case TInt(_, _) =>
    case TStr =>
    case TVec(_) => IntAdvances(b, c, 4); NoWrapsVec(t, ReadInt(b, c, 4).0, b, ReadInt(b, c, 4).1, lo);
    case TMap(_, _) => IntAdvances(b, c, 4); NoWrapsMap(t, ReadInt(b, c, 4).0, b, ReadInt(b, c, 4).1, lo);
  }

  lemma {:induction false} NoWrapsVec(t: Type, n: nat, b: seq<Byte>, c: Cursor, lo: nat)
    requires t.TVec? && NoWraps(b, lo) && lo <= c.ind && !c.wild && |b| < TWO31
    ensures FitsVec(t, n, b, c)
    decreases t, 0, n
  {
    if n > 0 {
      NoWrapsFits(t.elem, b, c, lo);
      FitsExact(t.elem, b, c);
      NoWrapsVec(t, n - 1, b, Decode(t.elem, b, c).1, lo);
    }
  }

  lemma {:induction false} NoWrapsMap(t: Type, n: nat, b: seq<Byte>, c: Cursor, lo: nat)
    requires t.TMap? && NoWraps(b, lo) && lo <= c.ind && !c.wild && |b| < TWO31
    ensures FitsMap(t, n, b, c)
    decreases t, 0, n
  {
    if n > 0 {
      var c1 := Decode(t.key, b, c).1;
      NoWrapsFits(t.key, b, c, lo);
      FitsExact(t.key, b, c);
      NoWrapsFits(t.val, b, c1, lo);
      FitsExact(t.val, b, c1);
      NoWrapsMap(t, n - 1, b, Decode(t.val, b, c1).1, lo);
    }
  }

  lemma {:induction false} NoWrapsAll(ts: seq<Type>, b: seq<Byte>, c: Cursor, lo: nat)
    requires NoWraps(b, lo) && lo <= c.ind && !c.wild && |b| < TWO31
    ensures FitsAll(ts, b, c)
    decreases |ts|
  {
    if ts != [] {
      NoWrapsFits(ts[0], b, c, lo);
      FitsExact(ts[0], b, c);
      NoWrapsAll(ts[1..], b, Decode(ts[0], b, c).1, lo);
    }
  }

  // k bytes and then a string.
  function BytesThenStr(k: nat): seq<Type> {
    if k == 0 then [TStr] else [TInt(1, false)] + BytesThenStr(k - 1)
  }

  lemma {:induction false} SkipFits(k: nat, b: seq<Byte>, c: Cursor)
    requires c.ok && c.ind + k <= |b|
    ensures FitsAll(BytesThenStr(k), b, c) <==> !Wraps(b, c.ind + k)
    decreases k
  {
    var ts := BytesThenStr(k);
    if k == 0 {
      assert ts[1..] == [];
    } else {
      assert ts[1..] == BytesThenStr(k - 1);
      assert ReadInt(b, c, 0).1 == c;
      SkipFits(k - 1, b, c.(ind := c.ind + 1));
    }
  }

  // Whatever types a receiver reads, it stays inside a message if and only if no four bytes of the
  // body, taken for a string length, wrap.
  lemma StraysOnNoTypes(b: seq<Byte>)
    requires |b| < TWO31
    ensures (forall ts :: !DecodeAll(ts, b, BODY_START).1.wild) <==> NoWraps(b, HEADER)
  {
    forall ts ensures DecodeAll(ts, b, BODY_START).1.wild <==> !FitsAll(ts, b, BODY_START) {
      AllFitsExact(ts, b, BODY_START);
    }
    if NoWraps(b, HEADER) {
      forall ts ensures FitsAll(ts, b, BODY_START) {
        NoWrapsAll(ts, b, BODY_START, HEADER);
      }
    } else {
      var i: nat :| HEADER <= i && Wraps(b, i);
      SkipFits(i - HEADER, b, BODY_START);
      assert DecodeAll(BytesThenStr(i - HEADER), b, BODY_START).1.wild;
    }
  }
}
