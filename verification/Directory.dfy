/** Directories as text: one "name:inum" line per entry, blank lines where entries were removed
    (dir_find, ent_read, readir and the edits of yfs_client.cc). */
module Directory {
  import opened Basics

  // ---- Decimal numbers, as stream insertion and extraction treat them ----

  predicate IsDigit(c: char) {
    '0' <= c <= '9'
  }

  function Digit(d: nat): (c: char)
    requires d < 10
    ensures IsDigit(c) && DigitValue(c) == d
  {
    "0123456789"[d]
  }

  function DigitValue(c: char): (d: nat)
    requires IsDigit(c)
    ensures d < 10
  {
    c as int - '0' as int
  }

  function Decimal(n: nat): (s: string)
    ensures s != ""
  {
    if n < 10 then [Digit(n)] else Decimal(n / 10) + [Digit(n % 10)]
  }

  predicate AllDigits(s: string) {
    forall i :: 0 <= i < |s| ==> IsDigit(s[i])
  }

  function ValueOf(s: string): nat
    requires AllDigits(s)
  {
    if s == "" then 0 else 10 * ValueOf(s[..|s| - 1]) + DigitValue(s[|s| - 1])
  }

  predicate IsSpace(c: char) {
    c == ' ' || c == '\t' || c == '\n' || c == '\r' || c as int == 11 || c as int == 12
  }

  function SkipSpace(s: string): string {
    if s != "" && IsSpace(s[0]) then SkipSpace(s[1..]) else s
  }

  // The longest prefix of digits.
  function Digits(s: string): (r: string)
    ensures AllDigits(r) && r <= s
  {
    if s != "" && IsDigit(s[0]) then [s[0]] + Digits(s[1..]) else ""
  }

  // istream >> unsigned long long: leading space, an optional sign, digits; what follows is ignored.
  function ParseNumber(s: string): Option<nat> {
    var s1 := SkipSpace(s);
    var signed := s1 != "" && (s1[0] == '-' || s1[0] == '+');
    var d := Digits(if signed then s1[1..] else s1);
    if d == "" || ValueOf(d) >= TWO64 then None
    else if signed && s1[0] == '-' then Some((TWO64 - ValueOf(d)) % TWO64)
    else Some(ValueOf(d))
  }

  lemma {:induction false} DecimalValue(n: nat)
    ensures AllDigits(Decimal(n)) && ValueOf(Decimal(n)) == n
  {
    var s := Decimal(n);
    if n < 10 {
      assert s[..|s| - 1] == "";
    } else {
      DecimalValue(n / 10);
      assert s[..|s| - 1] == Decimal(n / 10);
    }
  }

  lemma {:induction false} DigitsThen(s: string, x: string)
    requires AllDigits(s) && (x == "" || !IsDigit(x[0]))
    ensures Digits(s + x) == s
    decreases |s|
  {
    if s == "" {
      assert s + x == x;
    } else {
      DigitsThen(s[1..], x);
      assert (s + x)[1..] == s[1..] + x;
    }
  }

  lemma DigitsValue(n: nat, x: string)
    requires x == "" || !IsDigit(x[0])
    ensures var d := Decimal(n);
            Digits(d + x) == d && d != "" && ValueOf(d) == n && IsDigit((d + x)[0])
  {
    DecimalValue(n);
    DigitsThen(Decimal(n), x);
  }

  lemma PlainParses(s: string, d: string, n: nat)
    requires s != "" && IsDigit(s[0]) && Digits(s) == d && d != "" && ValueOf(d) == n
    ensures ParseNumber(s) == if n < TWO64 then Some(n) else None
  {
    assert SkipSpace(s) == s;
  }

  // A printed number and whatever follows it.
  lemma UnsignedReads(n: nat, x: string, s: string)
    requires (x == "" || !IsDigit(x[0])) && s == Decimal(n) + x
    ensures ParseNumber(s) == if n < TWO64 then Some(n) else None
  {
    DigitsValue(n, x);
    PlainParses(s, Decimal(n), n);
  }

  // Printing an inum and reading it back.
  lemma NumberRoundTrip(n: nat)
    requires n < TWO64
    ensures ParseNumber(Decimal(n)) == Some(n)
  {
    var s := Decimal(n);
    assert s == s + "";
    UnsignedReads(n, "", s);
  }

  // Leading space is skipped.
  lemma SpaceSkipped(c: char, s: string)
    requires IsSpace(c)
    ensures ParseNumber([c] + s) == ParseNumber(s)
  {
    assert ([c] + s)[1..] == s;
  }

  lemma SignParses(c: char, rest: string, d: string, n: nat)
    requires c == '-' || c == '+'
    requires Digits(rest) == d && d != "" && ValueOf(d) == n
    ensures ParseNumber([c] + rest) ==
            if n >= TWO64 then None else if c == '-' then Some((TWO64 - n) % TWO64) else Some(n)
  {
    var s := [c] + rest;
    assert s[0] == c && s[1..] == rest;
    assert SkipSpace(s) == s;
  }

  // A number with a sign and whatever follows it: a minus counts down from 2^64, too large a number
  // is no number.
  lemma SignedReads(n: nat, c: char, x: string, rest: string)
    requires (c == '-' || c == '+') && (x == "" || !IsDigit(x[0])) && rest == Decimal(n) + x
    ensures ParseNumber([c] + rest) ==
            if n >= TWO64 then None else if c == '-' then Some((TWO64 - n) % TWO64) else Some(n)
  {
    DigitsValue(n, x);
    SignParses(c, rest, Decimal(n), n);
  }

  // The characters that count as space.
  lemma SpacesAre(c: char)
    ensures IsSpace(c) <==> c == ' ' || 9 <= c as int <= 13
  {
  }

  // ---- Lines and entries ----

  datatype Dirent = Dirent(name: string, inum: nat)

  // Position of the first c from pos on, or the end.
  function IndexOf(t: string, c: char, pos: nat): (r: nat)
    requires pos <= |t|
    ensures pos <= r <= |t| && (r < |t| ==> t[r] == c) && forall i :: pos <= i < r ==> t[i] != c
    decreases |t| - pos
  {
    if pos == |t| || t[pos] == c then pos else IndexOf(t, c, pos + 1)
  }

  function EntRead(line: string): Option<Dirent> {
    var p := IndexOf(line, ':', 0);
    if p == |line| then None
    else
      match ParseNumber(line[p + 1..])
      case None => None
      case Some(n) => Some(Dirent(line[..p], n))
  }

  // The offset computed from tellg() is meaningful when the line ends in a newline; at the end of
  // an unterminated text tellg() gives -1.
  datatype Found = NotFound | Found(inum: nat, off: int, len: nat)

  // The line that getline reads at pos, and where the next one starts.
  datatype LineAt = LineAt(text: string, next: nat, tellg: int)

  function GetLine(t: string, pos: nat): (l: LineAt)
    requires pos < |t|
    ensures pos < l.next <= |t| && |l.text| <= l.next - pos
  {
    var e := IndexOf(t, '\n', pos);
    if e < |t| then LineAt(t[pos..e], e + 1, e + 1) else LineAt(t[pos..e], e, -1)
  }

  function FindFrom(t: string, pos: nat, name: string): Found
    requires pos <= |t|
    decreases |t| - pos
  {
    if pos == |t| then NotFound
    else
      var l := GetLine(t, pos);
      if l.text == "" then FindFrom(t, l.next, name)
      else
        var ent := EntRead(l.text);
        if ent.None? then NotFound
        else if ent.value.name == name then Found(ent.value.inum, l.tellg - |l.text| - 1, |l.text|)
        else FindFrom(t, l.next, name)
  }

  function DirFind(t: string, name: string): Found {
    FindFrom(t, 0, name)
  }

  // A line without a readable entry ends the listing.
  function ReadFrom(t: string, pos: nat): seq<Dirent>
    requires pos <= |t|
    decreases |t| - pos
  {
    if pos == |t| then []
    else
      var l := GetLine(t, pos);
      if l.text == "" then ReadFrom(t, l.next)
      else
        var ent := EntRead(l.text);
        if ent.None? then [] else [ent.value] + ReadFrom(t, l.next)
  }

  function ReadDir(t: string): seq<Dirent> {
    ReadFrom(t, 0)
  }

  // dir_find's loop over getline.
  method DirFindLoop(t: string, name: string) returns (r: Found)
    ensures r == DirFind(t, name)
  {
    var pos := 0;
    while pos < |t|
      invariant 0 <= pos <= |t|
      invariant FindFrom(t, pos, name) == DirFind(t, name)
    {
      var l := GetLine(t, pos);
      if |l.text| != 0 {
        var ent := EntRead(l.text);
        if ent.None? {
          return NotFound;
        }
        if ent.value.name == name {
          return Found(ent.value.inum, l.tellg - |l.text| - 1, |l.text|);
        }
      }
      pos := l.next;
    }
    r := NotFound;
  }

  method ReadDirLoop(t: string) returns (r: seq<Dirent>)
    ensures r == ReadDir(t)
  {
    r := [];
    var pos := 0;
    while pos < |t|
      invariant 0 <= pos <= |t|
      invariant r + ReadFrom(t, pos) == ReadDir(t)
    {
      var l := GetLine(t, pos);
      if |l.text| != 0 {
        var ent := EntRead(l.text);
        if ent.None? {
          return;
        }
        r := r + [ent.value];
      }
      pos := l.next;
    }
  }

  // ---- Edits ----

  function EntryText(d: Dirent): string {
    d.name + ":" + Decimal(d.inum)
  }

  function AddEntry(t: string, d: Dirent): string {
    t + (EntryText(d) + "\n")
  }

  // buf.erase(off, len)
  function Erase(t: string, off: nat, len: nat): string
    requires off + len <= |t|
  {
    t[..off] + t[off + len..]
  }

  // ---- Directory texts as lists of lines ----

  predicate GoodName(name: string) {
    ':' !in name && '\n' !in name
  }

  predicate GoodEntry(d: Dirent) {
    GoodName(d.name) && d.inum < TWO64
  }

  // A line is an entry, or blank where one was removed.
  type Line = Option<Dirent>

  predicate GoodLines(ls: seq<Line>) {
    forall i :: 0 <= i < |ls| ==> ls[i].Some? ==> GoodEntry(ls[i].value)
  }

  function LineText(l: Line): string {
    if l.Some? then EntryText(l.value) else ""
  }

  function Render(ls: seq<Line>): string {
    if ls == [] then "" else LineText(ls[0]) + "\n" + Render(ls[1..])
  }

  function Live(ls: seq<Line>): seq<Dirent> {
    if ls == [] then [] else (if ls[0].Some? then [ls[0].value] else []) + Live(ls[1..])
  }

  // The first line that holds an entry of that name, or the number of lines.
  function LineOf(ls: seq<Line>, name: string): (k: nat)
    ensures k <= |ls|
    ensures k < |ls| ==> ls[k].Some? && ls[k].value.name == name
    ensures forall i :: 0 <= i < k ==> ls[i].Some? ==> ls[i].value.name != name
  {
    if ls == [] || (ls[0].Some? && ls[0].value.name == name) then 0 else 1 + LineOf(ls[1..], name)
  }

  // ---- Reading a rendered text gives its lines back ----

  lemma IndexOfIs(t: string, c: char, pos: nat, e: nat)
    requires pos <= e < |t| && t[e] == c && forall i :: pos <= i < e ==> t[i] != c
    ensures IndexOf(t, c, pos) == e
  {
  }

  lemma ColonAt(name: string, digits: string)
    requires GoodName(name)
    ensures var line := name + ":" + digits;
            IndexOf(line, ':', 0) == |name| && line[..|name|] == name && line[|name| + 1..] == digits
  {
    var line := name + ":" + digits;
    assert line[|name|] == ':';
    forall i | 0 <= i < |name| ensures line[i] != ':' {
      assert line[i] == name[i];
    }
    IndexOfIs(line, ':', 0, |name|);
  }

  lemma NoNewline(name: string, digits: string)
    requires '\n' !in name && '\n' !in digits
    ensures '\n' !in name + ":" + digits
  {
  }

  lemma EntRoundTrip(d: Dirent)
    requires GoodEntry(d)
    ensures EntRead(EntryText(d)) == Some(d) && '\n' !in EntryText(d) && EntryText(d) != ""
  {
    var digits := Decimal(d.inum);
    NumberRoundTrip(d.inum);
    DecimalValue(d.inum);
    assert '\n' !in digits;
    ColonAt(d.name, digits);
    NoNewline(d.name, digits);
  }

  lemma GetLineAt(pre: string, line: string, post: string)
    requires '\n' !in line
    ensures var t := pre + (line + "\n" + post);
            var next := |pre| + |line| + 1;
            GetLine(t, |pre|) == LineAt(line, next, next)
  {
    var t := pre + (line + "\n" + post);
    var e := |pre| + |line|;
    assert t[|pre|..e] == line;
    assert t[e] == '\n';
    forall i | |pre| <= i < e ensures t[i] != '\n' {
      assert t[i] == line[i - |pre|];
    }
    IndexOfIs(t, '\n', |pre|, e);
  }

  lemma LineTextPlain(l: Line)
    requires l.Some? ==> GoodEntry(l.value)
    ensures '\n' !in LineText(l) && (LineText(l) == "" <==> l.None?)
    ensures l.Some? ==> EntRead(LineText(l)) == l
  {
    if l.Some? { EntRoundTrip(l.value); }
  }

  // Where dir_find ends up on a rendered text.
  function Located(ls: seq<Line>, name: string, off: nat): Found {
    var k := LineOf(ls, name);
    if k == |ls| then NotFound else Found(ls[k].value.inum, off + |Render(ls[..k])|, |LineText(ls[k])|)
  }

  lemma LocatedStep(ls: seq<Line>, name: string, off: nat)
    requires ls != [] && !(ls[0].Some? && ls[0].value.name == name)
    ensures Located(ls, name, off) == Located(ls[1..], name, off + |LineText(ls[0])| + 1)
  {
    var k := LineOf(ls[1..], name);
    assert LineOf(ls, name) == k + 1;
    if k < |ls| - 1 {
      assert ls[..k + 1][0] == ls[0] && ls[..k + 1][1..] == ls[1..][..k];
    }
  }

  // The first line of a rendered text, read at its place, and the text with that line behind us.
  lemma HeadRendered(pre: string, ls: seq<Line>) returns (pre': string)
    requires GoodLines(ls) && ls != []
    ensures |pre| < |pre + Render(ls)|
    ensures pre + Render(ls) == pre' + Render(ls[1..]) && |pre'| == |pre| + |LineText(ls[0])| + 1
    ensures GetLine(pre + Render(ls), |pre|) == LineAt(LineText(ls[0]), |pre'|, |pre'|)
    ensures LineText(ls[0]) == "" <==> ls[0].None?
    ensures ls[0].Some? ==> EntRead(LineText(ls[0])) == ls[0]
  {
    var line, rest := LineText(ls[0]), Render(ls[1..]);
    LineTextPlain(ls[0]);
    GetLineAt(pre, line, rest);
    JoinAssoc(pre, line + "\n", rest);
    pre' := pre + (line + "\n");
  }

  lemma {:induction false} FindRendered(pre: string, ls: seq<Line>, name: string)
    requires GoodLines(ls)
    ensures FindFrom(pre + Render(ls), |pre|, name) == Located(ls, name, |pre|)
    decreases |ls|
  {
    if ls != [] {
      var pre' := HeadRendered(pre, ls);
      if ls[0].Some? && ls[0].value.name == name {
        assert LineOf(ls, name) == 0 && ls[..0] == [];
      } else {
        LocatedStep(ls, name, |pre|);
        FindRendered(pre', ls[1..], name);
      }
    }
  }

  lemma ReadBlank(t: string, pos: nat, next: nat)
    requires pos < |t| && next <= |t| && GetLine(t, pos) == LineAt("", next, next)
    ensures ReadFrom(t, pos) == [] + ReadFrom(t, next)
  {
  }

  lemma ReadEntry(t: string, pos: nat, text: string, d: Dirent, next: nat)
    requires pos < |t| && next <= |t| && GetLine(t, pos) == LineAt(text, next, next)
    requires text != "" && EntRead(text) == Some(d)
    ensures ReadFrom(t, pos) == [d] + ReadFrom(t, next)
  {
  }

  // One line of the listing.
  lemma ReadLine(t: string, pos: nat, text: string, l: Line, next: nat)
    requires pos < |t| && next <= |t| && GetLine(t, pos) == LineAt(text, next, next)
    requires (text == "" <==> l.None?) && (l.Some? ==> EntRead(text) == l)
    ensures ReadFrom(t, pos) == (if l.Some? then [l.value] else []) + ReadFrom(t, next)
  {
    if l.None? {
      ReadBlank(t, pos, next);
    } else {
      ReadEntry(t, pos, text, l.value, next);
    }
  }

  lemma {:induction false} ReadRendered(pre: string, ls: seq<Line>)
    requires GoodLines(ls)
    ensures ReadFrom(pre + Render(ls), |pre|) == Live(ls)
    decreases |ls|
  {
    if ls != [] {
      var pre' := HeadRendered(pre, ls);
      ReadRendered(pre', ls[1..]);
      ReadLine(pre + Render(ls), |pre|, LineText(ls[0]), ls[0], |pre'|);
    }
  }

  // ---- Edits on rendered texts ----

  lemma {:induction false} RenderJoin(a: seq<Line>, b: seq<Line>)
    ensures Render(a + b) == Render(a) + Render(b)
    decreases |a|
  {
    if a == [] {
      assert a + b == b;
    } else {
      RenderJoin(a[1..], b);
      assert (a + b)[1..] == a[1..] + b;
      JoinAssoc(LineText(a[0]) + "\n", Render(a[1..]), Render(b));
    }
  }

  lemma {:induction false} LiveJoin(a: seq<Line>, b: seq<Line>)
    ensures Live(a + b) == Live(a) + Live(b)
    decreases |a|
  {
    if a == [] {
      assert a + b == b;
    } else {
      LiveJoin(a[1..], b);
      assert (a + b)[1..] == a[1..] + b;
      JoinAssoc(if a[0].Some? then [a[0].value] else [], Live(a[1..]), Live(b));
    }
  }

  lemma AddRendered(ls: seq<Line>, d: Dirent)
    requires GoodLines(ls) && GoodEntry(d)
    ensures AddEntry(Render(ls), d) == Render(ls + [Some(d)]) && GoodLines(ls + [Some(d)])
    ensures Live(ls + [Some(d)]) == Live(ls) + [d]
  {
    RenderJoin(ls, [Some(d)]);
    LiveJoin(ls, [Some(d)]);
    assert Render([Some(d)]) == EntryText(d) + "\n" + Render([]);
    assert Live([Some(d)]) == [d] + Live([]);
  }

  lemma SplitAt(ls: seq<Line>, k: nat)
    requires k < |ls|
    ensures Render(ls) == Render(ls[..k]) + (LineText(ls[k]) + ("\n" + Render(ls[k + 1..])))
    ensures Live(ls) == Live(ls[..k]) + ((if ls[k].Some? then [ls[k].value] else []) + Live(ls[k + 1..]))
  {
    Cons(ls, k);
    RenderJoin(ls[..k], ls[k..]);
    LiveJoin(ls[..k], ls[k..]);
    RenderHead(ls[k..]);
  }

  lemma RenderHead(ls: seq<Line>)
    requires ls != []
    ensures Render(ls) == LineText(ls[0]) + ("\n" + Render(ls[1..]))
  {
  }

  lemma Cons(ls: seq<Line>, k: nat)
    requires k < |ls|
    ensures ls == ls[..k] + ls[k..] && ls[k..] != [] && ls[k..][0] == ls[k] && ls[k..][1..] == ls[k + 1..]
  {
  }

  // Erasing at the reported offset and length blanks exactly that line.
  lemma EraseRendered(ls: seq<Line>, k: nat)
    requires GoodLines(ls) && k < |ls|
    ensures var off, len := |Render(ls[..k])|, |LineText(ls[k])|;
            off + len <= |Render(ls)| && Erase(Render(ls), off, len) == Render(ls[k := None])
    ensures GoodLines(ls[k := None]) && Live(ls[k := None]) == Live(ls[..k]) + Live(ls[k + 1..])
  {
    var ls' := ls[k := None];
    SplitAt(ls, k);
    SplitAt(ls', k);
    assert ls'[..k] == ls[..k] && ls'[k + 1..] == ls[k + 1..];
    EraseMiddle(Render(ls[..k]), LineText(ls[k]), "\n" + Render(ls[k + 1..]));
  }

  lemma EraseMiddle(a: string, b: string, c: string)
    ensures Erase(a + (b + c), |a|, |b|) == a + ("" + c)
  {
  }

  lemma MiddleOf<T>(a: seq<T>, b: seq<T>, c: seq<T>)
    ensures (a + (b + c))[|a|..|a| + |b|] == b
  {
  }

  // ---- Names the format cannot hold ----

  lemma EntReadName(line: string)
    requires '\n' !in line && EntRead(line).Some?
    ensures GoodName(EntRead(line).value.name)
  {
    var p := IndexOf(line, ':', 0);
    assert forall c :: c in line[..p] ==> c in line;
  }

  // Whatever the text, a name with ':' or a newline is never found.
  lemma {:induction false} BadNameNeverFound(t: string, pos: nat, name: string)
    requires pos <= |t| && !GoodName(name)
    ensures FindFrom(t, pos, name) == NotFound
    decreases |t| - pos
  {
    if pos < |t| {
      var l := GetLine(t, pos);
      assert '\n' !in l.text;
      if l.text != "" && EntRead(l.text).Some? { EntReadName(l.text); }
      BadNameNeverFound(t, l.next, name);
    }
  }

  // An entry added to a directory without that name is found again exactly when its name is good.
  lemma AddedIsFoundExactly(ls: seq<Line>, d: Dirent)
    requires GoodLines(ls) && d.inum < TWO64 && DirFind(Render(ls), d.name) == NotFound
    ensures GoodName(d.name) <==> var f := DirFind(AddEntry(Render(ls), d), d.name); f.Found? && f.inum == d.inum
  {
    if GoodName(d.name) {
      AddRendered(ls, d);
      FindRendered("", ls, d.name);
      FindRendered("", ls + [Some(d)], d.name);
      assert "" + Render(ls) == Render(ls) && "" + Render(ls + [Some(d)]) == Render(ls + [Some(d)]);
      var k := LineOf(ls + [Some(d)], d.name);
      assert (ls + [Some(d)])[|ls|] == Some(d);
      assert k == |ls|;
    } else {
      BadNameNeverFound(AddEntry(Render(ls), d), 0, d.name);
    }
  }
}
