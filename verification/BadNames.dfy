/** What a name with ':' or a newline does to its directory.

    dir_add_entry writes any name.  Read back, such an entry is other lines than one of its own:
    each either shows an entry of another name or ends every search behind it. */
module BadNames {
  import opened Basics
  import opened Directory
  import opened DirectoryMap

  // ---- Any text that ends in a newline, as lines ----

  predicate Plain(rs: seq<string>) {
    forall i :: 0 <= i < |rs| ==> '\n' !in rs[i]
  }

  function Joined(rs: seq<string>): string {
    if rs == [] then "" else rs[0] + "\n" + Joined(rs[1..])
  }

  // What a line is to dir_find and readir.
  datatype Kind = Blank | Entry(d: Dirent) | Unreadable

  function KindOf(line: string): Kind {
    if line == "" then Blank
    else
      match EntRead(line)
      case None => Unreadable
      case Some(d) => Entry(d)
  }

  function Kinds(rs: seq<string>): (ks: seq<Kind>)
    ensures |ks| == |rs| && forall i :: 0 <= i < |rs| ==> ks[i] == KindOf(rs[i])
  {
    seq(|rs|, i requires 0 <= i < |rs| => KindOf(rs[i]))
  }

  function ShownFirst(k: Kind, rest: seq<Dirent>): seq<Dirent> {
    if k == Unreadable then [] else (if k.Entry? then [k.d] else []) + rest
  }

  // The entries shown, up to the first unreadable line.
  function Shown(ks: seq<Kind>): seq<Dirent> {
    if ks == [] then [] else ShownFirst(ks[0], Shown(ks[1..]))
  }

  function Listing(rs: seq<string>): seq<Dirent> {
    Shown(Kinds(rs))
  }

  predicate Readable(rs: seq<string>) {
    Unreadable !in Kinds(rs)
  }

  // The lines of s, at its newlines.
  function Split(s: string): (rs: seq<string>)
    ensures rs != []
    decreases |s|
  {
    var q := IndexOf(s, '\n', 0);
    if q == |s| then [s] else [s[..q]] + Split(s[q + 1..])
  }

  lemma {:induction false} SplitJoins(s: string)
    ensures Plain(Split(s)) && Joined(Split(s)) == s + "\n"
    decreases |s|
  {
    var q := IndexOf(s, '\n', 0);
    if q == |s| {
      assert [s][1..] == [];
      assert s + "\n" + "" == s + "\n";
    } else {
      var rest := s[q + 1..];
      SplitJoins(rest);
      assert ([s[..q]] + Split(rest))[1..] == Split(rest);
      assert s == s[..q] + "\n" + rest;
      JoinAssoc(s[..q] + "\n", rest, "\n");
    }
  }

  lemma {:induction false} JoinedJoin(a: seq<string>, b: seq<string>)
    ensures Joined(a + b) == Joined(a) + Joined(b)
    decreases |a|
  {
    if a == [] {
      assert a + b == b;
    } else {
      JoinedJoin(a[1..], b);
      assert (a + b)[1..] == a[1..] + b;
      JoinAssoc(a[0] + "\n", Joined(a[1..]), Joined(b));
    }
  }

  lemma FirstJoin(k: Kind, a: seq<Dirent>, b: seq<Dirent>)
    requires k != Unreadable
    ensures ShownFirst(k, a + b) == ShownFirst(k, a) + b
  {
    JoinAssoc(if k.Entry? then [k.d] else [], a, b);
  }

  // What b shows behind a.
  function Behind(a: seq<Kind>, b: seq<Kind>): seq<Dirent> {
    if Unreadable in a then [] else Shown(b)
  }

  lemma {:induction false} ShownJoin(a: seq<Kind>, b: seq<Kind>)
    ensures Shown(a + b) == Shown(a) + Behind(a, b)
    decreases |a|
  {
    if a == [] {
      assert a + b == b;
    } else {
      assert (a + b)[1..] == a[1..] + b;
      if a[0] != Unreadable {
        ShownJoin(a[1..], b);
        FirstJoin(a[0], Shown(a[1..]), Behind(a[1..], b));
      }
    }
  }

  lemma ListingJoin(a: seq<string>, b: seq<string>)
    ensures Listing(a + b) == Listing(a) + (if Readable(a) then Listing(b) else [])
  {
    assert Kinds(a + b) == Kinds(a) + Kinds(b);
    ShownJoin(Kinds(a), Kinds(b));
  }

  lemma ReadStep(t: string, pos: nat, line: string, next: nat)
    requires pos < |t| && next <= |t| && GetLine(t, pos) == LineAt(line, next, next)
    ensures ReadFrom(t, pos) == ShownFirst(KindOf(line), ReadFrom(t, next))
  {
    var rest := ReadFrom(t, next);
    if line == "" {
      assert ReadFrom(t, pos) == rest == [] + rest;
    } else if EntRead(line).Some? {
      assert ReadFrom(t, pos) == [EntRead(line).value] + rest;
    }
  }

  lemma ListingFirst(rs: seq<string>)
    requires rs != []
    ensures Listing(rs) == ShownFirst(KindOf(rs[0]), Listing(rs[1..]))
  {
    assert Kinds(rs)[1..] == Kinds(rs[1..]);
  }

  lemma JoinedHead(pre: string, rs: seq<string>) returns (pre': string)
    requires Plain(rs) && rs != []
    ensures |pre| < |pre + Joined(rs)| && |pre'| == |pre| + |rs[0]| + 1
    ensures pre + Joined(rs) == pre' + Joined(rs[1..])
    ensures GetLine(pre + Joined(rs), |pre|) == LineAt(rs[0], |pre'|, |pre'|)
  {
    var line, rest := rs[0], Joined(rs[1..]);
    GetLineAt(pre, line, rest);
    JoinAssoc(pre, line + "\n", rest);
    pre' := pre + (line + "\n");
  }

  // readir shows the listing of a text's lines.
  lemma {:induction false} ReadJoined(pre: string, rs: seq<string>)
    requires Plain(rs)
    ensures ReadFrom(pre + Joined(rs), |pre|) == Listing(rs)
    decreases |rs|
  {
    if rs != [] {
      var pre' := JoinedHead(pre, rs);
      ReadJoined(pre', rs[1..]);
      ReadStep(pre + Joined(rs), |pre|, rs[0], |pre'|);
      ListingFirst(rs);
    }
  }

  // On every text dir_find finds exactly the names that readir shows.
  lemma {:induction false} FindListed(t: string, pos: nat, name: string)
    requires pos <= |t|
    ensures FindFrom(t, pos, name).Found? <==> Has(ReadFrom(t, pos), name)
    decreases |t| - pos
  {
    if pos < |t| {
      var l := GetLine(t, pos);
      FindListed(t, l.next, name);
      if l.text != "" && EntRead(l.text).Some? {
        HasFirst(EntRead(l.text).value, ReadFrom(t, l.next), name);
      }
    }
  }

  lemma HasFirst(d: Dirent, es: seq<Dirent>, name: string)
    ensures Has([d] + es, name) <==> d.name == name || Has(es, name)
  {
    var all := [d] + es;
    assert all[0] == d;
    if Has(es, name) {
      var i :| 0 <= i < |es| && es[i].name == name;
      assert all[i + 1].name == name;
    }
  }

  // ---- One entry among others ----

  function LinesOf(d: Dirent): seq<string> {
    Split(EntryText(d))
  }

  // The entries before stay, those that the added text shows come next, and the entries behind are
  // hidden if and only if the added text has a line that cannot be read.
  lemma AddedShows(before: seq<string>, d: Dirent, later: seq<string>)
    requires Plain(before) && Readable(before) && Plain(later)
    ensures ReadDir(AddEntry(Joined(before), d) + Joined(later)) ==
            Listing(before) + (Listing(LinesOf(d)) + (if Readable(LinesOf(d)) then Listing(later) else []))
  {
    var mine := LinesOf(d);
    SplitJoins(EntryText(d));
    JoinedJoin(before, mine);
    JoinedJoin(before + mine, later);
    var all := before + mine + later;
    assert Plain(all);
    assert "" + Joined(all) == Joined(all);
    ReadJoined("", all);
    JoinAssoc(before, mine, later);
    ListingJoin(before, mine + later);
    ListingJoin(mine, later);
  }

  lemma {:induction false} ListedNames(rs: seq<string>, i: nat)
    requires Plain(rs) && i < |Listing(rs)|
    ensures GoodName(Listing(rs)[i].name)
    decreases |rs|
  {
    assert Kinds(rs)[1..] == Kinds(rs[1..]);
    if KindOf(rs[0]) == Blank {
      ListedNames(rs[1..], i);
    } else {
      EntReadName(rs[0]);
      if i > 0 {
        ListedNames(rs[1..], i - 1);
      }
    }
  }

  lemma OneLine(line: string)
    requires line != "" && '\n' !in line
    ensures Split(line) == [line] && (Readable([line]) <==> EntRead(line).Some?)
    ensures Listing([line]) == if EntRead(line).Some? then [EntRead(line).value] else []
  {
    assert IndexOf(line, '\n', 0) == |line|;
    ListingFirst([line]);
    assert Kinds([line]) == [KindOf(line)] && Listing([line][1..]) == [];
  }

  // The added text shows its entry, and it alone, if and only if the name is good; otherwise all it
  // shows are entries of other names.
  lemma ShownExactly(d: Dirent)
    requires d.inum < TWO64
    ensures GoodName(d.name) <==> Listing(LinesOf(d)) == [d]
    ensures GoodName(d.name) ==> Readable(LinesOf(d))
    ensures !GoodName(d.name) ==>
              forall i :: 0 <= i < |Listing(LinesOf(d))| ==> Listing(LinesOf(d))[i].name != d.name
  {
    var rs := LinesOf(d);
    SplitJoins(EntryText(d));
    forall i | 0 <= i < |Listing(rs)| ensures GoodName(Listing(rs)[i].name) {
      ListedNames(rs, i);
    }
    assert Listing(rs) == [d] ==> Listing(rs)[0] == d;
    if GoodName(d.name) {
      EntRoundTrip(d);
      OneLine(EntryText(d));
    }
  }

  lemma ColonText(name: string, p: nat, digits: string)
    requires p < |name| && name[p] == ':'
    ensures name + ":" + digits == name[..p] + ":" + (name[p + 1..] + ":" + digits)
  {
    assert name == name[..p] + ":" + name[p + 1..];
  }

  lemma ColonRead(head: string, tail: string)
    requires GoodName(head)
    ensures var n := ParseNumber(tail);
            EntRead(head + ":" + tail) == if n.Some? then Some(Dirent(head, n.value)) else None
  {
    ColonAt(head, tail);
  }

  lemma HeadGood(name: string)
    requires '\n' !in name && ':' in name
    ensures var p := IndexOf(name, ':', 0); p < |name| && name[p] == ':' && GoodName(name[..p])
  {
    var i :| 0 <= i < |name| && name[i] == ':';
    assert forall c :: c in name[..IndexOf(name, ':', 0)] ==> c in name;
  }

  lemma DigitsPlain(n: nat)
    ensures '\n' !in Decimal(n)
  {
    DecimalValue(n);
  }

  // A name with ':' but no newline is one line: an entry of the part before the ':', if what
  // follows it begins with a number, and otherwise a line that hides everything behind.
  lemma ColonSplits(d: Dirent)
    requires '\n' !in d.name && ':' in d.name
    ensures var p := IndexOf(d.name, ':', 0);
            var number := ParseNumber(d.name[p + 1..] + ":" + Decimal(d.inum));
            && p < |d.name|
            && LinesOf(d) == [EntryText(d)]
            && (Readable(LinesOf(d)) <==> number.Some?)
            && Listing(LinesOf(d)) == (if number.Some? then [Dirent(d.name[..p], number.value)] else [])
  {
    var p, digits := IndexOf(d.name, ':', 0), Decimal(d.inum);
    HeadGood(d.name);
    DigitsPlain(d.inum);
    NoNewline(d.name, digits);
    ColonText(d.name, p, digits);
    ColonRead(d.name[..p], d.name[p + 1..] + ":" + digits);
    OneLine(EntryText(d));
  }

  lemma NumbersRead()
    ensures ParseNumber("b:7") == None && ParseNumber("1:7") == Some(1)
  {
    assert SkipSpace("b:7") == "b:7" && Digits("b:7") == "";
    assert SkipSpace("1:7") == "1:7" && "1:7"[1..] == ":7" && Digits(":7") == "";
    assert Digits("1:7") == "1" + Digits(":7") == "1";
    assert "1"[..0] == "" && ValueOf("1") == 1;
  }

  // The name "a:b" hides all that is added later, and "a:1" puts the root under the name "a".
  lemma BadNamesReached()
    ensures !Readable(LinesOf(Dirent("a:b", 7))) && Listing(LinesOf(Dirent("a:b", 7))) == []
    ensures Readable(LinesOf(Dirent("a:1", 7))) && Listing(LinesOf(Dirent("a:1", 7))) == [Dirent("a", 1)]
  {
    NumbersRead();
    assert Decimal(7) == "7" && "b" + ":" + "7" == "b:7" && "1" + ":" + "7" == "1:7";
    IndexOfIs("a:b", ':', 0, 1);
    IndexOfIs("a:1", ':', 0, 1);
    assert "a:b"[2..] == "b" && "a:1"[2..] == "1" && "a:1"[..1] == "a";
    assert "a:b"[1] == ':' && "a:1"[1] == ':';
    ColonSplits(Dirent("a:b", 7));
    ColonSplits(Dirent("a:1", 7));
  }
}
