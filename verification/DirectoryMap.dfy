/** Directory text refines a finite map, over every sequence of additions and removals. */
module DirectoryMap {
  import opened Basics
  import opened Directory

  datatype Op = Add(d: Dirent) | Remove(name: string)

  predicate GoodOp(op: Op) {
    op.Add? ==> GoodEntry(op.d)
  }

  // ---- Three views of one operation ----

  // On the text, as dir_add_entry and remove edit it.
  function TextOp(t: string, op: Op): string {
    match op
    case Add(d) => if DirFind(t, d.name) == NotFound then AddEntry(t, d) else t
    case Remove(name) =>
      var f := DirFind(t, name);
      if f.Found? && 0 <= f.off && f.off + f.len <= |t| then Erase(t, f.off, f.len) else t
  }

  predicate Has(es: seq<Dirent>, name: string) {
    exists i :: 0 <= i < |es| && es[i].name == name
  }

  function Without(es: seq<Dirent>, name: string): seq<Dirent> {
    if es == [] then [] else (if es[0].name == name then [] else [es[0]]) + Without(es[1..], name)
  }

  // On the list of live entries in insertion order.
  function ListOp(es: seq<Dirent>, op: Op): seq<Dirent> {
    match op
    case Add(d) => if Has(es, d.name) then es else es + [d]
    case Remove(name) => Without(es, name)
  }

  // On the finite map from names to inums.
  function MapOp(m: map<string, nat>, op: Op): map<string, nat> {
    match op
    case Add(d) => if d.name in m then m else m[d.name := d.inum]
    case Remove(name) => m - {name}
  }

  function TextAfter(t: string, ops: seq<Op>): string
    decreases |ops|
  {
    if ops == [] then t else TextAfter(TextOp(t, ops[0]), ops[1..])
  }

  function ListAfter(es: seq<Dirent>, ops: seq<Op>): seq<Dirent>
    decreases |ops|
  {
    if ops == [] then es else ListAfter(ListOp(es, ops[0]), ops[1..])
  }

  function MapAfter(m: map<string, nat>, ops: seq<Op>): map<string, nat>
    decreases |ops|
  {
    if ops == [] then m else MapAfter(MapOp(m, ops[0]), ops[1..])
  }

  // ---- List and map ----

  ghost predicate Unique(es: seq<Dirent>) {
    forall i, j :: 0 <= i < j < |es| ==> es[i].name != es[j].name
  }

  // es enumerates m, each entry once.
  ghost predicate Enumerates(es: seq<Dirent>, m: map<string, nat>) {
    && Unique(es)
    && (forall i :: 0 <= i < |es| ==> es[i].name in m && m[es[i].name] == es[i].inum)
    && (forall n :: n in m ==> Has(es, n))
  }

  lemma {:induction false} WithoutJoin(a: seq<Dirent>, b: seq<Dirent>, name: string)
    ensures Without(a + b, name) == Without(a, name) + Without(b, name)
    decreases |a|
  {
    if a == [] {
      assert a + b == b;
    } else {
      WithoutJoin(a[1..], b, name);
      assert (a + b)[1..] == a[1..] + b;
      JoinAssoc(if a[0].name == name then [] else [a[0]], Without(a[1..], name), Without(b, name));
    }
  }

  lemma {:induction false} WithoutAbsent(es: seq<Dirent>, name: string)
    requires !Has(es, name)
    ensures Without(es, name) == es
    decreases |es|
  {
    if es != [] {
      assert es[0].name != name;
      forall i | 0 <= i < |es[1..]| ensures es[1..][i].name != name {
        assert es[i + 1].name != name;
      }
      WithoutAbsent(es[1..], name);
    }
  }

  lemma {:induction false} WithoutFilters(es: seq<Dirent>, name: string)
    ensures !Has(Without(es, name), name)
    ensures forall e :: e in Without(es, name) <==> e in es && e.name != name
    decreases |es|
  {
    if es != [] {
      WithoutFilters(es[1..], name);
      assert es == [es[0]] + es[1..];
    }
    forall i | 0 <= i < |Without(es, name)| ensures Without(es, name)[i].name != name {
      assert Without(es, name)[i] in Without(es, name);
    }
  }

  lemma UniqueSplit(a: seq<Dirent>, d: Dirent, b: seq<Dirent>)
    requires Unique(a + ([d] + b))
    ensures !Has(a, d.name) && !Has(b, d.name)
  {
    var es := a + ([d] + b);
    forall i | 0 <= i < |a| ensures a[i].name != d.name {
      assert es[i].name != es[|a|].name;
    }
    forall i | 0 <= i < |b| ensures b[i].name != d.name {
      assert es[|a|].name != es[|a| + 1 + i].name;
    }
  }

  lemma UniqueShrinks(a: seq<Dirent>, d: Dirent, b: seq<Dirent>)
    requires Unique(a + ([d] + b))
    ensures Unique(a + b)
  {
    var es := a + ([d] + b);
    forall i, j | 0 <= i < j < |a + b| ensures (a + b)[i].name != (a + b)[j].name {
      var i', j' := if i < |a| then i else i + 1, if j < |a| then j else j + 1;
      assert es[i'].name != es[j'].name;
    }
  }

  // In a list of distinct names, dropping a name drops one entry.
  lemma WithoutOne(a: seq<Dirent>, d: Dirent, b: seq<Dirent>)
    requires Unique(a + ([d] + b))
    ensures Without(a + ([d] + b), d.name) == a + b && Unique(a + b)
  {
    UniqueSplit(a, d, b);
    UniqueShrinks(a, d, b);
    WithoutMiddle(a, d, b);
  }

  lemma WithoutMiddle(a: seq<Dirent>, d: Dirent, b: seq<Dirent>)
    requires !Has(a, d.name) && !Has(b, d.name)
    ensures Without(a + ([d] + b), d.name) == a + b
  {
    WithoutJoin(a, [d] + b, d.name);
    WithoutJoin([d], b, d.name);
    assert Without([d], d.name) == Without([], d.name) == [];
    WithoutAbsent(a, d.name);
    WithoutAbsent(b, d.name);
  }

  lemma AddEnumerates(es: seq<Dirent>, m: map<string, nat>, d: Dirent)
    requires Enumerates(es, m) && !Has(es, d.name)
    ensures d.name !in m && Enumerates(es + [d], m[d.name := d.inum])
  {
    var es' := es + [d];
    forall n | n in m[d.name := d.inum] ensures Has(es', n) {
      if n == d.name {
        assert es'[|es|].name == n;
      } else {
        assert Has(es, n);
        var i :| 0 <= i < |es| && es[i].name == n;
        assert es'[i].name == n;
      }
    }
  }

  lemma RemoveEnumerates(es: seq<Dirent>, m: map<string, nat>, es': seq<Dirent>, name: string)
    requires Enumerates(es, m) && es' == Without(es, name) && Unique(es')
    ensures Enumerates(es', m - {name})
  {
    WithoutFilters(es, name);
    forall i | 0 <= i < |es'| ensures es'[i].name in m - {name} && (m - {name})[es'[i].name] == es'[i].inum {
      assert es'[i] in es';
      var j :| 0 <= j < |es| && es[j] == es'[i];
    }
    forall n | n in m - {name} ensures Has(es', n) {
      assert Has(es, n);
      var i :| 0 <= i < |es| && es[i].name == n;
      assert es[i] in es';
      var j :| 0 <= j < |es'| && es'[j] == es[i];
      assert es'[j].name == n;
    }
  }

  // ---- Text and list ----

  ghost predicate Shows(t: string, ls: seq<Line>, es: seq<Dirent>) {
    GoodLines(ls) && Render(ls) == t && Live(ls) == es
  }

  lemma {:induction false} LiveHas(ls: seq<Line>, name: string)
    ensures Has(Live(ls), name) <==> LineOf(ls, name) < |ls|
    decreases |ls|
  {
    if ls != [] {
      LiveHas(ls[1..], name);
      var rest := Live(ls[1..]);
      if ls[0].Some? && ls[0].value.name == name {
        assert Live(ls)[0].name == name;
      } else {
        var skip := if ls[0].Some? then 1 else 0;
        assert Live(ls)[skip..] == rest;
        if Has(rest, name) {
          var i :| 0 <= i < |rest| && rest[i].name == name;
          assert Live(ls)[skip + i].name == name;
        }
        if Has(Live(ls), name) {
          var i :| 0 <= i < |Live(ls)| && Live(ls)[i].name == name;
          assert rest[i - skip].name == name;
        }
      }
    }
  }

  // dir_find and readir on a text that shows es.
  lemma ShownText(t: string, ls: seq<Line>, es: seq<Dirent>, name: string)
    requires Shows(t, ls, es)
    ensures ReadDir(t) == es && DirFind(t, name) == Located(ls, name, 0)
    ensures DirFind(t, name).Found? <==> Has(es, name)
  {
    assert "" + Render(ls) == t;
    ReadRendered("", ls);
    FindRendered("", ls, name);
    LiveHas(ls, name);
  }

  lemma TextAt(ls: seq<Line>, k: nat)
    requires k < |ls|
    ensures var off, len := |Render(ls[..k])|, |LineText(ls[k])|;
            off + len <= |Render(ls)| && Render(ls)[off..off + len] == LineText(ls[k])
  {
    SplitAt(ls, k);
    MiddleOf(Render(ls[..k]), LineText(ls[k]), "\n" + Render(ls[k + 1..]));
  }

  lemma EntryAt(ls: seq<Line>, k: nat)
    requires k < |ls| && ls[k].Some? && Unique(Live(ls))
    ensures var d, rest := ls[k].value, Live(ls[..k]) + Live(ls[k + 1..]);
            d in Live(ls) && Without(Live(ls), d.name) == rest && Unique(rest)
  {
    SplitAt(ls, k);
    WithoutOne(Live(ls[..k]), ls[k].value, Live(ls[k + 1..]));
  }

  lemma EraseLine(ls: seq<Line>, k: nat)
    requires GoodLines(ls) && k < |ls| && ls[k].Some? && Unique(Live(ls))
    ensures var t, d, off, len := Render(ls), ls[k].value, |Render(ls[..k])|, |LineText(ls[k])|;
            && off + len <= |t| && t[off..off + len] == EntryText(d) && d in Live(ls)
            && Shows(Erase(t, off, len), ls[k := None], Without(Live(ls), d.name)) && Unique(Without(Live(ls), d.name))
  {
    TextAt(ls, k);
    EraseRendered(ls, k);
    EntryAt(ls, k);
  }

  // The reported offset and length mark exactly the entry's line, and erasing it drops that entry.
  lemma EraseShown(t: string, ls: seq<Line>, es: seq<Dirent>, name: string) returns (ls': seq<Line>)
    requires Shows(t, ls, es) && Unique(es) && Has(es, name)
    ensures var f := DirFind(t, name);
            && f.Found? && 0 <= f.off && f.off + f.len <= |t|
            && t[f.off..f.off + f.len] == EntryText(Dirent(name, f.inum)) && Dirent(name, f.inum) in es
            && Shows(Erase(t, f.off, f.len), ls', Without(es, name)) && Unique(Without(es, name))
  {
    ShownText(t, ls, es, name);
    var k := LineOf(ls, name);
    var d := ls[k].value;
    var f := Found(d.inum, |Render(ls[..k])|, |LineText(ls[k])|);
    assert DirFind(t, name) == f && d == Dirent(name, f.inum);
    EraseLine(ls, k);
    ls' := ls[k := None];
  }

  lemma OpKeeps(t: string, ls: seq<Line>, es: seq<Dirent>, m: map<string, nat>, op: Op) returns (ls': seq<Line>)
    requires Shows(t, ls, es) && Enumerates(es, m) && GoodOp(op)
    ensures Shows(TextOp(t, op), ls', ListOp(es, op)) && Enumerates(ListOp(es, op), MapOp(m, op))
  {
    var name := if op.Add? then op.d.name else op.name;
    ShownText(t, ls, es, name);
    ls' := ls;
    if op.Add? {
      if !Has(es, name) {
        AddRendered(ls, op.d);
        AddEnumerates(es, m, op.d);
        ls' := ls + [Some(op.d)];
      }
    } else if Has(es, name) {
      ls' := EraseShown(t, ls, es, name);
      RemoveEnumerates(es, m, Without(es, name), name);
    } else {
      WithoutAbsent(es, name);
      RemoveEnumerates(es, m, es, name);
    }
  }

  lemma {:induction false} OpsKeep(t: string, ls: seq<Line>, es: seq<Dirent>, m: map<string, nat>, ops: seq<Op>)
    returns (ls': seq<Line>)
    requires Shows(t, ls, es) && Enumerates(es, m) && forall i :: 0 <= i < |ops| ==> GoodOp(ops[i])
    ensures Shows(TextAfter(t, ops), ls', ListAfter(es, ops)) && Enumerates(ListAfter(es, ops), MapAfter(m, ops))
    decreases |ops|
  {
    if ops == [] {
      ls' := ls;
    } else {
      var ls1 := OpKeeps(t, ls, es, m, ops[0]);
      ls' := OpsKeep(TextOp(t, ops[0]), ls1, ListOp(es, ops[0]), MapOp(m, ops[0]), ops[1..]);
    }
  }

  lemma ErasedList(t: string, ls: seq<Line>, es: seq<Dirent>, name: string)
    requires Shows(t, ls, es) && Unique(es) && Has(es, name)
    ensures var f := DirFind(t, name);
            && f.Found? && 0 <= f.off && f.off + f.len <= |t|
            && t[f.off..f.off + f.len] == EntryText(Dirent(name, f.inum)) && Dirent(name, f.inum) in es
            && ReadDir(Erase(t, f.off, f.len)) == Without(es, name)
  {
    var ls' := EraseShown(t, ls, es, name);
    var f := DirFind(t, name);
    ShownText(Erase(t, f.off, f.len), ls', Without(es, name), name);
  }

  lemma ListAnswers(es: seq<Dirent>, m: map<string, nat>, name: string)
    requires Enumerates(es, m)
    ensures Has(es, name) <==> name in m
    ensures forall d :: d in es ==> d.name in m && m[d.name] == d.inum
  {
    forall d | d in es ensures d.name in m && m[d.name] == d.inum {
      var i :| 0 <= i < |es| && es[i] == d;
    }
  }

  // What dir_find and readir give on text t, for the list es and the map m.
  ghost predicate Answers(t: string, es: seq<Dirent>, m: map<string, nat>, name: string) {
    var f := DirFind(t, name);
    && ReadDir(t) == es
    && (f.Found? <==> name in m)
    && (f.Found? ==>
          && f.inum == m[name]
          && 0 <= f.off && f.off + f.len <= |t|
          && t[f.off..f.off + f.len] == EntryText(Dirent(name, f.inum))
          && ReadDir(Erase(t, f.off, f.len)) == Without(es, name))
  }

  lemma ShownAnswers(t: string, ls: seq<Line>, es: seq<Dirent>, m: map<string, nat>, name: string)
    requires Shows(t, ls, es) && Enumerates(es, m)
    ensures Answers(t, es, m, name)
  {
    ListAnswers(es, m, name);
    ShownText(t, ls, es, name);
    if Has(es, name) {
      ErasedList(t, ls, es, name);
    }
  }

  // After any additions and removals of good names: readir lists the live entries once each in
  // insertion order, dir_find answers as the map does for every name whatever blank lines the
  // text has, and what it reports erases exactly that entry.
  lemma TextRefinesMap(ops: seq<Op>, name: string)
    requires forall i :: 0 <= i < |ops| ==> GoodOp(ops[i])
    ensures var t, es, m := TextAfter("", ops), ListAfter([], ops), MapAfter(map[], ops);
            Enumerates(es, m) && Answers(t, es, m, name)
  {
    var ls := OpsKeep("", [], [], map[], ops);
    ShownAnswers(TextAfter("", ops), ls, ListAfter([], ops), MapAfter(map[], ops), name);
  }
}
