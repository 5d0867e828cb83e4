/** The file system's name space over the extent store (yfs_client.cc and extent_server.cc). */
module Namespace {
  import opened Basics
  import opened Directory
  import opened DirectoryMap

  type Inum = nat

  // Thrown: std::out_of_range leaves the operation.
  datatype YfsStatus = YOK | YRPCERR | YNOENT | YIOERR | YEXIST | Thrown

  // inum & 0x80000000
  predicate IsFile(i: Inum) {
    (i / TWO31) % 2 == 1
  }

  // The store is keyed by a 32-bit int, the ids are 64 bits wide.
  function Narrow(i: Inum): Inum {
    i % TWO32
  }

  // The store's key keeps the kind.
  lemma KeyKeepsKind(i: Inum)
    ensures IsFile(Narrow(i)) == IsFile(i) && Narrow(i) < TWO32 && Narrow(Narrow(i)) == Narrow(i)
  {
    var q := i / TWO32;
    assert i == q * TWO32 + Narrow(i);
    assert i / TWO31 == 2 * q + Narrow(i) / TWO31;
  }

  // random() gives 31 bits; bit 31 marks files.
  function Candidate(r: nat, isfile: bool): Inum
    requires r < TWO31
  {
    if isfile then r + TWO31 else r
  }

  // A candidate is the 31 bits drawn under the kind bit, so different draws never meet.
  lemma CandidateBits(r: nat, isfile: bool, q: nat, other: bool)
    requires r < TWO31 && q < TWO31
    ensures Candidate(r, isfile) % TWO31 == r && IsFile(Candidate(r, isfile)) == isfile
    ensures Candidate(r, isfile) == Candidate(q, other) <==> r == q && isfile == other
  {
  }

  predicate Fit(i: Inum, parent: Inum) {
    1 < i < TWO32 && i != parent
  }

  predicate Draws(randoms: seq<nat>) {
    forall i :: 0 <= i < |randoms| ==> randoms[i] < TWO31
  }

  // The number that new_inum settles on; None while it is still looking.
  function Drawn(parent: Inum, isfile: bool, randoms: seq<nat>): (r: Option<Inum>)
    requires Draws(randoms)
    ensures r.Some? ==> Fit(r.value, parent) && IsFile(r.value) == isfile
  {
    if randoms == [] then None
    else
      var i := Candidate(randoms[0], isfile);
      if Fit(i, parent) then Some(i) else Drawn(parent, isfile, randoms[1..])
  }

  // The loop of new_inum over the numbers random() gives: the first that fits.
  method NewInum(parent: Inum, isfile: bool, randoms: seq<nat>) returns (r: Option<Inum>)
    requires Draws(randoms)
    ensures r == Drawn(parent, isfile, randoms)
    ensures r.Some? ==> Fit(r.value, parent) && IsFile(r.value) == isfile
    ensures r.Some? ==>
              exists k :: 0 <= k < |randoms| && r.value == Candidate(randoms[k], isfile) &&
                          forall j :: 0 <= j < k ==> !Fit(Candidate(randoms[j], isfile), parent)
    ensures r.None? ==> forall k :: 0 <= k < |randoms| ==> !Fit(Candidate(randoms[k], isfile), parent)
  {
    var k := 0;
    while k < |randoms|
      invariant 0 <= k <= |randoms|
      invariant forall j :: 0 <= j < k ==> !Fit(Candidate(randoms[j], isfile), parent)
      invariant Drawn(parent, isfile, randoms[k..]) == Drawn(parent, isfile, randoms)
    {
      assert randoms[k..][1..] == randoms[k + 1..];
      var i := Candidate(randoms[k], isfile);
      if !(i == parent || i <= 1) {
        return Some(i);
      }
      k := k + 1;
    }
    r := None;
  }

  // ---- The store ----

  type Store = map<Inum, string>

  function Get(s: Store, id: Inum): Option<string> {
    if Narrow(id) in s then Some(s[Narrow(id)]) else None
  }

  function Put(s: Store, id: Inum, buf: string): Store {
    s[Narrow(id) := buf]
  }

  function Drop(s: Store, id: Inum): Store {
    s - {Narrow(id)}
  }

  datatype Attr = Attr(size: nat, atime: nat, mtime: nat, ctime: nat)

  class ExtentServer {
    var bufs: Store
    var attrs: map<Inum, Attr>

    // Every extent has attributes, and the recorded size is that of its buffer.
    ghost predicate Valid()
      reads this
    {
      attrs.Keys == bufs.Keys && forall k :: k in bufs ==> attrs[k].size == |bufs[k]| % TWO32
    }

    constructor (now: nat)
      ensures Valid() && bufs == map[1 := ""]
    {
      bufs := map[1 := ""];
      attrs := map[1 := Attr(0, now, now, now)];
    }

    method PutExtent(id: Inum, buf: string, now: nat)
      requires Valid()
      modifies this
      ensures Valid() && bufs == Put(old(bufs), id, buf)
      ensures attrs == old(attrs)[Narrow(id) := Attr(|buf| % TWO32, now, now, now)]
    {
      bufs := bufs[id % TWO32 := buf];
      attrs := attrs[id % TWO32 := Attr(|buf| % TWO32, now, now, now)];
    }

    method GetExtent(id: Inum, now: nat) returns (r: Option<string>)
      requires Valid()
      modifies this`attrs
      ensures Valid() && r == Get(bufs, id)
      ensures var key := Narrow(id);
              attrs == if r.Some? then old(attrs)[key := old(attrs)[key].(atime := now)] else old(attrs)
    {
      r := None;
      var key := id % TWO32;
      if key in bufs {
        r := Some(bufs[key]);
        attrs := attrs[key := attrs[key].(atime := now)];
      }
    }

    method RemoveExtent(id: Inum) returns (ok: bool)
      requires Valid()
      modifies this
      ensures Valid() && bufs == Drop(old(bufs), id) && ok == old(Get(bufs, id)).Some?
      ensures attrs == old(attrs) - {Narrow(id)}
    {
      var key := id % TWO32;
      ok := key in bufs;
      if ok {
        bufs := bufs - {key};
        attrs := attrs - {key};
      }
    }
  }

  // ---- The operations ----

  datatype Outcome = Outcome(store: Store, status: YfsStatus, inum: Inum)

  // dir_add_entry, with the inum that new_inum gave.
  function Create(s: Store, parent: Inum, name: string, inum: Inum): Outcome {
    var g := Get(s, parent);
    if g.None? then Outcome(s, YNOENT, 0)
    else
      var f := DirFind(g.value, name);
      if f.Found? then Outcome(s, YEXIST, f.inum)
      else Outcome(Put(Put(s, inum, ""), parent, AddEntry(g.value, Dirent(name, inum))), YOK, inum)
  }

  // erase throws on an offset behind the text; a negative one is a very large size_t.
  predicate EraseThrows(t: string, f: Found)
    requires f.Found?
  {
    f.off < 0 || f.off > |t|
  }

  function Erased(t: string, f: Found): string
    requires f.Found? && !EraseThrows(t, f)
  {
    Erase(t, f.off, if f.off + f.len <= |t| then f.len else |t| - f.off)
  }

  function Unlink(s: Store, parent: Inum, name: string): Outcome {
    var g := Get(s, parent);
    if g.None? then Outcome(s, YNOENT, 0)
    else
      var f := DirFind(g.value, name);
      if f.NotFound? then Outcome(s, YIOERR, 0)
      else if Get(s, f.inum).None? then Outcome(s, YNOENT, 0)
      else if EraseThrows(g.value, f) then Outcome(Drop(s, f.inum), Thrown, 0)
      else Outcome(Put(Drop(s, f.inum), parent, Erased(g.value, f)), YOK, 0)
  }

  // write and resize replace the contents of an extent that exists.
  function Overwrite(s: Store, id: Inum, buf: string): Store {
    if Get(s, id).Some? then Put(s, id, buf) else s
  }

  class YfsClient {
    const ec: ExtentServer

    constructor (e: ExtentServer)
      ensures ec == e
    {
      ec := e;
    }

    // dir_add_entry, between taking and giving back the parent's lock.
    method DirAddEntry(parent: Inum, name: string, candidate: Inum, now: nat) returns (st: YfsStatus, inum: Inum)
      requires ec.Valid()
      modifies ec
      ensures ec.Valid()
      ensures var o := Create(old(ec.bufs), parent, name, candidate);
              ec.bufs == o.store && st == o.status && (st != YNOENT ==> inum == o.inum)
    {
      st, inum := YNOENT, 0;
      var buf := ec.GetExtent(parent, now);
      if buf.Some? {
        var f := DirFindLoop(buf.value, name);
        if f.NotFound? {
          inum := candidate;
          ec.PutExtent(inum, "", now);
          ec.PutExtent(parent, buf.value + (EntryText(Dirent(name, inum)) + "\n"), now);
          st := YOK;
        } else {
          st, inum := YEXIST, f.inum;
        }
      }
    }

    method RemoveEntry(parent: Inum, name: string, now: nat) returns (st: YfsStatus)
      requires ec.Valid()
      modifies ec
      ensures ec.Valid()
      ensures var o := Unlink(old(ec.bufs), parent, name); ec.bufs == o.store && st == o.status
    {
      st := YNOENT;
      var buf := ec.GetExtent(parent, now);
      if buf.Some? {
        st := YIOERR;
        var f := DirFindLoop(buf.value, name);
        if f.Found? {
          var gone := ec.RemoveExtent(f.inum);
          if !gone {
            st := YNOENT;
          } else if EraseThrows(buf.value, f) {
            st := Thrown;
          } else {
            ec.PutExtent(parent, Erased(buf.value, f), now);
            st := YOK;
          }
        }
      }
    }

    method Lookup(parent: Inum, name: string, now: nat) returns (st: YfsStatus, inum: Inum)
      requires ec.Valid()
      modifies ec`attrs
      ensures ec.Valid()
      ensures st == YOK <==> Get(ec.bufs, parent).Some? && DirFind(Get(ec.bufs, parent).value, name).Found?
      ensures st == YOK ==> inum == DirFind(Get(ec.bufs, parent).value, name).inum
      ensures st == YOK || st == YNOENT
    {
      st, inum := YNOENT, 0;
      var buf := ec.GetExtent(parent, now);
      if buf.Some? {
        var f := DirFindLoop(buf.value, name);
        if f.Found? {
          st, inum := YOK, f.inum;
        }
      }
    }

    // readir reports OK whenever the directory exists, even if it stopped at an unreadable line.
    method ReadDirectory(parent: Inum, now: nat) returns (st: YfsStatus, ents: seq<Dirent>)
      requires ec.Valid()
      modifies ec`attrs
      ensures ec.Valid()
      ensures Get(ec.bufs, parent).Some? ==> st == YOK && ents == ReadDir(Get(ec.bufs, parent).value)
      ensures Get(ec.bufs, parent).None? ==> st == YNOENT && ents == []
    {
      st, ents := YNOENT, [];
      var buf := ec.GetExtent(parent, now);
      if buf.Some? {
        ents := ReadDirLoop(buf.value);
        st := YOK;
      }
    }
  }

  // ---- The name space as a graph ----

  // The live directories with their entries; live holds every extent.
  datatype Graph = Graph(live: set<Inum>, dirs: map<Inum, seq<Dirent>>)

  // Entry i of directory d names n.
  predicate Ref(g: Graph, d: Inum, i: nat, n: Inum) {
    d in g.dirs && i < |g.dirs[d]| && g.dirs[d][i].inum == n
  }

  ghost predicate Referenced(g: Graph, n: Inum) {
    exists d: Inum, i: nat :: Ref(g, d, i, n)
  }

  // Every entry of a live directory names a live extent other than the root and the directory.
  ghost predicate RefsLive(g: Graph) {
    forall d: Inum, i: nat, n: Inum :: Ref(g, d, i, n) ==> n in g.live && n != 1 && n != d
  }

  // Each inum is referenced at most once.
  ghost predicate RefsOnce(g: Graph) {
    forall d: Inum, i: nat, e: Inum, j: nat, n: Inum :: Ref(g, d, i, n) && Ref(g, e, j, n) ==> d == e && i == j
  }

  ghost predicate Sound(g: Graph) {
    1 in g.live && RefsLive(g) && RefsOnce(g)
  }

  // n becomes an empty extent (a directory without entries if isdir) and the last entry of parent.
  function Linked(g: Graph, parent: Inum, d: Dirent, isdir: bool): Graph
    requires parent in g.dirs
  {
    var dirs := if isdir then g.dirs[d.inum := []] else g.dirs;
    Graph(g.live + {d.inum}, dirs[parent := g.dirs[parent] + [d]])
  }

  function Unlinked(g: Graph, parent: Inum, k: nat): Graph
    requires parent in g.dirs && k < |g.dirs[parent]|
  {
    var n := g.dirs[parent][k].inum;
    Graph(g.live - {n}, (g.dirs - {n})[parent := RemoveAt(g.dirs[parent], k)])
  }

  // Where entries are after d has been linked: in its new place, or where they were outside d itself.
  lemma LinkedRefs(g: Graph, parent: Inum, d: Dirent, isdir: bool, e: Inum, i: nat, x: Inum)
    requires parent in g.dirs && d.inum != parent && (d.inum in g.dirs ==> isdir)
    ensures Ref(Linked(g, parent, d, isdir), e, i, x) <==>
              (e == parent && i == |g.dirs[parent]| && x == d.inum) || (e != d.inum && Ref(g, e, i, x))
  {
  }

  // Linking keeps the graph sound if and only if the inum was in no directory yet.
  lemma LinkedSound(g: Graph, parent: Inum, d: Dirent, isdir: bool)
    requires Sound(g) && parent in g.dirs && d.inum != parent && d.inum != 1 && (d.inum in g.dirs ==> isdir)
    ensures Sound(Linked(g, parent, d, isdir)) <==> !Referenced(g, d.inum)
  {
    var g', last, n := Linked(g, parent, d, isdir), |g.dirs[parent]|, d.inum;
    LinkedRefs(g, parent, d, isdir, parent, last, n);
    if Referenced(g, n) {
      var e: Inum, i: nat :| Ref(g, e, i, n);
      LinkedRefs(g, parent, d, isdir, e, i, n);
      assert Ref(g', e, i, n) && Ref(g', parent, last, n);
      assert !(e == parent && i == last);
    } else {
      forall e: Inum, i: nat, x: Inum | Ref(g', e, i, x) ensures x in g'.live && x != 1 && x != e {
        LinkedRefs(g, parent, d, isdir, e, i, x);
      }
      forall e: Inum, i: nat, f: Inum, j: nat, x: Inum | Ref(g', e, i, x) && Ref(g', f, j, x) ensures e == f && i == j {
        LinkedRefs(g, parent, d, isdir, e, i, x);
        LinkedRefs(g, parent, d, isdir, f, j, x);
      }
    }
  }

  lemma UnlinkedRefs(g: Graph, parent: Inum, k: nat, e: Inum, i: nat, x: Inum)
    requires parent in g.dirs && k < |g.dirs[parent]| && g.dirs[parent][k].inum != parent
    requires Ref(Unlinked(g, parent, k), e, i, x)
    ensures e != g.dirs[parent][k].inum && Ref(g, e, if e == parent && i >= k then i + 1 else i, x)
  {
  }

  lemma UnlinkedSound(g: Graph, parent: Inum, k: nat)
    requires Sound(g) && parent in g.dirs && k < |g.dirs[parent]|
    ensures Sound(Unlinked(g, parent, k))
  {
    var g', n := Unlinked(g, parent, k), g.dirs[parent][k].inum;
    assert Ref(g, parent, k, n);
    forall e: Inum, i: nat, x: Inum | Ref(g', e, i, x) ensures x in g'.live && x != 1 && x != e {
      UnlinkedRefs(g, parent, k, e, i, x);
      var i' := if e == parent && i >= k then i + 1 else i;
      assert Ref(g, e, i', x);
      assert x != n;
    }
    forall e: Inum, i: nat, f: Inum, j: nat, x: Inum | Ref(g', e, i, x) && Ref(g', f, j, x) ensures e == f && i == j {
      UnlinkedRefs(g, parent, k, e, i, x);
      UnlinkedRefs(g, parent, k, f, j, x);
    }
  }

  // ---- The graph that a store holds ----

  predicate IsDir(s: Store, d: Inum) {
    d in s && !IsFile(d)
  }

  function GraphOf(s: Store): Graph {
    Graph(s.Keys, map d | d in s && !IsFile(d) :: ReadDir(s[d]))
  }

  ghost predicate DirText(t: string) {
    Unique(ReadDir(t)) && exists ls :: Shows(t, ls, ReadDir(t))
  }

  ghost predicate TextsOk(s: Store) {
    forall d :: IsDir(s, d) ==> DirText(s[d])
  }

  ghost predicate Inv(s: Store) {
    (forall k :: k in s ==> k < TWO32) && TextsOk(s) && Sound(GraphOf(s))
  }

  const ROOT: Store := map[1 := ""]

  lemma EmptyText()
    ensures DirText("") && ReadDir("") == []
  {
    assert Shows("", [], []);
  }

  lemma RootHolds()
    ensures Inv(ROOT)
  {
    EmptyText();
  }

  lemma AddedText(t: string, d: Dirent)
    requires DirText(t) && GoodEntry(d) && DirFind(t, d.name) == NotFound
    ensures DirText(AddEntry(t, d)) && ReadDir(AddEntry(t, d)) == ReadDir(t) + [d]
  {
    var es := ReadDir(t);
    var ls :| Shows(t, ls, es);
    ShownText(t, ls, es, d.name);
    AddRendered(ls, d);
    ShownText(AddEntry(t, d), ls + [Some(d)], es + [d], d.name);
    assert Shows(AddEntry(t, d), ls + [Some(d)], es + [d]);
  }

  // The text with the entry of that name gone, which was the k-th.
  lemma ErasedText(t: string, name: string) returns (k: nat)
    requires DirText(t) && DirFind(t, name).Found?
    ensures var f := DirFind(t, name);
            && k < |ReadDir(t)| && ReadDir(t)[k] == Dirent(name, f.inum) && !EraseThrows(t, f)
            && ReadDir(Erased(t, f)) == RemoveAt(ReadDir(t), k) && DirText(Erased(t, f))
  {
    var es := ReadDir(t);
    var ls :| Shows(t, ls, es);
    ShownText(t, ls, es, name);
    var ls' := EraseShown(t, ls, es, name);
    var f := DirFind(t, name);
    k :| 0 <= k < |es| && es[k] == Dirent(name, f.inum);
    WithoutIsRemoveAt(es, k);
    ShownText(Erased(t, f), ls', Without(es, name), name);
  }

  lemma WithoutIsRemoveAt(es: seq<Dirent>, k: nat)
    requires Unique(es) && k < |es|
    ensures Without(es, es[k].name) == RemoveAt(es, k)
  {
    CutAt(es, k);
    WithoutOne(es[..k], es[k], es[k + 1..]);
  }

  lemma SmallKeys(a: Inum, b: Inum)
    requires a < TWO32 && b < TWO32
    ensures Narrow(a) == a && Narrow(b) == b
  {
  }

  lemma TextsStored(s: Store, d: Inum, text: string)
    requires TextsOk(s) && (IsFile(d) || DirText(text))
    ensures TextsOk(s[d := text])
  {
    var s' := s[d := text];
    forall e | IsDir(s', e) ensures DirText(s'[e]) {
      if e != d {
        assert IsDir(s, e);
      }
    }
  }

  // One text stored, seen as a graph.
  lemma FileStored(s: Store, d: Inum, text: string)
    requires IsFile(d)
    ensures GraphOf(s[d := text]) == Graph(s.Keys + {d}, GraphOf(s).dirs)
  {
    assert GraphOf(s[d := text]).dirs == GraphOf(s).dirs;
  }

  lemma DirStored(s: Store, d: Inum, text: string)
    requires !IsFile(d)
    ensures GraphOf(s[d := text]) == Graph(s.Keys + {d}, GraphOf(s).dirs[d := ReadDir(text)])
  {
    var ds, es := GraphOf(s[d := text]).dirs, ReadDir(text);
    assert ds.Keys == GraphOf(s).dirs.Keys + {d};
    assert ds[d] == es;
    assert ds == GraphOf(s).dirs[d := es];
  }

  lemma DropText(s: Store, d: Inum)
    ensures TextsOk(s) ==> TextsOk(s - {d})
    ensures GraphOf(s - {d}) == Graph(s.Keys - {d}, GraphOf(s).dirs - {d})
  {
    assert GraphOf(s - {d}).live == s.Keys - {d};
    assert GraphOf(s - {d}).dirs == GraphOf(s).dirs - {d};
  }

  // ---- The operations on a sound store ----

  // The conditions under which dir_add_entry adds an entry.
  predicate Adds(s: Store, parent: Inum, name: string, n: Inum) {
    IsDir(s, parent) && parent < TWO32 && Fit(n, parent) && GoodName(name) && DirFind(s[parent], name) == NotFound
  }

  lemma CreateGraph(s: Store, parent: Inum, name: string, n: Inum)
    requires Inv(s) && Adds(s, parent, name, n)
    ensures var s' := Create(s, parent, name, n).store;
            && (forall k :: k in s' ==> k < TWO32) && TextsOk(s')
            && GraphOf(s') == Linked(GraphOf(s), parent, Dirent(name, n), !IsFile(n))
  {
    var d := Dirent(name, n);
    SmallKeys(parent, n);
    AddedText(s[parent], d);
    var text := AddEntry(s[parent], d);
    EmptyText();
    TextsStored(s, n, "");
    if IsFile(n) {
      FileStored(s, n, "");
    } else {
      DirStored(s, n, "");
    }
    TextsStored(s[n := ""], parent, text);
    DirStored(s[n := ""], parent, text);
    assert Create(s, parent, name, n).store == s[n := ""][parent := text];
    assert s.Keys + {n} + {parent} == s.Keys + {n};
  }

  // The name space survives the creation of an entry if and only if the new inum was in no directory yet.
  lemma CreateExact(s: Store, parent: Inum, name: string, n: Inum)
    requires Inv(s) && Adds(s, parent, name, n)
    ensures Inv(Create(s, parent, name, n).store) <==> !Referenced(GraphOf(s), n)
  {
    CreateGraph(s, parent, name, n);
    LinkedSound(GraphOf(s), parent, Dirent(name, n), !IsFile(n));
  }

  lemma FindReads(t: string, name: string)
    requires DirText(t)
    ensures DirFind(t, name).Found? <==> Has(ReadDir(t), name)
  {
    var ls :| Shows(t, ls, ReadDir(t));
    ShownText(t, ls, ReadDir(t), name);
  }

  // dir_find gives the inum that the listing shows.
  lemma FindShows(t: string, name: string)
    requires DirText(t) && DirFind(t, name).Found?
    ensures Dirent(name, DirFind(t, name).inum) in ReadDir(t)
  {
    var k := ErasedText(t, name);
  }

  lemma ShowsOne(es: seq<Dirent>, name: string, m: nat, n: nat)
    requires Unique(es) && Dirent(name, m) in es && Dirent(name, n) in es
    ensures m == n
  {
    var i :| 0 <= i < |es| && es[i] == Dirent(name, m);
    var j :| 0 <= j < |es| && es[j] == Dirent(name, n);
    assert i == j;
  }

  // Two directory texts answer alike for a name that both show with the same inum, or neither shows.
  lemma SameAnswer(t: string, t': string, name: string)
    requires DirText(t) && DirText(t')
    requires forall n :: Dirent(name, n) in ReadDir(t) <==> Dirent(name, n) in ReadDir(t')
    ensures DirFind(t, name).Found? <==> DirFind(t', name).Found?
    ensures DirFind(t, name).Found? ==> DirFind(t, name).inum == DirFind(t', name).inum
  {
    FindReads(t, name);
    FindReads(t', name);
    if DirFind(t, name).Found? {
      FindShows(t, name);
      assert Dirent(name, DirFind(t, name).inum) in ReadDir(t');
    }
    if DirFind(t', name).Found? {
      FindShows(t', name);
      assert Dirent(name, DirFind(t', name).inum) in ReadDir(t);
    }
    if DirFind(t, name).Found? && DirFind(t', name).Found? {
      ShowsOne(ReadDir(t), name, DirFind(t, name).inum, DirFind(t', name).inum);
    }
  }

  // The text with one entry added answers for it, and as before for every other name.
  lemma AddedAnswers(t: string, d: Dirent, m: string)
    requires DirText(t) && GoodEntry(d) && DirFind(t, d.name) == NotFound
    ensures var t' := AddEntry(t, d);
            && DirFind(t', d.name).Found? && DirFind(t', d.name).inum == d.inum
            && (m != d.name ==> (DirFind(t', m).Found? <==> DirFind(t, m).Found?))
            && (m != d.name && DirFind(t, m).Found? ==> DirFind(t', m).inum == DirFind(t, m).inum)
  {
    var t' := AddEntry(t, d);
    AddedText(t, d);
    assert ReadDir(t')[|ReadDir(t)|] == d;
    FindReads(t', d.name);
    FindShows(t', d.name);
    ShowsOne(ReadDir(t'), d.name, DirFind(t', d.name).inum, d.inum);
    if m != d.name {
      SameAnswer(t, t', m);
    }
  }

  // What create reports and what it changes: the inum reported is the one now found under the name,
  // its extent is empty, and other names and other extents stay.
  lemma CreateAnswers(s: Store, parent: Inum, name: string, n: Inum, m: string)
    requires Inv(s) && Adds(s, parent, name, n)
    ensures var o := Create(s, parent, name, n);
            && o.status == YOK && o.inum == n && Get(o.store, n) == Some("") && parent in o.store
            && (forall k :: k != parent && k != n ==> (k in o.store <==> k in s) && (k in s ==> o.store[k] == s[k]))
            && var t, t' := s[parent], o.store[parent];
               && DirFind(t', name).Found? && DirFind(t', name).inum == o.inum
               && (m != name ==> (DirFind(t', m).Found? <==> DirFind(t, m).Found?))
               && (m != name && DirFind(t, m).Found? ==> DirFind(t', m).inum == DirFind(t, m).inum)
  {
    SmallKeys(parent, n);
    AddedAnswers(s[parent], Dirent(name, n), m);
  }

  // A name that exists is reported with its inum, and nothing changes.
  lemma ExistsAnswers(s: Store, parent: Inum, name: string, n: Inum)
    requires Inv(s) && IsDir(s, parent) && parent < TWO32 && DirFind(s[parent], name).Found?
    ensures var o := Create(s, parent, name, n);
            o.status == YEXIST && o.store == s && Dirent(name, o.inum) in ReadDir(s[parent])
  {
    SmallKeys(parent, parent);
    FindShows(s[parent], name);
  }

  // new_inum never looks whether its number is taken: drawn twice, one number gets two names.
  lemma ReusedInumBreaks(s: Store, parent: Inum, a: string, b: string, n: Inum)
    requires Inv(s) && Adds(s, parent, a, n) && Adds(s, parent, b, n) && a != b && !Referenced(GraphOf(s), n)
    ensures var s1 := Create(s, parent, a, n).store;
            Inv(s1) && Create(s1, parent, b, n).status == YOK && !Inv(Create(s1, parent, b, n).store)
  {
    var s1, es := Create(s, parent, a, n).store, ReadDir(s[parent]);
    CreateExact(s, parent, a, n);
    CreateGraph(s, parent, a, n);
    SmallKeys(parent, n);
    assert IsDir(s1, parent) && ReadDir(s1[parent]) == GraphOf(s1).dirs[parent] == es + [Dirent(a, n)];
    FindReads(s[parent], b);
    FindReads(s1[parent], b);
    assert Ref(GraphOf(s1), parent, |es|, n);
    CreateExact(s1, parent, b, n);
  }

  lemma ReuseReached()
    ensures var s1 := Create(ROOT, 1, "a", 2).store;
            Inv(s1) && Create(s1, 1, "b", 2).status == YOK && !Inv(Create(s1, 1, "b", 2).store)
  {
    RootHolds();
    EmptyText();
    FindReads("", "a");
    FindReads("", "b");
    assert GraphOf(ROOT).dirs[1] == [];
    ReusedInumBreaks(ROOT, 1, "a", "b", 2);
  }

  lemma UnlinkGraph(s: Store, parent: Inum, name: string) returns (k: nat)
    requires Inv(s) && IsDir(s, parent) && parent < TWO32 && DirFind(s[parent], name).Found?
    ensures var o, g := Unlink(s, parent, name), GraphOf(s);
            && o.status == YOK && (forall k :: k in o.store ==> k < TWO32) && TextsOk(o.store)
            && k < |g.dirs[parent]| && GraphOf(o.store) == Unlinked(g, parent, k)
  {
    var t, f := s[parent], DirFind(s[parent], name);
    var g, n := GraphOf(s), f.inum;
    k := ErasedText(t, name);
    assert Ref(g, parent, k, n);
    SmallKeys(parent, n);
    DropText(s, n);
    TextsStored(s - {n}, parent, Erased(t, f));
    DirStored(s - {n}, parent, Erased(t, f));
    assert Unlink(s, parent, name).store == (s - {n})[parent := Erased(t, f)];
    assert s.Keys - {n} + {parent} == s.Keys - {n};
  }

  // Nothing happens in a directory that is not there, or to an entry whose extent is not there.
  lemma MissingExtent(s: Store, parent: Inum, name: string, n: Inum)
    ensures Get(s, parent).None? ==> Create(s, parent, name, n) == Unlink(s, parent, name) == Outcome(s, YNOENT, 0)
    ensures Get(s, parent).Some? ==>
              var f := DirFind(Get(s, parent).value, name);
              f.Found? && Get(s, f.inum).None? ==> Unlink(s, parent, name) == Outcome(s, YNOENT, 0)
  {
  }

  lemma ErasedAnswers(t: string, name: string, m: string)
    requires DirText(t) && DirFind(t, name).Found?
    ensures var f := DirFind(t, name);
            && !EraseThrows(t, f)
            && var t' := Erased(t, f);
               && !DirFind(t', name).Found?
               && (m != name ==> (DirFind(t', m).Found? <==> DirFind(t, m).Found?))
               && (m != name && DirFind(t, m).Found? ==> DirFind(t', m).inum == DirFind(t, m).inum)
  {
    var es := ReadDir(t);
    var k := ErasedText(t, name);
    var t' := Erased(t, DirFind(t, name));
    WithoutIsRemoveAt(es, k);
    WithoutFilters(es, name);
    FindReads(t', name);
    if m != name {
      SameAnswer(t, t', m);
    }
  }

  // What remove changes: the name and its extent are gone, other names and other extents stay; a
  // missing name is an error that changes nothing.
  lemma UnlinkAnswers(s: Store, parent: Inum, name: string, m: string)
    requires Inv(s) && IsDir(s, parent) && parent < TWO32
    ensures var o, t := Unlink(s, parent, name), s[parent];
            if DirFind(t, name).NotFound? then o == Outcome(s, YIOERR, 0)
            else
              && o.status == YOK && DirFind(t, name).inum !in o.store && parent in o.store
              && (forall k :: k != parent && k != DirFind(t, name).inum ==>
                    (k in o.store <==> k in s) && (k in s ==> o.store[k] == s[k]))
              && var t' := o.store[parent];
                 && !DirFind(t', name).Found?
                 && (m != name ==> (DirFind(t', m).Found? <==> DirFind(t, m).Found?))
                 && (m != name && DirFind(t, m).Found? ==> DirFind(t', m).inum == DirFind(t, m).inum)
  {
    SmallKeys(parent, parent);
    var t, f := s[parent], DirFind(s[parent], name);
    if f.Found? {
      var k := ErasedText(t, name);
      assert Ref(GraphOf(s), parent, k, f.inum);
      SmallKeys(parent, f.inum);
      ErasedAnswers(t, name, m);
      assert Unlink(s, parent, name).store == (s - {f.inum})[parent := Erased(t, f)];
    }
  }

  // A write is read back, and changes no other extent.
  lemma WriteAnswers(s: Store, f: Inum, buf: string, k: Inum)
    requires Get(s, f).Some?
    ensures var s' := Overwrite(s, f, buf);
            Get(s', f) == Some(buf) && (Narrow(k) != Narrow(f) ==> Get(s', k) == Get(s, k))
  {
  }

  lemma UnlinkKeeps(s: Store, parent: Inum, name: string)
    requires Inv(s) && IsDir(s, parent) && parent < TWO32 && DirFind(s[parent], name).Found?
    ensures Unlink(s, parent, name).status == YOK && Inv(Unlink(s, parent, name).store)
  {
    var k := UnlinkGraph(s, parent, name);
    UnlinkedSound(GraphOf(s), parent, k);
  }

  lemma WriteKeeps(s: Store, f: Inum, buf: string)
    requires Inv(s) && f < TWO32 && IsFile(f)
    ensures Inv(Overwrite(s, f, buf)) && GraphOf(Overwrite(s, f, buf)) == GraphOf(s)
  {
    SmallKeys(f, f);
    var s' := Overwrite(s, f, buf);
    assert GraphOf(s') == GraphOf(s);
  }

  // Where the line of that name starts.
  function LineStart(t: string, pos: nat, name: string): (r: nat)
    requires pos <= |t| && FindFrom(t, pos, name).Found?
    ensures pos <= r < |t|
    decreases |t| - pos
  {
    var l := GetLine(t, pos);
    if l.text != "" && EntRead(l.text).value.name == name then pos else LineStart(t, l.next, name)
  }

  // len bytes from off on hold no newline, and a newline follows them.
  predicate LineRange(t: string, off: int, len: nat) {
    && 0 <= off && off + len < |t| && t[off + len] == '\n'
    && forall i :: off <= i < off + len ==> t[i] != '\n'
  }

  // On every text, what is erased is the entry's line from its first byte up to its newline.
  lemma {:induction false} ErasesLine(t: string, pos: nat, name: string)
    requires pos <= |t| && FindFrom(t, pos, name).Found? && !EraseThrows(t, FindFrom(t, pos, name))
    ensures var f := FindFrom(t, pos, name);
            f.off == LineStart(t, pos, name) && LineRange(t, f.off, f.len)
    decreases |t| - pos
  {
    var l := GetLine(t, pos);
    if l.text == "" || EntRead(l.text).value.name != name {
      ErasesLine(t, l.next, name);
    } else {
      var e := IndexOf(t, '\n', pos);
      assert LineRange(t, pos, e - pos);
    }
  }

  // Removal throws if and only if no newline follows the entry.
  lemma {:induction false} ThrowsExact(t: string, pos: nat, name: string)
    requires pos <= |t| && FindFrom(t, pos, name).Found?
    ensures EraseThrows(t, FindFrom(t, pos, name)) <==> '\n' !in t[LineStart(t, pos, name)..]
    decreases |t| - pos
  {
    var l := GetLine(t, pos);
    if l.text != "" && EntRead(l.text).value.name == name {
      var e := IndexOf(t, '\n', pos);
      if e < |t| {
        assert t[pos..][e - pos] == '\n';
      }
    } else {
      ThrowsExact(t, l.next, name);
    }
  }

  lemma FirstText()
    ensures AddEntry("", Dirent("a", 2)) == "a:2\n"
  {
    assert Decimal(2) == "2";
    assert "a" + ":" + "2" == "a:2" && "a:2" + "\n" == "a:2\n" && "" + "a:2\n" == "a:2\n";
  }

  lemma ThrownText()
    ensures DirFind("a:2", "a") == Found(2, -5, 3)
  {
    var t := "a:2";
    assert IndexOf(t, '\n', 3) == 3;
    assert IndexOf(t, '\n', 0) == 3 && t[0..3] == t;
    IndexOfIs(t, ':', 0, 1);
    assert t[2..] == "2" == Decimal(2) && t[..1] == "a";
    NumberRoundTrip(2);
  }

  // Create "a", cut the root's text to three bytes with resize, remove "a".
  lemma ThrowReached()
    ensures var s := Create(ROOT, 1, "a", 2).store;
            && s == map[1 := "a:2\n", 2 := ""]
            && Unlink(Overwrite(s, 1, s[1][..3]), 1, "a") == Outcome(map[1 := "a:2"], Thrown, 0)
  {
    FirstText();
    ThrownText();
    var s := Create(ROOT, 1, "a", 2).store;
    assert s == map[1 := "a:2\n", 2 := ""] && "a:2\n"[..3] == "a:2";
    var s' := Overwrite(s, 1, "a:2");
    assert s' == map[1 := "a:2", 2 := ""];
    assert s' - {2} == map[1 := "a:2"];
  }

  // ---- Every sequence of operations ----

  // A creation carries the kind asked for and the numbers that random() gives it.
  datatype Action =
    | DoCreate(parent: Inum, name: string, isfile: bool, randoms: seq<nat>)
    | DoUnlink(parent: Inum, name: string)
    | DoWrite(file: Inum, buf: string)

  // Directories are used as parents and files are written; a number that gets a name had none.
  ghost predicate Proper(s: Store, a: Action) {
    match a
    case DoCreate(p, name, isfile, randoms) =>
      && p < TWO32 && !IsFile(p) && GoodName(name) && Draws(randoms)
      && forall n :: Makes(s, a, n) ==> !Referenced(GraphOf(s), n)
    case DoUnlink(p, _) => p < TWO32 && !IsFile(p)
    case DoWrite(f, _) => f < TWO32 && IsFile(f)
  }

  // The action creates an entry for n.
  predicate Makes(s: Store, a: Action, n: Inum) {
    && a.DoCreate? && Draws(a.randoms) && Drawn(a.parent, a.isfile, a.randoms) == Some(n)
    && Create(s, a.parent, a.name, n).status == YOK
  }

  function CreateDrawn(s: Store, p: Inum, name: string, drawn: Option<Inum>): Store {
    if drawn.Some? then Create(s, p, name, drawn.value).store else s
  }

  function Perform(s: Store, a: Action): Store {
    match a
    case DoCreate(p, name, isfile, randoms) =>
      if Draws(randoms) then CreateDrawn(s, p, name, Drawn(p, isfile, randoms)) else s
    case DoUnlink(p, name) => Unlink(s, p, name).store
    case DoWrite(f, buf) => Overwrite(s, f, buf)
  }

  lemma MakesAdds(s: Store, a: Action, n: Inum)
    requires Inv(s) && Proper(s, a) && Makes(s, a, n)
    ensures Adds(s, a.parent, a.name, n) && Perform(s, a) == Create(s, a.parent, a.name, n).store
    ensures IsFile(n) == a.isfile && !Referenced(GraphOf(s), n)
  {
    SmallKeys(a.parent, a.parent);
  }

  lemma CreateCase(s: Store, a: Action)
    requires Inv(s) && Proper(s, a) && a.DoCreate?
    ensures Inv(Perform(s, a))
    ensures (forall n :: !Makes(s, a, n)) ==> Perform(s, a) == s
  {
    var drawn := Drawn(a.parent, a.isfile, a.randoms);
    if drawn.Some? && Makes(s, a, drawn.value) {
      MakesAdds(s, a, drawn.value);
      CreateExact(s, a.parent, a.name, drawn.value);
    } else {
      assert Perform(s, a) == s;
    }
  }

  lemma UnlinkCase(s: Store, p: Inum, name: string)
    requires Inv(s) && Proper(s, DoUnlink(p, name))
    ensures Inv(Unlink(s, p, name).store)
  {
    SmallKeys(p, p);
    if p in s && DirFind(s[p], name).Found? {
      UnlinkKeeps(s, p, name);
    } else {
      assert Unlink(s, p, name).store == s;
    }
  }

  lemma ActionKeeps(s: Store, a: Action)
    requires Inv(s) && Proper(s, a)
    ensures Inv(Perform(s, a))
  {
    match a
    case DoCreate(_, _, _, _) => CreateCase(s, a);
    case DoUnlink(p, name) => UnlinkCase(s, p, name);
    case DoWrite(f, buf) => WriteKeeps(s, f, buf);
  }

  ghost predicate Run(s: Store, acts: seq<Action>)
    decreases |acts|
  {
    acts == [] || (Proper(s, acts[0]) && Run(Perform(s, acts[0]), acts[1..]))
  }

  function After(s: Store, acts: seq<Action>): Store
    decreases |acts|
  {
    if acts == [] then s else After(Perform(s, acts[0]), acts[1..])
  }

  lemma {:induction false} RunKeeps(s: Store, acts: seq<Action>)
    requires Inv(s) && Run(s, acts)
    ensures Inv(After(s, acts))
    decreases |acts|
  {
    if acts != [] {
      ActionKeeps(s, acts[0]);
      RunKeeps(Perform(s, acts[0]), acts[1..]);
    }
  }

  // After any operations with fresh inums: every directory is a readable text with unique names,
  // every entry names a live extent, and each inum is in at most one place.
  lemma NamespaceSound(acts: seq<Action>)
    requires Run(ROOT, acts)
    ensures Inv(After(ROOT, acts))
  {
    RootHolds();
    RunKeeps(ROOT, acts);
  }

  // ---- Bit 31 is the kind that was asked for ----

  // For every inum that got a name, what it was last created as: true for a file.
  function Asked(s: Store, kinds: map<Inum, bool>, a: Action): map<Inum, bool> {
    if a.DoCreate? && Draws(a.randoms) then
      var drawn := Drawn(a.parent, a.isfile, a.randoms);
      if drawn.Some? && Makes(s, a, drawn.value) then kinds[drawn.value := a.isfile] else kinds
    else kinds
  }

  function AskedAll(s: Store, kinds: map<Inum, bool>, acts: seq<Action>): map<Inum, bool>
    decreases |acts|
  {
    if acts == [] then kinds else AskedAll(Perform(s, acts[0]), Asked(s, kinds, acts[0]), acts[1..])
  }

  ghost predicate KindsOk(g: Graph, kinds: map<Inum, bool>) {
    && (forall d: Inum, i: nat, n: Inum :: Ref(g, d, i, n) ==> n in kinds)
    && (forall n :: n in kinds ==> kinds[n] == IsFile(n))
  }

  lemma CreateKinds(s: Store, kinds: map<Inum, bool>, a: Action)
    requires Inv(s) && Proper(s, a) && a.DoCreate? && KindsOk(GraphOf(s), kinds)
    ensures KindsOk(GraphOf(Perform(s, a)), Asked(s, kinds, a))
  {
    CreateCase(s, a);
    var drawn := Drawn(a.parent, a.isfile, a.randoms);
    if drawn.Some? && Makes(s, a, drawn.value) {
      var n, g := drawn.value, GraphOf(s);
      MakesAdds(s, a, n);
      CreateGraph(s, a.parent, a.name, n);
      var d := Dirent(a.name, n);
      var g' := Linked(g, a.parent, d, !IsFile(n));
      forall e: Inum, i: nat, x: Inum | Ref(g', e, i, x) ensures x in Asked(s, kinds, a)
      {
        LinkedRefs(g, a.parent, d, !IsFile(n), e, i, x);
      }
    }
  }

  lemma UnlinkKinds(s: Store, kinds: map<Inum, bool>, p: Inum, name: string)
    requires Inv(s) && Proper(s, DoUnlink(p, name)) && KindsOk(GraphOf(s), kinds)
    ensures KindsOk(GraphOf(Unlink(s, p, name).store), kinds)
  {
    SmallKeys(p, p);
    if p in s && DirFind(s[p], name).Found? {
      var g := GraphOf(s);
      var k := UnlinkGraph(s, p, name);
      assert Ref(g, p, k, g.dirs[p][k].inum);
      forall e: Inum, i: nat, x: Inum | Ref(Unlinked(g, p, k), e, i, x) ensures x in kinds {
        UnlinkedRefs(g, p, k, e, i, x);
      }
    } else {
      assert Unlink(s, p, name).store == s;
    }
  }

  lemma {:induction false} RunKinds(s: Store, kinds: map<Inum, bool>, acts: seq<Action>)
    requires Inv(s) && Run(s, acts) && KindsOk(GraphOf(s), kinds)
    ensures KindsOk(GraphOf(After(s, acts)), AskedAll(s, kinds, acts))
    decreases |acts|
  {
    if acts != [] {
      var a := acts[0];
      ActionKeeps(s, a);
      match a {
        case DoCreate(_, _, _, _) => CreateKinds(s, kinds, a);
        case DoUnlink(p, name) => UnlinkKinds(s, kinds, p, name);
        case DoWrite(f, buf) => WriteKeeps(s, f, buf);
      }
      RunKinds(Perform(s, a), Asked(s, kinds, a), acts[1..]);
    }
  }

  // After any operations every entry was created as its bit 31 says, and what it names is kept and
  // read as a directory if and only if a directory was asked for.
  lemma KindsAgree(acts: seq<Action>)
    requires Run(ROOT, acts)
    ensures var g, kinds := GraphOf(After(ROOT, acts)), AskedAll(ROOT, map[], acts);
            forall d: Inum, i: nat, n: Inum :: Ref(g, d, i, n) ==>
              n in kinds && kinds[n] == IsFile(n) && (n in g.dirs <==> !kinds[n])
  {
    RootHolds();
    assert GraphOf(ROOT).dirs[1] == [];
    RunKinds(ROOT, map[], acts);
    NamespaceSound(acts);
  }

  // Narrowing ids to the store's key never merges two extents that directories name.
  lemma KeysNeverMerge(acts: seq<Action>)
    requires Run(ROOT, acts)
    ensures var g := GraphOf(After(ROOT, acts));
            forall d: Inum, i: nat, n: Inum, e: Inum, j: nat, m: Inum ::
              Ref(g, d, i, n) && Ref(g, e, j, m) && Narrow(n) == Narrow(m) ==> n == m && d == e && i == j
  {
    NamespaceSound(acts);
    var g := GraphOf(After(ROOT, acts));
    forall d: Inum, i: nat, n: Inum, e: Inum, j: nat, m: Inum |
      Ref(g, d, i, n) && Ref(g, e, j, m) && Narrow(n) == Narrow(m)
      ensures n == m && d == e && i == j
    {
      SmallKeys(n, m);
    }
  }
}
