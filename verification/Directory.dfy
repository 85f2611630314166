/** Directory listings as the kernel reads them: page by page, then name by name. */
module Directory {
  import opened Prelude
  import opened VfsCore
  import opened Paths
  import opened MemoryVfs
  import opened Agent
  import opened Server
  import opened MemoryServer
  import opened EndToEnd
  import Proto

  // ---------------------------------------------------------------- paging

  /** Consecutive entries of `all` from index `i`, each saying where to resume. */
  ghost predicate Consecutive(got: seq<Dirent>, all: seq<DirEntry>, i: nat) {
    i + |got| <= Max(i, |all|) &&
    forall m :: 0 <= m < |got| ==>
      got[m].name == all[i + m].name && got[m].kind == all[i + m].kind && got[m].next == i + m + 1
  }

  /** Each entry carries the inode number that `t` holds for it. */
  ghost predicate Numbered(t: Tables, dir: Path, ino: nat, got: seq<Dirent>) {
    forall m :: 0 <= m < |got| ==> EntryIno(t, dir, ino, got[m].name) == (t, got[m].ino)
  }

  lemma ConsecutiveConcat(a: seq<Dirent>, b: seq<Dirent>, all: seq<DirEntry>, i: nat)
    requires Consecutive(a, all, i) && Consecutive(b, all, i + |a|)
    ensures Consecutive(a + b, all, i)
  {
  }

  /** A page is a run of consecutive entries, not empty when the first one fits. */
  lemma {:induction false} FillIsConsecutive(t: Tables, dir: Path, ino: nat, all: seq<DirEntry>, i: nat, room: nat)
    ensures
      var page := Fill(t, dir, ino, all, i, room).1;
      Consecutive(page, all, i) && (i < |all| && EntrySize(all[i].name) <= room ==> page != [])
    decreases |all| - i
  {
    hide EntryIno, EntrySize;
    if i < |all| && EntrySize(all[i].name) <= room {
      var (t1, child) := EntryIno(t, dir, ino, all[i].name);
      var rest := room - EntrySize(all[i].name);
      FillIsConsecutive(t1, dir, ino, all, i + 1, rest);
      var more := Fill(t1, dir, ino, all, i + 1, rest).1;
      ConsecutiveConcat([Dirent(child, i + 1, all[i].kind, all[i].name)], more, all, i);
    }
  }

  /** An entry takes its header and name, padded to eight bytes. */
  lemma EntryPadding(name: Name)
    ensures EntrySize(name) % 8 == 0 && 24 + |name| <= EntrySize(name) < 32 + |name|
  {
  }

  function PageBytes(page: seq<Dirent>): nat {
    if page == [] then 0 else EntrySize(page[0].name) + PageBytes(page[1..])
  }

  /** A page never exceeds its buffer, and ends only where the next entry would. */
  lemma {:induction false} FillPacks(t: Tables, dir: Path, ino: nat, all: seq<DirEntry>, i: nat, room: nat)
    ensures
      var page := Fill(t, dir, ino, all, i, room).1;
      && PageBytes(page) <= room
      && (i + |page| < |all| ==> PageBytes(page) + EntrySize(all[i + |page|].name) > room)
    decreases |all| - i
  {
    hide EntryIno, EntrySize;
    if i < |all| && EntrySize(all[i].name) <= room {
      var (t1, child) := EntryIno(t, dir, ino, all[i].name);
      var rest := room - EntrySize(all[i].name);
      FillPacks(t1, dir, ino, all, i + 1, rest);
      var page := Fill(t, dir, ino, all, i, room).1;
      assert page[1..] == Fill(t1, dir, ino, all, i + 1, rest).1;
    }
  }

  /** The child at which a page ends has been given its number already. */
  lemma {:induction false} FillMeetsNext(t: Tables, dir: Path, ino: nat, all: seq<DirEntry>, i: nat, room: nat)
    requires TablesOk(t)
    ensures
      var (t', page) := Fill(t, dir, ino, all, i, room);
      i + |page| < |all| ==> EntryIno(t', dir, ino, all[i + |page|].name).0 == t'
    decreases |all| - i
  {
    hide KeyOf, Push, Intern, EntrySize, TablesOk, Extends;
    if i < |all| {
      var name := all[i].name;
      if name != DOT_NAME && name != DOT_DOT { InternOk(t, Push(dir, name)); }
      var (t1, child) := EntryIno(t, dir, ino, name);
      if EntrySize(name) <= room {
        FillMeetsNext(t1, dir, ino, all, i + 1, room - EntrySize(name));
      }
    }
  }

  lemma InternStable(t: Tables, t': Tables, p: Path, ino: nat)
    requires Intern(t, p) == (t, ino) && TablesOk(t) && Extends(t, t')
    ensures Intern(t', p) == (t', ino)
  {
    hide KeyOf;
  }

  /** Numbers, once given, stay. */
  lemma NumberedStable(t: Tables, t': Tables, dir: Path, ino: nat, got: seq<Dirent>)
    requires TablesOk(t) && Extends(t, t') && Numbered(t, dir, ino, got)
    ensures Numbered(t', dir, ino, got)
  {
    hide KeyOf, Push, TablesOk, Extends, Intern;
    forall m | 0 <= m < |got|
      ensures EntryIno(t', dir, ino, got[m].name) == (t', got[m].ino)
    {
      var e := got[m];
      if e.name != DOT_NAME && e.name != DOT_DOT { InternStable(t, t', Push(dir, e.name), e.ino); }
    }
  }

  lemma {:induction false} FillNumbersEntries(t: Tables, dir: Path, ino: nat, all: seq<DirEntry>, i: nat, room: nat)
    requires TablesOk(t)
    ensures
      var (t', page) := Fill(t, dir, ino, all, i, room);
      TablesOk(t') && Extends(t, t') && Numbered(t', dir, ino, page)
    decreases |all| - i
  {
    hide KeyOf, Push, Intern, EntrySize, TablesOk, Extends;
    FillOk(t, dir, ino, all, i, room);
    if i < |all| && EntrySize(all[i].name) <= room {
      var name := all[i].name;
      var (t1, child) := EntryIno(t, dir, ino, name);
      var rest := room - EntrySize(name);
      if name != DOT_NAME && name != DOT_DOT { InternOk(t, Push(dir, name)); }
      FillNumbersEntries(t1, dir, ino, all, i + 1, rest);
      var (t', more) := Fill(t1, dir, ino, all, i + 1, rest);
      NumberedStable(t1, t', dir, ino, [Dirent(child, i + 1, all[i].kind, name)]);
    }
  }

  /** The kernel reads a directory with buffers of the given sizes, each time from
      the offset the last entry named. */
  function ReadAll<S>(v: Vfs<S>, a: Agent<S>, ino: nat, at: i64, sizes: seq<nat>): (Agent<S>, seq<Dirent>)
    decreases |sizes|
  {
    if sizes == [] then (a, [])
    else
      match Step(v, a, ReadDir(ino, at, sizes[0]))
      case (a', Listing(page)) =>
        var next := if page == [] then at else page[|page| - 1].next;
        if next >= TWO_63 then (a', page)
        else
          var (a'', more) := ReadAll(v, a', ino, next, sizes[1..]);
          (a'', page + more)
      case (a', _) => (a', [])
  }

  /** The directory's listing does not change during the next `n` times it is asked for. */
  predicate ListsAlong<S>(v: Vfs<S>, s: S, p: Path, entries: seq<DirEntry>, n: nat) {
    n == 0 || (v.list(s, p).1 == Ok(entries) && ListsAlong(v, v.list(s, p).0, p, entries, n - 1))
  }

  /** Every entry, `.` and `..` included, is delivered exactly once and in order,
      however the buffers are sized, so long as each has room for one entry. */
  lemma {:induction false} PagingDeliversEachOnce<S>(
    v: Vfs<S>, a: Agent<S>, ino: nat, p: Path, entries: seq<DirEntry>, at: nat, sizes: seq<nat>)
    requires PathFor(a.t, ino) == Some(p) && TablesOk(a.t) && ListsAlong(v, a.s, p, entries, |sizes|)
    requires |WithDots(entries)| < TWO_63 && at <= |WithDots(entries)|
    requires forall c <- sizes, e <- WithDots(entries) :: EntrySize(e.name) <= c
    requires |sizes| >= |WithDots(entries)| - at
    ensures
      var (a', got) := ReadAll(v, a, ino, at, sizes);
      && |got| == |WithDots(entries)| - at && Consecutive(got, WithDots(entries), at)
      && TablesOk(a'.t) && Extends(a.t, a'.t) && Numbered(a'.t, p, ino, got)
    decreases |sizes|
  {
    hide KeyOf, EntrySize, TablesOk, Extends, Fill, Consecutive, Numbered, Step;
    if sizes == [] {
      ExtendsReflexive(a.t);
      NoEntries(a.t, p, ino, WithDots(entries), at);
    } else {
      var all := WithDots(entries);
      var a1, page := OnePage(v, a, ino, p, entries, at, sizes[0]);
      assert at < |all| ==> all[at] in all && sizes[0] in sizes;
      assert forall c <- sizes[1..] :: c in sizes;
      var next := at + |page|;
      SamePath(a.t, a1.t, ino);
      PagingDeliversEachOnce(v, a1, ino, p, entries, next, sizes[1..]);
      var (a2, more) := ReadAll(v, a1, ino, next, sizes[1..]);
      ReadAllUnfolds(v, a, ino, at, sizes, a1, page);
      PageThenRest(a.t, a1.t, a2.t, p, ino, page, more, all, at);
    }
  }

  lemma PageThenRest(t: Tables, t1: Tables, t2: Tables, dir: Path, ino: nat,
                     page: seq<Dirent>, more: seq<Dirent>, all: seq<DirEntry>, at: nat)
    requires TablesOk(t1) && Extends(t, t1) && Numbered(t1, dir, ino, page) && Consecutive(page, all, at)
    requires Extends(t1, t2) && Numbered(t2, dir, ino, more) && Consecutive(more, all, at + |page|)
    ensures Extends(t, t2) && Numbered(t2, dir, ino, page + more) && Consecutive(page + more, all, at)
  {
    hide TablesOk, Extends, Consecutive, Numbered;
    ExtendsTransitive(t, t1, t2);
    NumberedStable(t1, t2, dir, ino, page);
    ConsecutiveConcat(page, more, all, at);
    NumberedConcat(t2, dir, ino, page, more);
  }

  lemma ReadAllUnfolds<S>(
    v: Vfs<S>, a: Agent<S>, ino: nat, at: i64, sizes: seq<nat>, a1: Agent<S>, page: seq<Dirent>)
    requires sizes != [] && Step(v, a, ReadDir(ino, at, sizes[0])) == (a1, Listing(page))
    ensures
      var next := if page == [] then at else page[|page| - 1].next;
      next < TWO_63 ==>
        ReadAll(v, a, ino, at, sizes) ==
          (ReadAll(v, a1, ino, next, sizes[1..]).0, page + ReadAll(v, a1, ino, next, sizes[1..]).1)
  {
    hide Step;
  }

  /** One request of the kernel. */
  lemma OnePage<S>(v: Vfs<S>, a: Agent<S>, ino: nat, p: Path, entries: seq<DirEntry>, at: nat, size: nat)
    returns (a1: Agent<S>, page: seq<Dirent>)
    requires PathFor(a.t, ino) == Some(p) && TablesOk(a.t) && v.list(a.s, p).1 == Ok(entries)
    requires |WithDots(entries)| < TWO_63 && at <= |WithDots(entries)|
    ensures Step(v, a, ReadDir(ino, at, size)) == (a1, Listing(page)) && a1.s == v.list(a.s, p).0
    ensures TablesOk(a1.t) && Extends(a.t, a1.t) && Numbered(a1.t, p, ino, page)
    ensures Consecutive(page, WithDots(entries), at) && at + |page| <= |WithDots(entries)|
    ensures page != [] ==> page[|page| - 1].next == at + |page|
    ensures at < |WithDots(entries)| && EntrySize(WithDots(entries)[at].name) <= size ==> page != []
  {
    hide KeyOf, EntrySize, TablesOk, Extends, Fill, Numbered;
    var all := WithDots(entries);
    a1 := Step(v, a, ReadDir(ino, at, size)).0;
    page := Fill(a.t, p, ino, all, at, size).1;
    FillIsConsecutive(a.t, p, ino, all, at, size);
    FillNumbersEntries(a.t, p, ino, all, at, size);
  }

  lemma NoEntries(t: Tables, dir: Path, ino: nat, all: seq<DirEntry>, i: nat)
    requires i <= |all|
    ensures Consecutive([], all, i) && Numbered(t, dir, ino, [])
  {
  }

  lemma NumberedConcat(t: Tables, dir: Path, ino: nat, a: seq<Dirent>, b: seq<Dirent>)
    requires Numbered(t, dir, ino, a) && Numbered(t, dir, ino, b)
    ensures Numbered(t, dir, ino, a + b)
  {
    hide EntryIno;
  }

  lemma SamePath(t: Tables, t': Tables, ino: nat)
    requires Extends(t, t') && PathFor(t, ino).Some?
    ensures PathFor(t', ino) == PathFor(t, ino)
  {
    hide KeyOf;
  }

  // ------------------------------------------------ a listed name looks up

  /** On the in-memory filesystem, looking up a name a directory has just listed
      finds it, with the inode number and the kind the listing gave. */
  lemma ListedNameLooksUp(a: Agent<Mem>, w: World, ino: nat, at: i64, capacity: nat, m: nat)
    requires Right(a, w) && ino in w.names
    requires Enumerates(a.s.env(a.s.step).order, a.s.nodes.Keys)
    requires
      var (a', reply) := Step(Guest(), a, ReadDir(ino, at, capacity));
      && reply.Listing? && m < |reply.entries|
      && reply.entries[m].name != DOT_NAME && reply.entries[m].name != DOT_DOT
      && PathFor(a'.t, ino).Some?
      && Comes(a'.s, Proto.Stat(Push(PathFor(a'.t, ino).value, reply.entries[m].name)))
    ensures
      var (a', reply) := Step(Guest(), a, ReadDir(ino, at, capacity));
      var e := reply.entries[m];
      var found := Step(Guest(), a', Lookup(ino, e.name));
      found.1.Entry? && found.1.ino == e.ino && found.1.attr.kind == e.kind && found.0.t == a'.t
  {
    hide Guest, KeyOf, Push, Intern, Fill, TablesOk, PathsOk, TidyTable, Plain, Comes;
    hide HandlesRight, NamesRight, TreeRight, Absolute, Extends, Enumerates, ListIn, StatIn, EntrySize;
    NamedPath(a.t, w, ino);
    var p := PathFor(a.t, ino).value;
    AbsoluteIsRooted(p);
    GuestQueries(a.s, p, 0, 0);
    var order := a.s.env(a.s.step).order;
    var entries := ListIn(a.s.nodes, p, order).value;
    var all := WithDots(entries);
    var start := StartIndex(at, |all|);
    var (a', reply) := Step(Guest(), a, ReadDir(ino, at, capacity));
    var (t', page) := Fill(a.t, p, ino, all, start, capacity);
    FillIsConsecutive(a.t, p, ino, all, start, capacity);
    FillNumbersEntries(a.t, p, ino, all, start, capacity);
    SamePath(a.t, t', ino);
    var e := page[m];
    var d := all[start + m];
    assert d in entries;
    ListingAgreesWithLookup(a.s.nodes, p, order, a'.s.Now());
    GuestQueries(a'.s, Push(p, e.name), 0, 0);
  }

  lemma AbsoluteIsRooted(p: Path)
    requires Absolute(p)
    ensures KeyOf(p).rooted
  {
  }
}
