/** Every reply the agent gives over the in-memory filesystem, not only reads, is
    the one the observer expects; the observer knows paths and histories, and nothing
    of the agent's tables or the filesystem's. */
module Replies {
  import opened Prelude
  import opened VfsCore
  import opened Paths
  import opened FileBytes
  import opened MemoryVfs
  import opened Agent
  import opened Server
  import opened Client
  import opened MemoryServer
  import opened Calls
  import opened EndToEnd
  import opened Directory
  import Proto
  import Wire

  // ---------------------------------------------------------------- expectations

  function ItemKind(i: Item): FsKind { if i.Hist? then FsKind.File else FsKind.Dir }

  function ItemMode(i: Item): u32 { if i.Hist? then 0x1A4 else 0x1ED }

  predicate Describes(attr: FileAttr, i: Item) {
    attr.kind == ItemKind(i) && attr.mode == ItemMode(i)
    && attr.size == if i.Hist? then |Content(i.edits)| % 0x1_0000_0000_0000_0000 else 0
  }

  predicate IsFileOf(attr: FileAttr, size: u64) {
    attr.kind == FsKind.File && attr.mode == 0x1A4 && attr.size == size
  }

  /** A path keeps the number the kernel already knows it by, and a new path gets a
      number the kernel knows no other path by. */
  ghost predicate Steady(w: World, k: Key, ino: nat) {
    (forall i <- w.names :: w.names[i] == k ==> i == ino) && (ino in w.names ==> w.names[ino] == k)
  }

  ghost predicate ExpectedEntry(w: World, k: Key, i: Item, reply: Reply) {
    reply.Entry? && Describes(reply.attr, i) && Steady(w, k, reply.ino)
  }

  ghost predicate ExpectedAttr(w: World, ino: nat, reply: Reply) {
    var k := Named(w, ino);
    if k in w.tree then reply.Attr? && reply.ino == ino && Describes(reply.attr, w.tree[k])
    else reply == Failed(ENOENT)
  }

  /** `.` is the directory and `..` always the root; a child is stored, with its kind,
      under the number it is known by. */
  ghost predicate ExpectedChild(w: World, k: Key, ino: nat, e: Dirent) {
    if e.name == [46] then e.ino == ino && e.kind == FsKind.Dir
    else if e.name == [46, 46] then e.ino == 1 && e.kind == FsKind.Dir
    else
      Child(k, e.name) in w.tree && e.kind == ItemKind(w.tree[Child(k, e.name)]) && Steady(w, Child(k, e.name), e.ino)
  }

  ghost predicate ExpectedListing(w: World, k: Key, ino: nat, at: i64, reply: Reply) {
    && reply.Listing? && (at < 0 ==> reply.entries == [])
    && forall i :: 0 <= i < |reply.entries| ==>
         && reply.entries[i].next == at + i + 1 && ExpectedChild(w, k, ino, reply.entries[i])
         && (reply.entries[i].name == [46] <==> at + i == 0)
         && (reply.entries[i].name == [46, 46] <==> at + i == 1)
  }

  /** The table is iterated in some order of all its keys. */
  ghost predicate Ordered(s: Mem) { Enumerates(s.env(s.step).order, s.nodes.Keys) }

  /** Under any such order: no name and no child's number comes twice in a page, and
      when the buffer has room for any entry of the directory, the page is empty only
      past the last of them. */
  ghost predicate FullPage(w: World, k: Key, at: i64, capacity: nat, es: seq<Dirent>) {
    var count := 2 + |Children(w.tree.Keys, k)|;
    && (forall i, j :: 0 <= i < j < |es| ==> es[i].name != es[j].name)
    && (forall i, j :: 0 <= i < j < |es| && Plain(es[i].name) && Plain(es[j].name) ==> es[i].ino != es[j].ino)
    && |es| <= Max(0, count - at)
    && (0 <= at < count && RoomForEach(w, k, capacity) ==> es != [])
  }

  ghost predicate RoomForEach(w: World, k: Key, capacity: nat) {
    EntrySize(DOT_DOT) <= capacity &&
    forall c <- w.tree :: IsChild(c, k) && FileName(c).Some? ==> EntrySize(FileName(c).value) <= capacity
  }

  ghost predicate Expected(w: World, op: Op, reply: Reply) {
    match op
    case Lookup(parent, name) =>
      var k := Child(Named(w, parent), name);
      if k in w.tree then ExpectedEntry(w, k, w.tree[k], reply) else reply == Failed(ENOENT)
    case GetAttr(ino) => ExpectedAttr(w, ino, reply)
    case SetAttr(ino, None) => ExpectedAttr(w, ino, reply)
    case SetAttr(ino, Some(n)) =>
      var k := Named(w, ino);
      if k !in w.tree then reply == Failed(ENOENT)
      else if w.tree[k].Folder? then reply == Failed(EISDIR)
      else reply.Attr? && reply.ino == ino && IsFileOf(reply.attr, n)
    case OpenDir(ino) => reply.Opened? && reply.fh !in w.handles
    case OpenFile(ino) => reply.Opened? && reply.fh !in w.handles
    case ReleaseDir(_) => reply == Done
    case Release(_) => reply == Done
    case ReadDir(ino, at, _) =>
      var k := Named(w, ino);
      if k !in w.tree then reply == Failed(ENOENT)
      else if w.tree[k].Hist? then reply == Failed(ENOTDIR)
      else ExpectedListing(w, k, ino, at, reply)
    case ReadFile(fh, offset, len) => reply == Predicted(w, fh, offset, len)
    case WriteFile(fh, _, data) =>
      if fh !in w.handles then reply == Failed(EBADF)
      else if w.handles[fh] !in w.tree then reply == Failed(ENOENT)
      else if w.tree[w.handles[fh]].Folder? then reply == Failed(EISDIR)
      else reply == Written(|data| % 0x1_0000_0000)
    case CreateFile(parent, name, _) =>
      var k := Child(Named(w, parent), name);
      if k in w.tree then reply == Failed(EEXIST)
      else reply.Created? && Describes(reply.attr, Hist([])) && Steady(w, k, reply.ino) && reply.fh !in w.handles
    case MakeDir(parent, name, _) =>
      var k := Child(Named(w, parent), name);
      if k in w.tree then reply == Failed(EEXIST) else ExpectedEntry(w, k, Folder, reply)
    case Unlink(parent, name) =>
      reply == if Child(Named(w, parent), name) in w.tree then Done else Failed(ENOENT)
    case RemoveDir(parent, name) =>
      reply == if Child(Named(w, parent), name) in w.tree then Done else Failed(ENOENT)
    case Move(parent, name, _, _) =>
      reply == if Child(Named(w, parent), name) in w.tree then Done else Failed(ENOENT)
  }

  /** `reply` is right for the agent `a`, of which only what cannot be sent matters. */
  ghost predicate ReplyOk(a: Agent<Mem>, w: World, op: Op, reply: Reply) {
    if Unanswered(a, op) then reply == Failed(EIO)
    else
      && Expected(w, op, reply)
      && (op.ReadDir? && reply.Listing? && Ordered(a.s) ==>
            FullPage(w, Named(w, op.ino), op.at, op.capacity, reply.entries))
  }

  ghost predicate Answered(a: Agent<Mem>, w: World, op: Op) { ReplyOk(a, w, op, Step(Guest(), a, op).1) }

  // ---------------------------------------------------------------- proofs

  lemma SteadyNumber(t: Tables, w: World, p: Path)
    requires TablesOk(t) && NamesRight(t, w.names)
    ensures Steady(w, KeyOf(p), Intern(t, p).1)
  {
    RootKey();
    hide KeyOf;
    InternOk(t, p);
  }

  lemma FreshHandle(t: Tables, handles: map<nat, Key>)
    requires TablesOk(t) && HandlesRight(t, handles)
    ensures t.nextFh !in handles
  {
    hide KeyOf;
  }

  /** What the table says of a path is what the observer's history says. */
  lemma StatDescribes(m: Table, tree: map<Key, Item>, p: Path, now: i64)
    requires TreeRight(m, tree)
    ensures StatIn(m, p, now).Ok? <==> KeyOf(p) in tree
    ensures KeyOf(p) !in tree ==> StatIn(m, p, now) == Err(NotFound)
    ensures KeyOf(p) in tree ==> Describes(StatIn(m, p, now).value, tree[KeyOf(p)])
  {
    hide KeyOf, TreeRight, Content;
    NodeAt(m, tree, KeyOf(p));
    assert Low64(0) == 0;
    hide Low64;
  }

  lemma LookupAnswered(a: Agent<Mem>, w: World, parent: nat, name: Name)
    requires Right(a, w) && FromKernel(w, Lookup(parent, name))
    ensures Answered(a, w, Lookup(parent, name))
  {
    hide Guest, KeyOf, Push, Intern, Comes, Tidy, Plain, TidyTable, Steady, Describes, StatIn;
    hide TablesOk, PathsOk, NamesRight, HandlesRight, TreeRight, ExpectedListing, FullPage, Ordered;
    ChildPath(a.t, w, parent, name);
    var path := Push(PathFor(a.t, parent).value, name);
    GuestQueries(a.s, path, 0, 0);
    StatDescribes(a.s.nodes, w.tree, path, a.s.Now());
    SteadyNumber(a.t, w, path);
  }

  lemma StatAnswered(a: Agent<Mem>, w: World, ino: nat)
    requires Right(a, w) && ino in w.names && PathFor(a.t, ino).Some?
    requires Comes(a.s, Proto.Stat(PathFor(a.t, ino).value))
    ensures
      var r := Guest().stat(a.s, PathFor(a.t, ino).value).1;
      ExpectedAttr(w, ino, if r.Ok? then Attr(ino, r.value) else Failed(Errno(r.error)))
  {
    hide Guest, KeyOf, Comes, TidyTable, Describes, StatIn;
    hide TablesOk, PathsOk, NamesRight, HandlesRight, TreeRight;
    NamedPath(a.t, w, ino);
    var p := PathFor(a.t, ino).value;
    GuestQueries(a.s, p, 0, 0);
    StatDescribes(a.s.nodes, w.tree, p, a.s.Now());
  }

  lemma GetAttrAnswered(a: Agent<Mem>, w: World, ino: nat)
    requires Right(a, w) && ino in w.names
    ensures Answered(a, w, GetAttr(ino)) && Answered(a, w, SetAttr(ino, None))
  {
    hide Guest, KeyOf, Comes, TidyTable, ExpectedAttr, StatIn, Absolute;
    hide TablesOk, PathsOk, NamesRight, HandlesRight, TreeRight, ExpectedListing, FullPage, Ordered;
    NamedPath(a.t, w, ino);
    var p := PathFor(a.t, ino).value;
    GuestQueries(a.s, p, 0, 0);
    if Comes(a.s, Proto.Stat(p)) { StatAnswered(a, w, ino); }
  }

  /** Cutting fails exactly as the observer expects, and sets the size. */
  lemma CutDescribes(m: Table, tree: map<Key, Item>, p: Path, n: u64, now: i64)
    requires TreeRight(m, tree)
    ensures match EditIn(m, p, Cut(n))
            case Err(e) => if KeyOf(p) !in tree then e == NotFound else tree[KeyOf(p)].Folder? && e == IsADirectory
            case Ok(m') =>
              KeyOf(p) in tree && tree[KeyOf(p)].Hist? && StatIn(m', p, now).Ok?
              && IsFileOf(StatIn(m', p, now).value, n)
  {
    hide KeyOf, TreeRight, Content;
    NodeAt(m, tree, KeyOf(p));
    assert Low64(n) == n;
    hide Low64;
  }

  /** The two calls a size change makes, one after the other. */
  lemma CutThenStat(a: Agent<Mem>, w: World, ino: nat, n: u64)
    requires Right(a, w) && ino in w.names && PathFor(a.t, ino).Some?
    requires Comes(a.s, Proto.Truncate(PathFor(a.t, ino).value, n))
    ensures
      var p, k := PathFor(a.t, ino).value, Named(w, ino);
      var (s1, cut) := Guest().truncate(a.s, p, n);
      var r := Guest().stat(s1, p).1;
      if k !in w.tree then cut == Err(NotFound)
      else if w.tree[k].Folder? then cut == Err(IsADirectory)
      else cut.Ok? && r.Ok? && IsFileOf(r.value, n)
  {
    hide Guest, KeyOf, Comes, TidyTable, EditIn, StatIn;
    hide TablesOk, PathsOk, NamesRight, HandlesRight, TreeRight;
    NamedPath(a.t, w, ino);
    var p := PathFor(a.t, ino).value;
    GuestEdits(a.s, p, 0, [], n);
    var s1 := Guest().truncate(a.s, p, n).0;
    CutDescribes(a.s.nodes, w.tree, p, n, s1.Now());
    GuestQueries(s1, p, 0, 0);
    StatIsShorter(a.s, s1, p, n);
  }

  lemma SetAttrAnswered(a: Agent<Mem>, w: World, ino: nat, n: u64)
    requires Right(a, w) && ino in w.names
    ensures Answered(a, w, SetAttr(ino, Some(n)))
  {
    hide Guest, KeyOf, Comes, TidyTable, StatIn, EditIn, Absolute;
    hide TablesOk, PathsOk, NamesRight, HandlesRight, TreeRight, ExpectedListing, FullPage, Ordered;
    NamedPath(a.t, w, ino);
    var p := PathFor(a.t, ino).value;
    GuestEdits(a.s, p, 0, [], n);
    if Comes(a.s, Proto.Truncate(p, n)) { CutThenStat(a, w, ino, n); }
  }

  lemma OpenAnswered(a: Agent<Mem>, w: World, ino: nat)
    requires Right(a, w) && ino in w.names
    ensures Answered(a, w, OpenFile(ino)) && Answered(a, w, OpenDir(ino))
  {
    hide Guest, KeyOf, TidyTable, TablesOk, PathsOk, NamesRight, HandlesRight, TreeRight;
    NamedPath(a.t, w, ino);
    FreshHandle(a.t, w.handles);
  }

  lemma ReleaseAnswered(a: Agent<Mem>, w: World, fh: nat)
    ensures Answered(a, w, Release(fh)) && Answered(a, w, ReleaseDir(fh))
  {
    hide Guest, KeyOf;
  }

  lemma WriteAnswered(a: Agent<Mem>, w: World, fh: nat, offset: i64, data: seq<byte>)
    requires Right(a, w)
    ensures Answered(a, w, WriteFile(fh, offset, data))
  {
    hide Guest, KeyOf, Comes, TidyTable, TablesOk, PathsOk, NamesRight, HandlesRight, TreeRight, Edited;
    HandlePath(a.t, w.handles, fh);
    if fh in a.t.fhs {
      GuestEdits(a.s, a.t.fhs[fh], Clamp(offset), data, 0);
      NodeAt(a.s.nodes, w.tree, KeyOf(a.t.fhs[fh]));
    }
  }

  /** Making a node fails exactly when the observer knows the path. */
  lemma MadeDescribes(m: Table, tree: map<Key, Item>, p: Path, n: Node, i: Item, now: i64)
    requires TreeRight(m, tree) && Matches(n, i)
    ensures match MakeIn(m, p, n)
            case Err(e) => e == AlreadyExists && KeyOf(p) in tree
            case Ok(m') => KeyOf(p) !in tree && StatIn(m', p, now).Ok? && Describes(StatIn(m', p, now).value, i)
  {
    hide KeyOf, TreeRight, Content;
    NodeAt(m, tree, KeyOf(p));
    assert Low64(0) == 0;
    hide Low64;
  }

  lemma CreateAnswered(a: Agent<Mem>, w: World, parent: nat, name: Name, mode: u32)
    requires Right(a, w) && FromKernel(w, CreateFile(parent, name, mode))
    ensures Answered(a, w, CreateFile(parent, name, mode))
  {
    hide Guest, KeyOf, Push, Intern, Comes, Tidy, Plain, TidyTable, Steady, Describes, MakeIn, StatIn;
    hide TablesOk, PathsOk, NamesRight, HandlesRight, TreeRight, ExpectedListing, FullPage, Ordered;
    ChildPath(a.t, w, parent, name);
    var path := Push(PathFor(a.t, parent).value, name);
    GuestMakes(a.s, path, mode);
    MadeDescribes(a.s.nodes, w.tree, path, FileNode([]), Hist([]), a.s.Now());
    SteadyNumber(a.t, w, path);
    FreshHandle(a.t, w.handles);
    InternKeepsHandles(a.t, path);
  }

  lemma InternKeepsHandles(t: Tables, p: Path)
    ensures Intern(t, p).0.nextFh == t.nextFh
  {
    hide KeyOf;
  }

  lemma MakeDirAnswered(a: Agent<Mem>, w: World, parent: nat, name: Name, mode: u32)
    requires Right(a, w) && FromKernel(w, MakeDir(parent, name, mode))
    ensures Answered(a, w, MakeDir(parent, name, mode))
  {
    hide Guest, KeyOf, Push, Intern, Comes, Tidy, Plain, TidyTable, Steady, Describes, MakeIn, StatIn;
    hide TablesOk, PathsOk, NamesRight, HandlesRight, TreeRight, ExpectedListing, FullPage, Ordered;
    ChildPath(a.t, w, parent, name);
    var path := Push(PathFor(a.t, parent).value, name);
    GuestMakes(a.s, path, mode);
    MadeDescribes(a.s.nodes, w.tree, path, DirNode, Folder, a.s.Now());
    SteadyNumber(a.t, w, path);
  }

  lemma RemovalAnswered(a: Agent<Mem>, w: World, parent: nat, name: Name)
    requires Right(a, w) && parent in w.names && Plain(name)
    ensures Answered(a, w, Unlink(parent, name)) && Answered(a, w, RemoveDir(parent, name))
  {
    hide Guest, KeyOf, Push, Comes, Tidy, Plain, TidyTable, Matches;
    hide TablesOk, PathsOk, NamesRight, HandlesRight, TreeRight, ExpectedListing, FullPage, Ordered;
    ChildPath(a.t, w, parent, name);
    var path := Push(PathFor(a.t, parent).value, name);
    GuestMoves(a.s, path, path);
    NodeAt(a.s.nodes, w.tree, KeyOf(path));
  }

  lemma MoveAnswered(a: Agent<Mem>, w: World, parent: nat, name: Name, newParent: nat, newName: Name)
    requires Right(a, w) && FromKernel(w, Move(parent, name, newParent, newName))
    ensures Answered(a, w, Move(parent, name, newParent, newName))
  {
    hide Guest, KeyOf, Push, Comes, Tidy, Plain, TidyTable, Matches;
    hide TablesOk, PathsOk, NamesRight, HandlesRight, TreeRight, ExpectedListing, FullPage, Ordered;
    ChildPath(a.t, w, parent, name);
    ChildPath(a.t, w, newParent, newName);
    var from := Push(PathFor(a.t, parent).value, name);
    GuestMoves(a.s, from, Push(PathFor(a.t, newParent).value, newName));
    NodeAt(a.s.nodes, w.tree, KeyOf(from));
  }

  lemma ReadDirAnswered(a: Agent<Mem>, w: World, ino: nat, at: i64, capacity: nat)
    requires Right(a, w) && ino in w.names
    ensures Answered(a, w, ReadDir(ino, at, capacity))
  {
    hide Guest, KeyOf, Comes, TidyTable, Fill, ListIn;
    hide TablesOk, PathsOk, NamesRight, HandlesRight, TreeRight, ExpectedListing, FullPage;
    NamedPath(a.t, w, ino);
    var p := PathFor(a.t, ino).value;
    GuestQueries(a.s, p, 0, 0);
    var m, order := a.s.nodes, a.s.env(a.s.step).order;
    ListAnswer(m, w.tree, p, order);
    if ListIn(m, p, order).Ok? {
      ListingExpected(a, w, ino, p, order, at, capacity);
      if Ordered(a.s) {
        PageFull(a, w, ino, p, order, at, capacity);
      }
    }
  }

  lemma ListAnswer(m: Table, tree: map<Key, Item>, p: Path, order: seq<Key>)
    requires TreeRight(m, tree)
    ensures match ListIn(m, p, order)
            case Err(e) => if KeyOf(p) !in tree then e == NotFound else tree[KeyOf(p)].Hist? && e == NotADirectory
            case Ok(_) => KeyOf(p) in tree && tree[KeyOf(p)].Folder?
  {
    NodeAt(m, tree, KeyOf(p));
    hide KeyOf, TreeRight, ChildrenIn;
  }

  lemma ListingExpected(a: Agent<Mem>, w: World, ino: nat, p: Path, order: seq<Key>, at: i64, capacity: nat)
    requires Right(a, w) && Absolute(p) && ListIn(a.s.nodes, p, order).Ok?
    ensures
      var all := WithDots(ListIn(a.s.nodes, p, order).value);
      ExpectedListing(w, KeyOf(p), ino, at, Listing(Fill(a.t, p, ino, all, StartIndex(at, |all|), capacity).1))
  {
    hide KeyOf, TidyTable, Fill, Push, Plain, ExpectedChild, ListIn, WithDots;
    hide TablesOk, PathsOk, NamesRight, HandlesRight, TreeRight, Numbered;
    var all := WithDots(ListIn(a.s.nodes, p, order).value);
    var start := StartIndex(at, |all|);
    var (t', page) := Fill(a.t, p, ino, all, start, capacity);
    FillIsConsecutive(a.t, p, ino, all, start, capacity);
    FillNumbersEntries(a.t, p, ino, all, start, capacity);
    NamesStay(a.t, t', w.names);
    PageIsStored(a.s.nodes, p, order, page, start);
    forall i | 0 <= i < |page|
      ensures ExpectedChild(w, KeyOf(p), ino, page[i])
    {
      ChildExpected(a.s.nodes, t', w, p, ino, page, i);
    }
  }

  /** What a page lists, apart from the dots, is in the table. */
  lemma PageIsStored(m: Table, p: Path, order: seq<Key>, page: seq<Dirent>, start: nat)
    requires TidyTable(m) && ListIn(m, p, order).Ok?
    requires Consecutive(page, WithDots(ListIn(m, p, order).value), start)
    ensures forall i :: 0 <= i < |page| ==>
      var e := page[i];
      && (e.name == DOT_NAME <==> start + i == 0) && (e.name == DOT_DOT <==> start + i == 1)
      && if start + i < 2 then e.kind == FsKind.Dir
         else Plain(e.name) && Child(KeyOf(p), e.name) in m && e.kind == NodeKind(m[Child(KeyOf(p), e.name)])
  {
    hide KeyOf, TidyTable, ChildrenIn;
    ListedAreStored(m, KeyOf(p), order);
    var entries := ListIn(m, p, order).value;
    var all := WithDots(entries);
    assert forall j :: 2 <= j < |all| ==> all[j] in entries;
  }

  lemma NamesStay(t: Tables, t': Tables, names: map<nat, Key>)
    requires Extends(t, t') && NamesRight(t, names)
    ensures NamesRight(t', names)
  {
    hide KeyOf;
  }

  lemma ChildExpected(m: Table, t: Tables, w: World, dir: Path, ino: nat, page: seq<Dirent>, i: nat)
    requires TablesOk(t) && NamesRight(t, w.names) && TreeRight(m, w.tree) && Absolute(dir)
    requires Numbered(t, dir, ino, page) && i < |page|
    requires
      var e := page[i];
      if e.name == DOT_NAME || e.name == DOT_DOT then e.kind == FsKind.Dir
      else Plain(e.name) && Child(KeyOf(dir), e.name) in m && e.kind == NodeKind(m[Child(KeyOf(dir), e.name)])
    ensures ExpectedChild(w, KeyOf(dir), ino, page[i])
  {
    hide Push, TablesOk, NamesRight, TreeRight, Steady, Plain, KeyOf, Intern;
    var e := page[i];
    if e.name != DOT_NAME && e.name != DOT_DOT {
      ListedPath(dir, e.name);
      SteadyNumber(t, w, Push(dir, e.name));
      NodeAt(m, w.tree, Child(KeyOf(dir), e.name));
    }
  }

  /** The whole listing behind every page of a directory. */
  lemma WholeListing(m: Table, tree: map<Key, Item>, p: Path, order: seq<Key>)
    requires TidyTable(m) && TreeRight(m, tree) && ListIn(m, p, order).Ok? && Enumerates(order, m.Keys)
    ensures
      var all := WithDots(ListIn(m, p, order).value);
      && |all| == 2 + |Children(tree.Keys, KeyOf(p))|
      && (forall i, j :: 0 <= i < j < |all| ==> all[i].name != all[j].name)
      && (forall i :: 2 <= i < |all| ==>
            var c := Child(KeyOf(p), all[i].name);
            Plain(all[i].name) && c in tree && IsChild(c, KeyOf(p)) && FileName(c) == Some(all[i].name))
  {
    hide KeyOf, TidyTable, Matches, ChildrenIn, Tidy, IsChild;
    ListingCounted(m, p, order);
    ListedAreChildren(m, KeyOf(p), order);
    var es := ListIn(m, p, order).value;
    var all := WithDots(es);
    assert forall i :: 2 <= i < |all| ==> all[i] == es[i - 2];
    assert !Plain(DOT_NAME) && !Plain(DOT_DOT);
  }

  lemma NumbersDistinct(t: Tables, dir: Path, ino: nat, page: seq<Dirent>, i: nat, j: nat)
    requires TablesOk(t) && Absolute(dir) && Numbered(t, dir, ino, page)
    requires i < j < |page| && Plain(page[i].name) && Plain(page[j].name) && page[i].name != page[j].name
    ensures page[i].ino != page[j].ino
  {
    hide KeyOf, Push, TablesOk, Intern;
    ListedPath(dir, page[i].name);
    ListedPath(dir, page[j].name);
    InternOk(t, Push(dir, page[i].name));
    InternOk(t, Push(dir, page[j].name));
    var k := KeyOf(dir);
    assert Child(k, page[i].name).comps[|k.comps|] == page[i].name;
    assert Child(k, page[j].name).comps[|k.comps|] == page[j].name;
  }

  lemma PageFull(a: Agent<Mem>, w: World, ino: nat, p: Path, order: seq<Key>, at: i64, capacity: nat)
    requires Right(a, w) && Absolute(p) && ListIn(a.s.nodes, p, order).Ok? && Enumerates(order, a.s.nodes.Keys)
    ensures
      var all := WithDots(ListIn(a.s.nodes, p, order).value);
      FullPage(w, KeyOf(p), at, capacity, Fill(a.t, p, ino, all, StartIndex(at, |all|), capacity).1)
  {
    hide KeyOf, TidyTable, Fill, Push, Plain, ListIn, WithDots, IsChild, FileName, EntrySize, Absolute;
    hide TablesOk, PathsOk, NamesRight, HandlesRight, TreeRight, Numbered, Enumerates, Extends;
    var all := WithDots(ListIn(a.s.nodes, p, order).value);
    var start := StartIndex(at, |all|);
    var (t', page) := Fill(a.t, p, ino, all, start, capacity);
    FillIsConsecutive(a.t, p, ino, all, start, capacity);
    FillNumbersEntries(a.t, p, ino, all, start, capacity);
    WholeListing(a.s.nodes, w.tree, p, order);
    forall i, j | 0 <= i < j < |page| && Plain(page[i].name) && Plain(page[j].name)
      ensures page[i].ino != page[j].ino
    {
      NumbersDistinct(t', p, ino, page, i, j);
    }
    if 0 <= at < |all| && RoomForEach(w, KeyOf(p), capacity) {
      DotsFit(ListIn(a.s.nodes, p, order).value);
    }
  }

  lemma DotsFit(entries: seq<DirEntry>)
    ensures EntrySize(WithDots(entries)[0].name) == EntrySize(WithDots(entries)[1].name) == EntrySize(DOT_DOT)
  {
  }

  lemma ReadAnswered(a: Agent<Mem>, w: World, fh: nat, offset: i64, len: u32)
    requires Right(a, w)
    ensures Answered(a, w, ReadFile(fh, offset, len))
  {
    hide Right, Guest, Comes, Predicted, FullPage, Ordered;
    ReadRight(a, w, fh, offset, len);
  }

  lemma StepAnswered(a: Agent<Mem>, w: World, op: Op)
    requires Right(a, w) && FromKernel(w, op)
    ensures Answered(a, w, op)
  {
    hide Right, Guest, Comes, Answered;
    match op
    case Lookup(parent, name) => LookupAnswered(a, w, parent, name);
    case GetAttr(ino) => GetAttrAnswered(a, w, ino);
    case SetAttr(ino, None) => GetAttrAnswered(a, w, ino);
    case SetAttr(ino, Some(n)) => SetAttrAnswered(a, w, ino, n);
    case OpenDir(ino) => OpenAnswered(a, w, ino);
    case OpenFile(ino) => OpenAnswered(a, w, ino);
    case ReleaseDir(fh) => ReleaseAnswered(a, w, fh);
    case Release(fh) => ReleaseAnswered(a, w, fh);
    case ReadDir(ino, at, capacity) => ReadDirAnswered(a, w, ino, at, capacity);
    case ReadFile(fh, offset, len) => ReadAnswered(a, w, fh, offset, len);
    case WriteFile(fh, offset, data) => WriteAnswered(a, w, fh, offset, data);
    case CreateFile(parent, name, mode) => CreateAnswered(a, w, parent, name, mode);
    case MakeDir(parent, name, mode) => MakeDirAnswered(a, w, parent, name, mode);
    case Unlink(parent, name) => RemovalAnswered(a, w, parent, name);
    case RemoveDir(parent, name) => RemovalAnswered(a, w, parent, name);
    case Move(parent, name, newParent, newName) => MoveAnswered(a, w, parent, name, newParent, newName);
  }

  /** After any run of kernel requests, whatever the kernel asks next is answered as
      the requests and replies so far say it must be. */
  lemma EveryReplyExpected(env: nat -> Env, ops: seq<Op>, op: Op)
    requires KernelRun(Boot(env), ops) && FromKernel(JointRun(Boot(env), ops).w, op)
    ensures Answered(JointRun(Boot(env), ops).a, JointRun(Boot(env), ops).w, op)
  {
    hide Right, FromKernel, Answered;
    RunRight(env, ops);
    StepAnswered(JointRun(Boot(env), ops).a, JointRun(Boot(env), ops).w, op);
  }

  // ---------------------------------------------------------------- times

  predicate AllTimes(attr: FileAttr, t: i64) {
    attr.mtimeSecs == t && attr.atimeSecs == t && attr.ctimeSecs == t
  }

  function AttrIn(reply: Reply): Option<FileAttr> {
    match reply
    case Entry(_, attr) => Some(attr)
    case Attr(_, attr) => Some(attr)
    case Created(_, attr, _) => Some(attr)
    case _ => None
  }

  lemma StatTimes(m: Table, p: Path, now: i64)
    ensures StatIn(m, p, now).Ok? ==> AllTimes(StatIn(m, p, now).value, now)
  {
    hide KeyOf;
  }

  /** The three times of any attribute are the clock of the call that fetched it. */
  ghost predicate TimedByLastCall(a: Agent<Mem>, op: Op) {
    var (a', reply) := Step(Guest(), a, op);
    AttrIn(reply).Some? ==> a'.s.step > a.s.step && AllTimes(AttrIn(reply).value, a.s.env(a'.s.step - 1).now)
  }

  lemma TimesAreOfTheCall(a: Agent<Mem>, op: Op)
    ensures TimedByLastCall(a, op)
  {
    hide TimedByLastCall;
    match op
    case Lookup(parent, name) => LookupTimes(a, parent, name);
    case GetAttr(ino) => GetAttrTimes(a, ino);
    case SetAttr(ino, size) => SetAttrTimes(a, ino, size);
    case CreateFile(parent, name, mode) => MakeTimes(a, parent, name, mode);
    case MakeDir(parent, name, mode) => MakeTimes(a, parent, name, mode);
    case _ => NoTimes(a, op);
  }

  lemma NoTimes(a: Agent<Mem>, op: Op)
    requires !op.Lookup? && !op.GetAttr? && !op.SetAttr? && !op.CreateFile? && !op.MakeDir?
    ensures TimedByLastCall(a, op)
  {
    hide Guest, PathFor, Push, Fill, AllocFh, Freed;
  }

  lemma LookupTimes(a: Agent<Mem>, parent: nat, name: Name)
    ensures TimedByLastCall(a, Lookup(parent, name))
  {
    hide Guest, PathFor, Push, Intern, StatIn, Comes, Sendable;
    if PathFor(a.t, parent).Some? {
      var p := Push(PathFor(a.t, parent).value, name);
      GuestQueries(a.s, p, 0, 0);
      StatTimes(a.s.nodes, p, a.s.Now());
    }
  }

  lemma GetAttrTimes(a: Agent<Mem>, ino: nat)
    ensures TimedByLastCall(a, GetAttr(ino))
  {
    hide Guest, PathFor, StatIn, Comes, Sendable;
    if PathFor(a.t, ino).Some? {
      var p := PathFor(a.t, ino).value;
      GuestQueries(a.s, p, 0, 0);
      StatTimes(a.s.nodes, p, a.s.Now());
    }
  }

  lemma SetAttrTimes(a: Agent<Mem>, ino: nat, size: Option<u64>)
    ensures TimedByLastCall(a, SetAttr(ino, size))
  {
    hide Guest, PathFor, StatIn, EditIn, Comes, Sendable;
    if PathFor(a.t, ino).Some? {
      var p := PathFor(a.t, ino).value;
      var n: u64 := if size.Some? then size.value else 0;
      GuestEdits(a.s, p, 0, [], n);
      var s1 := if size.Some? then Guest().truncate(a.s, p, n).0 else a.s;
      GuestQueries(s1, p, 0, 0);
      StatTimes(s1.nodes, p, s1.Now());
    }
  }

  lemma MakeTimes(a: Agent<Mem>, parent: nat, name: Name, mode: u32)
    ensures TimedByLastCall(a, CreateFile(parent, name, mode)) && TimedByLastCall(a, MakeDir(parent, name, mode))
  {
    hide Guest, PathFor, Push, Intern, AllocFh, StatIn, MakeIn, Comes, Sendable;
    if PathFor(a.t, parent).Some? {
      var p := Push(PathFor(a.t, parent).value, name);
      GuestMakes(a.s, p, mode);
      var file, dir := MakeIn(a.s.nodes, p, FileNode([])), MakeIn(a.s.nodes, p, DirNode);
      if file.Ok? { StatTimes(file.value, p, a.s.Now()); }
      if dir.Ok? { StatTimes(dir.value, p, a.s.Now()); }
    }
  }

  // ---------------------------------------------------------------- a directory read to its end

  lemma {:induction false} GuestListsAlong(s: Mem, p: Path, entries: seq<DirEntry>, order: seq<Key>, n: nat)
    requires (n > 0 ==> Comes(s, Proto.List(p))) && ListIn(s.nodes, p, order) == Ok(entries)
    requires forall i: nat :: s.step <= i < s.step + n ==> s.env(i).order == order
    ensures ListsAlong(Guest(), s, p, entries, n)
    decreases n
  {
    hide Guest, Comes, ListIn;
    if n > 0 {
      GuestQueries(s, p, 0, 0);
      if n > 1 { SameListing(s, s.Next(), p); }
      GuestListsAlong(s.Next(), p, entries, order, n - 1);
    }
  }

  /** The same listing is as long the second time. */
  lemma SameListing(s: Mem, s': Mem, p: Path)
    requires s.nodes == s'.nodes && s.env(s.step).order == s'.env(s'.step).order
    ensures Comes(s, Proto.List(p)) <==> Comes(s', Proto.List(p))
  {
    hide Comes, Sendable, Handle, Wire.PutResponse, ListIn;
    ComesIff(s, Proto.List(p));
    ComesIff(s', Proto.List(p));
    ValueDoesSame(s, Proto.List(p));
    ValueDoesSame(s', Proto.List(p));
  }

  lemma EveryChildListed(m: Table, tree: map<Key, Item>, p: Path, order: seq<Key>, c: Key) returns (i: nat)
    requires TidyTable(m) && TreeRight(m, tree) && ListIn(m, p, order).Ok? && Enumerates(order, m.Keys)
    requires c in Children(tree.Keys, KeyOf(p))
    ensures 2 <= i < |WithDots(ListIn(m, p, order).value)|
    ensures Child(KeyOf(p), WithDots(ListIn(m, p, order).value)[i].name) == c
  {
    hide KeyOf, TidyTable, Matches, ChildrenIn, EntryFor;
    ChildrenAreListed(m, KeyOf(p), order, c);
    EntryNamesChild(m, KeyOf(p), c);
    var es := ListIn(m, p, order).value;
    var j :| 0 <= j < |es| && es[j] == EntryFor(m, c);
    i := j + 2;
    assert WithDots(es)[i] == es[j];
  }

  /** The dots, and then exactly the children the observer knows, each once, with its
      kind and under a number it keeps. */
  ghost predicate WholeFolder(w: World, k: Key, ino: nat, got: seq<Dirent>) {
    && |got| == 2 + |Children(w.tree.Keys, k)|
    && (forall i :: 0 <= i < |got| ==>
          && got[i].next == i + 1 && ExpectedChild(w, k, ino, got[i])
          && (got[i].name == [46] <==> i == 0) && (got[i].name == [46, 46] <==> i == 1))
    && (forall i, j :: 0 <= i < j < |got| ==> got[i].name != got[j].name)
    && (forall c <- Children(w.tree.Keys, k) :: exists i :: 2 <= i < |got| && Child(k, got[i].name) == c)
  }

  lemma AnsweredFolder(a: Agent<Mem>, w: World, ino: nat, order: seq<Key>, sizes: seq<nat>)
    requires Right(a, w) && ino in w.names && Named(w, ino) in w.tree && w.tree[Named(w, ino)].Folder?
    requires Enumerates(order, a.s.nodes.Keys)
    requires forall i: nat :: a.s.step <= i < a.s.step + |sizes| ==> a.s.env(i).order == order
    requires forall c <- sizes :: RoomForEach(w, Named(w, ino), c)
    requires 2 + |Children(w.tree.Keys, Named(w, ino))| < TWO_63
    requires |sizes| >= 2 + |Children(w.tree.Keys, Named(w, ino))|
    requires !Unanswered(a, ReadDir(ino, 0, 0))
    ensures WholeFolder(w, Named(w, ino), ino, ReadAll(Guest(), a, ino, 0, sizes).1)
  {
    hide Guest, KeyOf, Comes, TidyTable, ReadAll, Children, ListIn, WithDots, Matches, RoomForEach;
    hide TablesOk, PathsOk, NamesRight, HandlesRight, TreeRight, Enumerates, Absolute, Extends, Numbered, Consecutive;
    hide ListsAlong, EntrySize, ExpectedChild, Plain, IsChild, FileName, WholeFolder, Child;
    NamedPath(a.t, w, ino);
    var p, m := PathFor(a.t, ino).value, a.s.nodes;
    ListAnswer(m, w.tree, p, order);
    var entries := ListIn(m, p, order).value;
    GuestListsAlong(a.s, p, entries, order, |sizes|);
    WholeListing(m, w.tree, p, order);
    forall c <- sizes, e <- WithDots(entries)
      ensures EntrySize(e.name) <= c
    {
      EntryHasRoom(w, m, p, order, c, e);
    }
    PagingDeliversEachOnce(Guest(), a, ino, p, entries, 0, sizes);
    var (a', got) := ReadAll(Guest(), a, ino, 0, sizes);
    NamesStay(a.t, a'.t, w.names);
    GotWholeFolder(m, a'.t, w, p, ino, order, got);
  }

  lemma UnansweredFolder(a: Agent<Mem>, w: World, ino: nat, sizes: seq<nat>)
    requires Right(a, w) && ino in w.names && sizes != [] && Unanswered(a, ReadDir(ino, 0, 0))
    ensures ReadAll(Guest(), a, ino, 0, sizes).1 == []
  {
    hide Guest, Step, Right, Comes, Expected, FullPage, Ordered;
    ReadDirAnswered(a, w, ino, 0, sizes[0]);
  }

  /** Through agent and client, a folder that nobody changes is read to its end, however
      the buffers are sized, so long as each has room for any one entry: exactly when its
      listing keeps to the limit of a frame. */
  lemma FolderDeliveredIff(a: Agent<Mem>, w: World, ino: nat, order: seq<Key>, sizes: seq<nat>)
    requires Right(a, w) && ino in w.names && Named(w, ino) in w.tree && w.tree[Named(w, ino)].Folder?
    requires Enumerates(order, a.s.nodes.Keys)
    requires forall i: nat :: a.s.step <= i < a.s.step + |sizes| ==> a.s.env(i).order == order
    requires forall c <- sizes :: RoomForEach(w, Named(w, ino), c)
    requires 2 + |Children(w.tree.Keys, Named(w, ino))| < TWO_63
    requires |sizes| >= 2 + |Children(w.tree.Keys, Named(w, ino))|
    ensures WholeFolder(w, Named(w, ino), ino, ReadAll(Guest(), a, ino, 0, sizes).1)
      <==> !Unanswered(a, ReadDir(ino, 0, 0))
  {
    hide Guest, ReadAll, Right, Unanswered, Children, ExpectedChild, Enumerates, RoomForEach, WholeFolder;
    if Unanswered(a, ReadDir(ino, 0, 0)) {
      UnansweredFolder(a, w, ino, sizes);
      NothingIsNoFolder(w, ino);
    } else {
      AnsweredFolder(a, w, ino, order, sizes);
    }
  }

  lemma NothingIsNoFolder(w: World, ino: nat)
    ensures !WholeFolder(w, Named(w, ino), ino, [])
  {
    hide Children;
  }

  lemma EntryHasRoom(w: World, m: Table, p: Path, order: seq<Key>, c: nat, e: DirEntry)
    requires TidyTable(m) && TreeRight(m, w.tree) && ListIn(m, p, order).Ok? && Enumerates(order, m.Keys)
    requires RoomForEach(w, KeyOf(p), c) && e in WithDots(ListIn(m, p, order).value)
    ensures EntrySize(e.name) <= c
  {
    hide KeyOf, TidyTable, TreeRight, ListIn, Enumerates, IsChild, FileName, EntrySize, WithDots;
    WholeListing(m, w.tree, p, order);
    DotsFit(ListIn(m, p, order).value);
  }

  lemma GotWholeFolder(m: Table, t: Tables, w: World, p: Path, ino: nat, order: seq<Key>, got: seq<Dirent>)
    requires TidyTable(m) && TreeRight(m, w.tree) && ListIn(m, p, order).Ok? && Enumerates(order, m.Keys)
    requires TablesOk(t) && NamesRight(t, w.names) && Absolute(p) && Numbered(t, p, ino, got)
    requires
      var all := WithDots(ListIn(m, p, order).value);
      |got| == |all| && Consecutive(got, all, 0)
    ensures WholeFolder(w, KeyOf(p), ino, got)
  {
    hide KeyOf, TidyTable, TreeRight, Enumerates, ListIn, WithDots, TablesOk, NamesRight, Absolute, Numbered;
    hide Children, ExpectedChild, Plain, IsChild, FileName, Child;
    WholeListing(m, w.tree, p, order);
    PageIsStored(m, p, order, got, 0);
    forall i | 0 <= i < |got|
      ensures ExpectedChild(w, KeyOf(p), ino, got[i])
    {
      ChildExpected(m, t, w, p, ino, got, i);
    }
    forall c <- Children(w.tree.Keys, KeyOf(p))
      ensures exists i :: 2 <= i < |got| && Child(KeyOf(p), got[i].name) == c
    {
      var i := EveryChildListed(m, w.tree, p, order, c);
      assert Child(KeyOf(p), got[i].name) == c;
    }
  }
}
