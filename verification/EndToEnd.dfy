/** What the kernel can rely on when the agent's client is connected to the
    in-memory filesystem. An observer that sees only the kernel's requests and the
    replies keeps, for every path, the history of its file; that history decides
    every later read. */
module EndToEnd {
  import opened Prelude
  import opened Utf8
  import opened VfsCore
  import opened Paths
  import opened FileBytes
  import opened MemoryVfs
  import opened Agent
  import opened Client
  import opened Server
  import opened MemoryServer
  import opened Calls
  import Proto
  import Wire

  datatype Item = Hist(edits: seq<Edit>) | Folder

  /** Inode and handle numbers as the kernel was told them, and the files by path. */
  datatype World = World(names: map<nat, Key>, handles: map<nat, Key>, tree: map<Key, Item>)

  const FIRST_WORLD := World(
    map[1 := ROOT_KEY], map[],
    map[ROOT_KEY := Folder, Key(true, [HELLO_NAME]) := Hist([Wrote(0, HELLO_TEXT)])])

  function Named(w: World, ino: nat): Key {
    if ino in w.names then w.names[ino] else ROOT_KEY
  }

  function Noted(names: map<nat, Key>, dir: Key, es: seq<Dirent>): map<nat, Key>
    decreases |es|
  {
    if es == [] then names
    else
      var e := es[0];
      Noted(if e.name == DOT_NAME || e.name == DOT_DOT then names else names[e.ino := Child(dir, e.name)], dir, es[1..])
  }

  /** How one request and its reply change what the observer knows. */
  function Observe(w: World, op: Op, reply: Reply): World {
    match (op, reply)
    case (Lookup(parent, name), Entry(ino, _)) => w.(names := w.names[ino := Child(Named(w, parent), name)])
    case (SetAttr(ino, Some(size)), Attr(_, _)) => Recorded(w, Named(w, ino), Cut(size))
    case (OpenFile(ino), Opened(fh)) => w.(handles := w.handles[fh := Named(w, ino)])
    case (OpenDir(ino), Opened(fh)) => w.(handles := w.handles[fh := Named(w, ino)])
    case (Release(fh), _) => w.(handles := w.handles - {fh})
    case (ReleaseDir(fh), _) => w.(handles := w.handles - {fh})
    case (ReadDir(ino, _, _), Listing(es)) => w.(names := Noted(w.names, Named(w, ino), es))
    case (WriteFile(fh, offset, data), Written(_)) =>
      if fh in w.handles then Recorded(w, w.handles[fh], Wrote(Max(0, offset), data)) else w
    case (CreateFile(parent, name, _), Created(ino, _, fh)) =>
      var k := Child(Named(w, parent), name);
      World(w.names[ino := k], w.handles[fh := k], w.tree[k := Hist([])])
    case (MakeDir(parent, name, _), Entry(ino, _)) =>
      var k := Child(Named(w, parent), name);
      w.(names := w.names[ino := k], tree := w.tree[k := Folder])
    case (Unlink(parent, name), Done) => w.(tree := w.tree - {Child(Named(w, parent), name)})
    case (RemoveDir(parent, name), Done) => w.(tree := w.tree - {Child(Named(w, parent), name)})
    case (Move(parent, name, newParent, newName), Done) =>
      var from, to := Child(Named(w, parent), name), Child(Named(w, newParent), newName);
      if from in w.tree then w.(tree := (w.tree - {from})[to := w.tree[from]]) else w
    case _ => w
  }

  function Recorded(w: World, k: Key, e: Edit): World {
    if k in w.tree && w.tree[k].Hist? then w.(tree := w.tree[k := Hist(w.tree[k].edits + [e])]) else w
  }

  /** The kernel uses inode numbers it was given, and plain names. */
  predicate FromKernel(w: World, op: Op) {
    match op
    case Lookup(parent, name) => parent in w.names && Plain(name)
    case GetAttr(ino) => ino in w.names
    case SetAttr(ino, _) => ino in w.names
    case OpenDir(ino) => ino in w.names
    case ReadDir(ino, _, _) => ino in w.names
    case OpenFile(ino) => ino in w.names
    case CreateFile(parent, name, _) => parent in w.names && Plain(name)
    case MakeDir(parent, name, _) => parent in w.names && Plain(name)
    case Unlink(parent, name) => parent in w.names && Plain(name)
    case RemoveDir(parent, name) => parent in w.names && Plain(name)
    case Move(parent, name, newParent, newName) =>
      parent in w.names && newParent in w.names && Plain(name) && Plain(newName)
    case _ => true
  }

  /** What the observer expects a read to return. */
  function Predicted(w: World, fh: nat, offset: i64, len: u32): Reply {
    if fh !in w.handles then Failed(EBADF)
    else
      var k := w.handles[fh];
      if k !in w.tree then Failed(ENOENT)
      else match w.tree[k]
        case Folder => Failed(EISDIR)
        case Hist(h) => Data(Slice(Content(h), Max(0, offset), len))
  }

  /** The call gets no answer: a name that is not UTF-8, or a request or an answer over
      the limit of a frame. */
  predicate Unanswered(a: Agent<Mem>, op: Op) {
    FirstCall(a.t, op).Some? && !Comes(a.s, FirstCall(a.t, op).value)
  }

  // ------------------------------------------------ the observer is right

  function Matches(n: Node, i: Item): bool {
    match i case Hist(h) => n == FileNode(Content(h)) case Folder => n == DirNode
  }

  predicate Absolute(p: Path) { KeyOf(p).rooted && ValidUtf8(p) && Tidy(KeyOf(p)) }

  ghost predicate PathsOk(t: Tables) {
    (forall i <- t.inodes :: Absolute(t.inodes[i])) && (forall fh <- t.fhs :: Absolute(t.fhs[fh]))
  }

  ghost predicate NamesRight(t: Tables, names: map<nat, Key>) {
    forall i <- names :: PathFor(t, i).Some? && KeyOf(PathFor(t, i).value) == names[i]
  }

  ghost predicate HandlesRight(t: Tables, handles: map<nat, Key>) {
    handles.Keys == t.fhs.Keys && forall fh <- t.fhs :: handles[fh] == KeyOf(t.fhs[fh])
  }

  ghost predicate TreeRight(m: Table, tree: map<Key, Item>) {
    tree.Keys == m.Keys && forall k <- m :: Matches(m[k], tree[k])
  }

  ghost predicate Right(a: Agent<Mem>, w: World) {
    && TablesOk(a.t) && PathsOk(a.t) && TidyTable(a.s.nodes)
    && NamesRight(a.t, w.names) && HandlesRight(a.t, w.handles) && TreeRight(a.s.nodes, w.tree)
  }

  function Guest(): Vfs<Mem> { ViaRpc(MemVfs()) }

  /** A whole run, with the observer watching. */
  datatype Joint = Joint(a: Agent<Mem>, w: World)

  function JointStep(j: Joint, op: Op): Joint {
    var (a, reply) := Step(Guest(), j.a, op);
    Joint(a, Observe(j.w, op, reply))
  }

  function JointRun(j: Joint, ops: seq<Op>): Joint {
    if ops == [] then j else JointStep(JointRun(j, ops[..|ops| - 1]), ops[|ops| - 1])
  }

  /** What the kernel asks makes sense to it, and every call so far kept to the limit of
      a frame, so that the stream is in step. */
  predicate KernelRun(j: Joint, ops: seq<Op>) {
    ops == [] ||
    var (front, op) := (ops[..|ops| - 1], ops[|ops| - 1]);
    && KernelRun(j, front)
    && FromKernel(JointRun(j, front).w, op) && WithinLimit(MemVfs(), JointRun(j, front).a, op)
  }

  /** The same, but the last operation may be the one that goes beyond the limit. */
  predicate KernelSession(j: Joint, ops: seq<Op>) {
    ops == [] ||
    (KernelRun(j, ops[..|ops| - 1]) && FromKernel(JointRun(j, ops[..|ops| - 1]).w, ops[|ops| - 1]))
  }

  function Boot(env: nat -> Env): Joint { Joint(Agent(START, Mem(INITIAL, env, 0)), FIRST_WORLD) }

  // What each call of the guest's client does on this filesystem.

  lemma GuestQueries(s: Mem, p: Path, o: u64, n: u32)
    ensures Guest().stat(s, p) == OrLost(s, Proto.Stat(p), (s.Next(), StatIn(s.nodes, p, s.Now())))
    ensures Guest().list(s, p) == OrLost(s, Proto.List(p), (s.Next(), ListIn(s.nodes, p, s.env(s.step).order)))
    ensures Guest().read(s, p, o, n) == OrLost(s, Proto.Read(p, o, n), (s.Next(), ReadIn(s.nodes, p, o, n)))
  {
    hide OrRefused, OrLost, ViaRpc, Sendable;
    QueriesViaRpc(MemVfs(), s, p, o, n);
    RefusedIsLost(s, Proto.Stat(p), MemVfs().stat(s, p));
    RefusedIsLost(s, Proto.List(p), MemVfs().list(s, p));
    RefusedIsLost(s, Proto.Read(p, o, n), MemVfs().read(s, p, o, n));
  }

  lemma GuestEdits(s: Mem, p: Path, o: u64, d: seq<byte>, n: u64)
    ensures Guest().write(s, p, o, d) ==
      OrLost(s, Proto.Write(p, o, d), s.Changed(EditIn(s.nodes, p, Wrote(o, d)), Count(d)))
    ensures Guest().truncate(s, p, n) == OrLost(s, Proto.Truncate(p, n), s.Changed(EditIn(s.nodes, p, Cut(n)), ()))
  {
    hide OrRefused, OrLost, ViaRpc, Sendable;
    EditsViaRpc(MemVfs(), s, p, o, d, n);
    RefusedIsLost(s, Proto.Write(p, o, d), MemVfs().write(s, p, o, d));
    RefusedIsLost(s, Proto.Truncate(p, n), MemVfs().truncate(s, p, n));
  }

  lemma GuestMakes(s: Mem, p: Path, m: u32)
    ensures Guest().create(s, p, m) == OrLost(s, Proto.Create(p, m), s.Made(p, MakeIn(s.nodes, p, FileNode([]))))
    ensures Guest().mkdir(s, p, m) == OrLost(s, Proto.Mkdir(p, m), s.Made(p, MakeIn(s.nodes, p, DirNode)))
  {
    hide OrRefused, OrLost, ViaRpc, Sendable;
    MakesViaRpc(MemVfs(), s, p, m);
    RefusedIsLost(s, Proto.Create(p, m), MemVfs().create(s, p, m));
    RefusedIsLost(s, Proto.Mkdir(p, m), MemVfs().mkdir(s, p, m));
  }

  lemma GuestMoves(s: Mem, p: Path, to: Path)
    ensures Guest().remove(s, p) == OrLost(s, Proto.Remove(p), s.Changed(RemoveIn(s.nodes, p), ()))
    ensures Guest().rmdir(s, p) == OrLost(s, Proto.Rmdir(p), s.Changed(RemoveIn(s.nodes, p), ()))
    ensures Guest().rename(s, p, to) == OrLost(s, Proto.Rename(p, to), s.Changed(RenameIn(s.nodes, p, to), ()))
  {
    hide OrRefused, OrLost, ViaRpc, Sendable;
    MovesViaRpc(MemVfs(), s, p, to);
    RefusedIsLost(s, Proto.Remove(p), MemVfs().remove(s, p));
    RefusedIsLost(s, Proto.Rmdir(p), MemVfs().rmdir(s, p));
    RefusedIsLost(s, Proto.Rename(p, to), MemVfs().rename(s, p, to));
  }

  /** A path the kernel names, once it could be sent, has tidy components. */
  lemma ChildPath(t: Tables, w: World, parent: nat, name: Name)
    requires PathsOk(t) && NamesRight(t, w.names) && parent in w.names && Plain(name)
    ensures PathFor(t, parent).Some?
    ensures KeyOf(Push(PathFor(t, parent).value, name)) == Child(Named(w, parent), name)
    ensures ValidUtf8(Push(PathFor(t, parent).value, name)) ==> Absolute(Push(PathFor(t, parent).value, name))
  {
    RootKey();
    var p := PathFor(t, parent).value;
    assert Absolute(p) by { assert ValidUtf8(ROOT); }
    PushAddsComponent(p, name);
    hide KeyOf, Plain;
    ValidConcat(p, name);
    ValidConcat(p, [SLASH]);
    ValidConcat(p + [SLASH], name);
  }

  lemma InternRight(t: Tables, w: World, p: Path)
    requires TablesOk(t) && PathsOk(t) && NamesRight(t, w.names) && HandlesRight(t, w.handles) && Absolute(p)
    ensures
      var (t', ino) := Intern(t, p);
      && TablesOk(t') && PathsOk(t') && HandlesRight(t', w.handles)
      && NamesRight(t', w.names[ino := KeyOf(p)]) && NamesRight(t', w.names)
  {
    hide KeyOf, Intern, Absolute;
    InternOk(t, p);
  }

  lemma AllocRight(t: Tables, names: map<nat, Key>, handles: map<nat, Key>, p: Path)
    requires TablesOk(t) && PathsOk(t) && NamesRight(t, names) && HandlesRight(t, handles) && Absolute(p)
    ensures
      var (t', fh) := AllocFh(t, p);
      && TablesOk(t') && PathsOk(t') && NamesRight(t', names)
      && HandlesRight(t', handles[fh := KeyOf(p)])
  {
    hide KeyOf, Absolute;
    AllocOk(t, p);
  }

  lemma EditRight(m: Table, w: World, p: Path, e: Edit)
    requires TidyTable(m) && TreeRight(m, w.tree) && EditIn(m, p, e).Ok?
    ensures TreeRight(EditIn(m, p, e).value, Recorded(w, KeyOf(p), e).tree)
    ensures TidyTable(EditIn(m, p, e).value)
  {
    hide KeyOf, Tidy;
    var k := KeyOf(p);
    assert Matches(m[k], w.tree[k]);
    var h := w.tree[k].edits;
    assert (h + [e])[..|h|] == h;
    assert Content(h + [e]) == Edited(Content(h), e);
  }

  lemma NodeMadeRight(m: Table, tree: map<Key, Item>, k: Key, n: Node, i: Item)
    requires TidyTable(m) && TreeRight(m, tree) && Tidy(k) && Matches(n, i)
    ensures TreeRight(m[k := n], tree[k := i]) && TidyTable(m[k := n])
  {
    hide Tidy, Matches;
  }

  lemma NodeGoneRight(m: Table, tree: map<Key, Item>, k: Key)
    requires TidyTable(m) && TreeRight(m, tree)
    ensures TreeRight(m - {k}, tree - {k}) && TidyTable(m - {k})
  {
    hide Tidy, Matches;
  }

  // ------------------------------------------------ one step

  lemma NewChildRight(t: Tables, w: World, parent: nat, name: Name)
    requires TablesOk(t) && PathsOk(t) && NamesRight(t, w.names) && HandlesRight(t, w.handles)
    requires parent in w.names && Plain(name)
    ensures PathFor(t, parent).Some?
    ensures
      var path := Push(PathFor(t, parent).value, name);
      var k := Child(Named(w, parent), name);
      KeyOf(path) == k && (ValidUtf8(path) ==>
        var (t1, ino) := Intern(t, path);
        var (t2, fh) := AllocFh(t1, path);
        && Tidy(k)
        && TablesOk(t1) && PathsOk(t1) && HandlesRight(t1, w.handles) && NamesRight(t1, w.names[ino := k])
        && TablesOk(t2) && PathsOk(t2) && NamesRight(t2, w.names[ino := k])
        && HandlesRight(t2, w.handles[fh := k]))
  {
    ChildPath(t, w, parent, name);
    var path := Push(PathFor(t, parent).value, name);
    if ValidUtf8(path) {
      assert Absolute(path) && Tidy(KeyOf(path));
      hide KeyOf, Push, Intern, AllocFh, Absolute, ValidUtf8, Tidy;
      InternRight(t, w, path);
      var (t1, ino) := Intern(t, path);
      AllocRight(t1, w.names[ino := KeyOf(path)], w.handles, path);
    }
  }

  lemma SendablePath(s: Mem, q: Proto.Request)
    requires !q.Hello? && !q.Rename?
    ensures Comes(s, q) ==> ValidUtf8(q.path)
  {
    ComesIff(s, q);
    hide Comes;
  }

  lemma CreateRight(a: Agent<Mem>, w: World, parent: nat, name: Name, mode: u32)
    requires Right(a, w) && FromKernel(w, CreateFile(parent, name, mode))
    ensures
      var (a', reply) := Step(Guest(), a, CreateFile(parent, name, mode));
      Right(a', Observe(w, CreateFile(parent, name, mode), reply))
  {
    hide Guest, KeyOf, Push, Intern, AllocFh, Comes, ValidUtf8, Tidy, Plain, TidyTable;
    hide TablesOk, PathsOk, NamesRight, HandlesRight, TreeRight;
    NewChildRight(a.t, w, parent, name);
    var path := Push(PathFor(a.t, parent).value, name);
    GuestMakes(a.s, path, mode);
    SendablePath(a.s, Proto.Create(path, mode));
    if ValidUtf8(path) {
      NodeMadeRight(a.s.nodes, w.tree, KeyOf(path), FileNode([]), Hist([]));
    }
  }

  lemma MakeDirRight(a: Agent<Mem>, w: World, parent: nat, name: Name, mode: u32)
    requires Right(a, w) && FromKernel(w, MakeDir(parent, name, mode))
    ensures
      var (a', reply) := Step(Guest(), a, MakeDir(parent, name, mode));
      Right(a', Observe(w, MakeDir(parent, name, mode), reply))
  {
    hide Guest, KeyOf, Push, Intern, AllocFh, Comes, ValidUtf8, Tidy, Plain, TidyTable;
    hide TablesOk, PathsOk, NamesRight, HandlesRight, TreeRight;
    NewChildRight(a.t, w, parent, name);
    var path := Push(PathFor(a.t, parent).value, name);
    GuestMakes(a.s, path, mode);
    SendablePath(a.s, Proto.Mkdir(path, mode));
    if ValidUtf8(path) {
      NodeMadeRight(a.s.nodes, w.tree, KeyOf(path), DirNode, Folder);
    }
  }

  lemma LookupRight(a: Agent<Mem>, w: World, parent: nat, name: Name)
    requires Right(a, w) && FromKernel(w, Lookup(parent, name))
    ensures
      var (a', reply) := Step(Guest(), a, Lookup(parent, name));
      Right(a', Observe(w, Lookup(parent, name), reply))
  {
    hide Guest, KeyOf, Push, Intern, AllocFh, Comes, ValidUtf8, Tidy, Plain, TidyTable;
    hide TablesOk, PathsOk, NamesRight, HandlesRight, TreeRight;
    NewChildRight(a.t, w, parent, name);
    var path := Push(PathFor(a.t, parent).value, name);
    GuestQueries(a.s, path, 0, 0);
    SendablePath(a.s, Proto.Stat(path));
  }

  /** A number the kernel was given stands for a usable path. */
  lemma NamedPath(t: Tables, w: World, ino: nat)
    requires PathsOk(t) && NamesRight(t, w.names) && ino in w.names
    ensures PathFor(t, ino).Some? && Absolute(PathFor(t, ino).value)
    ensures KeyOf(PathFor(t, ino).value) == Named(w, ino)
  {
    RootKey();
    assert ValidUtf8(ROOT);
    hide KeyOf;
  }

  lemma GetAttrRight(a: Agent<Mem>, w: World, ino: nat)
    requires Right(a, w) && FromKernel(w, GetAttr(ino))
    ensures
      var (a', reply) := Step(Guest(), a, GetAttr(ino));
      Right(a', Observe(w, GetAttr(ino), reply))
  {
    hide Guest, KeyOf, Comes, TidyTable, TablesOk, PathsOk, NamesRight, HandlesRight, TreeRight;
    NamedPath(a.t, w, ino);
    GuestQueries(a.s, PathFor(a.t, ino).value, 0, 0);
  }

  /** A path short enough to be truncated is short enough to be looked up. */
  lemma StatIsShorter(s: Mem, s': Mem, p: Path, n: u64)
    requires Comes(s, Proto.Truncate(p, n))
    ensures Comes(s', Proto.Stat(p))
  {
    hide Comes, Handle, Wire.PutResponse;
    ComesIff(s, Proto.Truncate(p, n));
    ComesIff(s', Proto.Stat(p));
    assert Wire.PutVarint(1) == [1] && Wire.PutVarint(10) == [10];
  }

  lemma SetAttrRight(a: Agent<Mem>, w: World, ino: nat, size: Option<u64>)
    requires Right(a, w) && FromKernel(w, SetAttr(ino, size))
    ensures
      var (a', reply) := Step(Guest(), a, SetAttr(ino, size));
      Right(a', Observe(w, SetAttr(ino, size), reply))
  {
    hide Guest, KeyOf, Comes, TidyTable, Recorded, Edited;
    hide TablesOk, PathsOk, NamesRight, HandlesRight, TreeRight;
    NamedPath(a.t, w, ino);
    var p := PathFor(a.t, ino).value;
    GuestQueries(a.s, p, 0, 0);
    if size.Some? {
      GuestEdits(a.s, p, 0, [], size.value);
      var s1 := Guest().truncate(a.s, p, size.value).0;
      GuestQueries(s1, p, 0, 0);
      if Comes(a.s, Proto.Truncate(p, size.value)) {
        StatIsShorter(a.s, s1, p, size.value);
        if EditIn(a.s.nodes, p, Cut(size.value)).Ok? {
          EditRight(a.s.nodes, w, p, Cut(size.value));
        }
      }
    }
    RecordedTree(w, Named(w, ino));
  }

  lemma RecordedTree(w: World, k: Key)
    ensures forall e :: Recorded(w, k, e).names == w.names && Recorded(w, k, e).handles == w.handles
  {
  }

  lemma OpenRight(a: Agent<Mem>, w: World, ino: nat)
    requires Right(a, w) && ino in w.names
    ensures
      var (a', reply) := Step(Guest(), a, OpenFile(ino));
      Right(a', Observe(w, OpenFile(ino), reply))
    ensures
      var (a', reply) := Step(Guest(), a, OpenDir(ino));
      Right(a', Observe(w, OpenDir(ino), reply))
  {
    hide Guest, KeyOf, AllocFh, Absolute, TidyTable, TablesOk, PathsOk, NamesRight, HandlesRight, TreeRight;
    NamedPath(a.t, w, ino);
    AllocRight(a.t, w.names, w.handles, PathFor(a.t, ino).value);
  }

  lemma ReleaseRight(a: Agent<Mem>, w: World, fh: nat)
    requires Right(a, w)
    ensures
      var (a', reply) := Step(Guest(), a, Release(fh));
      Right(a', Observe(w, Release(fh), reply))
    ensures
      var (a', reply) := Step(Guest(), a, ReleaseDir(fh));
      Right(a', Observe(w, ReleaseDir(fh), reply))
  {
    hide Guest, KeyOf, Absolute, TidyTable, TablesOk, TreeRight;
    FreedOk(a.t, fh);
  }

  lemma HandlePath(t: Tables, handles: map<nat, Key>, fh: nat)
    requires HandlesRight(t, handles)
    ensures fh in t.fhs <==> fh in handles
    ensures fh in t.fhs ==> handles[fh] == KeyOf(t.fhs[fh])
  {
    hide KeyOf;
  }

  lemma WriteRight(a: Agent<Mem>, w: World, fh: nat, offset: i64, data: seq<byte>)
    requires Right(a, w)
    ensures
      var (a', reply) := Step(Guest(), a, WriteFile(fh, offset, data));
      Right(a', Observe(w, WriteFile(fh, offset, data), reply))
  {
    hide Guest, KeyOf, Comes, TidyTable, Recorded, EditIn;
    hide TablesOk, PathsOk, NamesRight, HandlesRight, TreeRight;
    if fh in a.t.fhs {
      HandlePath(a.t, w.handles, fh);
      var p := a.t.fhs[fh];
      GuestEdits(a.s, p, Clamp(offset), data, 0);
      var e := Wrote(Clamp(offset), data);
      if EditIn(a.s.nodes, p, e).Ok? {
        EditRight(a.s.nodes, w, p, e);
      }
      RecordedTree(w, w.handles[fh]);
    }
  }

  lemma UnlinkRight(a: Agent<Mem>, w: World, parent: nat, name: Name)
    requires Right(a, w) && FromKernel(w, Unlink(parent, name))
    ensures
      var (a', reply) := Step(Guest(), a, Unlink(parent, name));
      Right(a', Observe(w, Unlink(parent, name), reply))
  {
    hide Guest, KeyOf, Push, Comes, Tidy, Plain, TidyTable;
    hide TablesOk, PathsOk, NamesRight, HandlesRight, TreeRight;
    ChildPath(a.t, w, parent, name);
    var path := Push(PathFor(a.t, parent).value, name);
    GuestMoves(a.s, path, path);
    NodeGoneRight(a.s.nodes, w.tree, KeyOf(path));
  }

  lemma RemoveDirRight(a: Agent<Mem>, w: World, parent: nat, name: Name)
    requires Right(a, w) && FromKernel(w, RemoveDir(parent, name))
    ensures
      var (a', reply) := Step(Guest(), a, RemoveDir(parent, name));
      Right(a', Observe(w, RemoveDir(parent, name), reply))
  {
    hide Guest, KeyOf, Push, Comes, Tidy, Plain, TidyTable;
    hide TablesOk, PathsOk, NamesRight, HandlesRight, TreeRight;
    ChildPath(a.t, w, parent, name);
    var path := Push(PathFor(a.t, parent).value, name);
    GuestMoves(a.s, path, path);
    NodeGoneRight(a.s.nodes, w.tree, KeyOf(path));
  }

  lemma MoveRight(a: Agent<Mem>, w: World, parent: nat, name: Name, newParent: nat, newName: Name)
    requires Right(a, w) && FromKernel(w, Move(parent, name, newParent, newName))
    ensures
      var (a', reply) := Step(Guest(), a, Move(parent, name, newParent, newName));
      Right(a', Observe(w, Move(parent, name, newParent, newName), reply))
  {
    hide Guest, KeyOf, Push, Comes, Tidy, Plain, TidyTable;
    hide TablesOk, PathsOk, NamesRight, HandlesRight, TreeRight;
    ChildPath(a.t, w, parent, name);
    ChildPath(a.t, w, newParent, newName);
    var from := Push(PathFor(a.t, parent).value, name);
    var to := Push(PathFor(a.t, newParent).value, newName);
    GuestMoves(a.s, from, to);
    RenameTarget(a.s, from, to);
    NodeMovedRight(a.s.nodes, w.tree, KeyOf(from), KeyOf(to));
  }

  lemma RenameTarget(s: Mem, from: Path, to: Path)
    requires ValidUtf8(to) ==> Absolute(to)
    ensures Comes(s, Proto.Rename(from, to)) ==> Tidy(KeyOf(to))
  {
    hide KeyOf, Tidy, Comes;
    ComesIff(s, Proto.Rename(from, to));
  }

  lemma NodeMovedRight(m: Table, tree: map<Key, Item>, from: Key, to: Key)
    requires TidyTable(m) && TreeRight(m, tree)
    ensures from in m <==> from in tree
    ensures from in m && Tidy(to) ==>
      TreeRight((m - {from})[to := m[from]], (tree - {from})[to := tree[from]])
      && TidyTable((m - {from})[to := m[from]])
  {
    hide Tidy, Matches;
  }

  predicate ListableName(n: Str) { n == DOT_NAME || n == DOT_DOT || Plain(n) }

  lemma {:induction false} FillRight(
    t: Tables, w: World, dir: Path, ino: nat, all: seq<DirEntry>, i: nat, room: nat)
    requires TablesOk(t) && PathsOk(t) && NamesRight(t, w.names) && HandlesRight(t, w.handles) && Absolute(dir)
    requires forall e <- all :: ListableName(e.name)
    ensures
      var (t', page) := Fill(t, dir, ino, all, i, room);
      && TablesOk(t') && PathsOk(t') && HandlesRight(t', w.handles)
      && NamesRight(t', Noted(w.names, KeyOf(dir), page))
    decreases |all| - i
  {
    hide KeyOf, Push, Intern, Absolute, TablesOk, PathsOk, HandlesRight, NamesRight, Plain;
    if i < |all| {
      var name := all[i].name;
      assert ListableName(name);
      var (t1, child) := EntryIno(t, dir, ino, name);
      var names := w.names;
      if name != DOT_NAME && name != DOT_DOT {
        ListedPath(dir, name);
        InternRight(t, w, Push(dir, name));
        names := names[child := Child(KeyOf(dir), name)];
      }
      if EntrySize(name) <= room {
        FillRight(t1, w.(names := names), dir, ino, all, i + 1, room - EntrySize(name));
        var page := Fill(t, dir, ino, all, i, room).1;
        assert page[0].name == name && page[0].ino == child;
      }
    }
  }

  lemma ListedPath(dir: Path, name: Str)
    requires Absolute(dir) && Plain(name)
    ensures Absolute(Push(dir, name)) && KeyOf(Push(dir, name)) == Child(KeyOf(dir), name)
  {
    PushAddsComponent(dir, name);
    PushKeepsUtf8(dir, name);
    hide KeyOf, Push, Plain, ValidUtf8;
  }

  lemma ReadDirRight(a: Agent<Mem>, w: World, ino: nat, at: i64, capacity: nat)
    requires Right(a, w) && FromKernel(w, ReadDir(ino, at, capacity))
    ensures
      var (a', reply) := Step(Guest(), a, ReadDir(ino, at, capacity));
      Right(a', Observe(w, ReadDir(ino, at, capacity), reply))
  {
    hide Guest, KeyOf, Comes, TidyTable, TablesOk, PathsOk, NamesRight, HandlesRight, TreeRight;
    hide Absolute, Fill, Noted, ListIn, ListableName;
    NamedPath(a.t, w, ino);
    var p := PathFor(a.t, ino).value;
    GuestQueries(a.s, p, 0, 0);
    var order := a.s.env(a.s.step).order;
    if ListIn(a.s.nodes, p, order).Ok? {
      ListableNames(a.s.nodes, p, order);
      var all := WithDots(ListIn(a.s.nodes, p, order).value);
      FillRight(a.t, w, p, ino, all, StartIndex(at, |all|), capacity);
    }
  }

  lemma ListableNames(m: Table, p: Path, order: seq<Key>)
    requires TidyTable(m) && ListIn(m, p, order).Ok?
    ensures forall e <- WithDots(ListIn(m, p, order).value) :: ListableName(e.name)
  {
    hide KeyOf, TidyTable, Plain;
    ListedAreStored(m, KeyOf(p), order);
  }

  /** Every request keeps the observer right about the agent and the filesystem. */
  lemma StepRight(a: Agent<Mem>, w: World, op: Op)
    requires Right(a, w) && FromKernel(w, op)
    ensures Right(Step(Guest(), a, op).0, Observe(w, op, Step(Guest(), a, op).1))
  {
    hide Right, Guest, Step, Observe;
    match op
    case Lookup(parent, name) => LookupRight(a, w, parent, name);
    case GetAttr(ino) => GetAttrRight(a, w, ino);
    case SetAttr(ino, size) => SetAttrRight(a, w, ino, size);
    case OpenDir(ino) => OpenRight(a, w, ino);
    case ReleaseDir(fh) => ReleaseRight(a, w, fh);
    case ReadDir(ino, at, capacity) => ReadDirRight(a, w, ino, at, capacity);
    case OpenFile(ino) => OpenRight(a, w, ino);
    case Release(fh) => ReleaseRight(a, w, fh);
    case ReadFile(fh, offset, len) => ReadRight(a, w, fh, offset, len);
    case WriteFile(fh, offset, data) => WriteRight(a, w, fh, offset, data);
    case CreateFile(parent, name, mode) => CreateRight(a, w, parent, name, mode);
    case MakeDir(parent, name, mode) => MakeDirRight(a, w, parent, name, mode);
    case Unlink(parent, name) => UnlinkRight(a, w, parent, name);
    case RemoveDir(parent, name) => RemoveDirRight(a, w, parent, name);
    case Move(parent, name, newParent, newName) => MoveRight(a, w, parent, name, newParent, newName);
  }

  /** A read answers from the history of the path its handle was opened with, whatever
      has been renamed, removed or recreated since. The one other answer is the I/O
      error of a request too long to be sent. */
  lemma ReadRight(a: Agent<Mem>, w: World, fh: nat, offset: i64, len: u32)
    requires Right(a, w)
    ensures
      var (a', reply) := Step(Guest(), a, ReadFile(fh, offset, len));
      Right(a', Observe(w, ReadFile(fh, offset, len), reply))
    ensures Step(Guest(), a, ReadFile(fh, offset, len)).1 ==
      if Unanswered(a, ReadFile(fh, offset, len)) then Failed(EIO)
      else Predicted(w, fh, offset, len)
  {
    hide Guest, KeyOf, Comes, TidyTable, TablesOk, PathsOk, NamesRight, HandlesRight, TreeRight;
    HandlePath(a.t, w.handles, fh);
    if fh in a.t.fhs {
      GuestQueries(a.s, a.t.fhs[fh], Clamp(offset), len);
      NodeAt(a.s.nodes, w.tree, KeyOf(a.t.fhs[fh]));
    }
  }

  lemma NodeAt(m: Table, tree: map<Key, Item>, k: Key)
    requires TreeRight(m, tree)
    ensures k in m <==> k in tree
    ensures k in m ==> Matches(m[k], tree[k])
  {
    hide Matches;
  }

  lemma BootRight(env: nat -> Env)
    ensures Right(Boot(env).a, Boot(env).w)
  {
    hide KeyOf, ValidUtf8, TreeRight, TidyTable, Absolute;
    RootKey();
    AsciiIsValid(HELLO_NAME);
    BootTree(HELLO_NAME, HELLO_TEXT);
  }

  lemma BootTree(name: Name, text: seq<byte>)
    requires Plain(name) && ValidUtf8(name)
    ensures TreeRight(
      map[ROOT_KEY := DirNode, Key(true, [name]) := FileNode(text)],
      map[ROOT_KEY := Folder, Key(true, [name]) := Hist([Wrote(0, text)])])
    ensures TidyTable(map[ROOT_KEY := DirNode, Key(true, [name]) := FileNode(text)])
  {
    var h := [Wrote(0, text)];
    assert h[..0] == [];
    assert Content(h) == WriteAt([], 0, text) == text;
  }

  lemma {:induction false} RunRight(env: nat -> Env, ops: seq<Op>)
    requires KernelRun(Boot(env), ops)
    ensures Right(JointRun(Boot(env), ops).a, JointRun(Boot(env), ops).w)
  {
    hide Right, Step, Observe, FromKernel;
    if ops == [] {
      BootRight(env);
    } else {
      var front := ops[..|ops| - 1];
      RunRight(env, front);
      StepRight(JointRun(Boot(env), front).a, JointRun(Boot(env), front).w, ops[|ops| - 1]);
    }
  }

  /** End to end: after any run of kernel requests, through the agent, its client and
      the in-memory filesystem, every read through a handle returns what the requests
      and replies so far say it must. */
  lemma ReadsReturnHistory(env: nat -> Env, ops: seq<Op>, fh: nat, offset: i64, len: u32)
    requires KernelRun(Boot(env), ops)
    ensures
      var j := JointRun(Boot(env), ops);
      Step(Guest(), j.a, ReadFile(fh, offset, len)).1 ==
        if Unanswered(j.a, ReadFile(fh, offset, len)) then Failed(EIO)
        else Predicted(j.w, fh, offset, len)
  {
    hide Right, Step, Predicted, Comes;
    RunRight(env, ops);
    ReadRight(JointRun(Boot(env), ops).a, JointRun(Boot(env), ops).w, fh, offset, len);
  }
}
