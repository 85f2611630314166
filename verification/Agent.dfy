/** The guest's FUSE filesystem: it turns inode and handle operations into path
    operations on the client. The kernel may call it in any order. */
module Agent {
  import opened Prelude
  import opened VfsCore
  import opened Paths

  // ---------------------------------------------------------------- tables

  /** `inodes` and `rev` hold the inode numbers given out so far, except the root's. */
  datatype Tables = Tables(
    inodes: map<nat, Path>, rev: map<Key, nat>, nextIno: nat, fhs: map<nat, Path>, nextFh: nat)

  const START := Tables(map[], map[], 2, map[], 1)

  function PathFor(t: Tables, ino: nat): Option<Path> {
    if ino == 1 then Some(ROOT) else if ino in t.inodes then Some(t.inodes[ino]) else None
  }

  function Intern(t: Tables, p: Path): (Tables, nat) {
    var k := KeyOf(p);
    if k == ROOT_KEY then (t, 1)
    else if k in t.rev then (t, t.rev[k])
    else (t.(nextIno := t.nextIno + 1, inodes := t.inodes[t.nextIno := p], rev := t.rev[k := t.nextIno]), t.nextIno)
  }

  function AllocFh(t: Tables, p: Path): (Tables, nat) {
    (t.(nextFh := t.nextFh + 1, fhs := t.fhs[t.nextFh := p]), t.nextFh)
  }

  function Freed(t: Tables, fh: nat): Tables { t.(fhs := t.fhs - {fh}) }

  // ---------------------------------------------------------------- operations

  datatype Op =
    | Lookup(parent: nat, name: Name)
    | GetAttr(ino: nat)
    | SetAttr(ino: nat, size: Option<u64>)
    | OpenDir(ino: nat)
    | ReleaseDir(fh: nat)
    | ReadDir(ino: nat, at: i64, capacity: nat)
    | OpenFile(ino: nat)
    | Release(fh: nat)
    | ReadFile(fh: nat, offset: i64, len: u32)
    | WriteFile(fh: nat, offset: i64, data: seq<byte>)
    | CreateFile(parent: nat, name: Name, mode: u32)
    | MakeDir(parent: nat, name: Name, mode: u32)
    | Unlink(parent: nat, name: Name)
    | RemoveDir(parent: nat, name: Name)
    | Move(parent: nat, name: Name, newParent: nat, newName: Name)

  /** One entry of a directory reply; `next` is the offset to resume from. */
  datatype Dirent = Dirent(ino: nat, next: nat, kind: FsKind, name: Str)

  datatype Reply =
    | Failed(errno: nat)
    | Entry(ino: nat, attr: FileAttr)
    | Attr(ino: nat, attr: FileAttr)
    | Opened(fh: nat)
    | Done
    | Listing(entries: seq<Dirent>)
    | Data(bytes: seq<byte>)
    | Written(count: u32)
    | Created(ino: nat, attr: FileAttr, fh: nat)

  const ENOENT := 2
  const EIO := 5
  const EBADF := 9
  const EACCES := 13
  const EEXIST := 17
  const ENOTDIR := 20
  const EISDIR := 21

  function Errno(e: VfsError): nat {
    match e
    case NotFound => ENOENT
    case PermissionDenied => EACCES
    case AlreadyExists => EEXIST
    case NotADirectory => ENOTDIR
    case IsADirectory => EISDIR
    case Io(_) => EIO
  }

  /** Negative offsets are taken as zero. */
  function Clamp(offset: i64): u64 { if offset < 0 then 0 else offset }

  const DOT_NAME: Str := [46]
  const DOT_DOT: Str := [46, 46]

  function WithDots(entries: seq<DirEntry>): seq<DirEntry> {
    [DirEntry(DOT_NAME, FsKind.Dir), DirEntry(DOT_DOT, FsKind.Dir)] + entries
  }

  /** The size of a directory entry in the reply buffer: a 24-byte header and the
      name, padded to 8 bytes. */
  function EntrySize(name: Name): nat { (24 + |name| + 7) / 8 * 8 }

  /** The inode number reported for an entry, interning a child's path. */
  function EntryIno(t: Tables, dir: Path, ino: nat, name: Str): (Tables, nat) {
    if name == DOT_NAME then (t, ino)
    else if name == DOT_DOT then (t, 1)
    else Intern(t, Push(dir, name))
  }

  /** The entries of `all` from index `i` that fit in what is left of the buffer. The
      child that no longer fits has been interned before that is found out. */
  function Fill(t: Tables, dir: Path, ino: nat, all: seq<DirEntry>, i: nat, room: nat): (Tables, seq<Dirent>)
    decreases |all| - i
  {
    if i >= |all| then (t, [])
    else
      var (t1, child) := EntryIno(t, dir, ino, all[i].name);
      if EntrySize(all[i].name) > room then (t1, [])
      else
        var (t2, more) := Fill(t1, dir, ino, all, i + 1, room - EntrySize(all[i].name));
        (t2, [Dirent(child, i + 1, all[i].kind, all[i].name)] + more)
  }

  /** `offset as usize`: a negative offset is beyond any listing. */
  function StartIndex(at: i64, n: nat): nat { if at < 0 then n else at }

  /** The agent's tables, and the state of the filesystem behind its client. */
  datatype Agent<+S> = Agent(t: Tables, s: S)

  function Replying<S>(t: Tables, s: S, r: VfsResult<()>): (Agent<S>, Reply) {
    (Agent(t, s), if r.Ok? then Done else Failed(Errno(r.error)))
  }

  function Step<S>(v: Vfs<S>, a: Agent<S>, op: Op): (Agent<S>, Reply) {
    var t := a.t;
    match op
    case Lookup(parent, name) =>
      (match PathFor(t, parent)
       case None => (a, Failed(ENOENT))
       case Some(p) =>
         var path := Push(p, name);
         var (s, r) := v.stat(a.s, path);
         match r
         case Err(e) => (Agent(t, s), Failed(Errno(e)))
         case Ok(attr) => var (t', ino) := Intern(t, path); (Agent(t', s), Entry(ino, attr)))
    case GetAttr(ino) =>
      (match PathFor(t, ino)
       case None => (a, Failed(ENOENT))
       case Some(p) =>
         var (s, r) := v.stat(a.s, p);
         (Agent(t, s), if r.Ok? then Attr(ino, r.value) else Failed(Errno(r.error))))
    case SetAttr(ino, size) =>
      (match PathFor(t, ino)
       case None => (a, Failed(ENOENT))
       case Some(p) =>
         var (s1, cut) := if size.Some? then v.truncate(a.s, p, size.value) else (a.s, Ok(()));
         if cut.Err? then (Agent(t, s1), Failed(Errno(cut.error)))
         else
           var (s2, r) := v.stat(s1, p);
           (Agent(t, s2), if r.Ok? then Attr(ino, r.value) else Failed(Errno(r.error))))
    case OpenDir(ino) =>
      (match PathFor(t, ino)
       case None => (a, Failed(ENOENT))
       case Some(p) => var (t', fh) := AllocFh(t, p); (Agent(t', a.s), Opened(fh)))
    case ReleaseDir(fh) => (Agent(Freed(t, fh), a.s), Done)
    case ReadDir(ino, at, capacity) =>
      (match PathFor(t, ino)
       case None => (a, Failed(ENOENT))
       case Some(p) =>
         var (s, r) := v.list(a.s, p);
         match r
         case Err(e) => (Agent(t, s), Failed(Errno(e)))
         case Ok(entries) =>
           var all := WithDots(entries);
           var (t', page) := Fill(t, p, ino, all, StartIndex(at, |all|), capacity);
           (Agent(t', s), Listing(page)))
    case OpenFile(ino) =>
      (match PathFor(t, ino)
       case None => (a, Failed(ENOENT))
       case Some(p) => var (t', fh) := AllocFh(t, p); (Agent(t', a.s), Opened(fh)))
    case Release(fh) => (Agent(Freed(t, fh), a.s), Done)
    case ReadFile(fh, offset, len) =>
      if fh !in t.fhs then (a, Failed(EBADF))
      else
        var (s, r) := v.read(a.s, t.fhs[fh], Clamp(offset), len);
        (Agent(t, s), if r.Ok? then Data(r.value) else Failed(Errno(r.error)))
    case WriteFile(fh, offset, data) =>
      if fh !in t.fhs then (a, Failed(EBADF))
      else
        var (s, r) := v.write(a.s, t.fhs[fh], Clamp(offset), data);
        (Agent(t, s), if r.Ok? then Written(r.value) else Failed(Errno(r.error)))
    case CreateFile(parent, name, mode) =>
      (match PathFor(t, parent)
       case None => (a, Failed(ENOENT))
       case Some(p) =>
         var path := Push(p, name);
         var (s, r) := v.create(a.s, path, mode);
         match r
         case Err(e) => (Agent(t, s), Failed(Errno(e)))
         case Ok(attr) =>
           var (t1, ino) := Intern(t, path);
           var (t2, fh) := AllocFh(t1, path);
           (Agent(t2, s), Created(ino, attr, fh)))
    case MakeDir(parent, name, mode) =>
      (match PathFor(t, parent)
       case None => (a, Failed(ENOENT))
       case Some(p) =>
         var path := Push(p, name);
         var (s, r) := v.mkdir(a.s, path, mode);
         match r
         case Err(e) => (Agent(t, s), Failed(Errno(e)))
         case Ok(attr) => var (t', ino) := Intern(t, path); (Agent(t', s), Entry(ino, attr)))
    case Unlink(parent, name) =>
      (match PathFor(t, parent)
       case None => (a, Failed(ENOENT))
       case Some(p) => var (s, r) := v.remove(a.s, Push(p, name)); Replying(t, s, r))
    case RemoveDir(parent, name) =>
      (match PathFor(t, parent)
       case None => (a, Failed(ENOENT))
       case Some(p) => var (s, r) := v.rmdir(a.s, Push(p, name)); Replying(t, s, r))
    case Move(parent, name, newParent, newName) =>
      (match (PathFor(t, parent), PathFor(t, newParent))
       case (Some(p), Some(np)) =>
         var (s, r) := v.rename(a.s, Push(p, name), Push(np, newName));
         Replying(t, s, r)
       case _ => (a, Failed(ENOENT)))
  }

  function After<S>(v: Vfs<S>, a: Agent<S>, ops: seq<Op>): Agent<S> {
    if ops == [] then a else Step(v, After(v, a, ops[..|ops| - 1]), ops[|ops| - 1]).0
  }

  // ------------------------------------------------ the tables over every run

  /** The two inode tables are mutual inverses, hold exactly the numbers given out,
      and never the root; live handles are numbers already given out. */
  ghost predicate TablesOk(t: Tables) {
    && t.nextIno >= 2 && t.nextFh >= 1
    && (forall i :: i in t.inodes <==> 2 <= i < t.nextIno)
    && (forall i <- t.inodes :: KeyOf(t.inodes[i]) in t.rev && t.rev[KeyOf(t.inodes[i])] == i)
    && (forall k <- t.rev :: t.rev[k] in t.inodes && KeyOf(t.inodes[t.rev[k]]) == k)
    && ROOT_KEY !in t.rev
    && (forall fh <- t.fhs :: 1 <= fh < t.nextFh)
  }

  /** Bindings are permanent; a handle is live with its old path, or is new. */
  ghost predicate Extends(t: Tables, t': Tables) {
    && t.nextIno <= t'.nextIno && t.nextFh <= t'.nextFh
    && (forall i <- t.inodes :: i in t'.inodes && t'.inodes[i] == t.inodes[i])
    && (forall k <- t.rev :: k in t'.rev && t'.rev[k] == t.rev[k])
    && (forall fh <- t'.fhs :: fh >= t.nextFh || (fh in t.fhs && t'.fhs[fh] == t.fhs[fh]))
  }

  lemma ExtendsTransitive(a: Tables, b: Tables, c: Tables)
    requires Extends(a, b) && Extends(b, c)
    ensures Extends(a, c)
  {
    hide KeyOf;
  }

  /** Interning names the path, and changes nothing that was named before. */
  lemma InternOk(t: Tables, p: Path)
    requires TablesOk(t)
    ensures
      var (t', ino) := Intern(t, p);
      && TablesOk(t') && Extends(t, t') && t'.fhs == t.fhs && t'.nextFh == t.nextFh
      && PathFor(t', ino).Some? && KeyOf(PathFor(t', ino).value) == KeyOf(p)
      && Intern(t', p) == (t', ino)
      && (forall i <- t'.inodes :: i in t.inodes || t'.inodes[i] == p)
  {
    RootKey();
    hide KeyOf;
  }

  /** Asking for the number of a path obtained from a number gives it back. */
  lemma InternInvertsPathFor(t: Tables, ino: nat)
    requires TablesOk(t) && PathFor(t, ino).Some?
    ensures Intern(t, PathFor(t, ino).value) == (t, ino)
  {
    RootKey();
    hide KeyOf;
  }

  lemma {:induction false} FillOk(t: Tables, dir: Path, ino: nat, all: seq<DirEntry>, i: nat, room: nat)
    requires TablesOk(t)
    ensures
      var (t', page) := Fill(t, dir, ino, all, i, room);
      TablesOk(t') && Extends(t, t') && t'.fhs == t.fhs && t'.nextFh == t.nextFh
    decreases |all| - i
  {
    hide TablesOk, KeyOf, Push, Intern;
    if i < |all| {
      if all[i].name != DOT_NAME && all[i].name != DOT_DOT { InternOk(t, Push(dir, all[i].name)); }
      var t1 := EntryIno(t, dir, ino, all[i].name).0;
      if EntrySize(all[i].name) <= room {
        FillOk(t1, dir, ino, all, i + 1, room - EntrySize(all[i].name));
        ExtendsTransitive(t, t1, Fill(t1, dir, ino, all, i + 1, room - EntrySize(all[i].name)).0);
      }
    }
  }

  lemma AllocOk(t: Tables, p: Path)
    requires TablesOk(t)
    ensures TablesOk(AllocFh(t, p).0) && Extends(t, AllocFh(t, p).0)
  {
    hide KeyOf;
  }

  lemma FreedOk(t: Tables, fh: nat)
    requires TablesOk(t)
    ensures TablesOk(Freed(t, fh)) && Extends(t, Freed(t, fh))
  {
    hide KeyOf;
  }

  lemma StepKeepsTables<S>(v: Vfs<S>, a: Agent<S>, op: Op)
    requires TablesOk(a.t)
    ensures TablesOk(Step(v, a, op).0.t) && Extends(a.t, Step(v, a, op).0.t)
  {
    hide TablesOk, KeyOf, Push, Intern, AllocFh, Freed, Fill;
    match op
    case ReadDir(ino, at, capacity) =>
      if PathFor(a.t, ino).Some? {
        var p := PathFor(a.t, ino).value;
        var r := v.list(a.s, p).1;
        if r.Ok? {
          var all := WithDots(r.value);
          FillOk(a.t, p, ino, all, StartIndex(at, |all|), capacity);
        }
      }
    case Lookup(parent, name) => NewChildOk(a.t, parent, name);
    case MakeDir(parent, name, _) => NewChildOk(a.t, parent, name);
    case CreateFile(parent, name, _) => NewChildOk(a.t, parent, name);
    case OpenDir(ino) => if PathFor(a.t, ino).Some? { AllocOk(a.t, PathFor(a.t, ino).value); }
    case OpenFile(ino) => if PathFor(a.t, ino).Some? { AllocOk(a.t, PathFor(a.t, ino).value); }
    case ReleaseDir(fh) => FreedOk(a.t, fh);
    case Release(fh) => FreedOk(a.t, fh);
    case _ =>
  }

  lemma NewChildOk(t: Tables, parent: nat, name: Name)
    requires TablesOk(t)
    ensures PathFor(t, parent).Some? ==>
      var path := Push(PathFor(t, parent).value, name);
      var t1 := Intern(t, path).0;
      var t2 := AllocFh(t1, path).0;
      TablesOk(t1) && Extends(t, t1) && TablesOk(t2) && Extends(t, t2)
  {
    hide TablesOk, KeyOf, Push, Intern, AllocFh;
    if PathFor(t, parent).Some? {
      var path := Push(PathFor(t, parent).value, name);
      InternOk(t, path);
      var t1 := Intern(t, path).0;
      AllocOk(t1, path);
      ExtendsTransitive(t, t1, AllocFh(t1, path).0);
    }
  }

  /** Over every run of kernel operations, on any filesystem. */
  lemma {:induction false} RunKeepsTables<S>(v: Vfs<S>, a: Agent<S>, ops: seq<Op>)
    requires TablesOk(a.t)
    ensures TablesOk(After(v, a, ops).t) && Extends(a.t, After(v, a, ops).t)
  {
    hide TablesOk, Step;
    if ops != [] {
      var mid := After(v, a, ops[..|ops| - 1]);
      RunKeepsTables(v, a, ops[..|ops| - 1]);
      StepKeepsTables(v, mid, ops[|ops| - 1]);
      ExtendsTransitive(a.t, mid.t, After(v, a, ops).t);
    }
  }

  /** From empty tables, at every point of every run: the numbers in use are exactly
      those from 2 up, no path has two of them, the root has none, live handles are ones
      already given out, and what held at any earlier point `k` still holds. */
  lemma {:induction false} EveryRunKeepsTables<S>(v: Vfs<S>, s: S, ops: seq<Op>, k: nat)
    requires k <= |ops|
    ensures
      var t := After(v, Agent(START, s), ops).t;
      && TablesOk(t)
      && (forall i :: i in t.inodes <==> 2 <= i < t.nextIno)
      && (forall i, j :: i in t.inodes && j in t.inodes && KeyOf(t.inodes[i]) == KeyOf(t.inodes[j]) ==> i == j)
      && (forall i <- t.inodes :: KeyOf(t.inodes[i]) != ROOT_KEY)
      && (forall fh <- t.fhs :: 1 <= fh < t.nextFh)
      && Extends(After(v, Agent(START, s), ops[..k]).t, t)
  {
    hide KeyOf, Step, Extends;
    StartOk();
    var a := Agent(START, s);
    RunKeepsTables(v, a, ops);
    if k == |ops| {
      assert ops[..k] == ops;
      ExtendsReflexive(After(v, a, ops).t);
    } else {
      var front := ops[..|ops| - 1];
      assert front[..k] == ops[..k];
      EveryRunKeepsTables(v, s, front, k);
      StepKeepsTables(v, After(v, a, front), ops[|ops| - 1]);
      ExtendsTransitive(After(v, a, ops[..k]).t, After(v, a, front).t, After(v, a, ops).t);
    }
  }

  lemma ExtendsReflexive(t: Tables)
    requires TablesOk(t)
    ensures Extends(t, t)
  {
    hide KeyOf;
  }

  lemma StartOk()
    ensures TablesOk(START)
  {
  }

  // ------------------------------------------------ what the kernel sees of a failure

  function ErrorOf<T>(r: VfsResult<T>): Option<VfsError> { if r.Err? then Some(r.error) else None }

  /** The error of the operation's call, if its numbers are known and the call fails. */
  function Refused<S>(v: Vfs<S>, a: Agent<S>, op: Op): Option<VfsError> {
    match op
    case Lookup(parent, name) =>
      (match PathFor(a.t, parent) case None => None case Some(p) => ErrorOf(v.stat(a.s, Push(p, name)).1))
    case GetAttr(ino) => (match PathFor(a.t, ino) case None => None case Some(p) => ErrorOf(v.stat(a.s, p).1))
    case SetAttr(ino, None) => (match PathFor(a.t, ino) case None => None case Some(p) => ErrorOf(v.stat(a.s, p).1))
    case SetAttr(ino, Some(n)) =>
      (match PathFor(a.t, ino) case None => None case Some(p) => ErrorOf(v.truncate(a.s, p, n).1))
    case ReadDir(ino, _, _) => (match PathFor(a.t, ino) case None => None case Some(p) => ErrorOf(v.list(a.s, p).1))
    case ReadFile(fh, offset, len) =>
      if fh in a.t.fhs then ErrorOf(v.read(a.s, a.t.fhs[fh], Max(0, offset), len).1) else None
    case WriteFile(fh, offset, data) =>
      if fh in a.t.fhs then ErrorOf(v.write(a.s, a.t.fhs[fh], Max(0, offset), data).1) else None
    case CreateFile(parent, name, mode) =>
      (match PathFor(a.t, parent) case None => None case Some(p) => ErrorOf(v.create(a.s, Push(p, name), mode).1))
    case MakeDir(parent, name, mode) =>
      (match PathFor(a.t, parent) case None => None case Some(p) => ErrorOf(v.mkdir(a.s, Push(p, name), mode).1))
    case Unlink(parent, name) =>
      (match PathFor(a.t, parent) case None => None case Some(p) => ErrorOf(v.remove(a.s, Push(p, name)).1))
    case RemoveDir(parent, name) =>
      (match PathFor(a.t, parent) case None => None case Some(p) => ErrorOf(v.rmdir(a.s, Push(p, name)).1))
    case Move(parent, name, newParent, newName) =>
      (match (PathFor(a.t, parent), PathFor(a.t, newParent))
       case (Some(p), Some(np)) => ErrorOf(v.rename(a.s, Push(p, name), Push(np, newName)).1)
       case _ => None)
    case _ => None
  }

  /** On any filesystem: a call that fails changes no table, and the kernel is given the
      Linux error number for it. */
  lemma RefusalIsReported<S>(v: Vfs<S>, a: Agent<S>, op: Op, e: VfsError)
    requires Refused(v, a, op) == Some(e)
    ensures Step(v, a, op).0.t == a.t
    ensures Step(v, a, op).1 ==
      match e {
        case NotFound => Failed(2)
        case Io(_) => Failed(5)
        case PermissionDenied => Failed(13)
        case AlreadyExists => Failed(17)
        case NotADirectory => Failed(20)
        case IsADirectory => Failed(21)
      }
  {
    hide PathFor, Push, Intern, AllocFh, Fill;
  }

  /** Numbers that were never given out are ENOENT or EBADF, and nothing is called; number
      one is always the root. */
  lemma UnknownIsReported<S>(v: Vfs<S>, a: Agent<S>, op: Op)
    ensures PathFor(a.t, 1) == Some([47])
    ensures
      (match op
       case Lookup(parent, _) => PathFor(a.t, parent).None?
       case GetAttr(ino) => PathFor(a.t, ino).None?
       case SetAttr(ino, _) => PathFor(a.t, ino).None?
       case OpenDir(ino) => PathFor(a.t, ino).None?
       case OpenFile(ino) => PathFor(a.t, ino).None?
       case ReadDir(ino, _, _) => PathFor(a.t, ino).None?
       case CreateFile(parent, _, _) => PathFor(a.t, parent).None?
       case MakeDir(parent, _, _) => PathFor(a.t, parent).None?
       case Unlink(parent, _) => PathFor(a.t, parent).None?
       case RemoveDir(parent, _) => PathFor(a.t, parent).None?
       case Move(parent, _, newParent, _) => PathFor(a.t, parent).None? || PathFor(a.t, newParent).None?
       case _ => false)
      ==> Step(v, a, op) == (a, Failed(2))
    ensures
      (op.ReadFile? && op.fh !in a.t.fhs) || (op.WriteFile? && op.fh !in a.t.fhs) ==> Step(v, a, op) == (a, Failed(9))
  {
    assert PathFor(a.t, 1) == Some([47]);
    hide PathFor;
  }
}
