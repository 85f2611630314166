/** The calls an operation of the agent makes. */
module Calls {
  import opened Prelude
  import opened VfsCore
  import opened Paths
  import opened Agent
  import RpcSystem
  import opened Client
  import Proto

  /** The first call the agent makes for an operation, if it makes one. */
  function FirstCall(t: Tables, op: Op): Option<Proto.Request> {
    match op
    case Lookup(parent, name) =>
      (match Below(t, parent, name) case Some(p) => Some(Proto.Stat(p)) case None => None)
    case GetAttr(ino) =>
      (match PathFor(t, ino) case Some(p) => Some(Proto.Stat(p)) case None => None)
    case SetAttr(ino, Some(n)) =>
      (match PathFor(t, ino) case Some(p) => Some(Proto.Truncate(p, n)) case None => None)
    case SetAttr(ino, None) =>
      (match PathFor(t, ino) case Some(p) => Some(Proto.Stat(p)) case None => None)
    case ReadDir(ino, _, _) =>
      (match PathFor(t, ino) case Some(p) => Some(Proto.List(p)) case None => None)
    case ReadFile(fh, offset, len) =>
      if fh in t.fhs then Some(Proto.Read(t.fhs[fh], Max(0, offset), len)) else None
    case WriteFile(fh, offset, data) =>
      if fh in t.fhs then Some(Proto.Write(t.fhs[fh], Max(0, offset), data)) else None
    case CreateFile(parent, name, mode) =>
      (match Below(t, parent, name) case Some(p) => Some(Proto.Create(p, mode)) case None => None)
    case MakeDir(parent, name, mode) =>
      (match Below(t, parent, name) case Some(p) => Some(Proto.Mkdir(p, mode)) case None => None)
    case Unlink(parent, name) =>
      (match Below(t, parent, name) case Some(p) => Some(Proto.Remove(p)) case None => None)
    case RemoveDir(parent, name) =>
      (match Below(t, parent, name) case Some(p) => Some(Proto.Rmdir(p)) case None => None)
    case Move(parent, name, newParent, newName) =>
      (match (PathFor(t, parent), PathFor(t, newParent))
       case (Some(p), Some(np)) => Some(Proto.Rename(Push(p, name), Push(np, newName)))
       case _ => None)
    case _ => None
  }

  function Below(t: Tables, parent: nat, name: Name): Option<Path> {
    match PathFor(t, parent) case Some(p) => Some(Push(p, name)) case None => None
  }

  /** The one operation that makes a second call: once it has cut a file, it looks at it. */
  function SecondCall(t: Tables, op: Op, first: RpcSystem.Outcome): Option<Proto.Request> {
    if op.SetAttr? && op.size.Some? && AsTruncate(first).Ok? && PathFor(t, op.ino).Some?
    then Some(Proto.Stat(PathFor(t, op.ino).value))
    else None
  }

  /** Every call of the operation keeps to the limit of a frame. */
  predicate WithinLimit<S>(v: Vfs<S>, a: Agent<S>, op: Op) {
    match FirstCall(a.t, op)
    case None => true
    case Some(q) =>
      RpcSystem.CallFits(v, a.s, q) &&
      var (s', o) := Delivered(v, a.s, q);
      match SecondCall(a.t, op, o)
      case None => true
      case Some(q') => RpcSystem.CallFits(v, s', q')
  }

  type Caller<!S> = (S, Proto.Request) -> (S, RpcSystem.Outcome)

  /** Where the calls of an operation leave the state behind the client. */
  function AfterCalls<S>(call: Caller<S>, s: S, t: Tables, op: Op): S {
    var q := FirstCall(t, op);
    if q.None? then s
    else
      var q' := SecondCall(t, op, call(s, q.value).1);
      if q'.None? then call(s, q.value).0 else call(call(s, q.value).0, q'.value).0
  }

  /** The calls of an operation. */
  function CallsOf<S>(call: Caller<S>, s: S, t: Tables, op: Op): seq<Proto.Request> {
    var q := FirstCall(t, op);
    if q.None? then []
    else
      var q' := SecondCall(t, op, call(s, q.value).1);
      if q'.None? then [q.value] else [q.value, q'.value]
  }

  /** The two ways of calling have the same outcomes for the operation. */
  predicate SameOutcomes<A, B>(c: Caller<A>, a: A, d: Caller<B>, b: B, t: Tables, op: Op) {
    var q := FirstCall(t, op);
    q.None? ||
    (c(a, q.value).1 == d(b, q.value).1 &&
     var q' := SecondCall(t, op, c(a, q.value).1);
     q'.None? || c(c(a, q.value).0, q'.value).1 == d(d(b, q.value).0, q'.value).1)
  }

  /** The operation's reply and new tables depend on nothing but those outcomes, and it
      makes exactly those calls. */
  ghost predicate Alike<A, B>(c: Caller<A>, a: A, d: Caller<B>, b: B, t: Tables, op: Op) {
    Agrees(Over(c), a, Over(d), b, t, op, AfterCalls(c, a, t, op))
  }

  /** The same reply and tables, and the state `left`. */
  ghost predicate Agrees<A, B>(v: Vfs<A>, a: A, v': Vfs<B>, b: B, t: Tables, op: Op, left: A) {
    var x, y := Step(v, Agent(t, a), op), Step(v', Agent(t, b), op);
    x.0.t == y.0.t && x.1 == y.1 && x.0.s == left
  }

  lemma OverQueries<S>(c: Caller<S>, s: S, p: Path, o: u64, n: u32)
    ensures Over(c).stat(s, p) == (c(s, Proto.Stat(p)).0, AsStat(c(s, Proto.Stat(p)).1))
    ensures Over(c).list(s, p) == (c(s, Proto.List(p)).0, AsList(c(s, Proto.List(p)).1))
    ensures Over(c).read(s, p, o, n) == (c(s, Proto.Read(p, o, n)).0, AsRead(c(s, Proto.Read(p, o, n)).1))
  {
    hide AsStat, AsList, AsRead;
  }

  lemma OverEdits<S>(c: Caller<S>, s: S, p: Path, o: u64, d: seq<byte>, n: u64)
    ensures Over(c).write(s, p, o, d) == (c(s, Proto.Write(p, o, d)).0, AsWrite(c(s, Proto.Write(p, o, d)).1))
    ensures Over(c).truncate(s, p, n) == (c(s, Proto.Truncate(p, n)).0, AsTruncate(c(s, Proto.Truncate(p, n)).1))
  {
    hide AsWrite, AsTruncate;
  }

  lemma OverMakes<S>(c: Caller<S>, s: S, p: Path, m: u32)
    ensures Over(c).create(s, p, m) == (c(s, Proto.Create(p, m)).0, AsCreate(c(s, Proto.Create(p, m)).1))
    ensures Over(c).mkdir(s, p, m) == (c(s, Proto.Mkdir(p, m)).0, AsMkdir(c(s, Proto.Mkdir(p, m)).1))
  {
    hide AsCreate, AsMkdir;
  }

  lemma OverMoves<S>(c: Caller<S>, s: S, p: Path, to: Path)
    ensures Over(c).remove(s, p) == (c(s, Proto.Remove(p)).0, AsRemove(c(s, Proto.Remove(p)).1))
    ensures Over(c).rmdir(s, p) == (c(s, Proto.Rmdir(p)).0, AsRmdir(c(s, Proto.Rmdir(p)).1))
    ensures Over(c).rename(s, p, to) == (c(s, Proto.Rename(p, to)).0, AsRename(c(s, Proto.Rename(p, to)).1))
  {
    hide AsRemove, AsRmdir, AsRename;
  }

  // What each group of operations calls, if its numbers are known.

  lemma ChildCalls(t: Tables, parent: nat, name: Name, mode: u32)
    requires PathFor(t, parent).Some?
    ensures
      var path := Push(PathFor(t, parent).value, name);
      && FirstCall(t, Lookup(parent, name)) == Some(Proto.Stat(path))
      && FirstCall(t, CreateFile(parent, name, mode)) == Some(Proto.Create(path, mode))
      && FirstCall(t, MakeDir(parent, name, mode)) == Some(Proto.Mkdir(path, mode))
      && FirstCall(t, Unlink(parent, name)) == Some(Proto.Remove(path))
      && FirstCall(t, RemoveDir(parent, name)) == Some(Proto.Rmdir(path))
  {
    hide Push, PathFor;
  }

  lemma MoveCalls(t: Tables, parent: nat, name: Name, newParent: nat, newName: Name)
    requires PathFor(t, parent).Some? && PathFor(t, newParent).Some?
    ensures FirstCall(t, Move(parent, name, newParent, newName)) ==
      Some(Proto.Rename(Push(PathFor(t, parent).value, name), Push(PathFor(t, newParent).value, newName)))
  {
    hide Push, PathFor;
  }

  lemma InodeCalls(t: Tables, ino: nat, at: i64, capacity: nat, n: u64)
    requires PathFor(t, ino).Some?
    ensures
      var p := PathFor(t, ino).value;
      && FirstCall(t, GetAttr(ino)) == Some(Proto.Stat(p))
      && FirstCall(t, ReadDir(ino, at, capacity)) == Some(Proto.List(p))
      && FirstCall(t, SetAttr(ino, None)) == Some(Proto.Stat(p))
      && FirstCall(t, SetAttr(ino, Some(n))) == Some(Proto.Truncate(p, n))
  {
    hide PathFor;
  }

  lemma HandleCalls(t: Tables, fh: nat, offset: i64, len: u32, data: seq<byte>)
    requires fh in t.fhs
    ensures FirstCall(t, ReadFile(fh, offset, len)) == Some(Proto.Read(t.fhs[fh], Max(0, offset), len))
    ensures FirstCall(t, WriteFile(fh, offset, data)) == Some(Proto.Write(t.fhs[fh], Max(0, offset), data))
  {
  }

  /** All but a size change make at most one call. */
  lemma OneCall<A, B>(c: Caller<A>, a: A, d: Caller<B>, b: B, t: Tables, op: Op)
    requires !op.SetAttr? || op.size.None?
    requires FirstCall(t, op).Some?
    ensures
      var q := FirstCall(t, op).value;
      && AfterCalls(c, a, t, op) == c(a, q).0
      && (SameOutcomes(c, a, d, b, t, op) <==> c(a, q).1 == d(b, q).1)
  {
    hide FirstCall, AsTruncate;
  }

  // What two filesystems answer alike, the agent passes on alike.

  lemma NoCallAgrees<A, B>(v: Vfs<A>, a: A, v': Vfs<B>, b: B, t: Tables, op: Op)
    requires FirstCall(t, op).None?
    ensures Agrees(v, a, v', b, t, op, a)
  {
    hide PathFor, AllocFh, Freed;
  }

  lemma LookupAgrees<A, B>(v: Vfs<A>, a: A, v': Vfs<B>, b: B, t: Tables, parent: nat, name: Name)
    requires PathFor(t, parent).Some?
    ensures
      var path := Push(PathFor(t, parent).value, name);
      v.stat(a, path).1 == v'.stat(b, path).1 ==>
        Agrees(v, a, v', b, t, Lookup(parent, name), v.stat(a, path).0)
  {
    hide Push, PathFor, Intern;
  }

  lemma MakeAgrees<A, B>(v: Vfs<A>, a: A, v': Vfs<B>, b: B, t: Tables, parent: nat, name: Name, mode: u32)
    requires PathFor(t, parent).Some?
    ensures
      var path := Push(PathFor(t, parent).value, name);
      && (v.create(a, path, mode).1 == v'.create(b, path, mode).1 ==>
            Agrees(v, a, v', b, t, CreateFile(parent, name, mode), v.create(a, path, mode).0))
      && (v.mkdir(a, path, mode).1 == v'.mkdir(b, path, mode).1 ==>
            Agrees(v, a, v', b, t, MakeDir(parent, name, mode), v.mkdir(a, path, mode).0))
  {
    hide Push, PathFor, Intern, AllocFh;
  }

  lemma RemovalAgrees<A, B>(v: Vfs<A>, a: A, v': Vfs<B>, b: B, t: Tables, parent: nat, name: Name)
    requires PathFor(t, parent).Some?
    ensures
      var path := Push(PathFor(t, parent).value, name);
      && (v.remove(a, path).1 == v'.remove(b, path).1 ==>
            Agrees(v, a, v', b, t, Unlink(parent, name), v.remove(a, path).0))
      && (v.rmdir(a, path).1 == v'.rmdir(b, path).1 ==>
            Agrees(v, a, v', b, t, RemoveDir(parent, name), v.rmdir(a, path).0))
  {
    hide Push, PathFor;
  }

  lemma MoveAgrees<A, B>(
    v: Vfs<A>, a: A, v': Vfs<B>, b: B, t: Tables, parent: nat, name: Name, newParent: nat, newName: Name)
    requires PathFor(t, parent).Some? && PathFor(t, newParent).Some?
    ensures
      var p, np := Push(PathFor(t, parent).value, name), Push(PathFor(t, newParent).value, newName);
      v.rename(a, p, np).1 == v'.rename(b, p, np).1 ==>
        Agrees(v, a, v', b, t, Move(parent, name, newParent, newName), v.rename(a, p, np).0)
  {
    hide Push, PathFor;
  }

  lemma InodeAgrees<A, B>(v: Vfs<A>, a: A, v': Vfs<B>, b: B, t: Tables, ino: nat, at: i64, capacity: nat)
    requires PathFor(t, ino).Some?
    ensures
      var p := PathFor(t, ino).value;
      && (v.stat(a, p).1 == v'.stat(b, p).1 ==>
            Agrees(v, a, v', b, t, GetAttr(ino), v.stat(a, p).0) &&
            Agrees(v, a, v', b, t, SetAttr(ino, None), v.stat(a, p).0))
      && (v.list(a, p).1 == v'.list(b, p).1 ==>
            Agrees(v, a, v', b, t, ReadDir(ino, at, capacity), v.list(a, p).0))
  {
    hide PathFor, Fill, WithDots;
  }

  lemma CutAgrees<A, B>(v: Vfs<A>, a: A, v': Vfs<B>, b: B, t: Tables, ino: nat, n: u64)
    requires PathFor(t, ino).Some?
    ensures
      var p := PathFor(t, ino).value;
      var x, y := v.truncate(a, p, n), v'.truncate(b, p, n);
      && (x.1 == y.1 && x.1.Err? ==> Agrees(v, a, v', b, t, SetAttr(ino, Some(n)), x.0))
      && (x.1 == y.1 && x.1.Ok? && v.stat(x.0, p).1 == v'.stat(y.0, p).1 ==>
            Agrees(v, a, v', b, t, SetAttr(ino, Some(n)), v.stat(x.0, p).0))
  {
    hide PathFor;
  }

  lemma HandleAgrees<A, B>(
    v: Vfs<A>, a: A, v': Vfs<B>, b: B, t: Tables, fh: nat, offset: i64, len: u32, data: seq<byte>)
    requires fh in t.fhs
    ensures
      var p, o: u64 := t.fhs[fh], Max(0, offset);
      && (v.read(a, p, o, len).1 == v'.read(b, p, o, len).1 ==>
            Agrees(v, a, v', b, t, ReadFile(fh, offset, len), v.read(a, p, o, len).0))
      && (v.write(a, p, o, data).1 == v'.write(b, p, o, data).1 ==>
            Agrees(v, a, v', b, t, WriteFile(fh, offset, data), v.write(a, p, o, data).0))
  {
  }

  // The same for any two ways of calling.

  lemma LookupAlike<A, B>(c: Caller<A>, a: A, d: Caller<B>, b: B, t: Tables, parent: nat, name: Name)
    requires SameOutcomes(c, a, d, b, t, Lookup(parent, name)) && PathFor(t, parent).Some?
    ensures Alike(c, a, d, b, t, Lookup(parent, name))
  {
    hide Over, FirstCall, SameOutcomes, AfterCalls, Agrees, AsStat, Push, PathFor;
    var path := Push(PathFor(t, parent).value, name);
    ChildCalls(t, parent, name, 0);
    OneCall(c, a, d, b, t, Lookup(parent, name));
    OverQueries(c, a, path, 0, 0);
    OverQueries(d, b, path, 0, 0);
    LookupAgrees(Over(c), a, Over(d), b, t, parent, name);
  }

  lemma MakeAlike<A, B>(c: Caller<A>, a: A, d: Caller<B>, b: B, t: Tables, parent: nat, name: Name, mode: u32)
    requires PathFor(t, parent).Some?
    ensures SameOutcomes(c, a, d, b, t, CreateFile(parent, name, mode)) ==>
      Alike(c, a, d, b, t, CreateFile(parent, name, mode))
    ensures SameOutcomes(c, a, d, b, t, MakeDir(parent, name, mode)) ==>
      Alike(c, a, d, b, t, MakeDir(parent, name, mode))
  {
    hide Over, FirstCall, SameOutcomes, AfterCalls, Agrees, AsCreate, AsMkdir, Push, PathFor;
    var path := Push(PathFor(t, parent).value, name);
    ChildCalls(t, parent, name, mode);
    OneCall(c, a, d, b, t, CreateFile(parent, name, mode));
    OneCall(c, a, d, b, t, MakeDir(parent, name, mode));
    OverMakes(c, a, path, mode);
    OverMakes(d, b, path, mode);
    MakeAgrees(Over(c), a, Over(d), b, t, parent, name, mode);
  }

  lemma RemovalAlike<A, B>(c: Caller<A>, a: A, d: Caller<B>, b: B, t: Tables, parent: nat, name: Name)
    requires PathFor(t, parent).Some?
    ensures SameOutcomes(c, a, d, b, t, Unlink(parent, name)) ==> Alike(c, a, d, b, t, Unlink(parent, name))
    ensures SameOutcomes(c, a, d, b, t, RemoveDir(parent, name)) ==> Alike(c, a, d, b, t, RemoveDir(parent, name))
  {
    hide Over, FirstCall, SameOutcomes, AfterCalls, Agrees, AsRemove, AsRmdir, Push, PathFor;
    var path := Push(PathFor(t, parent).value, name);
    ChildCalls(t, parent, name, 0);
    OneCall(c, a, d, b, t, Unlink(parent, name));
    OneCall(c, a, d, b, t, RemoveDir(parent, name));
    OverMoves(c, a, path, path);
    OverMoves(d, b, path, path);
    RemovalAgrees(Over(c), a, Over(d), b, t, parent, name);
  }

  lemma MoveAlike<A, B>(
    c: Caller<A>, a: A, d: Caller<B>, b: B, t: Tables, parent: nat, name: Name, newParent: nat, newName: Name)
    requires SameOutcomes(c, a, d, b, t, Move(parent, name, newParent, newName))
    requires PathFor(t, parent).Some? && PathFor(t, newParent).Some?
    ensures Alike(c, a, d, b, t, Move(parent, name, newParent, newName))
  {
    hide Over, FirstCall, SameOutcomes, AfterCalls, Agrees, AsRename, Push, PathFor;
    var p, np := Push(PathFor(t, parent).value, name), Push(PathFor(t, newParent).value, newName);
    MoveCalls(t, parent, name, newParent, newName);
    OneCall(c, a, d, b, t, Move(parent, name, newParent, newName));
    OverMoves(c, a, p, np);
    OverMoves(d, b, p, np);
    MoveAgrees(Over(c), a, Over(d), b, t, parent, name, newParent, newName);
  }

  lemma InodeAlike<A, B>(c: Caller<A>, a: A, d: Caller<B>, b: B, t: Tables, ino: nat, at: i64, capacity: nat)
    requires PathFor(t, ino).Some?
    ensures SameOutcomes(c, a, d, b, t, GetAttr(ino)) ==> Alike(c, a, d, b, t, GetAttr(ino))
    ensures SameOutcomes(c, a, d, b, t, SetAttr(ino, None)) ==> Alike(c, a, d, b, t, SetAttr(ino, None))
    ensures SameOutcomes(c, a, d, b, t, ReadDir(ino, at, capacity)) ==>
      Alike(c, a, d, b, t, ReadDir(ino, at, capacity))
  {
    hide Over, FirstCall, SameOutcomes, AfterCalls, Agrees, AsStat, AsList, PathFor;
    var p := PathFor(t, ino).value;
    InodeCalls(t, ino, at, capacity, 0);
    OneCall(c, a, d, b, t, GetAttr(ino));
    OneCall(c, a, d, b, t, SetAttr(ino, None));
    OneCall(c, a, d, b, t, ReadDir(ino, at, capacity));
    OverQueries(c, a, p, 0, 0);
    OverQueries(d, b, p, 0, 0);
    InodeAgrees(Over(c), a, Over(d), b, t, ino, at, capacity);
  }

  lemma CutAlike<A, B>(c: Caller<A>, a: A, d: Caller<B>, b: B, t: Tables, ino: nat, n: u64)
    requires SameOutcomes(c, a, d, b, t, SetAttr(ino, Some(n))) && PathFor(t, ino).Some?
    ensures Alike(c, a, d, b, t, SetAttr(ino, Some(n)))
  {
    hide Over, FirstCall, Agrees, AsStat, AsTruncate, PathFor;
    var p := PathFor(t, ino).value;
    InodeCalls(t, ino, 0, 0, n);
    var q := Proto.Truncate(p, n);
    OverEdits(c, a, p, 0, [], n);
    OverEdits(d, b, p, 0, [], n);
    OverQueries(c, c(a, q).0, p, 0, 0);
    OverQueries(d, d(b, q).0, p, 0, 0);
    CutAgrees(Over(c), a, Over(d), b, t, ino, n);
  }

  lemma HandleAlike<A, B>(
    c: Caller<A>, a: A, d: Caller<B>, b: B, t: Tables, fh: nat, offset: i64, len: u32, data: seq<byte>)
    requires fh in t.fhs
    ensures SameOutcomes(c, a, d, b, t, ReadFile(fh, offset, len)) ==>
      Alike(c, a, d, b, t, ReadFile(fh, offset, len))
    ensures SameOutcomes(c, a, d, b, t, WriteFile(fh, offset, data)) ==>
      Alike(c, a, d, b, t, WriteFile(fh, offset, data))
  {
    hide Over, FirstCall, SameOutcomes, AfterCalls, Agrees, AsRead, AsWrite;
    var p, o: u64 := t.fhs[fh], Max(0, offset);
    HandleCalls(t, fh, offset, len, data);
    OneCall(c, a, d, b, t, ReadFile(fh, offset, len));
    OneCall(c, a, d, b, t, WriteFile(fh, offset, data));
    OverQueries(c, a, p, o, len);
    OverQueries(d, b, p, o, len);
    OverEdits(c, a, p, o, data, 0);
    OverEdits(d, b, p, o, data, 0);
    HandleAgrees(Over(c), a, Over(d), b, t, fh, offset, len, data);
  }

  /** Two agents with the same tables whose calls have the same outcomes do the same,
      however the calls are made. */
  lemma StepAlike<A, B>(c: Caller<A>, a: A, d: Caller<B>, b: B, t: Tables, op: Op)
    requires SameOutcomes(c, a, d, b, t, op)
    ensures Alike(c, a, d, b, t, op)
  {
    if FirstCall(t, op).None? {
      NoCallAgrees(Over(c), a, Over(d), b, t, op);
    } else {
      PathsKnown(t, op);
      hide SameOutcomes, Alike, FirstCall, PathFor;
      match op
      case Lookup(parent, name) => LookupAlike(c, a, d, b, t, parent, name);
      case GetAttr(ino) => InodeAlike(c, a, d, b, t, ino, 0, 0);
      case SetAttr(ino, None) => InodeAlike(c, a, d, b, t, ino, 0, 0);
      case SetAttr(ino, Some(n)) => CutAlike(c, a, d, b, t, ino, n);
      case ReadDir(ino, at, capacity) => InodeAlike(c, a, d, b, t, ino, at, capacity);
      case ReadFile(fh, offset, len) => HandleAlike(c, a, d, b, t, fh, offset, len, []);
      case WriteFile(fh, offset, data) => HandleAlike(c, a, d, b, t, fh, offset, 0, data);
      case CreateFile(parent, name, mode) => MakeAlike(c, a, d, b, t, parent, name, mode);
      case MakeDir(parent, name, mode) => MakeAlike(c, a, d, b, t, parent, name, mode);
      case Unlink(parent, name) => RemovalAlike(c, a, d, b, t, parent, name);
      case RemoveDir(parent, name) => RemovalAlike(c, a, d, b, t, parent, name);
      case Move(parent, name, newParent, newName) => MoveAlike(c, a, d, b, t, parent, name, newParent, newName);
      case _ =>
    }
  }

  /** An operation that makes a call knows the numbers it was given. */
  lemma PathsKnown(t: Tables, op: Op)
    requires FirstCall(t, op).Some?
    ensures
      match op
      case Lookup(parent, _) => PathFor(t, parent).Some?
      case GetAttr(ino) => PathFor(t, ino).Some?
      case SetAttr(ino, _) => PathFor(t, ino).Some?
      case ReadDir(ino, _, _) => PathFor(t, ino).Some?
      case ReadFile(fh, _, _) => fh in t.fhs
      case WriteFile(fh, _, _) => fh in t.fhs
      case CreateFile(parent, _, _) => PathFor(t, parent).Some?
      case MakeDir(parent, _, _) => PathFor(t, parent).Some?
      case Unlink(parent, _) => PathFor(t, parent).Some?
      case RemoveDir(parent, _) => PathFor(t, parent).Some?
      case Move(parent, _, newParent, _) => PathFor(t, parent).Some? && PathFor(t, newParent).Some?
      case _ => false
  {
    hide PathFor;
  }
}
