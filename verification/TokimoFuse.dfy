/** The agent as the object the kernel's requests are delivered to. Each handler is
    proved against the step function whose runs the other modules reason about. */
module TokimoFuse {
  import opened Prelude
  import opened VfsCore
  import opened Paths
  import opened Agent

  class Fuse<S> {
    const client: Vfs<S>
    var remote: S
    var inodes: map<nat, Path>
    var rev: map<Key, nat>
    var nextIno: nat
    var fhs: map<nat, Path>
    var nextFh: nat

    constructor (client: Vfs<S>, remote: S)
      ensures this.client == client && Model() == Agent(START, remote)
    {
      this.client, this.remote := client, remote;
      inodes, rev, nextIno := map[], map[], 2;
      fhs, nextFh := map[], 1;
    }

    ghost function Model(): Agent<S>
      reads this
    {
      Agent(Tables(inodes, rev, nextIno, fhs, nextFh), remote)
    }

    method PathOf(ino: nat) returns (p: Option<Path>)
      ensures p == PathFor(Model().t, ino)
    {
      if ino == 1 { return Some(ROOT); }
      if ino in inodes { return Some(inodes[ino]); }
      return None;
    }

    method InternPath(p: Path) returns (ino: nat)
      modifies this`inodes, this`rev, this`nextIno
      ensures (Model().t, ino) == Intern(old(Model()).t, p)
    {
      var k := KeyOf(p);
      if k == ROOT_KEY { return 1; }
      if k in rev { return rev[k]; }
      ino := nextIno;
      nextIno := nextIno + 1;
      inodes := inodes[ino := p];
      rev := rev[k := ino];
    }

    method Alloc(p: Path) returns (fh: nat)
      modifies this`fhs, this`nextFh
      ensures (Model().t, fh) == AllocFh(old(Model()).t, p)
    {
      fh := nextFh;
      nextFh := nextFh + 1;
      fhs := fhs[fh := p];
    }

    method OnLookup(parent: nat, name: Name) returns (reply: Reply)
      modifies this
      ensures (Model(), reply) == Step(client, old(Model()), Lookup(parent, name))
    {
      hide KeyOf, Push, Intern, AllocFh;
      var p := PathOf(parent);
      if p.None? { return Failed(ENOENT); }
      var path := Push(p.value, name);
      var (s, r) := client.stat(remote, path);
      remote := s;
      match r
      case Ok(attr) =>
        var ino := InternPath(path);
        return Entry(ino, attr);
      case Err(e) => return Failed(Errno(e));
    }

    method OnGetAttr(ino: nat) returns (reply: Reply)
      modifies this
      ensures (Model(), reply) == Step(client, old(Model()), GetAttr(ino))
    {
      var p := PathOf(ino);
      if p.None? { return Failed(ENOENT); }
      var (s, r) := client.stat(remote, p.value);
      remote := s;
      return if r.Ok? then Attr(ino, r.value) else Failed(Errno(r.error));
    }

    method OnSetAttr(ino: nat, size: Option<u64>) returns (reply: Reply)
      modifies this
      ensures (Model(), reply) == Step(client, old(Model()), SetAttr(ino, size))
    {
      var p := PathOf(ino);
      if p.None? { return Failed(ENOENT); }
      if size.Some? {
        var (s, cut) := client.truncate(remote, p.value, size.value);
        remote := s;
        if cut.Err? { return Failed(Errno(cut.error)); }
      }
      var (s, r) := client.stat(remote, p.value);
      remote := s;
      return if r.Ok? then Attr(ino, r.value) else Failed(Errno(r.error));
    }

    method OnOpen(ino: nat) returns (reply: Reply)
      modifies this
      ensures (Model(), reply) == Step(client, old(Model()), OpenFile(ino))
      ensures (Model(), reply) == Step(client, old(Model()), OpenDir(ino))
    {
      var p := PathOf(ino);
      if p.None? { return Failed(ENOENT); }
      var fh := Alloc(p.value);
      return Opened(fh);
    }

    method OnRelease(fh: nat) returns (reply: Reply)
      modifies this
      ensures (Model(), reply) == Step(client, old(Model()), Release(fh))
      ensures (Model(), reply) == Step(client, old(Model()), ReleaseDir(fh))
    {
      fhs := fhs - {fh};
      return Done;
    }

    /** The loop interns each child before it learns whether the entry still fits. */
    method FillPage(dir: Path, ino: nat, all: seq<DirEntry>, start: nat, capacity: nat) returns (page: seq<Dirent>)
      modifies this`inodes, this`rev, this`nextIno
      ensures (Model().t, page) == Fill(old(Model()).t, dir, ino, all, start, capacity)
    {
      hide KeyOf, Push, Intern, Fill;
      page := [];
      var i: nat, room: nat := start, capacity;
      ghost var want := Fill(Model().t, dir, ino, all, i, room);
      while i < |all|
        invariant want.0 == Fill(Model().t, dir, ino, all, i, room).0
        invariant want.1 == page + Fill(Model().t, dir, ino, all, i, room).1
      {
        FillUnfolds(Model().t, dir, ino, all, i, room);
        assert page + [] == page;
        var name := all[i].name;
        var child := ino;
        if name == DOT_DOT {
          child := 1;
        } else if name != DOT_NAME {
          child := InternPath(Push(dir, name));
        }
        if EntrySize(name) > room { return; }
        var e := Dirent(child, i + 1, all[i].kind, name);
        room := room - EntrySize(name);
        i := i + 1;
        ghost var rest := Fill(Model().t, dir, ino, all, i, room).1;
        assert page + ([e] + rest) == (page + [e]) + rest;
        page := page + [e];
      }
      FillUnfolds(Model().t, dir, ino, all, i, room);
      assert page + [] == page;
    }

    method OnReadDir(ino: nat, at: i64, capacity: nat) returns (reply: Reply)
      modifies this
      ensures (Model(), reply) == Step(client, old(Model()), ReadDir(ino, at, capacity))
    {
      hide KeyOf, Push, Intern, Fill;
      var p := PathOf(ino);
      if p.None? { return Failed(ENOENT); }
      var (s, r) := client.list(remote, p.value);
      remote := s;
      match r
      case Ok(entries) =>
        var all := WithDots(entries);
        var page := FillPage(p.value, ino, all, StartIndex(at, |all|), capacity);
        return Listing(page);
      case Err(e) => return Failed(Errno(e));
    }

    method OnRead(fh: nat, offset: i64, len: u32) returns (reply: Reply)
      modifies this
      ensures (Model(), reply) == Step(client, old(Model()), ReadFile(fh, offset, len))
    {
      if fh !in fhs { return Failed(EBADF); }
      var (s, r) := client.read(remote, fhs[fh], Clamp(offset), len);
      remote := s;
      return if r.Ok? then Data(r.value) else Failed(Errno(r.error));
    }

    method OnWrite(fh: nat, offset: i64, data: seq<byte>) returns (reply: Reply)
      modifies this
      ensures (Model(), reply) == Step(client, old(Model()), WriteFile(fh, offset, data))
    {
      if fh !in fhs { return Failed(EBADF); }
      var (s, r) := client.write(remote, fhs[fh], Clamp(offset), data);
      remote := s;
      return if r.Ok? then Written(r.value) else Failed(Errno(r.error));
    }

    method OnCreate(parent: nat, name: Name, mode: u32) returns (reply: Reply)
      modifies this
      ensures (Model(), reply) == Step(client, old(Model()), CreateFile(parent, name, mode))
    {
      hide KeyOf, Push, Intern, AllocFh;
      var p := PathOf(parent);
      if p.None? { return Failed(ENOENT); }
      var path := Push(p.value, name);
      var (s, r) := client.create(remote, path, mode);
      remote := s;
      match r
      case Ok(attr) =>
        var ino := InternPath(path);
        var fh := Alloc(path);
        return Created(ino, attr, fh);
      case Err(e) => return Failed(Errno(e));
    }

    method OnMkdir(parent: nat, name: Name, mode: u32) returns (reply: Reply)
      modifies this
      ensures (Model(), reply) == Step(client, old(Model()), MakeDir(parent, name, mode))
    {
      hide KeyOf, Push, Intern, AllocFh;
      var p := PathOf(parent);
      if p.None? { return Failed(ENOENT); }
      var path := Push(p.value, name);
      var (s, r) := client.mkdir(remote, path, mode);
      remote := s;
      match r
      case Ok(attr) =>
        var ino := InternPath(path);
        return Entry(ino, attr);
      case Err(e) => return Failed(Errno(e));
    }

    method OnUnlink(parent: nat, name: Name) returns (reply: Reply)
      modifies this
      ensures (Model(), reply) == Step(client, old(Model()), Unlink(parent, name))
    {
      var p := PathOf(parent);
      if p.None? { return Failed(ENOENT); }
      var (s, r) := client.remove(remote, Push(p.value, name));
      remote := s;
      return if r.Ok? then Done else Failed(Errno(r.error));
    }

    method OnRmdir(parent: nat, name: Name) returns (reply: Reply)
      modifies this
      ensures (Model(), reply) == Step(client, old(Model()), RemoveDir(parent, name))
    {
      var p := PathOf(parent);
      if p.None? { return Failed(ENOENT); }
      var (s, r) := client.rmdir(remote, Push(p.value, name));
      remote := s;
      return if r.Ok? then Done else Failed(Errno(r.error));
    }

    method OnRename(parent: nat, name: Name, newParent: nat, newName: Name) returns (reply: Reply)
      modifies this
      ensures (Model(), reply) == Step(client, old(Model()), Move(parent, name, newParent, newName))
    {
      var p := PathOf(parent);
      if p.None? { return Failed(ENOENT); }
      var np := PathOf(newParent);
      if np.None? { return Failed(ENOENT); }
      var (s, r) := client.rename(remote, Push(p.value, name), Push(np.value, newName));
      remote := s;
      return if r.Ok? then Done else Failed(Errno(r.error));
    }

    /** One request, delivered to its handler. */
    method Answer(op: Op) returns (reply: Reply)
      modifies this
      ensures (Model(), reply) == Step(client, old(Model()), op)
    {
      hide Step;
      match op
      case Lookup(parent, name) => reply := OnLookup(parent, name);
      case GetAttr(ino) => reply := OnGetAttr(ino);
      case SetAttr(ino, size) => reply := OnSetAttr(ino, size);
      case OpenDir(ino) => reply := OnOpen(ino);
      case ReleaseDir(fh) => reply := OnRelease(fh);
      case ReadDir(ino, at, capacity) => reply := OnReadDir(ino, at, capacity);
      case OpenFile(ino) => reply := OnOpen(ino);
      case Release(fh) => reply := OnRelease(fh);
      case ReadFile(fh, offset, len) => reply := OnRead(fh, offset, len);
      case WriteFile(fh, offset, data) => reply := OnWrite(fh, offset, data);
      case CreateFile(parent, name, mode) => reply := OnCreate(parent, name, mode);
      case MakeDir(parent, name, mode) => reply := OnMkdir(parent, name, mode);
      case Unlink(parent, name) => reply := OnUnlink(parent, name);
      case RemoveDir(parent, name) => reply := OnRmdir(parent, name);
      case Move(parent, name, newParent, newName) => reply := OnRename(parent, name, newParent, newName);
    }

    /** The requests of a whole session, one after another. */
    method Serve(ops: seq<Op>) returns (replies: seq<Reply>)
      modifies this
      ensures Model() == After(client, old(Model()), ops)
      ensures replies == RepliesTo(client, old(Model()), ops)
    {
      hide Step;
      replies := [];
      ghost var start := Model();
      for i := 0 to |ops|
        invariant Model() == After(client, start, ops[..i])
        invariant replies == RepliesTo(client, start, ops[..i])
      {
        assert ops[..i + 1][..i] == ops[..i];
        var reply := Answer(ops[i]);
        replies := replies + [reply];
      }
      assert ops[..|ops|] == ops;
    }
  }

  /** What the step function replies over a run. */
  function RepliesTo<S>(v: Vfs<S>, a: Agent<S>, ops: seq<Op>): (rs: seq<Reply>)
    ensures |rs| == |ops|
  {
    if ops == [] then []
    else
      var front := ops[..|ops| - 1];
      RepliesTo(v, a, front) + [Step(v, After(v, a, front), ops[|ops| - 1]).1]
  }

  lemma FillUnfolds(t: Tables, dir: Path, ino: nat, all: seq<DirEntry>, i: nat, room: nat)
    ensures
      Fill(t, dir, ino, all, i, room) ==
        if i >= |all| then (t, [])
        else
          var (t1, child) := EntryIno(t, dir, ino, all[i].name);
          if EntrySize(all[i].name) > room then (t1, [])
          else
            var (t2, more) := Fill(t1, dir, ino, all, i + 1, room - EntrySize(all[i].name));
            (t2, [Dirent(child, i + 1, all[i].kind, all[i].name)] + more)
  {
    hide EntryIno;
  }
}
