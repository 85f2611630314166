/** The theorems about runs, said of the objects: the agent serving a kernel session
    over the in-memory filesystem, and the filesystem objects answering requests. */
module Objects {
  import opened Prelude
  import opened VfsCore
  import opened Paths
  import opened FileBytes
  import opened MemoryVfs
  import opened Agent
  import opened TokimoFuse
  import opened EndToEnd
  import opened Replies
  import opened MemoryServer
  import opened Calls
  import opened Session
  import RpcSystem
  import RpcLimits
  import Server
  import Proto
  import opened HostFs

  // ------------------------------------------------ the agent

  /** What the observer knows from the first `n` requests and the replies it saw. */
  function Watched(ops: seq<Op>, replies: seq<Reply>, n: nat): World
    requires n <= |ops| && n <= |replies|
  {
    if n == 0 then FIRST_WORLD else Observe(Watched(ops, replies, n - 1), ops[n - 1], replies[n - 1])
  }

  lemma {:induction false} RepliesAt<S>(v: Vfs<S>, a: Agent<S>, ops: seq<Op>, i: nat)
    requires i < |ops|
    ensures RepliesTo(v, a, ops)[i] == Step(v, After(v, a, ops[..i]), ops[i]).1
  {
    hide Step;
    var front := ops[..|ops| - 1];
    if i < |front| {
      RepliesAt(v, a, front, i);
      assert front[..i] == ops[..i];
    }
  }

  lemma {:induction false} JointIsAgent(env: nat -> Env, ops: seq<Op>)
    ensures JointRun(Boot(env), ops).a == After(Guest(), Boot(env).a, ops)
  {
    hide Guest, Step, Observe;
    if ops != [] {
      JointIsAgent(env, ops[..|ops| - 1]);
    }
  }

  lemma {:induction false} KernelPrefix(env: nat -> Env, ops: seq<Op>, i: nat)
    requires KernelSession(Boot(env), ops) && i <= |ops|
    ensures i < |ops| ==> KernelRun(Boot(env), ops[..i])
    ensures i < |ops| ==> FromKernel(JointRun(Boot(env), ops[..i]).w, ops[i])
  {
    hide JointStep, FromKernel, WithinLimit;
    if i < |ops| - 1 {
      var front := ops[..|ops| - 1];
      KernelPrefix(env, front, i);
      assert front[..i] == ops[..i] && front[i] == ops[i];
    }
  }

  lemma {:induction false} WatchedIsJoint(env: nat -> Env, ops: seq<Op>, i: nat)
    requires i <= |ops|
    ensures Watched(ops, RepliesTo(Guest(), Boot(env).a, ops), i) == JointRun(Boot(env), ops[..i]).w
  {
    hide Guest, Step, Observe, RepliesTo, After;
    if i > 0 {
      WatchedIsJoint(env, ops, i - 1);
      assert ops[..i][..i - 1] == ops[..i - 1];
      JointIsAgent(env, ops[..i - 1]);
      RepliesAt(Guest(), Boot(env).a, ops, i - 1);
    }
  }

  function Opens(replies: seq<Reply>): nat {
    if replies == [] then 0
    else
      var last := replies[|replies| - 1];
      Opens(replies[..|replies| - 1]) + if last.Opened? || last.Created? then 1 else 0
  }

  lemma StepNumbersHandles<S>(v: Vfs<S>, a: Agent<S>, op: Op)
    ensures
      var (a', r) := Step(v, a, op);
      && a'.t.nextFh == a.t.nextFh + (if r.Opened? || r.Created? then 1 else 0)
      && (r.Opened? || r.Created? ==> r.fh == a.t.nextFh)
  {
    hide KeyOf, Push, Intern, PathFor, EntryIno, WithDots, Errno;
    match op
    case ReadDir(ino, at, capacity) =>
      if PathFor(a.t, ino).Some? {
        var r := v.list(a.s, PathFor(a.t, ino).value).1;
        if r.Ok? {
          FillKeepsHandles(a.t, PathFor(a.t, ino).value, ino, WithDots(r.value),
                           StartIndex(at, |WithDots(r.value)|), capacity);
        }
      }
    case Lookup(parent, name) => NewNameKeepsHandles(a.t, parent, name);
    case CreateFile(parent, name, _) => NewNameKeepsHandles(a.t, parent, name);
    case MakeDir(parent, name, _) => NewNameKeepsHandles(a.t, parent, name);
    case _ =>
  }

  lemma NewNameKeepsHandles(t: Tables, parent: nat, name: Name)
    ensures PathFor(t, parent).Some? ==> Intern(t, Push(PathFor(t, parent).value, name)).0.nextFh == t.nextFh
  {
    hide KeyOf, Push, PathFor;
  }

  lemma {:induction false} FillKeepsHandles(t: Tables, dir: Path, ino: nat, all: seq<DirEntry>, i: nat, room: nat)
    ensures Fill(t, dir, ino, all, i, room).0.nextFh == t.nextFh
    decreases |all| - i
  {
    hide KeyOf, Push, EntrySize;
    if i < |all| && EntrySize(all[i].name) <= room {
      FillKeepsHandles(EntryIno(t, dir, ino, all[i].name).0, dir, ino, all, i + 1, room - EntrySize(all[i].name));
    }
  }

  /** Handles are numbered from one in the order in which they are given out. */
  lemma {:induction false} HandlesAreNumbered<S>(v: Vfs<S>, s: S, ops: seq<Op>)
    ensures
      var replies := RepliesTo(v, Agent(START, s), ops);
      && After(v, Agent(START, s), ops).t.nextFh == 1 + Opens(replies)
      && forall i :: 0 <= i < |ops| && (replies[i].Opened? || replies[i].Created?) ==>
           replies[i].fh == 1 + Opens(replies[..i])
  {
    hide Step;
    if ops != [] {
      var front, op := ops[..|ops| - 1], ops[|ops| - 1];
      HandlesAreNumbered(v, s, front);
      StepNumbersHandles(v, After(v, Agent(START, s), front), op);
      var replies := RepliesTo(v, Agent(START, s), ops);
      var before := RepliesTo(v, Agent(START, s), front);
      assert replies[..|front|] == before;
      assert forall i :: 0 <= i < |front| ==> replies[..i] == before[..i];
    }
  }

  /** Every reply of a session is right for an observer that has seen the requests and
      the replies before it. */
  ghost predicate AllRepliesOk(env: nat -> Env, ops: seq<Op>, replies: seq<Reply>) {
    && |replies| == |ops|
    && forall i :: 0 <= i < |ops| ==>
         ReplyOk(After(Guest(), Boot(env).a, ops[..i]), Watched(ops, replies, i), ops[i], replies[i])
  }

  lemma SessionAnswered(env: nat -> Env, ops: seq<Op>)
    requires KernelSession(Boot(env), ops)
    ensures AllRepliesOk(env, ops, RepliesTo(Guest(), Boot(env).a, ops))
  {
    hide Guest, Step, ReplyOk, Watched, RepliesTo, KernelRun, KernelSession, JointRun, Observe;
    var replies := RepliesTo(Guest(), Boot(env).a, ops);
    forall i | 0 <= i < |ops|
      ensures ReplyOk(After(Guest(), Boot(env).a, ops[..i]), Watched(ops, replies, i), ops[i], replies[i])
    {
      KernelPrefix(env, ops, i);
      EveryReplyExpected(env, ops[..i], ops[i]);
      WatchedIsJoint(env, ops, i);
      JointIsAgent(env, ops[..i]);
      RepliesAt(Guest(), Boot(env).a, ops, i);
    }
  }

  /** The agent object over the in-memory filesystem. */
  method ServeKernel(env: nat -> Env, ops: seq<Op>) returns (replies: seq<Reply>)
    requires KernelSession(Boot(env), ops)
    ensures AllRepliesOk(env, ops, replies)
  {
    hide Guest, AllRepliesOk, RepliesTo, KernelSession;
    var fuse := new Fuse(Guest(), Boot(env).a.s);
    replies := fuse.Serve(ops);
    SessionAnswered(env, ops);
  }

  // ------------------------------------------------ the agent over the shared stream

  lemma {:induction false} KernelFits(env: nat -> Env, ops: seq<Op>)
    requires KernelRun(Boot(env), ops)
    ensures SessionFits(MemVfs(), Boot(env).a, ops)
  {
    hide JointRun, FromKernel, WithinLimit, After, MemVfs;
    if ops != [] {
      KernelFits(env, ops[..|ops| - 1]);
      JointIsAgent(env, ops[..|ops| - 1]);
    }
  }

  lemma SessionAlmostFits(env: nat -> Env, ops: seq<Op>)
    requires KernelSession(Boot(env), ops)
    ensures AlmostFits(MemVfs(), Boot(env).a, ops)
  {
    hide JointRun, FromKernel, KernelRun, SessionFits, MemVfs;
    if ops != [] { KernelFits(env, ops[..|ops| - 1]); }
  }

  /** End to end, bytes included: in any run of the shared stream over the in-memory
      filesystem that carries the agent's calls, every reply to the kernel is right, even
      that to a last operation beyond the limit; and while all keep to it, the host's
      filesystem is where the session left it. */
  lemma SessionOverStream(env: nat -> Env, cap: nat, steps: seq<RpcSystem.Step>, ops: seq<Op>)
    requires RpcSystem.Runs(MemVfs(), RpcSystem.Init(Boot(env).a.s, cap), steps)
    requires RpcLimits.Finished(RpcSystem.Final(MemVfs(), RpcSystem.Init(Boot(env).a.s, cap), steps))
    requires KernelSession(Boot(env), ops)
    requires OnStream(RpcSystem.Final(MemVfs(), RpcSystem.Init(Boot(env).a.s, cap), steps), ops).s.inStep
    ensures
      var y := RpcSystem.Final(MemVfs(), RpcSystem.Init(Boot(env).a.s, cap), steps);
      && AllRepliesOk(env, ops, RepliesOnStream(y, ops))
      && (KernelRun(Boot(env), ops) && OnStream(y, ops).s.left == [] ==> y.vfs == JointRun(Boot(env), ops).a.s)
  {
    hide RpcSystem.Runs, RpcSystem.Final, RpcLimits.Finished, OnStream, RepliesOnStream, AllRepliesOk, KernelSession;
    hide KernelRun, JointRun, After, RepliesTo, AlmostFits, SessionFits, CallsMade, MemVfs, RpcSystem.Fits;
    SessionAlmostFits(env, ops);
    AgentOverStream(MemVfs(), Boot(env).a.s, cap, steps, ops);
    SessionAnswered(env, ops);
    JointIsAgent(env, ops);
    if KernelRun(Boot(env), ops) { KernelFits(env, ops); }
  }

  /** Such a run exists for every session within the limit, at any capacity, and its
      requests are exactly those the agent makes on the filesystem itself. */
  lemma SessionIsCarried(env: nat -> Env, cap: nat, ops: seq<Op>) returns (steps: seq<RpcSystem.Step>)
    requires cap >= 1 && KernelRun(Boot(env), ops)
    ensures RpcSystem.Runs(MemVfs(), RpcSystem.Init(Boot(env).a.s, cap), steps)
    ensures
      var y := RpcSystem.Final(MemVfs(), RpcSystem.Init(Boot(env).a.s, cap), steps);
      && RpcLimits.Finished(y) && OnStream(y, ops).s == Tape([], true)
      && Requests(y.log) == CallsMade(MemVfs(), Boot(env).a, ops)
      && y.vfs == JointRun(Boot(env), ops).a.s
  {
    hide RpcSystem.Runs, RpcSystem.Final, RpcLimits.Finished, OnStream, KernelRun, JointRun, After, SessionFits;
    hide CallsMade, MemVfs, Requests, RpcSystem.After, RpcSystem.Inv, RpcSystem.Fits;
    KernelFits(env, ops);
    steps := SessionHasRun(MemVfs(), Boot(env).a.s, cap, ops);
    CarriesIff(MemVfs(), Boot(env).a.s, cap, steps, ops);
    AlmostFitsToo(MemVfs(), Boot(env).a, ops);
    AgentOverStream(MemVfs(), Boot(env).a.s, cap, steps, ops);
    JointIsAgent(env, ops);
  }

  // ------------------------------------------------ the in-memory filesystem

  /** `handle`, on the object: each request goes to its method. */
  method HandleOn(fs: MemoryFs, now: i64, q: Proto.Request) returns (r: Proto.Response, ghost e: Env)
    modifies fs
    ensures e.now == now && Enumerates(e.order, old(fs.nodes.Keys))
    ensures (fs.nodes, r) == OnTable(old(fs.nodes), e, q)
  {
    hide StatIn, ListIn, ReadIn, EditIn, MakeIn, RemoveIn, RenameIn, Enumerates;
    ghost var order := Enumeration(fs.nodes.Keys);
    match q {
      case Hello(_) => r := Proto.RHello(Proto.PROTOCOL_VERSION);
      case Stat(p) => var x := fs.Stat(p, now); r := Proto.RStat(x);
      case List(p) =>
        var x := fs.List(p);
        order :| Enumerates(order, fs.nodes.Keys) && x == ListIn(fs.nodes, p, order);
        r := Proto.RList(x);
      case Read(p, o, n) => var x := fs.Read(p, o, n); r := Proto.RRead(x);
      case Write(p, o, d) => var x := fs.Write(p, o, d); r := Proto.RWrite(x);
      case Create(p, _) => var x := fs.Create(p, now); r := Proto.RCreate(x);
      case Mkdir(p, _) => var x := fs.Mkdir(p, now); r := Proto.RMkdir(x);
      case Remove(p) => var x := fs.Remove(p); r := Proto.RRemove(x);
      case Rmdir(p) => var x := fs.Remove(p); r := Proto.RRmdir(x);
      case Rename(f, t) => var x := fs.Rename(f, t); r := Proto.RRename(x);
      case Truncate(p, n) => var x := fs.Truncate(p, n); r := Proto.RTruncate(x);
    }
    e := Env(now, order);
  }

  lemma ValueGoesOn(start: Mem, qs: seq<Proto.Request>, q: Proto.Request, s: Mem, rs: seq<Proto.Response>)
    requires Server.CallAll(MemVfs(), start, qs) == (s, rs)
    ensures
      var (m, r) := OnTable(s.nodes, s.env(s.step), q);
      Server.CallAll(MemVfs(), start, qs + [q]) == (Mem(m, s.env, Later(s.step, q)), rs + [r])
  {
    hide MemVfs, OnTable, Server.Handle, Server.CallAll;
    ValueDoesSame(s, q);
    Server.CallOneMore(MemVfs(), start, qs, q);
  }

  lemma HelloIgnoresTime(m: Table, e: Env, e': Env, q: Proto.Request)
    requires q.Hello?
    ensures OnTable(m, e, q) == OnTable(m, e', q)
  {
  }

  ghost predicate Agrees(env: nat -> Env, seen: seq<Env>) { forall i :: 0 <= i < |seen| ==> env(i) == seen[i] }

  function Start(nodes: Table, env: nat -> Env): Mem { Mem(nodes, env, 0) }

  /** Any sequence of requests on the object is answered as by the value, over the times
      and key orders the calls met; each order was one of all the keys of its moment. */
  method HandleAll(fs: MemoryFs, nows: seq<i64>, qs: seq<Proto.Request>)
    returns (rs: seq<Proto.Response>, ghost seen: seq<Env>)
    requires |nows| == |qs|
    modifies fs
    ensures forall env: nat -> Env :: Agrees(env, seen) ==>
      Server.CallAll(MemVfs(), Start(old(fs.nodes), env), qs) == (Mem(fs.nodes, env, |seen|), rs)
    ensures forall env: nat -> Env, i: nat :: Agrees(env, seen) && i < |qs| && !qs[i].Hello? ==>
      Ordered(Server.CallAll(MemVfs(), Start(old(fs.nodes), env), qs[..i]).0)
  {
    hide Server.Handle, MemVfs, Enumerates, OnTable;
    ghost var before := fs.nodes;
    rs, seen := [], [];
    for i := 0 to |qs|
      invariant forall env: nat -> Env :: Agrees(env, seen) ==>
        Server.CallAll(MemVfs(), Start(before, env), qs[..i]) == (Mem(fs.nodes, env, |seen|), rs)
      invariant forall env: nat -> Env, j: nat :: Agrees(env, seen) && j < i && !qs[j].Hello? ==>
        Ordered(Server.CallAll(MemVfs(), Start(before, env), qs[..j]).0)
    {
      ghost var m, earlier, answers := fs.nodes, seen, rs;
      var r, e := HandleOn(fs, nows[i], qs[i]);
      rs := rs + [r];
      seen := if qs[i].Hello? then seen else seen + [e];
      assert qs[..i + 1] == qs[..i] + [qs[i]];
      forall env: nat -> Env | Agrees(env, seen)
        ensures Server.CallAll(MemVfs(), Start(before, env), qs[..i + 1]) == (Mem(fs.nodes, env, |seen|), rs)
      {
        assert Agrees(env, earlier);
        assert OnTable(m, env(|earlier|), qs[i]) == (fs.nodes, r) by {
          if qs[i].Hello? { HelloIgnoresTime(m, e, env(|earlier|), qs[i]); }
        }
        ValueGoesOn(Start(before, env), qs[..i], qs[i], Mem(m, env, |earlier|), answers);
      }
    }
    assert qs[..|qs|] == qs;
  }

  lemma {:induction false} Enumeration(keys: set<Key>) returns (order: seq<Key>)
    ensures Enumerates(order, keys)
    decreases |keys|
  {
    if keys == {} {
      order := [];
    } else {
      var k :| k in keys;
      var rest := Enumeration(keys - {k});
      order := [k] + rest;
    }
  }

  // ------------------------------------------------ the host directory beside it

  /** The same write on a host directory and on an in-memory filesystem that hold the
      same files leaves them the same exactly when nothing is lost by truncating. */
  method WriteBoth(host: HostDir, mem: MemoryFs, p: Path, offset: u64, data: seq<byte>)
    returns (a: VfsResult<u32>, b: VfsResult<u32>)
    requires host.disk == mem.nodes && !host.readOnly && offset < TWO_63
    requires Walk(host.disk, KeyOf(p)).Ok? && Walk(host.disk, KeyOf(p)).value.FileNode?
    modifies host, mem
    ensures a == b == Ok(|data| % 0x1_0000_0000)
    ensures host.disk == mem.nodes <==>
      NothingLost(Walk(old(host.disk), KeyOf(p)).value.data, offset, data)
  {
    hide KeyOf, WriteAt, NothingLost, Rewritten, Walk;
    var k := KeyOf(p);
    WalkFindsStored(host.disk, k);
    ghost var before := host.disk[k].data;
    assert OpenForWrite(false, host.disk, k).Ok?;
    a := host.Write(p, offset, data);
    b := mem.Write(p, offset, data);
    WriteIsPositionalIff(before, offset, data);
    assert host.disk[k] == FileNode(Rewritten(offset, data)) && mem.nodes[k] == FileNode(WriteAt(before, offset, data));
  }

  /** A file written piece after piece, as a copy does, ends up as its last piece alone. */
  method WriteEach(host: HostDir, p: Path, writes: seq<(u64, seq<byte>)>)
    requires !host.readOnly && forall w <- writes :: w.0 < TWO_63
    requires Walk(host.disk, KeyOf(p)).Ok? && Walk(host.disk, KeyOf(p)).value.FileNode?
    modifies host
    ensures host.disk == old(host.disk)[KeyOf(p) :=
      if writes == [] then Walk(old(host.disk), KeyOf(p)).value
      else FileNode(Rewritten(writes[|writes| - 1].0, writes[|writes| - 1].1))]
  {
    hide KeyOf, Rewritten, Walk;
    var k := KeyOf(p);
    WalkFindsStored(host.disk, k);
    for i := 0 to |writes|
      invariant OpenForWrite(false, host.disk, k).Ok?
      invariant host.disk == old(host.disk)[k :=
        if i == 0 then Walk(old(host.disk), k).value else FileNode(Rewritten(writes[i - 1].0, writes[i - 1].1))]
    {
      assert writes[i] in writes;
      WalkBack(host.disk, k, Rewritten(writes[i].0, writes[i].1));
      var _ := host.Write(p, writes[i].0, writes[i].1);
    }
  }
}
