/** The in-memory filesystem as the server calls it and as its client hears it. */
module MemoryServer {
  import opened Prelude
  import opened VfsCore
  import opened Paths
  import opened FileBytes
  import opened MemoryVfs
  import opened Wire
  import opened Frame
  import opened Server
  import opened Client
  import Proto

  function TableAfter(m: Table, r: VfsResult<Table>): Table { if r.Ok? then r.value else m }

  function AnswerOf<T>(r: VfsResult<Table>, answer: VfsResult<T>): VfsResult<T> {
    if r.Ok? then answer else Err(r.error)
  }

  /** One request on a table, at a time and with an order of its keys. */
  function OnTable(m: Table, e: Env, q: Proto.Request): (Table, Proto.Response) {
    match q
    case Hello(_) => (m, Proto.RHello(Proto.PROTOCOL_VERSION))
    case Stat(p) => (m, Proto.RStat(StatIn(m, p, e.now)))
    case List(p) => (m, Proto.RList(ListIn(m, p, e.order)))
    case Read(p, o, n) => (m, Proto.RRead(ReadIn(m, p, o, n)))
    case Write(p, o, d) =>
      var x := EditIn(m, p, Wrote(o, d));
      (TableAfter(m, x), Proto.RWrite(AnswerOf(x, Ok(Count(d)))))
    case Create(p, _) =>
      var x := MakeIn(m, p, FileNode([]));
      (TableAfter(m, x), Proto.RCreate(AnswerOf(x, StatIn(TableAfter(m, x), p, e.now))))
    case Mkdir(p, _) =>
      var x := MakeIn(m, p, DirNode);
      (TableAfter(m, x), Proto.RMkdir(AnswerOf(x, StatIn(TableAfter(m, x), p, e.now))))
    case Remove(p) => var x := RemoveIn(m, p); (TableAfter(m, x), Proto.RRemove(AnswerOf(x, Ok(()))))
    case Rmdir(p) => var x := RemoveIn(m, p); (TableAfter(m, x), Proto.RRmdir(AnswerOf(x, Ok(()))))
    case Rename(f, t) => var x := RenameIn(m, f, t); (TableAfter(m, x), Proto.RRename(AnswerOf(x, Ok(()))))
    case Truncate(p, n) => var x := EditIn(m, p, Cut(n)); (TableAfter(m, x), Proto.RTruncate(AnswerOf(x, Ok(()))))
  }

  /** Every request but the handshake is one call of the filesystem. */
  function Later(step: nat, q: Proto.Request): nat { if q.Hello? then step else step + 1 }

  /** The filesystem value does the same, and moves on to its next call. */
  lemma ValueDoesSame(s: Mem, q: Proto.Request)
    ensures
      var (m, r) := OnTable(s.nodes, s.env(s.step), q);
      Handle(MemVfs(), s, q) == (Mem(m, s.env, Later(s.step, q)), r)
  {
    hide StatIn, ListIn, ReadIn, EditIn, MakeIn, RemoveIn, RenameIn;
    match q
    case Stat(p) => assert MemVfs().stat(s, p) == (s.Next(), StatIn(s.nodes, p, s.Now()));
    case List(p) => assert MemVfs().list(s, p) == (s.Next(), ListIn(s.nodes, p, s.env(s.step).order));
    case Read(p, o, n) => assert MemVfs().read(s, p, o, n) == (s.Next(), ReadIn(s.nodes, p, o, n));
    case Write(p, o, d) =>
      assert MemVfs().write(s, p, o, d) == s.Changed(EditIn(s.nodes, p, Wrote(o, d)), Count(d));
    case Create(p, n) => assert MemVfs().create(s, p, n) == s.Made(p, MakeIn(s.nodes, p, FileNode([])));
    case Mkdir(p, n) => assert MemVfs().mkdir(s, p, n) == s.Made(p, MakeIn(s.nodes, p, DirNode));
    case _ =>
  }

  // ------------------------------------------------ which answers come back

  lemma ShortInteger(n: u64)
    ensures |PutVarint(n)| <= 10
  {
    IntegerBounds();
    VarintLength(10, 1, n);
  }

  lemma ShortAttr(a: FileAttr)
    ensures |PutAttr(a)| <= 60
  {
    hide PutVarint;
    ShortInteger(a.size);
    ShortInteger(a.mode);
    ShortInteger(KindTag(a.kind));
    ShortInteger(ZigZag(a.mtimeSecs));
    ShortInteger(ZigZag(a.atimeSecs));
    ShortInteger(ZigZag(a.ctimeSecs));
  }

  /** An error that carries no text, or a value whose encoding is short. */
  lemma ShortResult<T>(x: VfsResult<T>, put: T -> seq<byte>)
    requires x.Err? ==> !x.error.Io?
    requires x.Ok? ==> |put(x.value)| <= 60
    ensures |PutResult(x, put)| <= 70
  {
    hide PutVarint;
    ShortInteger(0);
    ShortInteger(1);
    ShortInteger(2);
    ShortInteger(3);
    ShortInteger(4);
  }

  /** Only a listing or a file's contents can be over the limit. */
  lemma ShortAnswers(m: Table, e: Env, q: Proto.Request)
    requires !q.List? && !q.Read?
    ensures |PutResponse(OnTable(m, e, q).1)| <= 80
  {
    hide PutVarint, PutAttr, PutResult;
    var r := OnTable(m, e, q).1;
    match r
    case RHello(n) => ShortInteger(0); ShortInteger(n);
    case RStat(x) => ShortInteger(1); AttrResultShort(x);
    case RWrite(x) => ShortInteger(4); CountResultShort(x);
    case RCreate(x) => ShortInteger(5); AttrResultShort(x);
    case RMkdir(x) => ShortInteger(6); AttrResultShort(x);
    case RRemove(x) => ShortInteger(7); ShortResult(x, PutUnit);
    case RRmdir(x) => ShortInteger(8); ShortResult(x, PutUnit);
    case RRename(x) => ShortInteger(9); ShortResult(x, PutUnit);
    case RTruncate(x) => ShortInteger(10); ShortResult(x, PutUnit);
  }

  lemma AttrResultShort(x: VfsResult<FileAttr>)
    requires x.Err? ==> !x.error.Io?
    ensures |PutResult(x, PutAttr)| <= 70
  {
    if x.Ok? { ShortAttr(x.value); }
    ShortResult(x, PutAttr);
  }

  lemma CountResultShort(x: VfsResult<u32>)
    requires x.Err? ==> !x.error.Io?
    ensures |PutResult(x, PutU32)| <= 70
  {
    if x.Ok? { ShortInteger(x.value); }
    ShortResult(x, PutU32);
  }

  /** The caller gets the filesystem's answer. */
  predicate Comes(s: Mem, q: Proto.Request) { Delivered(MemVfs(), s, q).1.Replied? }

  /** `local` when its answer comes back, and otherwise an error and the same files. */
  function OrLost<T>(s: Mem, q: Proto.Request, local: (Mem, VfsResult<T>)): (Mem, VfsResult<T>) {
    if Comes(s, q) then local else (if Sendable(q) then s.Next() else s, Err(Io(CALL_FAILED)))
  }

  lemma ComesIff(s: Mem, q: Proto.Request)
    ensures Comes(s, q) <==> Sendable(q) && |PutResponse(Handle(MemVfs(), s, q).1)| <= LIMIT
    ensures Sendable(q) && !q.List? && !q.Read? ==> Comes(s, q)
  {
    hide MemVfs, OnTable, PutRequest, PutResponse, EncodeRequest;
    ValueDoesSame(s, q);
    hide Handle;
    if !q.List? && !q.Read? { ShortAnswers(s.nodes, s.env(s.step), q); }
  }

  lemma RefusedIsLost<T>(s: Mem, q: Proto.Request, local: (Mem, VfsResult<T>))
    requires q.List? || q.Read? ==> local.0 == s.Next()
    ensures OrRefused(MemVfs(), s, q, local) == OrLost(s, q, local)
  {
    hide MemVfs, Comes, Handle, Sendable, PutResponse;
    ComesIff(s, q);
  }
}
