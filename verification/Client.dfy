/** The typed client operations, and the filesystem a guest sees through them. */
module Client {
  import opened Prelude
  import opened VfsCore
  import opened Utf8
  import opened Proto
  import opened Wire
  import opened Frame
  import opened Server
  import opened RpcSystem

  /** "bad resp" */
  const BAD_RESP: Str := [98, 97, 100, 32, 114, 101, 115, 112]

  /** Stands for the text of any error raised by the RPC library itself. */
  const CALL_FAILED: Str := []

  function AsStat(o: Outcome): VfsResult<FileAttr> {
    match o case Replied(RStat(r)) => r case Replied(_) => Err(Io(BAD_RESP)) case _ => Err(Io(CALL_FAILED))
  }

  function AsList(o: Outcome): VfsResult<seq<DirEntry>> {
    match o case Replied(RList(r)) => r case Replied(_) => Err(Io(BAD_RESP)) case _ => Err(Io(CALL_FAILED))
  }

  function AsRead(o: Outcome): VfsResult<seq<byte>> {
    match o case Replied(RRead(r)) => r case Replied(_) => Err(Io(BAD_RESP)) case _ => Err(Io(CALL_FAILED))
  }

  function AsWrite(o: Outcome): VfsResult<u32> {
    match o case Replied(RWrite(r)) => r case Replied(_) => Err(Io(BAD_RESP)) case _ => Err(Io(CALL_FAILED))
  }

  function AsCreate(o: Outcome): VfsResult<FileAttr> {
    match o case Replied(RCreate(r)) => r case Replied(_) => Err(Io(BAD_RESP)) case _ => Err(Io(CALL_FAILED))
  }

  function AsMkdir(o: Outcome): VfsResult<FileAttr> {
    match o case Replied(RMkdir(r)) => r case Replied(_) => Err(Io(BAD_RESP)) case _ => Err(Io(CALL_FAILED))
  }

  function AsRemove(o: Outcome): VfsResult<()> {
    match o case Replied(RRemove(r)) => r case Replied(_) => Err(Io(BAD_RESP)) case _ => Err(Io(CALL_FAILED))
  }

  function AsRmdir(o: Outcome): VfsResult<()> {
    match o case Replied(RRmdir(r)) => r case Replied(_) => Err(Io(BAD_RESP)) case _ => Err(Io(CALL_FAILED))
  }

  function AsRename(o: Outcome): VfsResult<()> {
    match o case Replied(RRename(r)) => r case Replied(_) => Err(Io(BAD_RESP)) case _ => Err(Io(CALL_FAILED))
  }

  function AsTruncate(o: Outcome): VfsResult<()> {
    match o case Replied(RTruncate(r)) => r case Replied(_) => Err(Io(BAD_RESP)) case _ => Err(Io(CALL_FAILED))
  }

  datatype Handshake = Agreed | Mismatch(server: u32) | Unexpected | NoReply

  function AsHello(o: Outcome): Handshake {
    match o
    case Replied(RHello(v)) => if v == PROTOCOL_VERSION then Agreed else Mismatch(v)
    case Replied(_) => Unexpected
    case _ => NoReply
  }

  /** The request reaches the filesystem: it has a frame, which the server accepts. */
  predicate Sendable(q: Request) { EncodeRequest(q).Some? && |PutRequest(q)| <= LIMIT }

  /** What the stream makes of a call when all earlier ones kept to the limit: the
      direct call if this one does too, and a failure otherwise. */
  function Delivered<S>(v: Vfs<S>, s: S, q: Request): (S, Outcome) {
    if EncodeRequest(q).None? then (s, EncodeFailed)
    else if !Sendable(q) then (s, StreamFailed)
    else
      var (s', r) := Handle(v, s, q);
      (s', if |PutResponse(r)| <= LIMIT then Replied(r) else StreamFailed)
  }

  lemma DeliveredIsDirect<S>(v: Vfs<S>, s: S, q: Request)
    ensures CallFits(v, s, q) ==> Delivered(v, s, q) == Direct(v, s, q)
    ensures !CallFits(v, s, q) ==> Delivered(v, s, q).1 == StreamFailed
  {
    hide EncodeRequest, PutRequest, PutResponse, Handle;
  }

  /** `local` when its answer comes back. A request that cannot be sent has no effect; an
      answer over the limit is lost, but not what the call did. */
  function OrRefused<S, T>(v: Vfs<S>, s: S, q: Request, local: (S, VfsResult<T>)): (S, VfsResult<T>) {
    if !Sendable(q) then (s, Err(Io(CALL_FAILED)))
    else if |PutResponse(Handle(v, s, q).1)| > LIMIT then (local.0, Err(Io(CALL_FAILED)))
    else local
  }

  // The typed operations, over any way of making a call.

  function CallStat<S>(call: (S, Request) -> (S, Outcome), s: S, p: Path): (S, VfsResult<FileAttr>) {
    var (t, o) := call(s, Stat(p));
    (t, AsStat(o))
  }

  function CallList<S>(call: (S, Request) -> (S, Outcome), s: S, p: Path): (S, VfsResult<seq<DirEntry>>) {
    var (t, o) := call(s, List(p));
    (t, AsList(o))
  }

  function CallRead<S>(call: (S, Request) -> (S, Outcome), s: S, p: Path, o: u64, n: u32): (S, VfsResult<seq<byte>>) {
    var (t, o) := call(s, Read(p, o, n));
    (t, AsRead(o))
  }

  function CallWrite<S>(call: (S, Request) -> (S, Outcome), s: S, p: Path, o: u64, d: seq<byte>): (S, VfsResult<u32>) {
    var (t, o) := call(s, Write(p, o, d));
    (t, AsWrite(o))
  }

  function CallCreate<S>(call: (S, Request) -> (S, Outcome), s: S, p: Path, m: u32): (S, VfsResult<FileAttr>) {
    var (t, o) := call(s, Create(p, m));
    (t, AsCreate(o))
  }

  function CallMkdir<S>(call: (S, Request) -> (S, Outcome), s: S, p: Path, m: u32): (S, VfsResult<FileAttr>) {
    var (t, o) := call(s, Mkdir(p, m));
    (t, AsMkdir(o))
  }

  function CallRemove<S>(call: (S, Request) -> (S, Outcome), s: S, p: Path): (S, VfsResult<()>) {
    var (t, o) := call(s, Remove(p));
    (t, AsRemove(o))
  }

  function CallRmdir<S>(call: (S, Request) -> (S, Outcome), s: S, p: Path): (S, VfsResult<()>) {
    var (t, o) := call(s, Rmdir(p));
    (t, AsRmdir(o))
  }

  function CallRename<S>(call: (S, Request) -> (S, Outcome), s: S, p: Path, q: Path): (S, VfsResult<()>) {
    var (t, o) := call(s, Rename(p, q));
    (t, AsRename(o))
  }

  function CallTruncate<S>(call: (S, Request) -> (S, Outcome), s: S, p: Path, n: u64): (S, VfsResult<()>) {
    var (t, o) := call(s, Truncate(p, n));
    (t, AsTruncate(o))
  }

  /** The client as a filesystem, its calls made by `call`. */
  function Over<S>(call: (S, Request) -> (S, Outcome)): Vfs<S> {
    Vfs(
      (s, p) => CallStat(call, s, p),
      (s, p) => CallList(call, s, p),
      (s, p, o, n) => CallRead(call, s, p, o, n),
      (s, p, o, d) => CallWrite(call, s, p, o, d),
      (s, p, m) => CallCreate(call, s, p, m),
      (s, p, m) => CallMkdir(call, s, p, m),
      (s, p) => CallRemove(call, s, p),
      (s, p) => CallRmdir(call, s, p),
      (s, p, q) => CallRename(call, s, p, q),
      (s, p, n) => CallTruncate(call, s, p, n))
  }

  function Stream<S>(v: Vfs<S>): (S, Request) -> (S, Outcome) { (s, q) => Delivered(v, s, q) }

  /** The filesystem `v` as the guest's client presents it, for as long as the stream is
      in step: up to and with the first call beyond the limit. */
  function ViaRpc<S>(v: Vfs<S>): Vfs<S> { Over(Stream(v)) }

  // Each typed operation returns what the filesystem returned for that very
  // operation: no answer is ever of the wrong kind.

  lemma QueriesViaRpc<S>(v: Vfs<S>, s: S, p: Path, o: u64, n: u32)
    ensures ViaRpc(v).stat(s, p) == OrRefused(v, s, Stat(p), v.stat(s, p))
    ensures ViaRpc(v).list(s, p) == OrRefused(v, s, List(p), v.list(s, p))
    ensures ViaRpc(v).read(s, p, o, n) == OrRefused(v, s, Read(p, o, n), v.read(s, p, o, n))
  {
    hide EncodeRequest, PutRequest, PutResponse, ValidUtf8;
    assert CallStat(Stream(v), s, p) == OrRefused(v, s, Stat(p), v.stat(s, p));
    assert CallList(Stream(v), s, p) == OrRefused(v, s, List(p), v.list(s, p));
    assert CallRead(Stream(v), s, p, o, n) == OrRefused(v, s, Read(p, o, n), v.read(s, p, o, n));
    hide CallStat, CallList, CallRead, OrRefused;
  }

  lemma EditsViaRpc<S>(v: Vfs<S>, s: S, p: Path, o: u64, d: seq<byte>, n: u64)
    ensures ViaRpc(v).write(s, p, o, d) == OrRefused(v, s, Write(p, o, d), v.write(s, p, o, d))
    ensures ViaRpc(v).truncate(s, p, n) == OrRefused(v, s, Truncate(p, n), v.truncate(s, p, n))
  {
    hide EncodeRequest, PutRequest, PutResponse, ValidUtf8;
    assert CallWrite(Stream(v), s, p, o, d) == OrRefused(v, s, Write(p, o, d), v.write(s, p, o, d));
    assert CallTruncate(Stream(v), s, p, n) == OrRefused(v, s, Truncate(p, n), v.truncate(s, p, n));
    hide CallWrite, CallTruncate, OrRefused;
  }

  lemma MakesViaRpc<S>(v: Vfs<S>, s: S, p: Path, m: u32)
    ensures ViaRpc(v).create(s, p, m) == OrRefused(v, s, Create(p, m), v.create(s, p, m))
    ensures ViaRpc(v).mkdir(s, p, m) == OrRefused(v, s, Mkdir(p, m), v.mkdir(s, p, m))
  {
    hide EncodeRequest, PutRequest, PutResponse, ValidUtf8;
    assert CallCreate(Stream(v), s, p, m) == OrRefused(v, s, Create(p, m), v.create(s, p, m));
    assert CallMkdir(Stream(v), s, p, m) == OrRefused(v, s, Mkdir(p, m), v.mkdir(s, p, m));
    hide CallCreate, CallMkdir, OrRefused;
  }

  lemma MovesViaRpc<S>(v: Vfs<S>, s: S, p: Path, q: Path)
    ensures ViaRpc(v).remove(s, p) == OrRefused(v, s, Remove(p), v.remove(s, p))
    ensures ViaRpc(v).rmdir(s, p) == OrRefused(v, s, Rmdir(p), v.rmdir(s, p))
    ensures ViaRpc(v).rename(s, p, q) == OrRefused(v, s, Rename(p, q), v.rename(s, p, q))
  {
    hide EncodeRequest, PutRequest, PutResponse, ValidUtf8;
    assert CallRemove(Stream(v), s, p) == OrRefused(v, s, Remove(p), v.remove(s, p));
    assert CallRmdir(Stream(v), s, p) == OrRefused(v, s, Rmdir(p), v.rmdir(s, p));
    assert CallRename(Stream(v), s, p, q) == OrRefused(v, s, Rename(p, q), v.rename(s, p, q));
    hide CallRemove, CallRmdir, CallRename, OrRefused;
  }

  /** The typed operation for `q`, made at `s`, ends at `t` with the answer in `o`. */
  ghost predicate Typed<S>(v: Vfs<S>, s: S, q: Request, t: S, o: Outcome) {
    match q
    case Hello(_) => s == t
    case Stat(p) => ViaRpc(v).stat(s, p) == (t, AsStat(o))
    case List(p) => ViaRpc(v).list(s, p) == (t, AsList(o))
    case Read(p, off, n) => ViaRpc(v).read(s, p, off, n) == (t, AsRead(o))
    case Write(p, off, d) => ViaRpc(v).write(s, p, off, d) == (t, AsWrite(o))
    case Create(p, m) => ViaRpc(v).create(s, p, m) == (t, AsCreate(o))
    case Mkdir(p, m) => ViaRpc(v).mkdir(s, p, m) == (t, AsMkdir(o))
    case Remove(p) => ViaRpc(v).remove(s, p) == (t, AsRemove(o))
    case Rmdir(p) => ViaRpc(v).rmdir(s, p) == (t, AsRmdir(o))
    case Rename(p, to) => ViaRpc(v).rename(s, p, to) == (t, AsRename(o))
    case Truncate(p, n) => ViaRpc(v).truncate(s, p, n) == (t, AsTruncate(o))
  }

  lemma DeliveredIsTyped<S>(v: Vfs<S>, s: S, q: Request)
    ensures Typed(v, s, q, Delivered(v, s, q).0, Delivered(v, s, q).1)
  {
    hide EncodeRequest, PutRequest, PutResponse;
    hide AsStat, AsList, AsRead, AsWrite, AsCreate, AsMkdir, AsRemove, AsRmdir, AsRename, AsTruncate;
    if !q.Hello? {
      hide Delivered;
    }
  }

  /** Over every run of the shared stream, each finished caller's typed operation went
      from the state the earlier calls left to the state the later ones found, just as
      if it had been made alone on the filesystem behind the client. */
  lemma CallersSeeTheFilesystem<S>(v: Vfs<S>, s: S, cap: nat, steps: seq<Step>, id: nat) returns (k: nat)
    requires Runs(v, Init(s, cap), steps) && Fits(v, s, Final(v, Init(s, cap), steps).log)
    requires
      var y := Final(v, Init(s, cap), steps);
      id in y.callers && y.callers[id].Done?
    ensures
      var y := Final(v, Init(s, cap), steps);
      && k < |y.log| && y.log[k].0 == id
      && Typed(v, After(v, s, y.log[..k]), y.log[k].1, After(v, s, y.log[..k + 1]), y.callers[id].outcome)
  {
    hide Typed, Runs, Final, Fits, Distinct, CallsOf, After, OutcomeAt, Delivered;
    RefinesDirectCalls(v, s, cap, steps);
    var y := Final(v, Init(s, cap), steps);
    k :| 0 <= k < |y.log| && y.log[k].0 == id && y.callers[id].outcome == OutcomeAt(v, s, y.log, k);
    LoggedIsDelivered(v, s, y.log, k);
    DeliveredIsTyped(v, After(v, s, y.log[..k]), y.log[k].1);
  }

  lemma LoggedIsDelivered<S>(v: Vfs<S>, s: S, log: seq<(nat, Request)>, k: nat)
    requires k < |log| && Fits(v, s, log)
    ensures Delivered(v, After(v, s, log[..k]), log[k].1) == (After(v, s, log[..k + 1]), OutcomeAt(v, s, log, k))
  {
    hide Direct, CallFits, Delivered;
    assert log[..k + 1][..k] == log[..k];
    DeliveredIsDirect(v, After(v, s, log[..k]), log[k].1);
  }

  /** A server of the same version passes the handshake. */
  lemma HandshakeAgrees<S>(v: Vfs<S>, s: S)
    ensures AsHello(Direct(v, s, Hello(PROTOCOL_VERSION)).1) == Agreed
  {
    assert PutVarint(0) == [0] && PutVarint(PROTOCOL_VERSION) == [1];
  }

  /** The opening exchange passes exactly with a server of this version. */
  lemma HandshakeIff(o: Outcome)
    ensures AsHello(o) == Agreed <==> o == Replied(RHello(1))
    ensures forall v: u32 :: v != 1 ==> AsHello(Replied(RHello(v))) == Mismatch(v)
    ensures o.Replied? && !o.response.RHello? ==> AsHello(o) == Unexpected
    ensures !o.Replied? ==> AsHello(o) == NoReply
  {
  }

  /** An answer of another kind, as a stream out of step may bring, is "bad resp". */
  lemma WrongKindIsBad(r: Response)
    ensures
      var o, bad := Replied(r), [98, 97, 100, 32, 114, 101, 115, 112];
      && (!r.RStat? ==> AsStat(o).Err? && AsStat(o).error.Io? && AsStat(o).error.msg == bad)
      && (!r.RList? ==> AsList(o).Err? && AsList(o).error.Io? && AsList(o).error.msg == bad)
      && (!r.RRead? ==> AsRead(o).Err? && AsRead(o).error.Io? && AsRead(o).error.msg == bad)
      && (!r.RWrite? ==> AsWrite(o).Err? && AsWrite(o).error.Io? && AsWrite(o).error.msg == bad)
      && (!r.RCreate? ==> AsCreate(o).Err? && AsCreate(o).error.Io? && AsCreate(o).error.msg == bad)
      && (!r.RMkdir? ==> AsMkdir(o).Err? && AsMkdir(o).error.Io? && AsMkdir(o).error.msg == bad)
      && (!r.RRemove? ==> AsRemove(o).Err? && AsRemove(o).error.Io? && AsRemove(o).error.msg == bad)
      && (!r.RRmdir? ==> AsRmdir(o).Err? && AsRmdir(o).error.Io? && AsRmdir(o).error.msg == bad)
      && (!r.RRename? ==> AsRename(o).Err? && AsRename(o).error.Io? && AsRename(o).error.msg == bad)
      && (!r.RTruncate? ==> AsTruncate(o).Err? && AsTruncate(o).error.Io? && AsTruncate(o).error.msg == bad)
  {
    hide ValidUtf8;
  }
}
