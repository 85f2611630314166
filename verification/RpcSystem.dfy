/** Any number of concurrent callers share one client, whose mutex serialises
    them onto one byte stream; a server answers at the other end. Every step is
    one atomic move of one party, and bytes travel in pieces of any size. */
module RpcSystem {
  import opened Prelude
  import opened VfsCore
  import opened Proto
  import opened Wire
  import opened Frame
  import opened Server

  /** What `Client::call` returns. */
  datatype Outcome = Replied(response: Response) | EncodeFailed | StreamFailed

  datatype Caller = Waiting(q: Request) | Calling(q: Request) | Done(outcome: Outcome)

  datatype ClientIo =
    | Free
    | Sending(id: nat, pending: seq<byte>)
    | Receiving(id: nat, buf: seq<byte>)

  datatype ServerIo = Reading(buf: seq<byte>) | Writing(pending: seq<byte>) | Stopped

  /** `up` and `down` are the bytes in flight, of which the transport holds at most
      `cap` each way: a full one makes its writer wait. `log` records who took the
      lock, in order, and `calls` the requests the server has passed on. */
  datatype Sys<+S> = Sys(
    cap: nat,
    callers: map<nat, Caller>,
    client: ClientIo,
    up: seq<byte>,
    server: ServerIo,
    down: seq<byte>,
    vfs: S,
    calls: seq<Request>,
    log: seq<(nat, Request)>)

  datatype Step =
    | Submit(id: nat, q: Request)
    | Acquire(id: nat)
    | ClientSend(n: nat)
    | ServerReceive(n: nat)
    | ServerHandle
    | ServerReject
    | ServerSend(n: nat)
    | ClientReceive(n: nat)
    | ClientFinish
    | ClientReject
    | ClientEof
    | ClientHangup

  function Init<S>(s: S, cap: nat): Sys<S> {
    Sys(cap, map[], Free, [], Reading([]), [], s, [], [])
  }

  /** `read_exact` never takes a byte beyond the frame it is reading. */
  function Wanted(buf: seq<byte>): (n: nat) {
    if |buf| < 4 then 4 - |buf|
    else if FromBigEndian(buf[..4]) > LIMIT then 0
    else Max(0, 4 + FromBigEndian(buf[..4]) - |buf|)
  }

  predicate Enabled<S>(y: Sys<S>, step: Step) {
    match step
    case Submit(id, q) => id !in y.callers
    case Acquire(id) => y.client == Free && id in y.callers && y.callers[id].Waiting?
    case ClientSend(n) => y.client.Sending? && 1 <= n <= |y.client.pending| && |y.up| + n <= y.cap
    case ServerReceive(n) => y.server.Reading? && 1 <= n <= |y.up| && n <= Wanted(y.server.buf)
    case ServerHandle => y.server.Reading? && Open(y.server.buf).Framed?
    case ServerReject => y.server.Reading? && Open(y.server.buf).TooLarge?
    case ServerSend(n) => y.server.Writing? && 1 <= n <= |y.server.pending| && |y.down| + n <= y.cap
    case ClientReceive(n) => y.client.Receiving? && 1 <= n <= |y.down| && n <= Wanted(y.client.buf)
    case ClientFinish => y.client.Receiving? && Open(y.client.buf).Framed?
    case ClientReject => y.client.Receiving? && Open(y.client.buf).TooLarge?
    case ClientEof => y.client.Receiving? && Open(y.client.buf).Short? && y.down == [] && y.server.Stopped?
    case ClientHangup => y.client.Sending? && y.server.Stopped?
  }

  /** The call in progress ends with `o` and the lock is released. */
  function Release<S>(y: Sys<S>, id: nat, o: Outcome): Sys<S> {
    y.(client := Free, callers := y.callers[id := Done(o)])
  }

  function Handled<S>(v: Vfs<S>, y: Sys<S>, payload: seq<byte>): Sys<S> {
    match GetRequest(payload)
    case Bad => y.(server := Stopped)
    case Good(q, _) =>
      var (s, r) := Handle(v, y.vfs, q);
      var done := y.(vfs := s, calls := y.calls + [q]);
      match EncodeResponse(r)
      case Some(f) => done.(server := Writing(f))
      case None => done.(server := Stopped)
  }

  function Apply<S>(v: Vfs<S>, y: Sys<S>, step: Step): Sys<S>
    requires Enabled(y, step)
  {
    match step
    case Submit(id, q) => y.(callers := y.callers[id := Waiting(q)])
    case Acquire(id) =>
      var q := y.callers[id].q;
      var logged := y.(log := y.log + [(id, q)]);
      (match EncodeRequest(q)
       case None => Release(logged, id, EncodeFailed)
       case Some(f) => logged.(client := Sending(id, f), callers := y.callers[id := Calling(q)]))
    case ClientSend(n) =>
      var Sending(id, p) := y.client;
      y.(up := y.up + p[..n], client := if n == |p| then Receiving(id, []) else Sending(id, p[n..]))
    case ServerReceive(n) => y.(server := Reading(y.server.buf + y.up[..n]), up := y.up[n..])
    case ServerHandle => Handled(v, y, Open(y.server.buf).payload)
    case ServerReject => y.(server := Stopped)
    case ServerSend(n) =>
      var p := y.server.pending;
      y.(down := y.down + p[..n], server := if n == |p| then Reading([]) else Writing(p[n..]))
    case ClientReceive(n) =>
      y.(client := Receiving(y.client.id, y.client.buf + y.down[..n]), down := y.down[n..])
    case ClientFinish =>
      (match GetResponse(Open(y.client.buf).payload)
       case Good(r, _) => Release(y, y.client.id, Replied(r))
       case Bad => Release(y, y.client.id, StreamFailed))
    case ClientReject => Release(y, y.client.id, StreamFailed)
    case ClientEof => Release(y, y.client.id, StreamFailed)
    case ClientHangup => Release(y, y.client.id, StreamFailed)
  }

  predicate Runs<S>(v: Vfs<S>, y: Sys<S>, steps: seq<Step>)
    decreases |steps|
  {
    steps == [] || (Enabled(y, steps[0]) && Runs(v, Apply(v, y, steps[0]), steps[1..]))
  }

  function Final<S>(v: Vfs<S>, y: Sys<S>, steps: seq<Step>): Sys<S>
    requires Runs(v, y, steps)
    decreases |steps|
  {
    if steps == [] then y else Final(v, Apply(v, y, steps[0]), steps[1..])
  }

  /** The server party does with a frame what the serving loop does with it. */
  lemma ServerStepIsServe<S>(v: Vfs<S>, y: Sys<S>)
    requires Enabled(y, ServerHandle) && NextRequest(Open(y.server.buf).rest).None?
    ensures
      var y', r := Apply(v, y, ServerHandle), Serve(v, y.vfs, y.server.buf);
      && y'.vfs == r.state && y'.calls == y.calls + r.calls
      && y'.server == if r.out == [] then Stopped else Writing(r.out)
  {
    hide GetRequest, PutResponse, Handle, Open, Serve;
    ServeUnfolds(v, y.vfs, y.server.buf);
    if NextRequest(y.server.buf).Some? {
      ServeUnfolds(v, Handle(v, y.vfs, NextRequest(y.server.buf).value.0).0, Open(y.server.buf).rest);
    }
  }

  // ------------------------------------------------ the reference: direct calls

  /** One call with no wire in between. */
  function Direct<S>(v: Vfs<S>, s: S, q: Request): (S, Outcome) {
    match EncodeRequest(q)
    case None => (s, EncodeFailed)
    case Some(_) => var (s', r) := Handle(v, s, q); (s', Replied(r))
  }

  /** The filesystem after the logged calls, made directly one after another. */
  function After<S>(v: Vfs<S>, s: S, log: seq<(nat, Request)>): S {
    if log == [] then s
    else Direct(v, After(v, s, log[..|log| - 1]), log[|log| - 1].1).0
  }

  function OutcomeAt<S>(v: Vfs<S>, s: S, log: seq<(nat, Request)>, k: nat): Outcome
    requires k < |log|
  {
    Direct(v, After(v, s, log[..k]), log[k].1).1
  }

  /** The logged requests that can be sent at all. */
  function CallsOf(log: seq<(nat, Request)>): seq<Request> {
    if log == [] then []
    else
      var (front, q) := (CallsOf(log[..|log| - 1]), log[|log| - 1].1);
      if EncodeRequest(q).Some? then front + [q] else front
  }

  /** A call keeps to the limit when its request and its answer do. */
  predicate CallFits<S>(v: Vfs<S>, s: S, q: Request) {
    EncodeRequest(q).Some? ==>
      |PutRequest(q)| <= LIMIT && |PutResponse(Handle(v, s, q).1)| <= LIMIT
  }

  predicate Fits<S>(v: Vfs<S>, s: S, log: seq<(nat, Request)>) {
    forall k :: 0 <= k < |log| ==> CallFits(v, After(v, s, log[..k]), log[k].1)
  }

  // ------------------------------------------------ the invariant

  predicate Distinct(log: seq<(nat, Request)>) {
    forall i, j :: 0 <= i < j < |log| ==> log[i].0 != log[j].0
  }

  /** Where logged call `k` stands: only the last one may still be in progress. */
  ghost predicate Placed<S>(v: Vfs<S>, s: S, y: Sys<S>, k: nat)
    requires k < |y.log|
  {
    var (id, q) := y.log[k];
    && id in y.callers
    && y.callers[id] == (if k == |y.log| - 1 && !y.client.Free? then Calling(q)
                         else Done(OutcomeAt(v, s, y.log, k)))
  }

  ghost predicate Ledger<S>(v: Vfs<S>, s: S, y: Sys<S>) {
    && Distinct(y.log)
    && (forall k :: 0 <= k < |y.log| ==> Placed(v, s, y, k))
    && (forall id <- y.callers :: y.callers[id].Waiting? || exists k :: 0 <= k < |y.log| && y.log[k].0 == id)
  }

  /** The request is somewhere between the client and the server. */
  ghost predicate Asking<S>(v: Vfs<S>, s: S, y: Sys<S>, unsent: seq<byte>)
    requires |y.log| > 0
  {
    var front, q := y.log[..|y.log| - 1], y.log[|y.log| - 1].1;
    && EncodeRequest(q).Some?
    && y.server.Reading?
    && y.server.buf + y.up + unsent == EncodeRequest(q).value
    && y.down == []
    && y.vfs == After(v, s, front) && y.calls == CallsOf(front)
  }

  /** The answer is somewhere between the server and the client. */
  ghost predicate Answering<S>(v: Vfs<S>, s: S, y: Sys<S>, received: seq<byte>)
    requires |y.log| > 0
  {
    var o := OutcomeAt(v, s, y.log, |y.log| - 1);
    && o.Replied? && EncodeResponse(o.response).Some?
    && y.up == []
    && (y.server == Reading([]) || (y.server.Writing? && y.server.pending != []))
    && received + y.down + (if y.server.Writing? then y.server.pending else []) == EncodeResponse(o.response).value
    && y.vfs == After(v, s, y.log) && y.calls == CallsOf(y.log)
  }

  ghost predicate OnTheWire<S>(v: Vfs<S>, s: S, y: Sys<S>) {
    match y.client
    case Free =>
      y.up == [] && y.down == [] && y.server == Reading([]) &&
      y.vfs == After(v, s, y.log) && y.calls == CallsOf(y.log)
    case Sending(id, p) =>
      |y.log| > 0 && y.log[|y.log| - 1].0 == id && p != [] && Asking(v, s, y, p)
    case Receiving(id, buf) =>
      |y.log| > 0 && y.log[|y.log| - 1].0 == id &&
      ((buf == [] && Asking(v, s, y, [])) || Answering(v, s, y, buf))
  }

  ghost predicate Inv<S>(v: Vfs<S>, s: S, y: Sys<S>) {
    Ledger(v, s, y) && OnTheWire(v, s, y)
  }

  // ------------------------------------------------ every step keeps it

  lemma OutcomeStable<S>(v: Vfs<S>, s: S, log: seq<(nat, Request)>, longer: seq<(nat, Request)>, k: nat)
    requires log <= longer && k < |log|
    ensures OutcomeAt(v, s, longer, k) == OutcomeAt(v, s, log, k)
  {
    hide After, Direct;
    assert longer[..k] == log[..k];
  }

  /** Only taking the lock extends the log. */
  lemma LedgerExtends<S>(v: Vfs<S>, s: S, y: Sys<S>, y': Sys<S>, id: nat)
    requires Ledger(v, s, y) && y.client.Free? && id in y.callers && y.callers[id].Waiting?
    requires y'.log == y.log + [(id, y.callers[id].q)]
    requires y'.callers == y.callers[id :=
      if y'.client.Free? then Done(OutcomeAt(v, s, y'.log, |y.log|)) else Calling(y.callers[id].q)]
    ensures Ledger(v, s, y')
  {
    hide OutcomeAt;
    var n := |y.log|;
    forall k | 0 <= k < n
      ensures Placed(v, s, y', k) && y.log[k].0 != id
    {
      assert Placed(v, s, y, k);
      OutcomeStable(v, s, y.log, y'.log, k);
    }
    assert Placed(v, s, y', n);
    forall c <- y'.callers
      ensures y'.callers[c].Waiting? || exists k :: 0 <= k < |y'.log| && y'.log[k].0 == c
    {
      if c == id {
        assert y'.log[n].0 == c;
      } else if !y.callers[c].Waiting? {
        var k :| 0 <= k < |y.log| && y.log[k].0 == c;
        assert y'.log[k].0 == c;
      }
    }
  }

  lemma AcquireKeepsInv<S>(v: Vfs<S>, s: S, y: Sys<S>, id: nat)
    requires Inv(v, s, y) && Enabled(y, Acquire(id))
    ensures Inv(v, s, Apply(v, y, Acquire(id)))
  {
    hide Apply, Ledger, OnTheWire;
    AcquireKeepsLedger(v, s, y, id);
    AcquireKeepsWire(v, s, y, id);
  }

  lemma AcquireKeepsLedger<S>(v: Vfs<S>, s: S, y: Sys<S>, id: nat)
    requires Ledger(v, s, y) && Enabled(y, Acquire(id))
    ensures Ledger(v, s, Apply(v, y, Acquire(id)))
  {
    hide EncodeRequest, Handle, EncodeResponse, Ledger, After, CallsOf;
    LedgerExtends(v, s, y, Apply(v, y, Acquire(id)), id);
  }

  lemma LogAppended<S>(v: Vfs<S>, s: S, log: seq<(nat, Request)>, entry: (nat, Request))
    ensures EncodeRequest(entry.1).None? ==>
      After(v, s, log + [entry]) == After(v, s, log) && CallsOf(log + [entry]) == CallsOf(log)
  {
    hide EncodeRequest, Handle;
    assert (log + [entry])[..|log|] == log;
  }

  lemma AcquireKeepsWire<S>(v: Vfs<S>, s: S, y: Sys<S>, id: nat)
    requires OnTheWire(v, s, y) && Enabled(y, Acquire(id))
    ensures OnTheWire(v, s, Apply(v, y, Acquire(id)))
  {
    hide EncodeRequest, Handle, EncodeResponse, After, CallsOf, OutcomeAt;
    var y' := Apply(v, y, Acquire(id));
    assert y'.log[..|y.log|] == y.log;
    LogAppended(v, s, y.log, (id, y.callers[id].q));
    if y'.client.Sending? {
      var f := y'.client.pending;
      assert [] + [] + f == f;
    }
  }

  /** The ledger depends on the log, the callers and whether the lock is held. */
  lemma SameLedger<S>(v: Vfs<S>, s: S, y: Sys<S>, y': Sys<S>)
    requires Ledger(v, s, y)
    requires y'.log == y.log && y'.callers == y.callers && y'.client.Free? == y.client.Free?
    ensures Ledger(v, s, y')
  {
    hide OutcomeAt;
    forall k | 0 <= k < |y.log|
      ensures Placed(v, s, y', k)
    {
      assert Placed(v, s, y, k);
    }
  }

  lemma SubmitKeepsInv<S>(v: Vfs<S>, s: S, y: Sys<S>, id: nat, q: Request)
    requires Inv(v, s, y) && Enabled(y, Submit(id, q))
    ensures Inv(v, s, Apply(v, y, Submit(id, q)))
  {
    hide OutcomeAt, After, CallsOf, EncodeRequest, EncodeResponse;
    var y' := Apply(v, y, Submit(id, q));
    forall k | 0 <= k < |y.log|
      ensures Placed(v, s, y', k)
    {
      assert Placed(v, s, y, k);
    }
  }

  /** Moving a piece from one place to the next loses nothing. */
  lemma PieceMoves(a: seq<byte>, b: seq<byte>, p: seq<byte>, n: nat)
    requires n <= |p|
    ensures a + (b + p[..n]) + p[n..] == a + b + p
    ensures (b + p[..n]) + p[n..] == b + p
    ensures n == |p| ==> p[n..] == [] && a + (b + p[..n]) + [] == a + b + p
  {
    assert p[..n] + p[n..] == p;
  }

  lemma ClientSendKeepsInv<S>(v: Vfs<S>, s: S, y: Sys<S>, n: nat)
    requires Inv(v, s, y) && Enabled(y, ClientSend(n))
    ensures Inv(v, s, Apply(v, y, ClientSend(n)))
  {
    hide Ledger, OutcomeAt, After, CallsOf, EncodeRequest, EncodeResponse;
    var y' := Apply(v, y, ClientSend(n));
    SameLedger(v, s, y, y');
    PieceMoves(y.server.buf, y.up, y.client.pending, n);
  }

  lemma ServerReceiveKeepsInv<S>(v: Vfs<S>, s: S, y: Sys<S>, n: nat)
    requires Inv(v, s, y) && Enabled(y, ServerReceive(n))
    ensures Inv(v, s, Apply(v, y, ServerReceive(n)))
  {
    hide Ledger, OutcomeAt, After, CallsOf, EncodeRequest, EncodeResponse, Wanted;
    var y' := Apply(v, y, ServerReceive(n));
    SameLedger(v, s, y, y');
    PieceMoves([], y.server.buf, y.up, n);
  }

  lemma ServerSendKeepsInv<S>(v: Vfs<S>, s: S, y: Sys<S>, n: nat)
    requires Inv(v, s, y) && Enabled(y, ServerSend(n))
    ensures Inv(v, s, Apply(v, y, ServerSend(n)))
  {
    hide Ledger, OutcomeAt, After, CallsOf, EncodeRequest, EncodeResponse;
    var y' := Apply(v, y, ServerSend(n));
    SameLedger(v, s, y, y');
    PieceMoves(y.client.buf, y.down, y.server.pending, n);
  }

  lemma ClientReceiveKeepsInv<S>(v: Vfs<S>, s: S, y: Sys<S>, n: nat)
    requires Inv(v, s, y) && Enabled(y, ClientReceive(n))
    ensures Inv(v, s, Apply(v, y, ClientReceive(n)))
  {
    hide Ledger, OutcomeAt, After, CallsOf, EncodeRequest, EncodeResponse, Wanted;
    var y' := Apply(v, y, ClientReceive(n));
    SameLedger(v, s, y, y');
    PieceMoves([], y.client.buf, y.down, n);
  }

  /** A buffer that holds part of one frame within the limit either is the whole
      frame or does not look like one. */
  lemma FrameProgress(buf: seq<byte>, more: seq<byte>, payload: seq<byte>)
    requires |payload| <= LIMIT && buf + more == Seal(payload).value
    ensures Open(buf) == if more == [] then Framed(payload, []) else Short
  {
    if more == [] {
      OpenSealed(payload, []);
      assert buf == Seal(payload).value + [];
    } else {
      OpenPartial(payload, |buf|);
      assert buf == Seal(payload).value[..|buf|];
    }
  }

  /** The last logged call is within the limit. */
  lemma LastFits<S>(v: Vfs<S>, s: S, log: seq<(nat, Request)>)
    requires Fits(v, s, log) && |log| > 0
    ensures CallFits(v, After(v, s, log[..|log| - 1]), log[|log| - 1].1)
  {
  }

  /** A complete frame in the server's buffer is the frame of the call in progress,
      and nothing of it is left elsewhere. */
  lemma ServerGotRequest<S>(v: Vfs<S>, s: S, y: Sys<S>)
    requires Inv(v, s, y) && Fits(v, s, y.log) && Enabled(y, ServerHandle)
    ensures y.client.Receiving? && y.client.buf == [] && y.up == [] && |y.log| > 0
    ensures Asking(v, s, y, [])
    ensures GetRequest(Open(y.server.buf).payload) == Good(y.log[|y.log| - 1].1, [])
  {
    hide Ledger, GetRequest, PutRequest, PutResponse, Handle, Open, OutcomeAt, After, CallsOf;
    OpenPartial([], 0);
    LastFits(v, s, y.log);
    var q := y.log[|y.log| - 1].1;
    var unsent := if y.client.Sending? then y.client.pending else [];
    assert y.server.buf + (y.up + unsent) == y.server.buf + y.up + unsent;
    FrameProgress(y.server.buf, y.up + unsent, PutRequest(q));
    assert |y.up + unsent| == 0;
    RequestRoundTrip(q, []);
    assert PutRequest(q) + [] == PutRequest(q);
  }

  lemma ServerHandleKeepsInv<S>(v: Vfs<S>, s: S, y: Sys<S>)
    requires Inv(v, s, y) && Fits(v, s, y.log) && Enabled(y, ServerHandle)
    ensures Inv(v, s, Apply(v, y, ServerHandle))
    ensures Apply(v, y, ServerHandle).server.Writing?
  {
    hide Ledger, GetRequest, EncodeRequest, PutResponse, Handle, Open;
    var y' := Apply(v, y, ServerHandle);
    ServerGotRequest(v, s, y);
    SameLedger(v, s, y, y');
    LastFits(v, s, y.log);
    var f := EncodeResponse(Handle(v, y.vfs, y.log[|y.log| - 1].1).1).value;
    assert [] + [] + f == f;
  }

  lemma ServerRejectIsDisabled<S>(v: Vfs<S>, s: S, y: Sys<S>)
    requires Inv(v, s, y) && Fits(v, s, y.log)
    ensures !Enabled(y, ServerReject)
  {
    hide Ledger, PutRequest, PutResponse, Handle, Open, OutcomeAt, After, CallsOf, EncodeResponse;
    OpenPartial([], 0);
    if y.server.Reading? && Open(y.server.buf).TooLarge? {
      if y.server.buf != [] {
        LastFits(v, s, y.log);
        var unsent := if y.client.Sending? then y.client.pending else [];
        assert Asking(v, s, y, unsent);
        assert y.server.buf + (y.up + unsent) == y.server.buf + y.up + unsent;
        FrameProgress(y.server.buf, y.up + unsent, PutRequest(y.log[|y.log| - 1].1));
      }
    }
  }

  /** What the client's buffer can hold while it waits. */
  lemma ClientBuffer<S>(v: Vfs<S>, s: S, y: Sys<S>)
    requires Inv(v, s, y) && Fits(v, s, y.log) && y.client.Receiving?
    ensures Open(y.client.buf).Short? || (
      && Answering(v, s, y, y.client.buf)
      && y.down == [] && y.server == Reading([])
      && Open(y.client.buf) == Framed(PutResponse(OutcomeAt(v, s, y.log, |y.log| - 1).response), [])
      && |PutResponse(OutcomeAt(v, s, y.log, |y.log| - 1).response)| <= LIMIT)
  {
    hide Ledger, PutRequest, PutResponse, Handle, Open, CallsOf;
    var buf := y.client.buf;
    if Answering(v, s, y, buf) {
      LastFits(v, s, y.log);
      var more := if y.server.Writing? then y.server.pending else [];
      assert buf + (y.down + more) == buf + y.down + more;
      FrameProgress(buf, y.down + more, PutResponse(OutcomeAt(v, s, y.log, |y.log| - 1).response));
    } else {
      assert Open([]) == Short by { OpenPartial([], 0); }
    }
  }

  lemma ClientFinishKeepsInv<S>(v: Vfs<S>, s: S, y: Sys<S>)
    requires Inv(v, s, y) && Fits(v, s, y.log) && Enabled(y, ClientFinish)
    ensures Inv(v, s, Apply(v, y, ClientFinish))
  {
    hide GetResponse, PutResponse, OutcomeAt, After, CallsOf, EncodeRequest, Open;
    ClientBuffer(v, s, y);
    var y' := Apply(v, y, ClientFinish);
    var last := |y.log| - 1;
    var r := OutcomeAt(v, s, y.log, last).response;
    ResponseRoundTrip(r, []);
    assert PutResponse(r) + [] == PutResponse(r);
    forall k | 0 <= k < |y.log|
      ensures Placed(v, s, y', k)
    {
      assert Placed(v, s, y, k);
    }
  }

  lemma StepKeepsInv<S>(v: Vfs<S>, s: S, y: Sys<S>, step: Step)
    requires Inv(v, s, y) && Fits(v, s, y.log) && Enabled(y, step)
    ensures Inv(v, s, Apply(v, y, step))
  {
    hide Inv, Apply, Open, Fits;
    match step
    case Submit(id, q) => SubmitKeepsInv(v, s, y, id, q);
    case Acquire(id) => AcquireKeepsInv(v, s, y, id);
    case ClientSend(n) => ClientSendKeepsInv(v, s, y, n);
    case ServerReceive(n) => ServerReceiveKeepsInv(v, s, y, n);
    case ServerHandle => ServerHandleKeepsInv(v, s, y);
    case ServerReject => ServerRejectIsDisabled(v, s, y);
    case ServerSend(n) => ServerSendKeepsInv(v, s, y, n);
    case ClientReceive(n) => ClientReceiveKeepsInv(v, s, y, n);
    case ClientFinish => ClientFinishKeepsInv(v, s, y);
    case ClientReject => ClientBuffer(v, s, y);
    case ClientEof => ServerNeverStops(v, s, y);
    case ClientHangup => ServerNeverStops(v, s, y);
  }

  lemma ServerNeverStops<S>(v: Vfs<S>, s: S, y: Sys<S>)
    requires Inv(v, s, y)
    ensures !y.server.Stopped?
  {
    hide Ledger, OutcomeAt, After, CallsOf, EncodeRequest, EncodeResponse;
  }

  // ------------------------------------------------ safety over whole runs

  /** The lock is held by a call in progress. */
  predicate Held<S>(y: Sys<S>) {
    y.client.Free? || (y.client.id in y.callers && y.callers[y.client.id].Calling?)
  }

  lemma StepKeepsOutcomes<S>(v: Vfs<S>, y: Sys<S>, step: Step)
    requires Held(y) && Enabled(y, step)
    ensures
      var y' := Apply(v, y, step);
      Held(y') && forall id <- y.callers :: y.callers[id].Done? ==> id in y'.callers && y'.callers[id] == y.callers[id]
  {
    hide EncodeRequest, EncodeResponse, Handle, GetRequest, GetResponse, Open, Wanted;
  }

  lemma StepGrows<S>(v: Vfs<S>, y: Sys<S>, step: Step)
    requires Enabled(y, step)
    ensures
      var y' := Apply(v, y, step);
      y'.cap == y.cap && y.log <= y'.log && y.callers.Keys <= y'.callers.Keys
    ensures !step.Acquire? ==> Apply(v, y, step).log == y.log
  {
    hide EncodeRequest, EncodeResponse, Handle, GetRequest, GetResponse, Open, Wanted;
  }

  /** Runs only ever append to the log, and a finished call stays finished. */
  lemma {:induction false} RunsGrow<S>(v: Vfs<S>, y: Sys<S>, steps: seq<Step>)
    requires Runs(v, y, steps)
    ensures
      var y' := Final(v, y, steps);
      y'.cap == y.cap && y.log <= y'.log && y.callers.Keys <= y'.callers.Keys
    ensures
      var y' := Final(v, y, steps);
      Held(y) ==>
        && Held(y')
        && forall id <- y.callers :: y.callers[id].Done? ==> id in y'.callers && y'.callers[id] == y.callers[id]
    decreases |steps|
  {
    hide Enabled, Apply, Held;
    if steps != [] {
      StepGrows(v, y, steps[0]);
      if Held(y) {
        StepKeepsOutcomes(v, y, steps[0]);
      }
      RunsGrow(v, Apply(v, y, steps[0]), steps[1..]);
    }
  }

  lemma FitsPrefix<S>(v: Vfs<S>, s: S, log: seq<(nat, Request)>, longer: seq<(nat, Request)>)
    requires log <= longer && Fits(v, s, longer)
    ensures Fits(v, s, log)
  {
    hide CallFits, After;
    forall k | 0 <= k < |log|
      ensures CallFits(v, After(v, s, log[..k]), log[k].1)
    {
      assert longer[..k] == log[..k] && longer[k] == log[k];
    }
  }

  lemma {:induction false} RunKeepsInv<S>(v: Vfs<S>, s: S, y: Sys<S>, steps: seq<Step>)
    requires Inv(v, s, y) && Runs(v, y, steps) && Fits(v, s, Final(v, y, steps).log)
    ensures Inv(v, s, Final(v, y, steps))
    decreases |steps|
  {
    hide Inv, Fits, Apply, Enabled;
    if steps != [] {
      RunsGrow(v, y, steps);
      FitsPrefix(v, s, y.log, Final(v, y, steps).log);
      StepKeepsInv(v, s, y, steps[0]);
      RunKeepsInv(v, s, Apply(v, y, steps[0]), steps[1..]);
    }
  }

  /** Whatever the interleaving and however bytes are cut: the filesystem has seen
      exactly the sendable requests in lock order (all but possibly the one in
      progress), it is in the state direct calls would have left it in, at most one
      call is in progress, and each finished caller holds the outcome of its own
      direct call, never a read failure. */
  lemma RefinesDirectCalls<S>(v: Vfs<S>, s: S, cap: nat, steps: seq<Step>)
    requires Runs(v, Init(s, cap), steps) && Fits(v, s, Final(v, Init(s, cap), steps).log)
    ensures
      var y := Final(v, Init(s, cap), steps);
      && Distinct(y.log)
      && ((y.calls == CallsOf(y.log) && y.vfs == After(v, s, y.log)) ||
          (!y.client.Free? && |y.log| > 0 &&
           y.calls == CallsOf(y.log[..|y.log| - 1]) && y.vfs == After(v, s, y.log[..|y.log| - 1])))
      && (forall i, j :: i in y.callers && j in y.callers && y.callers[i].Calling? && y.callers[j].Calling? ==> i == j)
      && (forall id :: id in y.callers && y.callers[id].Done? ==>
            exists k :: 0 <= k < |y.log| && y.log[k].0 == id && y.callers[id].outcome == OutcomeAt(v, s, y.log, k))
  {
    hide After, CallsOf, OutcomeAt, EncodeRequest, EncodeResponse, Fits, Runs, Final;
    RunKeepsInv(v, s, Init(s, cap), steps) by {
      assert Inv(v, s, Init(s, cap)) by { InitInv(v, s, cap); }
    }
    var y := Final(v, Init(s, cap), steps);
    forall id | id in y.callers && !y.callers[id].Waiting?
      ensures exists k :: 0 <= k < |y.log| && y.log[k].0 == id && Placed(v, s, y, k)
    {
      Settled(v, s, y, id);
    }
  }

  lemma Settled<S>(v: Vfs<S>, s: S, y: Sys<S>, id: nat)
    requires Ledger(v, s, y) && id in y.callers
    ensures y.callers[id].Waiting? || exists k :: 0 <= k < |y.log| && y.log[k].0 == id && Placed(v, s, y, k)
  {
    hide OutcomeAt;
    if !y.callers[id].Waiting? {
      var k :| 0 <= k < |y.log| && y.log[k].0 == id;
      assert Placed(v, s, y, k);
    }
  }

  lemma InitInv<S>(v: Vfs<S>, s: S, cap: nat)
    ensures Inv(v, s, Init(s, cap))
    ensures Held(Init(s, cap)) && Fits(v, s, Init(s, cap).log)
  {
  }

  /** The lock order respects real time: a call that had returned before another
      was made comes first in it. */
  lemma LockOrderIsLinearization<S>(
    v: Vfs<S>, s: S, cap: nat, before: seq<Step>, after: seq<Step>, a: nat, b: nat, i: nat, j: nat)
    requires Runs(v, Init(s, cap), before)
    requires Runs(v, Final(v, Init(s, cap), before), after)
    requires
      var y := Final(v, Init(s, cap), before);
      var y' := Final(v, y, after);
      && Fits(v, s, y'.log)
      && a in y.callers && y.callers[a].Done? && b !in y.callers
      && i < |y'.log| && j < |y'.log| && y'.log[i].0 == a && y'.log[j].0 == b
    ensures i < j
  {
    hide Fits, Runs, Final, OutcomeAt, OnTheWire;
    var y := Final(v, Init(s, cap), before);
    var y' := Final(v, y, after);
    RunsGrow(v, y, after);
    FitsPrefix(v, s, y.log, y'.log);
    InitInv(v, s, cap);
    RunKeepsInv(v, s, Init(s, cap), before);
    RunKeepsInv(v, s, y, after);
    var k :| 0 <= k < |y.log| && y.log[k].0 == a;
    assert y'.log[k].0 == a;
    assert forall m :: 0 <= m < |y.log| ==> Placed(v, s, y, m) && y'.log[m] == y.log[m];
  }

  // ------------------------------------------------ every call completes

  function WaitingIds<S>(y: Sys<S>): set<nat> {
    set id | id in y.callers && y.callers[id].Waiting?
  }

  function Stage<S>(y: Sys<S>): nat {
    if y.client.Free? then 0 else if |y.calls| < |CallsOf(y.log)| then 2 else 1
  }

  function Backlog<S>(y: Sys<S>): nat {
    |y.up| + |y.down|
      + (if y.client.Sending? then 2 * |y.client.pending| else 0)
      + (if y.server.Writing? then 2 * |y.server.pending| else 0)
  }

  predicate Closer<S>(y': Sys<S>, y: Sys<S>) {
    var w', w := |WaitingIds(y')|, |WaitingIds(y)|;
    w' < w || (w' == w && (Stage(y') < Stage(y) || (Stage(y') == Stage(y) && Backlog(y') < Backlog(y))))
  }

  /** Apart from new calls arriving, no run goes on for ever. */
  lemma StepsApproachCompletion<S>(v: Vfs<S>, s: S, y: Sys<S>, step: Step)
    requires Inv(v, s, y) && Fits(v, s, y.log) && Enabled(y, step) && !step.Submit?
    ensures Closer(Apply(v, y, step), y)
  {
    hide After, CallsOf, EncodeRequest, EncodeResponse, Handle, GetRequest, GetResponse, Fits, Open, Wanted;
    hide OnTheWire;
    var y' := Apply(v, y, step);
    match step
    case Acquire(id) =>
      assert WaitingIds(y') == WaitingIds(y) - {id};
      assert id in WaitingIds(y);
    case ClientSend(_) => MovingBytes(v, y, step);
    case ServerReceive(_) => MovingBytes(v, y, step);
    case ServerSend(_) => MovingBytes(v, y, step);
    case ClientReceive(_) => MovingBytes(v, y, step);
    case ServerHandle => Answered(v, s, y);
    case ServerReject => ServerRejectIsDisabled(v, s, y);
    case ClientFinish =>
      HolderIsCalling(v, s, y);
      assert WaitingIds(y') == WaitingIds(y);
    case ClientReject => ClientBuffer(v, s, y);
    case ClientEof => ServerNeverStops(v, s, y);
    case ClientHangup => ServerNeverStops(v, s, y);
    case Submit(_, _) =>
  }

  lemma MovingBytes<S>(v: Vfs<S>, y: Sys<S>, step: Step)
    requires Enabled(y, step)
    requires step.ClientSend? || step.ServerReceive? || step.ServerSend? || step.ClientReceive?
    ensures Closer(Apply(v, y, step), y)
  {
    hide CallsOf, Wanted;
    assert WaitingIds(Apply(v, y, step)) == WaitingIds(y);
  }

  lemma Answered<S>(v: Vfs<S>, s: S, y: Sys<S>)
    requires Inv(v, s, y) && Fits(v, s, y.log) && Enabled(y, ServerHandle)
    ensures Closer(Apply(v, y, ServerHandle), y)
  {
    hide After, OutcomeAt, EncodeRequest, EncodeResponse, Handle, GetRequest, Open;
    var y' := Apply(v, y, ServerHandle);
    ServerGotRequest(v, s, y);
    ServerHandleKeepsInv(v, s, y);
    assert WaitingIds(y') == WaitingIds(y);
  }

  lemma HolderIsCalling<S>(v: Vfs<S>, s: S, y: Sys<S>)
    requires Inv(v, s, y) && !y.client.Free?
    ensures |y.log| > 0 && y.client.id == y.log[|y.log| - 1].0
    ensures y.client.id in y.callers && y.callers[y.client.id].Calling?
  {
    hide After, OutcomeAt, EncodeRequest, EncodeResponse, CallsOf;
    assert Placed(v, s, y, |y.log| - 1);
  }

  /** A frame on its way: what is in flight is wanted, and with nothing left to come
      the reader has the whole of it. */
  lemma FrameInFlight(buf: seq<byte>, flying: seq<byte>, unsent: seq<byte>, payload: seq<byte>)
    requires |payload| <= LIMIT && buf + flying + unsent == Seal(payload).value
    ensures flying != [] ==> Wanted(buf) >= 1
    ensures flying == [] && unsent == [] ==> Open(buf).Framed?
  {
    hide Open;
    BigEndianRoundTrip(|payload|);
    var more := flying + unsent;
    assert buf + more == buf + flying + unsent;
    assert |buf| + |more| == 4 + |payload|;
    assert |buf| >= 4 ==> buf[..4] == (buf + more)[..4] == BigEndian(|payload|);
    FrameProgress(buf, more, payload);
  }

  lemma AskingMoves<S>(v: Vfs<S>, s: S, y: Sys<S>, unsent: seq<byte>) returns (step: Step)
    requires |y.log| > 0 && Asking(v, s, y, unsent) && Fits(v, s, y.log) && y.cap >= 1
    requires if unsent == [] then y.client.Receiving? else y.client.Sending? && y.client.pending == unsent
    ensures Enabled(y, step) && !step.Submit?
  {
    hide After, CallsOf, PutRequest, PutResponse, Handle, Open, Wanted;
    LastFits(v, s, y.log);
    FrameInFlight(y.server.buf, y.up, unsent, PutRequest(y.log[|y.log| - 1].1));
    step := if unsent != [] && |y.up| < y.cap then ClientSend(1)
            else if y.up != [] then ServerReceive(1)
            else ServerHandle;
  }

  lemma AnsweringMoves<S>(v: Vfs<S>, s: S, y: Sys<S>) returns (step: Step)
    requires y.client.Receiving? && |y.log| > 0 && Answering(v, s, y, y.client.buf)
    requires Fits(v, s, y.log) && y.cap >= 1
    ensures Enabled(y, step) && !step.Submit?
  {
    hide After, CallsOf, PutRequest, PutResponse, Handle, Open, Wanted;
    LastFits(v, s, y.log);
    var unsent := if y.server.Writing? then y.server.pending else [];
    FrameInFlight(y.client.buf, y.down, unsent, PutResponse(OutcomeAt(v, s, y.log, |y.log| - 1).response));
    step := if unsent != [] && |y.down| < y.cap then ServerSend(1)
            else if y.down != [] then ClientReceive(1)
            else ClientFinish;
  }

  /** While any call is unfinished, some party can move, however little the transport
      holds: a writer that finds it full has a reader that still wants bytes. */
  lemma NeverStuck<S>(v: Vfs<S>, s: S, y: Sys<S>, id: nat) returns (step: Step)
    requires Inv(v, s, y) && Fits(v, s, y.log) && y.cap >= 1
    requires id in y.callers && !y.callers[id].Done?
    ensures Enabled(y, step) && !step.Submit?
  {
    hide Asking, Answering, Fits, OutcomeAt, After, CallsOf;
    match y.client
    case Free =>
      step := Acquire(id);
      Settled(v, s, y, id);
    case Sending(_, p) => step := AskingMoves(v, s, y, p);
    case Receiving(_, buf) =>
      if Answering(v, s, y, buf) {
        step := AnsweringMoves(v, s, y);
      } else {
        step := AskingMoves(v, s, y, []);
      }
  }

  /** A buffer that is not yet a frame, nor refused, wants more. */
  lemma ShortWants(buf: seq<byte>)
    requires Open(buf).Short?
    ensures Wanted(buf) >= 1
  {
  }

  /** Even with the server gone, whatever it left on the stream, the call in progress can
      go on to its end; it waits for nobody. */
  lemma GoneServerBlocksNobody<S>(y: Sys<S>) returns (step: Step)
    requires y.server.Stopped? && !y.client.Free?
    ensures Enabled(y, step) && (step.ClientReceive? || step.ClientFinish? || step.ClientReject?
                                 || step.ClientEof? || step.ClientHangup?)
  {
    hide Open, Wanted;
    if y.client.Sending? {
      step := ClientHangup;
    } else {
      var f := Open(y.client.buf);
      if f.Short? && y.down != [] {
        ShortWants(y.client.buf);
        step := ClientReceive(1);
      } else {
        step := if f.Framed? then ClientFinish else if f.TooLarge? then ClientReject else ClientEof;
      }
    }
  }

  /** Over every run: once nothing but a new call can happen, every call is done. */
  lemma StuckOnlyWhenDone<S>(v: Vfs<S>, s: S, cap: nat, steps: seq<Step>)
    requires cap >= 1 && Runs(v, Init(s, cap), steps) && Fits(v, s, Final(v, Init(s, cap), steps).log)
    requires forall step :: Enabled(Final(v, Init(s, cap), steps), step) ==> step.Submit?
    ensures forall id <- Final(v, Init(s, cap), steps).callers :: Final(v, Init(s, cap), steps).callers[id].Done?
  {
    hide Inv, Fits, Enabled, Runs, Final;
    InitInv(v, s, cap);
    RunsGrow(v, Init(s, cap), steps);
    RunKeepsInv(v, s, Init(s, cap), steps);
    var y := Final(v, Init(s, cap), steps);
    if id :| id in y.callers && !y.callers[id].Done? {
      var step := NeverStuck(v, s, y, id);
    }
  }

  /** The waiting callers, in the order in which they are to take the lock. */
  ghost predicate Queues<S>(y: Sys<S>, order: seq<nat>) {
    && (forall id :: id in order <==> id in WaitingIds(y))
    && (forall i, j :: 0 <= i < j < |order| ==> order[i] != order[j])
  }

  function Queued(callers: map<nat, Caller>, order: seq<nat>): (log: seq<(nat, Request)>)
    requires forall id <- order :: id in callers && callers[id].Waiting?
    ensures |log| == |order|
  {
    if order == [] then [] else [(order[0], callers[order[0]].q)] + Queued(callers, order[1..])
  }

  lemma {:induction false} QueuedSame(callers: map<nat, Caller>, callers': map<nat, Caller>, order: seq<nat>)
    requires forall id <- order :: id in callers && callers[id].Waiting?
    requires forall id <- order :: id in callers' && callers'[id] == callers[id]
    ensures Queued(callers', order) == Queued(callers, order)
  {
    if order != [] {
      assert forall id <- order[1..] :: id in order;
      QueuedSame(callers, callers', order[1..]);
    }
  }

  /** While a call is in progress nobody else's turn comes or goes. */
  lemma QueueStays<S>(v: Vfs<S>, s: S, y: Sys<S>, step: Step, order: seq<nat>)
    requires Inv(v, s, y) && Enabled(y, step) && !step.Submit? && !y.client.Free? && Queues(y, order)
    ensures Queues(Apply(v, y, step), order)
    ensures Queued(Apply(v, y, step).callers, order) == Queued(y.callers, order)
    ensures Apply(v, y, step).log == y.log
  {
    hide Inv, CallsOf, EncodeRequest, EncodeResponse, Handle, GetRequest, GetResponse, Open, Wanted, Queued;
    HolderIsCalling(v, s, y);
    var y' := Apply(v, y, step);
    assert WaitingIds(y') == WaitingIds(y);
    QueuedSame(y.callers, y'.callers, order);
  }

  lemma AcquireTakes<S>(v: Vfs<S>, y: Sys<S>, id: nat) returns (c: Caller)
    requires Enabled(y, Acquire(id))
    ensures !c.Waiting? && Apply(v, y, Acquire(id)).callers == y.callers[id := c]
    ensures Apply(v, y, Acquire(id)).log == y.log + [(id, y.callers[id].q)]
  {
    hide EncodeRequest;
    c := Apply(v, y, Acquire(id)).callers[id];
  }

  lemma RestOfQueue(callers: map<nat, Caller>, order: seq<nat>, c: Caller)
    requires order != [] && !c.Waiting? && order[0] !in order[1..]
    requires forall id :: id in order <==> id in callers && callers[id].Waiting?
    ensures
      var after := callers[order[0] := c];
      && (forall id :: id in order[1..] <==> id in after && after[id].Waiting?)
      && Queued(callers, order) == [(order[0], callers[order[0]].q)] + Queued(after, order[1..])
  {
    assert order == [order[0]] + order[1..];
    assert forall id <- order[1..] :: id in order;
    QueuedSame(callers, callers[order[0] := c], order[1..]);
  }

  /** Taking the lock moves the head of the queue to the end of the log. */
  lemma QueueMoves<S>(v: Vfs<S>, y: Sys<S>, order: seq<nat>)
    requires y.client.Free? && order != [] && Queues(y, order)
    ensures Enabled(y, Acquire(order[0]))
    ensures Queues(Apply(v, y, Acquire(order[0])), order[1..])
    ensures
      var y' := Apply(v, y, Acquire(order[0]));
      y'.log + Queued(y'.callers, order[1..]) == y.log + Queued(y.callers, order)
  {
    hide Apply, Queued;
    assert order[0] in order && order[0] !in order[1..];
    var c := AcquireTakes(v, y, order[0]);
    RestOfQueue(y.callers, order, c);
  }

  /** From any point of any run the calls already made can all be brought to an end, in
      any order in which they keep to the limit, and (with `StepsApproachCompletion`)
      will be, whoever moves when. */
  lemma EveryCallCompletes<S>(v: Vfs<S>, s: S, y: Sys<S>, order: seq<nat>) returns (steps: seq<Step>)
    requires Inv(v, s, y) && y.cap >= 1 && Queues(y, order) && Fits(v, s, y.log + Queued(y.callers, order))
    ensures Runs(v, y, steps)
    ensures forall step <- steps :: !step.Submit?
    ensures Final(v, y, steps).log == y.log + Queued(y.callers, order)
    ensures y.callers.Keys <= Final(v, y, steps).callers.Keys
    ensures forall id <- Final(v, y, steps).callers :: Final(v, y, steps).callers[id].Done?
    decreases |WaitingIds(y)|, Stage(y), Backlog(y)
  {
    hide Inv, Fits, CallFits, Enabled, Apply, Stage, Backlog, Queued;
    FitsPrefix(v, s, y.log, y.log + Queued(y.callers, order));
    if y.client.Free? && order == [] {
      steps := [];
      NobodyWaits(v, s, y);
    } else {
      var step, later := Acquire(0), order;
      if y.client.Free? {
        QueueMoves(v, y, order);
        step, later := Acquire(order[0]), order[1..];
      } else {
        HolderIsCalling(v, s, y);
        step := NeverStuck(v, s, y, y.client.id);
        QueueStays(v, s, y, step, order);
      }
      var y' := Apply(v, y, step);
      StepKeepsInv(v, s, y, step);
      StepsApproachCompletion(v, s, y, step);
      StepGrows(v, y, step);
      var more := EveryCallCompletes(v, s, y', later);
      steps := [step] + more;
      assert steps[1..] == more;
    }
  }

  lemma NobodyWaits<S>(v: Vfs<S>, s: S, y: Sys<S>)
    requires Inv(v, s, y) && y.client.Free? && Queues(y, [])
    ensures Queued(y.callers, []) == []
    ensures forall id <- y.callers :: y.callers[id].Done?
  {
    hide OnTheWire, OutcomeAt;
    forall id <- y.callers
      ensures y.callers[id].Done?
    {
      assert id !in WaitingIds(y);
      Settled(v, s, y, id);
    }
  }
}
