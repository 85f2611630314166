/** What the 64 MiB limit of the reader costs: the refinement of direct calls holds
    exactly as long as every call keeps to it, and past it an answer can reach the
    wrong caller. */
module RpcLimits {
  import opened Prelude
  import opened Utf8
  import opened VfsCore
  import opened Proto
  import opened Wire
  import opened Frame
  import opened Server
  import opened RpcSystem

  // ------------------------------------------------ a call that does not fit

  /** No part of a frame over the limit is ever taken for a whole one. */
  lemma OversizeNeverFramed(buf: seq<byte>, more: seq<byte>, payload: seq<byte>)
    requires LIMIT < |payload| < TWO_32 && buf + more == Seal(payload).value
    ensures !Open(buf).Framed?
  {
    BigEndianRoundTrip(|payload|);
    assert |buf| >= 4 ==> buf[..4] == (buf + more)[..4] == BigEndian(|payload|);
  }

  /** The server gives up on this call: it will not read the request, or cannot frame
      the answer. */
  predicate Fatal<S>(v: Vfs<S>, s: S, q: Request) {
    |PutRequest(q)| > LIMIT || EncodeResponse(Handle(v, s, q).1).None?
  }

  /** The call in progress is beyond the limit, and on its way to failing: its request
      is still coming, its answer is over the limit, or the server has given up. */
  ghost predicate Doomed<S>(v: Vfs<S>, s: S, y: Sys<S>) {
    && |y.log| > 0 && Held(y) && !y.client.Free? && y.client.id == y.log[|y.log| - 1].0
    && var (at, q) := (After(v, s, y.log[..|y.log| - 1]), y.log[|y.log| - 1].1);
    && !CallFits(v, at, q)
    && match y.client {
      case Sending(_, p) => p != [] && (Asking(v, s, y, p) || (GivenUp(y) && Fatal(v, at, q)))
      case Receiving(_, buf) =>
        (buf == [] && (Asking(v, s, y, []) || (GivenUp(y) && Fatal(v, at, q)))) ||
        (Answering(v, s, y, buf) && !Fatal(v, at, q) &&
         |PutResponse(OutcomeAt(v, s, y.log, |y.log| - 1).response)| > LIMIT)
    }
  }

  predicate GivenUp<S>(y: Sys<S>) { y.server.Stopped? && y.down == [] }

  /** Logged call `k` has failed, and the server has stopped if it had to give up. */
  predicate Failed<S>(v: Vfs<S>, s: S, log: seq<(nat, Request)>, k: nat, y: Sys<S>)
    requires k < |log|
  {
    && log[k].0 in y.callers && y.callers[log[k].0] == Done(StreamFailed)
    && (Fatal(v, After(v, s, log[..k]), log[k].1) ==> y.server.Stopped?)
  }

  lemma DoomedMoves<S>(v: Vfs<S>, s: S, y: Sys<S>, step: Step)
    requires Doomed(v, s, y) && Enabled(y, step)
    requires step.Submit? || step.ClientSend? || step.ServerReceive? || step.ServerSend? || step.ClientReceive?
    ensures Doomed(v, s, Apply(v, y, step))
  {
    hide Fatal, OutcomeAt, After, CallsOf, CallFits, EncodeRequest, EncodeResponse, PutResponse, Wanted;
    match step
    case Submit(_, _) =>
    case ClientSend(n) => if y.server.Reading? { PieceMoves(y.server.buf, y.up, y.client.pending, n); }
    case ServerReceive(n) => PieceMoves([], y.server.buf, y.up, n);
    case ServerSend(n) => PieceMoves(y.client.buf, y.down, y.server.pending, n);
    case ClientReceive(n) => PieceMoves([], y.client.buf, y.down, n);
  }

  /** The server meets the request whole only when the answer is what does not fit. */
  lemma DoomedRequest<S>(v: Vfs<S>, s: S, y: Sys<S>)
    requires Doomed(v, s, y) && Enabled(y, ServerHandle)
    ensures y.client.Receiving? && y.client.buf == [] && y.up == [] && Asking(v, s, y, [])
    ensures |PutRequest(y.log[|y.log| - 1].1)| <= LIMIT
    ensures GetRequest(Open(y.server.buf).payload) == Good(y.log[|y.log| - 1].1, [])
  {
    hide GetRequest, PutRequest, PutResponse, Handle, Open, OutcomeAt, After, CallsOf, CallFits;
    var q := y.log[|y.log| - 1].1;
    assert Open([]) == Short by { OpenPartial([], 0); }
    var unsent := if y.client.Sending? then y.client.pending else [];
    assert Asking(v, s, y, unsent);
    assert y.server.buf + (y.up + unsent) == y.server.buf + y.up + unsent;
    if |PutRequest(q)| > LIMIT {
      OversizeNeverFramed(y.server.buf, y.up + unsent, PutRequest(q));
    }
    FrameProgress(y.server.buf, y.up + unsent, PutRequest(q));
    assert |y.up + unsent| == 0;
    RequestRoundTrip(q, []);
    assert PutRequest(q) + [] == PutRequest(q);
  }

  lemma DoomedHandle<S>(v: Vfs<S>, s: S, y: Sys<S>)
    requires Doomed(v, s, y) && Enabled(y, ServerHandle)
    ensures Doomed(v, s, Apply(v, y, ServerHandle))
  {
    hide GetRequest, EncodeRequest, PutRequest, PutResponse, Handle, Open;
    DoomedRequest(v, s, y);
    var r := Handle(v, y.vfs, y.log[|y.log| - 1].1).1;
    assert EncodeResponse(r).Some? ==> [] + [] + EncodeResponse(r).value == EncodeResponse(r).value;
  }

  /** The server refuses only a request: an answer cannot be on its way then. */
  lemma DoomedReject<S>(v: Vfs<S>, s: S, y: Sys<S>)
    requires Doomed(v, s, y) && Enabled(y, ServerReject)
    ensures Doomed(v, s, Apply(v, y, ServerReject))
  {
    hide PutRequest, PutResponse, Open, OutcomeAt, After, CallsOf, CallFits, EncodeResponse;
    assert Open([]) == Short by { OpenPartial([], 0); }
    var q := y.log[|y.log| - 1].1;
    var unsent := if y.client.Sending? then y.client.pending else [];
    assert Asking(v, s, y, unsent);
    assert y.server.buf + (y.up + unsent) == y.server.buf + y.up + unsent;
    if |PutRequest(q)| <= LIMIT {
      FrameProgress(y.server.buf, y.up + unsent, PutRequest(q));
    }
  }

  lemma DoomedClientBuffer<S>(v: Vfs<S>, s: S, y: Sys<S>)
    requires Doomed(v, s, y) && y.client.Receiving?
    ensures !Open(y.client.buf).Framed?
  {
    hide Fatal, OutcomeAt, CallFits, After, CallsOf, PutResponse, EncodeRequest, Open;
    var buf := y.client.buf;
    assert Open([]) == Short by { OpenPartial([], 0); }
    if Answering(v, s, y, buf) && buf != [] {
      var more := if y.server.Writing? then y.server.pending else [];
      assert buf + (y.down + more) == buf + y.down + more;
      OversizeNeverFramed(buf, y.down + more, PutResponse(OutcomeAt(v, s, y.log, |y.log| - 1).response));
    }
  }

  lemma DoomedStep<S>(v: Vfs<S>, s: S, y: Sys<S>, step: Step)
    requires Doomed(v, s, y) && Enabled(y, step)
    ensures
      var y' := Apply(v, y, step);
      && Held(y') && y'.log == y.log
      && (Doomed(v, s, y') || Failed(v, s, y.log, |y.log| - 1, y'))
  {
    hide Fatal, Handled, OutcomeAt, After, CallsOf, CallFits, EncodeRequest, EncodeResponse, Open, Wanted;
    StepKeepsOutcomes(v, y, step);
    StepGrows(v, y, step);
    match step
    case Acquire(_) =>
    case ServerHandle => DoomedHandle(v, s, y);
    case ServerReject => DoomedReject(v, s, y);
    case ClientFinish => DoomedClientBuffer(v, s, y);
    case ClientReject => OpenPartial([], 0);
    case ClientEof =>
    case ClientHangup =>
    case _ => DoomedMoves(v, s, y, step);
  }

  lemma {:induction false} DoomedRun<S>(v: Vfs<S>, s: S, y: Sys<S>, steps: seq<Step>)
    requires Doomed(v, s, y) && Runs(v, y, steps)
    ensures
      var y' := Final(v, y, steps);
      && y.client.id in y'.callers
      && (y'.callers[y.client.id].Calling? || Failed(v, s, y.log, |y.log| - 1, y'))
    decreases |steps|
  {
    hide Enabled, Apply, Fatal;
    if steps != [] {
      var y' := Apply(v, y, steps[0]);
      DoomedStep(v, s, y, steps[0]);
      if Doomed(v, s, y') {
        DoomedRun(v, s, y', steps[1..]);
      } else {
        RunsGrow(v, y', steps[1..]);
        if y'.server.Stopped? {
          StoppedForGood(v, y', steps[1..]);
        }
      }
    }
  }

  /** A server that has given up is never heard of again, and the filesystem is not
      called again. */
  lemma {:induction false} StoppedForGood<S>(v: Vfs<S>, y: Sys<S>, steps: seq<Step>)
    requires y.server.Stopped? && Runs(v, y, steps)
    ensures
      var y' := Final(v, y, steps);
      y'.server.Stopped? && y'.vfs == y.vfs && y'.calls == y.calls
    decreases |steps|
  {
    hide EncodeRequest, GetResponse, Open, Wanted;
    if steps != [] {
      StoppedForGood(v, Apply(v, y, steps[0]), steps[1..]);
    }
  }

  /** The first `k` logged calls are over, with the outcomes of direct calls. */
  ghost predicate AnsweredUpTo<S>(v: Vfs<S>, s: S, y: Sys<S>, k: nat) {
    k <= |y.log| &&
    forall j :: 0 <= j < k ==> y.log[j].0 in y.callers && y.callers[y.log[j].0] == Done(OutcomeAt(v, s, y.log, j))
  }

  /** Whoever takes the lock finds all earlier calls answered, and so they stay. */
  lemma EarlierAnswered<S>(v: Vfs<S>, s: S, y: Sys<S>, steps: seq<Step>)
    requires Inv(v, s, y) && Held(y) && y.client.Free? && Runs(v, y, steps)
    ensures AnsweredUpTo(v, s, Final(v, y, steps), |y.log|)
  {
    hide Held, OnTheWire, After, Runs, Final, OutcomeAt;
    RunsGrow(v, y, steps);
    var y' := Final(v, y, steps);
    forall j | 0 <= j < |y.log|
      ensures y'.log[j].0 in y'.callers && y'.callers[y'.log[j].0] == Done(OutcomeAt(v, s, y'.log, j))
    {
      assert Placed(v, s, y, j);
      OutcomeStable(v, s, y.log, y'.log, j);
    }
  }

  /** The first call beyond the limit fails, all earlier ones having been answered; if
      its request is over the limit, or its answer has no frame, the server is then gone
      for all later callers too. */
  lemma {:induction false} FirstMisfit<S>(v: Vfs<S>, s: S, y: Sys<S>, steps: seq<Step>) returns (k: nat)
    requires Inv(v, s, y) && Fits(v, s, y.log) && Held(y)
    requires Runs(v, y, steps) && !Fits(v, s, Final(v, y, steps).log)
    ensures
      var y' := Final(v, y, steps);
      && k < |y'.log| && !CallFits(v, After(v, s, y'.log[..k]), y'.log[k].1)
      && Fits(v, s, y'.log[..k]) && AnsweredUpTo(v, s, y', k)
      && y'.log[k].0 in y'.callers
      && (y'.callers[y'.log[k].0].Calling? || Failed(v, s, y'.log, k, y'))
    decreases |steps|
  {
    hide Inv, Fits, CallFits, After, Enabled, Apply, Doomed, Held, Fatal, AnsweredUpTo;
    var y' := Apply(v, y, steps[0]);
    StepGrows(v, y, steps[0]);
    StepKeepsOutcomes(v, y, steps[0]);
    if Fits(v, s, y'.log) {
      StepKeepsInv(v, s, y, steps[0]);
      k := FirstMisfit(v, s, y', steps[1..]);
    } else {
      MisfitStarts(v, s, y, steps[0], y');
      DoomedRun(v, s, y', steps[1..]);
      RunsGrow(v, y', steps[1..]);
      k := |y.log|;
      EarlierAnswered(v, s, y, steps);
      assert Final(v, y, steps).log[..k] == y'.log[..k] == y.log;
    }
  }

  lemma MisfitStarts<S>(v: Vfs<S>, s: S, y: Sys<S>, step: Step, y': Sys<S>)
    requires Inv(v, s, y) && Fits(v, s, y.log) && Enabled(y, step) && y' == Apply(v, y, step)
    requires !Fits(v, s, y'.log)
    ensures Doomed(v, s, y') && !y'.client.Free? && y.client.Free?
    ensures |y'.log| == |y.log| + 1 && y'.log[..|y.log|] == y.log && y'.log[|y.log|].0 == y'.client.id
    ensures !CallFits(v, After(v, s, y.log), y'.log[|y.log|].1)
  {
    hide Apply, Enabled, Inv, Fits, CallFits, After, Doomed;
    StepGrows(v, y, step);
    var Acquire(id) := step;
    AcquireKeepsInv(v, s, y, id);
    AcquireLogs(v, y, id);
    LastMisfits(v, s, y.log, y'.log);
    MisfitIsDoomed(v, s, y, id, y');
  }

  lemma AcquireLogs<S>(v: Vfs<S>, y: Sys<S>, id: nat)
    requires Enabled(y, Acquire(id))
    ensures
      var y' := Apply(v, y, Acquire(id));
      && y.client.Free? && y'.log == y.log + [(id, y.callers[id].q)]
      && (EncodeRequest(y.callers[id].q).Some? ==>
            y'.client.Sending? && y'.client.id == id && y'.callers == y.callers[id := Calling(y.callers[id].q)])
  {
    hide EncodeRequest;
  }

  lemma LastMisfits<S>(v: Vfs<S>, s: S, log: seq<(nat, Request)>, longer: seq<(nat, Request)>)
    requires Fits(v, s, log) && !Fits(v, s, longer) && |longer| == |log| + 1 && log <= longer
    ensures longer[..|log|] == log && !CallFits(v, After(v, s, log), longer[|log|].1)
  {
    hide CallFits, After;
    forall k | 0 <= k < |log|
      ensures CallFits(v, After(v, s, longer[..k]), longer[k].1)
    {
      assert longer[..k] == log[..k] && longer[k] == log[k];
    }
  }

  lemma MisfitIsDoomed<S>(v: Vfs<S>, s: S, y: Sys<S>, id: nat, y': Sys<S>)
    requires Enabled(y, Acquire(id)) && y' == Apply(v, y, Acquire(id)) && Inv(v, s, y')
    requires y'.log[..|y.log|] == y.log && |y'.log| == |y.log| + 1
    requires !CallFits(v, After(v, s, y.log), y'.log[|y.log|].1)
    ensures Doomed(v, s, y') && !y'.client.Free? && y'.log[|y.log|].0 == y'.client.id
  {
    AcquireLogs(v, y, id);
    NotEncodedFits(v, After(v, s, y.log), y'.log[|y.log|].1);
    hide Apply, Ledger, Asking, Answering, CallFits, After, Fatal, EncodeRequest;
  }

  /** A call that cannot be encoded is within the limit. */
  lemma NotEncodedFits<S>(v: Vfs<S>, s: S, q: Request)
    ensures !CallFits(v, s, q) ==> EncodeRequest(q).Some?
  {
  }

  lemma MisfitWouldBeAnswered<S>(v: Vfs<S>, s: S, log: seq<(nat, Request)>, k: nat)
    requires k < |log| && !CallFits(v, After(v, s, log[..k]), log[k].1)
    ensures OutcomeAt(v, s, log, k).Replied?
  {
  }

  /** Every logged call is over. */
  predicate Finished<S>(y: Sys<S>) {
    forall k :: 0 <= k < |y.log| ==> y.log[k].0 in y.callers && y.callers[y.log[k].0].Done?
  }

  /** The exact condition: once every logged call is over, each caller holds the
      outcome of its own direct call if and only if every call kept to the limit. */
  lemma OutcomesDirectIff<S>(v: Vfs<S>, s: S, cap: nat, steps: seq<Step>)
    requires Runs(v, Init(s, cap), steps)
    requires Finished(Final(v, Init(s, cap), steps))
    ensures
      var y := Final(v, Init(s, cap), steps);
      (forall k :: 0 <= k < |y.log| ==> y.callers[y.log[k].0] == Done(OutcomeAt(v, s, y.log, k)))
      <==> Fits(v, s, y.log)
  {
    hide OnTheWire, Fits, CallFits, After, OutcomeAt, Runs, Final, Fatal;
    var y := Final(v, Init(s, cap), steps);
    InitInv(v, s, cap);
    if Fits(v, s, y.log) {
      RunKeepsInv(v, s, Init(s, cap), steps);
      forall k | 0 <= k < |y.log|
        ensures y.callers[y.log[k].0] == Done(OutcomeAt(v, s, y.log, k))
      {
        assert Placed(v, s, y, k);
      }
    } else {
      var k := FirstMisfit(v, s, Init(s, cap), steps);
      MisfitWouldBeAnswered(v, s, y.log, k);
    }
  }

  // ------------------------------------------------ what the next caller then gets

  /** Wherever it happens: a client that refuses an answer for its size gives up the
      lock with the whole payload still to come, so the stream is out of step. */
  lemma RefusedAnswerDesynchronizes<S>(v: Vfs<S>, s: S, y: Sys<S>)
    requires |y.log| > 0 && y.client.Receiving? && Answering(v, s, y, y.client.buf)
    requires |PutResponse(OutcomeAt(v, s, y.log, |y.log| - 1).response)| > LIMIT && |y.client.buf| == 4
    ensures Enabled(y, ClientReject)
    ensures
      var y' := Apply(v, y, ClientReject);
      && y'.client.Free? && y'.callers[y.client.id] == Done(StreamFailed)
      && y'.down + (if y'.server.Writing? then y'.server.pending else [])
         == PutResponse(OutcomeAt(v, s, y.log, |y.log| - 1).response)
      && !OnTheWire(v, s, y')
  {
    hide OutcomeAt, After, CallsOf, PutResponse;
    var payload := PutResponse(OutcomeAt(v, s, y.log, |y.log| - 1).response);
    var more := y.down + (if y.server.Writing? then y.server.pending else []);
    assert y.client.buf + more == BigEndian(|payload|) + payload;
    assert y.client.buf == (y.client.buf + more)[..4] && more == (y.client.buf + more)[4..];
    BigEndianRoundTrip(|payload|);
    assert y.client.buf[..4] == y.client.buf;
  }

  lemma {:induction false} RunsCompose<S>(v: Vfs<S>, y: Sys<S>, a: seq<Step>, b: seq<Step>)
    requires Runs(v, y, a) && Runs(v, Final(v, y, a), b)
    ensures Runs(v, y, a + b) && Final(v, y, a + b) == Final(v, Final(v, y, a), b)
    decreases |a|
  {
    hide Enabled, Apply;
    if a == [] {
      assert a + b == b;
    } else {
      RunsCompose(v, Apply(v, y, a[0]), a[1..], b);
      assert (a + b)[1..] == a[1..] + b;
    }
  }

  lemma OneStep<S>(v: Vfs<S>, y: Sys<S>, step: Step)
    requires Enabled(y, step)
    ensures Runs(v, y, [step]) && Final(v, y, [step]) == Apply(v, y, step)
  {
    hide Enabled, Apply;
    assert [step][1..] == [];
  }

  /** A free client takes a new call and hands its whole frame to the transport. */
  lemma CallIsSent<S>(v: Vfs<S>, y: Sys<S>, id: nat, q: Request) returns (steps: seq<Step>)
    requires y.client.Free? && y.up == [] && id !in y.callers
    requires EncodeRequest(q).Some? && |EncodeRequest(q).value| <= y.cap
    ensures Runs(v, y, steps)
    ensures Final(v, y, steps) == y.(
      callers := y.callers[id := Calling(q)], log := y.log + [(id, q)],
      client := Receiving(id, []), up := EncodeRequest(q).value)
  {
    var f := EncodeRequest(q).value;
    hide EncodeRequest, Runs, Final;
    var y1 := Apply(v, y, Submit(id, q));
    var y2 := Apply(v, y1, Acquire(id));
    OneStep(v, y, Submit(id, q));
    OneStep(v, y1, Acquire(id));
    RunsCompose(v, y, [Submit(id, q)], [Acquire(id)]);
    OneStep(v, y2, ClientSend(|f|));
    assert y.callers[id := Waiting(q)][id := Calling(q)] == y.callers[id := Calling(q)];
    assert [] + f[..|f|] == f;
    steps := [Submit(id, q)] + [Acquire(id)] + [ClientSend(|f|)];
    RunsCompose(v, y, [Submit(id, q)] + [Acquire(id)], [ClientSend(|f|)]);
  }

  /** A frame is taken off the stream header first, as `read_frame` does. */
  lemma FrameHeader(payload: seq<byte>, rest: seq<byte>)
    requires |payload| < TWO_32
    ensures
      var bs := Seal(payload).value + rest;
      && bs[..4] == BigEndian(|payload|) && FromBigEndian(bs[..4]) == |payload|
      && Wanted(bs[..4]) == (if |payload| <= LIMIT then |payload| else 0)
      && (|payload| > LIMIT ==> Open(bs[..4]).TooLarge?)
      && bs[4..] == payload + rest
  {
    BigEndianRoundTrip(|payload|);
    var bs := Seal(payload).value + rest;
    assert bs[..4] == BigEndian(|payload|);
    assert bs[..4][..4] == bs[..4];
  }

  lemma ServerTakesFrame<S>(v: Vfs<S>, y: Sys<S>, payload: seq<byte>) returns (steps: seq<Step>)
    requires 0 < |payload| <= LIMIT && y.server == Reading([]) && y.up == Seal(payload).value
    ensures Runs(v, y, steps)
    ensures Final(v, y, steps) == Handled(v, y.(server := Reading(y.up), up := []), payload)
  {
    hide Open, Handled, Runs, Final, Seal, BigEndian, FromBigEndian;
    FrameHeader(payload, []);
    OpenSealed(payload, []);
    var f, n := y.up, |payload|;
    assert f + [] == f && payload + [] == payload && [] + f[..4] == f[..4];
    var y1 := Apply(v, y, ServerReceive(4));
    OneStep(v, y, ServerReceive(4));
    var y2 := Apply(v, y1, ServerReceive(n));
    assert y1.server.buf == f[..4] && y1.up == payload;
    OneStep(v, y1, ServerReceive(n));
    RunsCompose(v, y, [ServerReceive(4)], [ServerReceive(n)]);
    assert f[..4] + f[4..] == f;
    assert y2 == y.(server := Reading(f), up := []);
    OneStep(v, y2, ServerHandle);
    steps := [ServerReceive(4)] + [ServerReceive(n)] + [ServerHandle];
    RunsCompose(v, y, [ServerReceive(4)] + [ServerReceive(n)], [ServerHandle]);
  }

  lemma ClientTakesFrame<S>(v: Vfs<S>, y: Sys<S>, payload: seq<byte>, rest: seq<byte>) returns (steps: seq<Step>)
    requires 0 < |payload| <= LIMIT && y.client.Receiving? && y.client.buf == []
    requires y.down == Seal(payload).value + rest && GetResponse(payload).Good?
    ensures Runs(v, y, steps)
    ensures Final(v, y, steps) == Release(y.(down := rest), y.client.id, Replied(GetResponse(payload).value))
  {
    hide Open, Runs, Final, Seal, BigEndian, FromBigEndian, GetResponse;
    FrameHeader(payload, rest);
    OpenSealed(payload, []);
    var f, n := Seal(payload).value, |payload|;
    assert f + [] == f && (f + rest)[..4] == f[..4] && f[..4] + payload == f by {
      assert (f + rest)[4..][..n] == f[4..];
    }
    var y1 := Apply(v, y, ClientReceive(4));
    OneStep(v, y, ClientReceive(4));
    assert y1.client.buf == f[..4] && y1.down == payload + rest;
    var y2 := Apply(v, y1, ClientReceive(n));
    OneStep(v, y1, ClientReceive(n));
    RunsCompose(v, y, [ClientReceive(4)], [ClientReceive(n)]);
    assert y2 == y.(client := Receiving(y.client.id, f), down := rest);
    OneStep(v, y2, ClientFinish);
    steps := [ClientReceive(4)] + [ClientReceive(n)] + [ClientFinish];
    RunsCompose(v, y, [ClientReceive(4)] + [ClientReceive(n)], [ClientFinish]);
  }

  /** An answer over the limit is refused with its whole payload still to come. */
  lemma AnswerIsRefused<S>(v: Vfs<S>, y: Sys<S>, payload: seq<byte>) returns (steps: seq<Step>)
    requires LIMIT < |payload| < TWO_32 && y.client.Receiving? && y.client.buf == [] && y.down == []
    requires y.server == Writing(Seal(payload).value) && 4 + |payload| <= y.cap
    ensures Runs(v, y, steps)
    ensures Final(v, y, steps) == Release(y.(server := Reading([]), down := payload), y.client.id, StreamFailed)
  {
    hide Open, Runs, Final, Seal, BigEndian, FromBigEndian;
    FrameHeader(payload, []);
    var f := Seal(payload).value;
    assert f + [] == f && payload + [] == payload && [] + f[..|f|] == f;
    var y1 := Apply(v, y, ServerSend(|f|));
    OneStep(v, y, ServerSend(|f|));
    assert y1 == y.(server := Reading([]), down := f);
    var y2 := Apply(v, y1, ClientReceive(4));
    OneStep(v, y1, ClientReceive(4));
    RunsCompose(v, y, [ServerSend(|f|)], [ClientReceive(4)]);
    assert [] + f[..4] == f[..4];
    assert y2 == y1.(client := Receiving(y.client.id, f[..4]), down := payload);
    OneStep(v, y2, ClientReject);
    steps := [ServerSend(|f|)] + [ClientReceive(4)] + [ClientReject];
    RunsCompose(v, y, [ServerSend(|f|)] + [ClientReceive(4)], [ClientReject]);
  }

  /** From the start: a call whose answer is over the limit fails, gives up the lock,
      and leaves the answer on the stream for whoever calls next. */
  lemma RefusedAnswerStays<S>(v: Vfs<S>, s: S, cap: nat, id: nat, q: Request) returns (steps: seq<Step>)
    requires EncodeRequest(q).Some? && |PutRequest(q)| <= LIMIT && 4 + |PutRequest(q)| <= cap
    requires LIMIT < |PutResponse(Handle(v, s, q).1)| < TWO_32 && 4 + |PutResponse(Handle(v, s, q).1)| <= cap
    ensures Runs(v, Init(s, cap), steps)
    ensures
      Final(v, Init(s, cap), steps) ==
      Sys(cap, map[id := Done(StreamFailed)], Free, [], Reading([]), PutResponse(Handle(v, s, q).1),
          Handle(v, s, q).0, [q], [(id, q)])
  {
    hide Runs, Final, Handle, GetRequest, PutRequest, PutResponse, BigEndian;
    var y := Init(s, cap);
    var ask := CallIsSent(v, y, id, q);
    var y1 := Final(v, y, ask);
    assert |PutRequest(q)| > 0 by { RequestNotEmpty(q); }
    var take := ServerTakesFrame(v, y1, PutRequest(q));
    RunsCompose(v, y, ask, take);
    var y2 := Final(v, y1, take);
    RequestRoundTrip(q, []);
    assert PutRequest(q) + [] == PutRequest(q);
    var refuse := AnswerIsRefused(v, y2, PutResponse(Handle(v, s, q).1));
    steps := ask + take + refuse;
    RunsCompose(v, y, ask + take, refuse);
    assert map[id := Calling(q)][id := Done(StreamFailed)] == map[id := Done(StreamFailed)];
  }

  lemma RequestNotEmpty(q: Request)
    ensures PutRequest(q) != []
  {
  }

  /** When the answer left behind starts like a frame, the next caller takes that frame
      for the answer to its own request. */
  lemma NextCallerIsMisled<S>(v: Vfs<S>, s: S, cap: nat, q: Request, q': Request, p: seq<byte>, rest: seq<byte>)
    returns (steps: seq<Step>)
    requires EncodeRequest(q).Some? && |PutRequest(q)| <= LIMIT && 4 + |PutRequest(q)| <= cap
    requires LIMIT < |PutResponse(Handle(v, s, q).1)| < TWO_32 && 4 + |PutResponse(Handle(v, s, q).1)| <= cap
    requires 0 < |p| <= LIMIT && GetResponse(p).Good?
    requires PutResponse(Handle(v, s, q).1) == Seal(p).value + rest
    requires EncodeRequest(q').Some? && |EncodeRequest(q').value| <= cap
    ensures Runs(v, Init(s, cap), steps)
    ensures Final(v, Init(s, cap), steps).log == [(0, q), (1, q')]
    ensures Final(v, Init(s, cap), steps).callers ==
            map[0 := Done(StreamFailed), 1 := Done(Replied(GetResponse(p).value))]
  {
    hide Runs, Final, Handle, GetResponse, PutRequest, PutResponse, EncodeRequest;
    var first := RefusedAnswerStays(v, s, cap, 0, q);
    var y1 := Final(v, Init(s, cap), first);
    var ask := CallIsSent(v, y1, 1, q');
    var y2 := Final(v, y1, ask);
    var take := ClientTakesFrame(v, y2, p, rest);
    RunsCompose(v, y1, ask, take);
    RunsCompose(v, Init(s, cap), first, ask + take);
    steps := first + (ask + take);
  }

  function ZeroName(n: nat): (r: Str)
    ensures |r| == n
  {
    AsciiIsValid(seq(n, _ => 0));
    seq(n, _ => 0)
  }

  const SHORT_NAME: seq<byte> := [3, 0, 1, 65]

  /** Two files, one with a name as long as the limit. Reading gives NotFound. */
  function CrowdedDir(): seq<DirEntry> {
    AsciiIsValid(SHORT_NAME);
    [DirEntry(SHORT_NAME, FsKind.File), DirEntry(ZeroName(LIMIT), FsKind.File)]
  }

  function CrowdedFs(): Vfs<()> {
    Vfs(
      (_, _) => ((), Err(NotFound)),
      (_, _) => ((), Ok(CrowdedDir())),
      (_, _, _, _) => ((), Err(NotFound)),
      (_, _, _, _) => ((), Err(NotFound)),
      (_, _, _) => ((), Err(NotFound)),
      (_, _, _) => ((), Err(NotFound)),
      (_, _) => ((), Err(NotFound)),
      (_, _) => ((), Err(NotFound)),
      (_, _, _) => ((), Err(NotFound)),
      (_, _, _) => ((), Err(NotFound)))
  }

  lemma LimitVarint()
    ensures |PutVarint(LIMIT)| == 4
  {
    assert LIMIT / 128 / 128 / 128 == 32;
    assert |PutVarint(LIMIT / 128 / 128 / 128)| == 1;
    assert |PutVarint(LIMIT / 128 / 128)| == 2;
    assert |PutVarint(LIMIT / 128)| == 3;
  }

  lemma ShortEntry()
    requires ValidUtf8(SHORT_NAME)
    ensures PutEntry(DirEntry(SHORT_NAME, FsKind.File)) == [4, 3, 0, 1, 65, 0]
  {
    hide ValidUtf8;
    assert PutVarint(4) == [4] && PutVarint(0) == [0];
  }

  lemma SmallRead()
    ensures PutResponse(RRead(Ok([65]))) == [3, 0, 1, 65]
  {
    assert PutVarint(3) == [3] && PutVarint(0) == [0] && PutVarint(1) == [1];
  }

  lemma TwoEntries(e: DirEntry, e': DirEntry)
    ensures PutResponse(RList(Ok([e, e']))) == [2, 0, 2] + (PutEntry(e) + PutEntry(e'))
  {
    hide PutEntry;
    assert PutVarint(2) == [2] && PutVarint(0) == [0];
    assert [e, e'][1..] == [e'] && [e'][1..] == [];
    assert PutEntryRun([e']) == PutEntry(e') + [] == PutEntry(e');
    assert PutEntryRun([e, e']) == PutEntry(e) + PutEntry(e');
  }

  lemma LongEntry(e: DirEntry)
    requires |e.name| == LIMIT && e.kind == FsKind.File
    ensures |PutEntry(e)| == LIMIT + 5
  {
    LimitVarint();
    assert PutVarint(0) == [0];
    hide PutVarint;
  }

  /** What follows the listing's first four bytes begins like the answer to a read. */
  lemma CrowdedAnswer() returns (more: seq<byte>)
    ensures PutResponse(RList(Ok(CrowdedDir()))) == [2, 0, 2, 4] + (PutResponse(RRead(Ok([65]))) + more)
    ensures LIMIT < |more| < LIMIT + 10
  {
    hide ValidUtf8, ZeroName, PutResponse, PutVarint, PutEntryRun;
    var es := CrowdedDir();
    TwoEntries(es[0], es[1]);
    LongEntry(es[1]);
    AsciiIsValid(SHORT_NAME);
    ShortEntry();
    SmallRead();
    more := [0] + PutEntry(es[1]);
    hide PutEntry;
  }

  lemma SmallRequests()
    ensures EncodeRequest(List([47])).Some? && |PutRequest(List([47]))| <= 10
    ensures EncodeRequest(Read([47, 97], 0, 1)).Some? && |PutRequest(Read([47, 97], 0, 1))| <= 10
  {
    hide ValidUtf8;
    AsciiIsValid([47]);
    AsciiIsValid([47, 97]);
    assert PutVarint(0) == [0] && PutVarint(1) == [1] && PutVarint(2) == [2] && PutVarint(3) == [3];
  }

  /** A run in which a caller that asked to read a missing file is given, as data, a
      piece of the listing that was refused to another. */
  lemma WrongAnswer() returns (steps: seq<Step>)
    ensures Runs(CrowdedFs(), Init((), 2 * LIMIT), steps)
    ensures
      var y := Final(CrowdedFs(), Init((), 2 * LIMIT), steps);
      && y.log == [(0, List([47])), (1, Read([47, 97], 0, 1))]
      && y.callers == map[0 := Done(StreamFailed), 1 := Done(Replied(RRead(Ok([65]))))]
      && OutcomeAt(CrowdedFs(), (), y.log, 1) == Replied(RRead(Err(NotFound)))
  {
    hide ValidUtf8, CrowdedDir, Runs, Final, ZeroName, GetResponse, PutRequest, PutResponse, EncodeRequest;
    var q, q', v := List([47]), Read([47, 97], 0, 1), CrowdedFs();
    SmallRequests();
    SmallRead();
    var more := CrowdedAnswer();
    var p, rest := Misread(more);
    assert Handle(v, (), q).1 == RList(Ok(CrowdedDir()));
    assert |PutResponse(Handle(v, (), q).1)| == 8 + |more|;
    steps := NextCallerIsMisled(v, (), 2 * LIMIT, q, q', p, rest);
  }

  lemma Misread(more: seq<byte>) returns (p: seq<byte>, rest: seq<byte>)
    requires LIMIT < |more| < LIMIT + 10
    ensures 0 < |p| <= LIMIT
    ensures [2, 0, 2, 4] + (PutResponse(RRead(Ok([65]))) + more) == Seal(p).value + rest
    ensures GetResponse(p).Good? && GetResponse(p).value == RRead(Ok([65]))
  {
    hide PutResponse, GetResponse;
    SmallRead();
    var answer := PutResponse(RRead(Ok([65])));
    var n := 33554948;
    p := (answer + more)[..n];
    rest := (answer + more)[n..];
    assert p == answer + more[..n - |answer|];
    assert BigEndian(n) == [2, 0, 2, 4];
    assert p + rest == answer + more;
    assert Seal(p).value == [2, 0, 2, 4] + p;
    ResponseRoundTrip(RRead(Ok([65])), more[..n - |answer|]);
  }
}
