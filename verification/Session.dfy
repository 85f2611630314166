/** An agent whose calls go over the shared stream. In any run of the stream that
    carries its calls, it does what it would do on the filesystem itself. */
module Session {
  import opened Prelude
  import opened VfsCore
  import opened Agent
  import opened Client
  import opened Calls
  import opened TokimoFuse
  import Proto
  import RpcSystem
  import RpcLimits
  import Server

  // ------------------------------------------------ what a run of the stream delivered

  /** The logged requests, each with what its caller was given. */
  function Answers<S>(y: RpcSystem.Sys<S>): (tape: seq<(Proto.Request, RpcSystem.Outcome)>)
    requires RpcLimits.Finished(y)
    ensures |tape| == |y.log|
    ensures forall k :: 0 <= k < |tape| ==> tape[k] == (y.log[k].1, y.callers[y.log[k].0].outcome)
  {
    seq(|y.log|, k requires 0 <= k < |y.log| => (y.log[k].1, y.callers[y.log[k].0].outcome))
  }

  /** The answers still to be handed out; `inStep` until some call is not the next one. */
  datatype Tape = Tape(left: seq<(Proto.Request, RpcSystem.Outcome)>, inStep: bool)

  function Play(tape: Tape, q: Proto.Request): (Tape, RpcSystem.Outcome) {
    if tape.inStep && tape.left != [] && tape.left[0].0 == q then (Tape(tape.left[1..], true), tape.left[0].1)
    else (tape.(inStep := false), RpcSystem.StreamFailed)
  }

  function Player(): Caller<Tape> { (tape, q) => Play(tape, q) }

  /** The agent as it is when each of its calls ends as the run's next call did. */
  function OnStream<S>(y: RpcSystem.Sys<S>, ops: seq<Op>): Agent<Tape>
    requires RpcLimits.Finished(y)
  {
    After(Over(Player()), Agent(START, Tape(Answers(y), true)), ops)
  }

  function RepliesOnStream<S>(y: RpcSystem.Sys<S>, ops: seq<Op>): (rs: seq<Reply>)
    requires RpcLimits.Finished(y)
    ensures |rs| == |ops|
  {
    RepliesTo(Over(Player()), Agent(START, Tape(Answers(y), true)), ops)
  }

  /** Up to call `n` the answers are those of a stream in step; if there is a call `n`, it
      is the first beyond the limit, and it failed. */
  ghost predicate Faithful<S>(
    v: Vfs<S>, s: S, log: seq<(nat, Proto.Request)>, answers: seq<(Proto.Request, RpcSystem.Outcome)>, n: nat)
  {
    && n <= |log| == |answers|
    && (forall k :: 0 <= k < |log| ==> answers[k].0 == log[k].1)
    && (forall k :: 0 <= k < |log| && k <= n ==>
          answers[k].1 == Delivered(v, RpcSystem.After(v, s, log[..k]), log[k].1).1)
    && (forall k :: 0 <= k < n ==> RpcSystem.CallFits(v, RpcSystem.After(v, s, log[..k]), log[k].1))
    && (n < |log| ==> !RpcSystem.CallFits(v, RpcSystem.After(v, s, log[..n]), log[n].1))
  }

  lemma RunIsFaithful<S>(v: Vfs<S>, s: S, cap: nat, steps: seq<RpcSystem.Step>) returns (n: nat)
    requires RpcSystem.Runs(v, RpcSystem.Init(s, cap), steps)
    requires RpcLimits.Finished(RpcSystem.Final(v, RpcSystem.Init(s, cap), steps))
    ensures
      var y := RpcSystem.Final(v, RpcSystem.Init(s, cap), steps);
      && Faithful(v, s, y.log, Answers(y), n)
      && (n == |y.log| ==> RpcSystem.Fits(v, s, y.log) && y.vfs == RpcSystem.After(v, s, y.log))
  {
    hide RpcSystem.OnTheWire, RpcSystem.CallFits, RpcSystem.After, RpcSystem.Runs, RpcSystem.Final, Delivered;
    var init := RpcSystem.Init(s, cap);
    var y := RpcSystem.Final(v, init, steps);
    RpcSystem.InitInv(v, s, cap);
    if RpcSystem.Fits(v, s, y.log) {
      n := |y.log|;
      RpcLimits.OutcomesDirectIff(v, s, cap, steps);
      RpcSystem.RunKeepsInv(v, s, init, steps);
      QuietState(v, s, y);
    } else {
      n := RpcLimits.FirstMisfit(v, s, init, steps);
      assert forall k :: 0 <= k < n ==> y.log[..n][..k] == y.log[..k];
    }
    forall k | 0 <= k < |y.log| && k <= n
      ensures Answers(y)[k].1 == Delivered(v, RpcSystem.After(v, s, y.log[..k]), y.log[k].1).1
    {
      DeliveredIsDirect(v, RpcSystem.After(v, s, y.log[..k]), y.log[k].1);
    }
  }

  lemma QuietState<S>(v: Vfs<S>, s: S, y: RpcSystem.Sys<S>)
    requires RpcSystem.Inv(v, s, y) && RpcLimits.Finished(y)
    ensures y.client.Free? && y.vfs == RpcSystem.After(v, s, y.log)
  {
    hide RpcSystem.After, RpcSystem.Asking, RpcSystem.Answering;
    if !y.client.Free? { RpcSystem.HolderIsCalling(v, s, y); }
  }

  // ------------------------------------------------ one operation

  /** The filesystem before logged call `k`. */
  function Before<S>(v: Vfs<S>, s: S, log: seq<(nat, Proto.Request)>, k: nat): S
    requires k <= |log|
  {
    RpcSystem.After(v, s, log[..k])
  }

  function From(answers: seq<(Proto.Request, RpcSystem.Outcome)>, k: nat): Tape
    requires k <= |answers|
  {
    Tape(answers[k..], true)
  }

  lemma BeforeNext<S>(v: Vfs<S>, s: S, log: seq<(nat, Proto.Request)>, k: nat)
    requires k < |log| && RpcSystem.CallFits(v, Before(v, s, log, k), log[k].1)
    ensures Before(v, s, log, k + 1) == Delivered(v, Before(v, s, log, k), log[k].1).0
  {
    assert log[..k + 1][..k] == log[..k];
    DeliveredIsDirect(v, Before(v, s, log, k), log[k].1);
    hide Delivered, RpcSystem.CallFits, RpcSystem.Direct;
  }

  /** A call that is the run's next one has the outcome the client promises. */
  lemma CallPlays<S>(
    v: Vfs<S>, s: S, log: seq<(nat, Proto.Request)>, answers: seq<(Proto.Request, RpcSystem.Outcome)>,
    n: nat, k: nat, q: Proto.Request)
    requires Faithful(v, s, log, answers, n) && k <= n
    ensures Play(From(answers, k), q).0.inStep <==> k < |log| && log[k].1 == q
    ensures k < |log| && log[k].1 == q ==>
      && Play(From(answers, k), q) == (From(answers, k + 1), Delivered(v, Before(v, s, log, k), q).1)
      && (RpcSystem.CallFits(v, Before(v, s, log, k), q) ==>
            k < n && Before(v, s, log, k + 1) == Delivered(v, Before(v, s, log, k), q).0)
  {
    hide Delivered, RpcSystem.CallFits, RpcSystem.After;
    if k < |log| {
      assert answers[k..][0] == answers[k] && answers[k..][1..] == answers[k + 1..];
      if RpcSystem.CallFits(v, Before(v, s, log, k), log[k].1) {
        BeforeNext(v, s, log, k);
      }
    }
  }

  lemma StaysOut(tape: Tape, q: Proto.Request)
    ensures Play(tape, q).0.inStep ==> tape.inStep
  {
  }

  /** After a call that failed there is no second. */
  lemma SecondNeedsFirst<S>(v: Vfs<S>, s: S, q: Proto.Request, t: Tables, op: Op)
    ensures SecondCall(t, op, Delivered(v, s, q).1).Some? ==> RpcSystem.CallFits(v, s, q)
  {
    DeliveredIsDirect(v, s, q);
    hide Delivered, RpcSystem.CallFits, PathFor;
  }

  /** The calls of one operation are the logged calls from `k` to `k'`. */
  ghost predicate Logged(log: seq<(nat, Proto.Request)>, k: nat, k': nat, calls: seq<Proto.Request>) {
    k <= k' <= |log| && k' - k == |calls| && forall i :: 0 <= i < |calls| ==> log[k + i].1 == calls[i]
  }

  lemma Lengths<S>(
    v: Vfs<S>, s: S, log: seq<(nat, Proto.Request)>, answers: seq<(Proto.Request, RpcSystem.Outcome)>, n: nat)
    requires Faithful(v, s, log, answers, n)
    ensures n <= |log| == |answers|
  {
  }

  /** Where an operation that starts at call `k` ends. */
  function Reached(answers: seq<(Proto.Request, RpcSystem.Outcome)>, k: nat, t: Tables, op: Op): nat
    requires k <= |answers|
  {
    k + |CallsOf(Player(), From(answers, k), t, op)|
  }

  /** An operation that stays in step makes the next calls of the run, with the outcomes
      the client promises. */
  lemma OpPlays<S>(
    v: Vfs<S>, s: S, log: seq<(nat, Proto.Request)>, answers: seq<(Proto.Request, RpcSystem.Outcome)>,
    n: nat, k: nat, t: Tables, op: Op)
    requires Faithful(v, s, log, answers, n) && k <= n <= |log| == |answers|
    requires AfterCalls(Player(), From(answers, k), t, op).inStep
    ensures
      var k' := Reached(answers, k, t, op);
      k' <= |log| && AfterCalls(Player(), From(answers, k), t, op) == From(answers, k')
    ensures SameOutcomes(Player(), From(answers, k), Stream(v), Before(v, s, log, k), t, op)
  {
    hide Delivered, RpcSystem.CallFits, Before, From, Play, FirstCall, AsTruncate, Faithful;
    var q := FirstCall(t, op);
    if q.Some? {
      CallPlays(v, s, log, answers, n, k, q.value);
      var q' := SecondCall(t, op, Play(From(answers, k), q.value).1);
      if q'.Some? {
        StaysOut(Play(From(answers, k), q.value).0, q'.value);
        SecondNeedsFirst(v, Before(v, s, log, k), q.value, t, op);
        CallPlays(v, s, log, answers, n, k + 1, q'.value);
      }
    }
  }

  /** If it also keeps to the limit, the filesystem has gone along. */
  lemma OpKeepsUp<S>(
    v: Vfs<S>, s: S, log: seq<(nat, Proto.Request)>, answers: seq<(Proto.Request, RpcSystem.Outcome)>,
    n: nat, k: nat, t: Tables, op: Op)
    requires Faithful(v, s, log, answers, n) && k <= n <= |log| == |answers|
    requires AfterCalls(Player(), From(answers, k), t, op).inStep
    requires WithinLimit(v, Agent(t, Before(v, s, log, k)), op)
    ensures
      var k' := Reached(answers, k, t, op);
      && k' <= n && AfterCalls(Stream(v), Before(v, s, log, k), t, op) == Before(v, s, log, k')
      && Logged(log, k, k', CallsOf(Stream(v), Before(v, s, log, k), t, op))
  {
    hide Delivered, RpcSystem.CallFits, Before, From, Play, FirstCall, AsTruncate, Faithful;
    var q := FirstCall(t, op);
    if q.Some? {
      CallPlays(v, s, log, answers, n, k, q.value);
      var q' := SecondCall(t, op, Play(From(answers, k), q.value).1);
      if q'.Some? {
        StaysOut(Play(From(answers, k), q.value).0, q'.value);
        SecondNeedsFirst(v, Before(v, s, log, k), q.value, t, op);
        CallPlays(v, s, log, answers, n, k + 1, q'.value);
      }
    }
  }

  // ------------------------------------------------ a whole session

  /** On the filesystem itself, every call of every operation keeps to the limit. */
  predicate SessionFits<S>(v: Vfs<S>, a: Agent<S>, ops: seq<Op>) {
    ops == [] ||
    (SessionFits(v, a, ops[..|ops| - 1]) &&
     WithinLimit(v, After(ViaRpc(v), a, ops[..|ops| - 1]), ops[|ops| - 1]))
  }

  /** All but the last operation are known to keep to it. */
  predicate AlmostFits<S>(v: Vfs<S>, a: Agent<S>, ops: seq<Op>) {
    ops == [] || SessionFits(v, a, ops[..|ops| - 1])
  }

  function CallsMade<S>(v: Vfs<S>, a: Agent<S>, ops: seq<Op>): seq<Proto.Request> {
    if ops == [] then []
    else
      var front := After(ViaRpc(v), a, ops[..|ops| - 1]);
      CallsMade(v, a, ops[..|ops| - 1]) + CallsOf(Stream(v), front.s, front.t, ops[|ops| - 1])
  }

  lemma OutOfStepForGood(a: Agent<Tape>, op: Op)
    ensures Step(Over(Player()), a, op).0.s.inStep ==> a.s.inStep
  {
    hide Step, FirstCall, SecondCall, Over;
    StepAlike(Player(), a.s, Player(), a.s, a.t, op);
    assert Agent(a.t, a.s) == a;
  }

  lemma FrontFits<S>(v: Vfs<S>, a: Agent<S>, ops: seq<Op>)
    requires AlmostFits(v, a, ops) && ops != []
    ensures SessionFits(v, a, ops[..|ops| - 1]) && AlmostFits(v, a, ops[..|ops| - 1])
  {
    hide WithinLimit, After;
  }

  lemma NothingMade<S>(v: Vfs<S>, s: S, log: seq<(nat, Proto.Request)>)
    ensures Before(v, s, log, 0) == s && Logged(log, 0, 0, [])
  {
  }

  lemma LoggedMore(
    log: seq<(nat, Proto.Request)>, j: nat, k: nat, a: seq<Proto.Request>, b: seq<Proto.Request>)
    requires Logged(log, 0, j, a) && Logged(log, j, k, b)
    ensures Logged(log, 0, k, a + b)
  {
    forall i | 0 <= i < |a + b|
      ensures log[0 + i].1 == (a + b)[i]
    {
      if i >= j { assert log[j + (i - j)].1 == b[i - j]; }
    }
  }

  lemma StepPlays<S>(
    v: Vfs<S>, s: S, log: seq<(nat, Proto.Request)>, answers: seq<(Proto.Request, RpcSystem.Outcome)>,
    n: nat, k: nat, t: Tables, op: Op) returns (k': nat)
    requires Faithful(v, s, log, answers, n) && k <= n <= |log| == |answers|
    requires Step(Over(Player()), Agent(t, From(answers, k)), op).0.s.inStep
    ensures
      var x := Step(Over(Player()), Agent(t, From(answers, k)), op);
      var y := Step(ViaRpc(v), Agent(t, Before(v, s, log, k)), op);
      && k' <= |log| && x.0.s == From(answers, k') && x.0.t == y.0.t && x.1 == y.1
      && (WithinLimit(v, Agent(t, Before(v, s, log, k)), op) ==>
            && k' <= n && y.0.s == Before(v, s, log, k')
            && Logged(log, k, k', CallsOf(Stream(v), Before(v, s, log, k), t, op)))
  {
    hide WithinLimit, Faithful, From, Before, Step, Over, Player, Stream;
    hide CallsOf, AfterCalls, SameOutcomes, Logged, Reached;
    StepAlike(Player(), From(answers, k), Player(), From(answers, k), t, op) by {
      SameAsItself(Player(), From(answers, k), t, op);
    }
    k' := Reached(answers, k, t, op);
    OpPlays(v, s, log, answers, n, k, t, op);
    if WithinLimit(v, Agent(t, Before(v, s, log, k)), op) {
      OpKeepsUp(v, s, log, answers, n, k, t, op);
    }
    StepAlike(Player(), From(answers, k), Stream(v), Before(v, s, log, k), t, op);
    StepAlike(Stream(v), Before(v, s, log, k), Stream(v), Before(v, s, log, k), t, op) by {
      SameAsItself(Stream(v), Before(v, s, log, k), t, op);
    }
  }

  lemma SameAsItself<S>(c: Caller<S>, s: S, t: Tables, op: Op)
    ensures SameOutcomes(c, s, c, s, t, op)
  {
    hide FirstCall, SecondCall;
  }

  /** Position by position: the agent on the answers and the agent on the filesystem
      have the same tables and give the same replies. */
  lemma {:induction false} SessionPlays<S>(
    v: Vfs<S>, s: S, log: seq<(nat, Proto.Request)>, answers: seq<(Proto.Request, RpcSystem.Outcome)>,
    n: nat, a: Agent<S>, ops: seq<Op>) returns (k: nat)
    requires Faithful(v, s, log, answers, n) && n <= |log| == |answers|
    requires a.s == s && AlmostFits(v, a, ops)
    requires After(Over(Player()), Agent(a.t, From(answers, 0)), ops).s.inStep
    ensures
      var b := Agent(a.t, From(answers, 0));
      && k <= |log| && After(Over(Player()), b, ops).s == From(answers, k)
      && After(Over(Player()), b, ops).t == After(ViaRpc(v), a, ops).t
      && RepliesTo(Over(Player()), b, ops) == RepliesTo(ViaRpc(v), a, ops)
      && (SessionFits(v, a, ops) ==>
            k <= n && After(ViaRpc(v), a, ops).s == Before(v, s, log, k) && Logged(log, 0, k, CallsMade(v, a, ops)))
  {
    hide WithinLimit, Faithful, From, Before, Step, Over, Player, Stream, CallsOf, AfterCalls, SameOutcomes;
    var b := Agent(a.t, From(answers, 0));
    if ops == [] {
      k := 0;
      NothingMade(v, s, log);
    } else {
      var front, op := ops[..|ops| - 1], ops[|ops| - 1];
      var x, y := After(Over(Player()), b, front), After(ViaRpc(v), a, front);
      OutOfStepForGood(x, op);
      FrontFits(v, a, ops);
      var j := SessionPlays(v, s, log, answers, n, a, front);
      k := StepPlays(v, s, log, answers, n, j, y.t, op);
      assert x == Agent(y.t, From(answers, j)) && y == Agent(y.t, Before(v, s, log, j));
      if WithinLimit(v, y, op) {
        LoggedMore(log, j, k, CallsMade(v, a, front), CallsOf(Stream(v), y.s, y.t, op));
      }
    }
  }

  function Requests(log: seq<(nat, Proto.Request)>): seq<Proto.Request> {
    seq(|log|, k requires 0 <= k < |log| => log[k].1)
  }

  lemma LoggedIff(log: seq<(nat, Proto.Request)>, k: nat, calls: seq<Proto.Request>)
    ensures Logged(log, 0, k, calls) <==> k <= |log| && Requests(log)[..k] == calls
  {
    if Logged(log, 0, k, calls) {
      assert forall i :: 0 <= i < k ==> log[0 + i].1 == calls[i];
    }
  }

  /** In any run of the stream, whatever its callers, its cutting into pieces and its
      capacity: an agent whose calls are the run's calls gives the replies it would give on
      the filesystem itself, including to a last operation that goes beyond the limit. */
  lemma AgentOverStream<S>(v: Vfs<S>, s: S, cap: nat, steps: seq<RpcSystem.Step>, ops: seq<Op>)
    requires RpcSystem.Runs(v, RpcSystem.Init(s, cap), steps)
    requires RpcLimits.Finished(RpcSystem.Final(v, RpcSystem.Init(s, cap), steps))
    requires AlmostFits(v, Agent(START, s), ops)
    requires OnStream(RpcSystem.Final(v, RpcSystem.Init(s, cap), steps), ops).s.inStep
    ensures
      var y := RpcSystem.Final(v, RpcSystem.Init(s, cap), steps);
      && RepliesOnStream(y, ops) == RepliesTo(ViaRpc(v), Agent(START, s), ops)
      && OnStream(y, ops).t == After(ViaRpc(v), Agent(START, s), ops).t
      && (SessionFits(v, Agent(START, s), ops) && OnStream(y, ops).s.left == [] ==>
            && RpcSystem.Fits(v, s, y.log) && Requests(y.log) == CallsMade(v, Agent(START, s), ops)
            && y.vfs == After(ViaRpc(v), Agent(START, s), ops).s)
  {
    hide RpcSystem.Runs, RpcSystem.Final, RpcSystem.Fits, RpcSystem.After, Faithful, After, RepliesTo;
    hide SessionFits, AlmostFits, CallsMade, Logged, Requests;
    var y := RpcSystem.Final(v, RpcSystem.Init(s, cap), steps);
    var n := RunIsFaithful(v, s, cap, steps);
    Lengths(v, s, y.log, Answers(y), n);
    assert Answers(y)[0..] == Answers(y);
    var k := SessionPlays(v, s, y.log, Answers(y), n, Agent(START, s), ops);
    if SessionFits(v, Agent(START, s), ops) && OnStream(y, ops).s.left == [] {
      assert k == |y.log| && y.log[..k] == y.log;
      LoggedIff(y.log, k, CallsMade(v, Agent(START, s), ops));
      RequestsLength(y.log);
    }
  }

  lemma RequestsLength(log: seq<(nat, Proto.Request)>)
    ensures |Requests(log)| == |log| && Requests(log)[..|log|] == Requests(log)
  {
  }

  // ------------------------------------------------ which runs carry a session

  lemma OpCarried<S>(
    v: Vfs<S>, s: S, log: seq<(nat, Proto.Request)>, answers: seq<(Proto.Request, RpcSystem.Outcome)>,
    n: nat, k: nat, k': nat, t: Tables, op: Op)
    requires Faithful(v, s, log, answers, n) && k <= n <= |log| == |answers|
    requires WithinLimit(v, Agent(t, Before(v, s, log, k)), op)
    requires Logged(log, k, k', CallsOf(Stream(v), Before(v, s, log, k), t, op))
    ensures AfterCalls(Player(), From(answers, k), t, op).inStep
  {
    hide Delivered, RpcSystem.CallFits, Before, Play, FirstCall, AsTruncate, Faithful;
    var q := FirstCall(t, op);
    if q.Some? {
      var calls := CallsOf(Stream(v), Before(v, s, log, k), t, op);
      assert calls[0] == q.value && log[k + 0].1 == calls[0];
      CallPlays(v, s, log, answers, n, k, q.value);
      var q' := SecondCall(t, op, Play(From(answers, k), q.value).1);
      if q'.Some? {
        assert calls[1] == q'.value && log[k + 1].1 == calls[1];
        CallPlays(v, s, log, answers, n, k + 1, q'.value);
      }
    }
  }

  lemma {:induction false} SessionCarried<S>(
    v: Vfs<S>, s: S, log: seq<(nat, Proto.Request)>, answers: seq<(Proto.Request, RpcSystem.Outcome)>,
    n: nat, a: Agent<S>, ops: seq<Op>, k: nat)
    requires Faithful(v, s, log, answers, n) && n <= |log| == |answers| && a.s == s
    requires SessionFits(v, a, ops) && Logged(log, 0, k, CallsMade(v, a, ops))
    ensures After(Over(Player()), Agent(a.t, From(answers, 0)), ops).s.inStep
  {
    hide WithinLimit, Faithful, Before, Step, Over, Player, Stream, CallsOf, AfterCalls, SameOutcomes;
    if ops != [] {
      var front, op := ops[..|ops| - 1], ops[|ops| - 1];
      var b := Agent(a.t, From(answers, 0));
      var x, y := After(Over(Player()), b, front), After(ViaRpc(v), a, front);
      var j := |CallsMade(v, a, front)|;
      LoggedSplit(log, j, k, CallsMade(v, a, front), CallsOf(Stream(v), y.s, y.t, op));
      SessionCarried(v, s, log, answers, n, a, front, j);
      FrontFits(v, a, ops);
      var i := SessionPlays(v, s, log, answers, n, a, front);
      assert i == j && x == Agent(y.t, From(answers, j)) && y == Agent(y.t, Before(v, s, log, j));
      OpCarried(v, s, log, answers, n, j, k, y.t, op);
      SameAsItself(Player(), x.s, y.t, op);
      StepAlike(Player(), x.s, Player(), x.s, y.t, op);
    }
  }

  lemma LoggedSplit(log: seq<(nat, Proto.Request)>, j: nat, k: nat, a: seq<Proto.Request>, b: seq<Proto.Request>)
    requires Logged(log, 0, k, a + b) && j == |a|
    ensures Logged(log, 0, j, a) && Logged(log, j, k, b)
  {
    forall i | 0 <= i < |a| ensures log[0 + i].1 == a[i] {
      assert log[0 + i].1 == (a + b)[i];
    }
    forall i | 0 <= i < |b| ensures log[j + i].1 == b[i] {
      assert log[0 + (j + i)].1 == (a + b)[j + i];
    }
  }

  /** A run's calls are those of the session exactly when they are the calls the agent
      makes on the filesystem itself, one after another. */
  lemma CarriesIff<S>(v: Vfs<S>, s: S, cap: nat, steps: seq<RpcSystem.Step>, ops: seq<Op>)
    requires RpcSystem.Runs(v, RpcSystem.Init(s, cap), steps)
    requires RpcLimits.Finished(RpcSystem.Final(v, RpcSystem.Init(s, cap), steps))
    requires SessionFits(v, Agent(START, s), ops)
    ensures
      var y := RpcSystem.Final(v, RpcSystem.Init(s, cap), steps);
      OnStream(y, ops).s == Tape([], true) <==> Requests(y.log) == CallsMade(v, Agent(START, s), ops)
  {
    hide RpcSystem.Runs, RpcSystem.Final, RpcSystem.Fits, RpcLimits.Finished, OnStream, RepliesOnStream;
    hide CallsMade, Requests, SessionFits, After, RepliesTo;
    AlmostFitsToo(v, Agent(START, s), ops);
    if OnStream(RpcSystem.Final(v, RpcSystem.Init(s, cap), steps), ops).s == Tape([], true) {
      AgentOverStream(v, s, cap, steps, ops);
    }
    if Requests(RpcSystem.Final(v, RpcSystem.Init(s, cap), steps).log) == CallsMade(v, Agent(START, s), ops) {
      SameRequestsCarry(v, s, cap, steps, ops);
    }
  }

  lemma SameRequestsCarry<S>(v: Vfs<S>, s: S, cap: nat, steps: seq<RpcSystem.Step>, ops: seq<Op>)
    requires RpcSystem.Runs(v, RpcSystem.Init(s, cap), steps)
    requires RpcLimits.Finished(RpcSystem.Final(v, RpcSystem.Init(s, cap), steps))
    requires SessionFits(v, Agent(START, s), ops)
    requires Requests(RpcSystem.Final(v, RpcSystem.Init(s, cap), steps).log) == CallsMade(v, Agent(START, s), ops)
    ensures OnStream(RpcSystem.Final(v, RpcSystem.Init(s, cap), steps), ops).s == Tape([], true)
  {
    hide RpcSystem.Runs, RpcSystem.Final, RpcSystem.Fits, RpcSystem.After, Faithful, After, RepliesTo;
    hide CallsMade, Logged, Requests, WithinLimit, SessionFits, AlmostFits, Over, Player;
    var y := RpcSystem.Final(v, RpcSystem.Init(s, cap), steps);
    var a := Agent(START, s);
    AlmostFitsToo(v, a, ops);
    var n := RunIsFaithful(v, s, cap, steps);
    Lengths(v, s, y.log, Answers(y), n);
    RequestsLength(y.log);
    LoggedIff(y.log, |y.log|, CallsMade(v, a, ops));
    assert Answers(y)[0..] == Answers(y);
    SessionCarried(v, s, y.log, Answers(y), n, a, ops, |y.log|);
    var k := SessionPlays(v, s, y.log, Answers(y), n, a, ops);
    LoggedIff(y.log, k, CallsMade(v, a, ops));
    assert k == |y.log|;
  }

  lemma AlmostFitsToo<S>(v: Vfs<S>, a: Agent<S>, ops: seq<Op>)
    requires SessionFits(v, a, ops)
    ensures AlmostFits(v, a, ops)
  {
    hide WithinLimit, After;
  }

  /** Nothing is under way, and what has been logged keeps to the limit. */
  ghost predicate Quiet<S>(v: Vfs<S>, s: S, y: RpcSystem.Sys<S>) {
    && RpcSystem.Inv(v, s, y) && RpcSystem.Fits(v, s, y.log) && y.cap >= 1
    && forall id <- y.callers :: y.callers[id].Done?
  }

  lemma {:induction false} Fresh(ids: set<nat>) returns (id: nat)
    ensures forall i <- ids :: i < id
    decreases |ids|
  {
    id := 0;
    if ids != {} {
      var i: nat :| i in ids;
      var other := Fresh(ids - {i});
      assert forall k <- ids :: k == i || k in ids - {i};
      id := if i < other then other else i + 1;
    }
  }

  /** A new caller makes one call that keeps to the limit, and gets its answer. */
  lemma OneMoreCall<S>(v: Vfs<S>, s: S, y: RpcSystem.Sys<S>, q: Proto.Request) returns (steps: seq<RpcSystem.Step>)
    requires Quiet(v, s, y) && RpcSystem.CallFits(v, RpcSystem.After(v, s, y.log), q)
    ensures RpcSystem.Runs(v, y, steps) && Quiet(v, s, RpcSystem.Final(v, y, steps))
    ensures
      var y' := RpcSystem.Final(v, y, steps);
      && Requests(y'.log) == Requests(y.log) + [q]
      && RpcSystem.After(v, s, y'.log) == Delivered(v, RpcSystem.After(v, s, y.log), q).0
  {
    hide RpcSystem.Inv, RpcSystem.CallFits, RpcSystem.After, RpcSystem.Direct, Delivered;
    var id := Fresh(y.callers.Keys);
    var submit := RpcSystem.Submit(id, q);
    var y1 := RpcSystem.Apply(v, y, submit);
    RpcSystem.SubmitKeepsInv(v, s, y, id, q);
    RpcLimits.OneStep(v, y, submit);
    assert RpcSystem.WaitingIds(y1) == {id};
    var more := y.log + [(id, q)];
    assert RpcSystem.Queued(y1.callers, [id]) == [(id, q)];
    FitsOneMore(v, s, y.log, (id, q));
    var rest := RpcSystem.EveryCallCompletes(v, s, y1, [id]);
    RpcLimits.RunsCompose(v, y, [submit], rest);
    steps := [submit] + rest;
    RpcSystem.RunKeepsInv(v, s, y, steps);
    RpcSystem.RunsGrow(v, y, steps);
    BeforeNext(v, s, more, |y.log|);
    assert more[..|y.log|] == y.log && more[..|y.log| + 1] == more;
  }

  lemma FitsOneMore<S>(v: Vfs<S>, s: S, log: seq<(nat, Proto.Request)>, entry: (nat, Proto.Request))
    requires RpcSystem.Fits(v, s, log) && RpcSystem.CallFits(v, RpcSystem.After(v, s, log), entry.1)
    ensures RpcSystem.Fits(v, s, log + [entry])
  {
    hide RpcSystem.CallFits, RpcSystem.After;
    var more := log + [entry];
    forall k | 0 <= k < |more|
      ensures RpcSystem.CallFits(v, RpcSystem.After(v, s, more[..k]), more[k].1)
    {
      assert more[..k] == log[..k];
      if k == |log| { assert log[..k] == log; }
    }
  }

  /** The calls of one operation, made one after the other. */
  lemma OneMoreOp<S>(v: Vfs<S>, s: S, y: RpcSystem.Sys<S>, t: Tables, op: Op) returns (steps: seq<RpcSystem.Step>)
    requires Quiet(v, s, y) && WithinLimit(v, Agent(t, RpcSystem.After(v, s, y.log)), op)
    ensures RpcSystem.Runs(v, y, steps) && Quiet(v, s, RpcSystem.Final(v, y, steps))
    ensures
      var y' := RpcSystem.Final(v, y, steps);
      && Requests(y'.log) == Requests(y.log) + CallsOf(Stream(v), RpcSystem.After(v, s, y.log), t, op)
      && RpcSystem.After(v, s, y'.log) == AfterCalls(Stream(v), RpcSystem.After(v, s, y.log), t, op)
  {
    hide Quiet, Requests, RpcSystem.CallFits, RpcSystem.After, RpcSystem.Runs, RpcSystem.Final, Delivered;
    hide FirstCall, SecondCall, CallsOf, AfterCalls;
    var at := RpcSystem.After(v, s, y.log);
    var q := FirstCall(t, op);
    CallsAre(Stream(v), at, t, op);
    if q.None? {
      steps := [];
      NoSteps(v, y);
    } else {
      steps := OneMoreCall(v, s, y, q.value);
      var q' := SecondCall(t, op, Delivered(v, at, q.value).1);
      if q'.Some? {
        var y1 := RpcSystem.Final(v, y, steps);
        var more := OneMoreCall(v, s, y1, q'.value);
        RpcLimits.RunsCompose(v, y, steps, more);
        steps := steps + more;
        Append(Requests(y.log), q.value, q'.value);
      }
    }
  }

  lemma Append<T>(a: seq<T>, x: T, y: T)
    ensures a + [x] + [y] == a + [x, y]
  {
  }

  lemma CallsAre<S>(c: Caller<S>, s: S, t: Tables, op: Op)
    ensures FirstCall(t, op).None? ==> CallsOf(c, s, t, op) == [] && AfterCalls(c, s, t, op) == s
    ensures FirstCall(t, op).Some? ==>
      var q := FirstCall(t, op).value;
      var q' := SecondCall(t, op, c(s, q).1);
      if q'.None? then CallsOf(c, s, t, op) == [q] && AfterCalls(c, s, t, op) == c(s, q).0
      else CallsOf(c, s, t, op) == [q, q'.value] && AfterCalls(c, s, t, op) == c(c(s, q).0, q'.value).0
  {
    hide FirstCall, SecondCall;
  }

  lemma NoSteps<S>(v: Vfs<S>, y: RpcSystem.Sys<S>)
    ensures RpcSystem.Runs(v, y, []) && RpcSystem.Final(v, y, []) == y
  {
  }

  /** Every session within the limit has a run of the stream, at any capacity, that
      carries it and leaves the filesystem where the agent would have left it. */
  lemma {:induction false} SessionHasRun<S>(v: Vfs<S>, s: S, cap: nat, ops: seq<Op>)
    returns (steps: seq<RpcSystem.Step>)
    requires cap >= 1 && SessionFits(v, Agent(START, s), ops)
    ensures RpcSystem.Runs(v, RpcSystem.Init(s, cap), steps)
    ensures
      var y := RpcSystem.Final(v, RpcSystem.Init(s, cap), steps);
      && Quiet(v, s, y) && RpcLimits.Finished(y)
      && Requests(y.log) == CallsMade(v, Agent(START, s), ops)
      && RpcSystem.After(v, s, y.log) == After(ViaRpc(v), Agent(START, s), ops).s
  {
    hide WithinLimit, RpcSystem.Runs, RpcSystem.Final, Step, Over, Stream, CallsOf, AfterCalls, SameOutcomes;
    var init := RpcSystem.Init(s, cap);
    if ops == [] {
      steps := [];
      NoSteps(v, init);
      RpcSystem.InitInv(v, s, cap);
    } else {
      hide Quiet, RpcSystem.After, Requests, RpcLimits.Finished;
      var front, op := ops[..|ops| - 1], ops[|ops| - 1];
      var before := SessionHasRun(v, s, cap, front);
      var y := RpcSystem.Final(v, init, before);
      var a := After(ViaRpc(v), Agent(START, s), front);
      assert a == Agent(a.t, RpcSystem.After(v, s, y.log));
      var more := OneMoreOp(v, s, y, a.t, op);
      RpcLimits.RunsCompose(v, init, before, more);
      steps := before + more;
      QuietIsFinished(v, s, RpcSystem.Final(v, init, steps));
      SameAsItself(Stream(v), a.s, a.t, op);
      StepAlike(Stream(v), a.s, Stream(v), a.s, a.t, op);
    }
  }

  lemma QuietIsFinished<S>(v: Vfs<S>, s: S, y: RpcSystem.Sys<S>)
    requires Quiet(v, s, y)
    ensures RpcLimits.Finished(y)
  {
    hide RpcSystem.OnTheWire, RpcSystem.OutcomeAt;
    forall k | 0 <= k < |y.log|
      ensures y.log[k].0 in y.callers && y.callers[y.log[k].0].Done?
    {
      assert RpcSystem.Placed(v, s, y, k);
    }
  }

  // ------------------------------------------------ offsets

  /** The end of the bytes a request that can be encoded names is a 64-bit number. */
  predicate WithinRange(q: Proto.Request) {
    match q
    case Read(_, o, n) => o + n < TWO_64
    case Write(_, o, d) => Server.EncodeRequest(q).Some? ==> o + |d| < TWO_64
    case _ => true
  }

  /** Over every session, on any filesystem. */
  lemma {:induction false} OffsetsNeverOverflow<S>(v: Vfs<S>, a: Agent<S>, ops: seq<Op>)
    ensures forall q <- CallsMade(v, a, ops) :: WithinRange(q)
  {
    hide Step, After, WithinRange, CallsOf, Stream, ViaRpc;
    if ops != [] {
      var front, op := ops[..|ops| - 1], ops[|ops| - 1];
      OffsetsNeverOverflow(v, a, front);
      var y := After(ViaRpc(v), a, front);
      CallsInRange(Stream(v), y.s, y.t, op);
    }
  }

  lemma CallsInRange<S>(c: Caller<S>, s: S, t: Tables, op: Op)
    ensures forall q <- CallsOf(c, s, t, op) :: WithinRange(q)
  {
    hide WithinRange, FirstCall, SecondCall;
    ClampedFits(t, op);
  }

  lemma ClampedFits(t: Tables, op: Op)
    ensures FirstCall(t, op).Some? ==> WithinRange(FirstCall(t, op).value)
    ensures forall o :: SecondCall(t, op, o).Some? ==> WithinRange(SecondCall(t, op, o).value)
  {
    hide PathFor, AsTruncate;
    match op
    case WriteFile(fh, offset, data) =>
      if fh in t.fhs { DataIsShort(t.fhs[fh], Clamp(offset), data); }
    case _ =>
  }

  lemma DataIsShort(p: Path, o: u64, d: seq<byte>)
    ensures Server.EncodeRequest(Proto.Write(p, o, d)).Some? ==> |d| < TWO_32
  {
  }
}
