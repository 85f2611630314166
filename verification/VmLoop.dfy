/** The macOS virtual machine thread: a loop over commands, some of which wait. */
module VmLoop {

  /** Every request carries the identity of its one-shot reply channel. `works` is what
      the hypervisor makes of the stop attempt, should there be one. */
  datatype Cmd = Stop(id: nat, works: bool) | Wait(id: nat) | Shutdown

  datatype Reply = Reply(id: nat, ok: bool)

  datatype Loop = Loop(stopped: bool, waiters: seq<nat>, replies: seq<Reply>, ended: bool)

  const FRESH := Loop(false, [], [], false)

  function Release(waiters: seq<nat>): seq<Reply> {
    if waiters == [] then [] else Release(waiters[..|waiters| - 1]) + [Reply(waiters[|waiters| - 1], true)]
  }

  function Handle(l: Loop, cmd: Cmd): Loop {
    if l.ended then l
    else match cmd
      case Stop(id, works) =>
        if l.stopped then l.(replies := l.replies + [Reply(id, true)])
        else if works then Loop(true, [], l.replies + Release(l.waiters) + [Reply(id, true)], false)
        else l.(replies := l.replies + [Reply(id, false)])
      case Wait(id) =>
        if l.stopped then l.(replies := l.replies + [Reply(id, true)]) else l.(waiters := l.waiters + [id])
      case Shutdown => Loop(l.stopped, [], l.replies + Release(l.waiters), true)
  }

  function Run(cmds: seq<Cmd>): Loop {
    if cmds == [] then FRESH else Handle(Run(cmds[..|cmds| - 1]), cmds[|cmds| - 1])
  }

  class VmThread {
    var stopped: bool
    var waiters: seq<nat>
    var replies: seq<Reply>

    constructor ()
      ensures !stopped && waiters == [] && replies == []
    {
      stopped, waiters, replies := false, [], [];
    }

    method DrainWaiters()
      modifies this`waiters, this`replies
      ensures waiters == [] && replies == old(replies) + Release(old(waiters))
    {
      var taken := waiters;
      waiters := [];
      for i := 0 to |taken|
        invariant waiters == [] && replies == old(replies) + Release(taken[..i])
      {
        assert taken[..i + 1][..i] == taken[..i];
        replies := replies + [Reply(taken[i], true)];
      }
      assert taken[..|taken|] == taken;
    }

    /** The loop takes commands until a shutdown, or until no sender is left. */
    method RunLoop(cmds: seq<Cmd>)
      requires !stopped && waiters == [] && replies == []
      modifies this
      ensures Loop(stopped, waiters, replies, Run(cmds).ended) == Run(cmds)
    {
      var ended := false;
      for i := 0 to |cmds|
        invariant Loop(stopped, waiters, replies, ended) == Run(cmds[..i])
        invariant !ended
      {
        assert cmds[..i + 1][..i] == cmds[..i];
        match cmds[i]
        case Stop(id, works) =>
          if stopped {
            replies := replies + [Reply(id, true)];
          } else {
            stopped := works;
            if stopped { DrainWaiters(); }
            replies := replies + [Reply(id, works)];
          }
        case Wait(id) =>
          if stopped {
            replies := replies + [Reply(id, true)];
          } else {
            waiters := waiters + [id];
          }
        case Shutdown =>
          DrainWaiters();
          EndedIgnores(cmds, i + 1);
          return;
      }
      assert cmds[..|cmds|] == cmds;
    }
  }

  lemma {:induction false} EndedIgnores(cmds: seq<Cmd>, i: nat)
    requires i <= |cmds| && Run(cmds[..i]).ended
    ensures Run(cmds) == Run(cmds[..i])
    decreases |cmds|
  {
    if i == |cmds| {
      assert cmds[..i] == cmds;
    } else {
      assert cmds[..|cmds| - 1][..i] == cmds[..i];
      EndedIgnores(cmds[..|cmds| - 1], i);
    }
  }

  // ---------------------------------------------------------------- over every run

  /** The requests the loop took before it ended. */
  function Received(cmds: seq<Cmd>): multiset<nat> {
    if cmds == [] then multiset{}
    else
      var front, cmd := Received(cmds[..|cmds| - 1]), cmds[|cmds| - 1];
      if Run(cmds[..|cmds| - 1]).ended || cmd.Shutdown? then front else front + multiset{cmd.id}
  }

  function Ids(replies: seq<Reply>): multiset<nat> {
    if replies == [] then multiset{} else Ids(replies[..|replies| - 1]) + multiset{replies[|replies| - 1].id}
  }

  lemma IdsOneMore(a: seq<Reply>, r: Reply)
    ensures Ids(a + [r]) == Ids(a) + multiset{r.id}
  {
    assert (a + [r])[..|a|] == a;
  }

  lemma ReleaseOneMore(waiters: seq<nat>, w: nat)
    ensures Release(waiters + [w]) == Release(waiters) + [Reply(w, true)]
  {
    assert (waiters + [w])[..|waiters|] == waiters;
  }

  /** Releasing the waiters answers each of them once, with success. */
  lemma {:induction false} ReleaseAnswersEach(a: seq<Reply>, waiters: seq<nat>)
    ensures Ids(a + Release(waiters)) == Ids(a) + multiset(waiters)
  {
    if waiters == [] {
      assert a + Release(waiters) == a;
    } else {
      hide Ids, Release;
      var front, w := waiters[..|waiters| - 1], waiters[|waiters| - 1];
      assert waiters == front + [w];
      ReleaseAnswersEach(a, front);
      ReleaseOneMore(front, w);
      IdsOneMore(a + Release(front), Reply(w, true));
      assert a + Release(waiters) == (a + Release(front)) + [Reply(w, true)];
    }
  }

  lemma {:induction false} ReleasedWaited(waiters: seq<nat>)
    ensures forall r <- Release(waiters) :: r.ok && r.id in waiters
  {
    if waiters != [] {
      ReleasedWaited(waiters[..|waiters| - 1]);
    }
  }

  /** Requests received are, one for one, replies sent plus waiters pending; a stopped
      machine or an ended loop keeps no waiter. */
  lemma {:induction false} EveryRequestAccountedFor(cmds: seq<Cmd>)
    ensures Ids(Run(cmds).replies) + multiset(Run(cmds).waiters) == Received(cmds)
    ensures Run(cmds).stopped || Run(cmds).ended ==> Run(cmds).waiters == []
  {
    if cmds != [] {
      EveryRequestAccountedFor(cmds[..|cmds| - 1]);
      HandleAccounts(Run(cmds[..|cmds| - 1]), cmds[|cmds| - 1]);
    }
  }

  lemma HandleAccounts(l: Loop, cmd: Cmd)
    requires l.stopped || l.ended ==> l.waiters == []
    ensures
      var l', new_ := Handle(l, cmd), if l.ended || cmd.Shutdown? then multiset{} else multiset{cmd.id};
      && Ids(l'.replies) + multiset(l'.waiters) == Ids(l.replies) + multiset(l.waiters) + new_
      && (l'.stopped || l'.ended ==> l'.waiters == [])
  {
    hide Ids, Release;
    ReleaseAnswersEach(l.replies, l.waiters);
    if !cmd.Shutdown? {
      IdsOneMore(l.replies, Reply(cmd.id, true));
      IdsOneMore(l.replies, Reply(cmd.id, false));
      IdsOneMore(l.replies + Release(l.waiters), Reply(cmd.id, true));
    }
  }

  /** The reply channels are all different. */
  predicate DistinctIds(cmds: seq<Cmd>) {
    forall i, j :: 0 <= i < j < |cmds| && !cmds[i].Shutdown? && !cmds[j].Shutdown? ==> cmds[i].id != cmds[j].id
  }

  lemma {:induction false} ReceivedOnce(cmds: seq<Cmd>, id: nat)
    requires DistinctIds(cmds)
    ensures Received(cmds)[id] <= 1
    ensures Received(cmds)[id] == 1 ==> exists i :: 0 <= i < |cmds| && !cmds[i].Shutdown? && cmds[i].id == id
  {
    if cmds != [] {
      var front := cmds[..|cmds| - 1];
      ReceivedOnce(front, id);
      if Received(front)[id] == 1 {
        var i :| 0 <= i < |front| && !front[i].Shutdown? && front[i].id == id;
        assert cmds[i] == front[i];
      }
    }
  }

  /** No request is answered twice, or answered while it also still waits. */
  lemma AnsweredAtMostOnce(cmds: seq<Cmd>, id: nat)
    requires DistinctIds(cmds)
    ensures Ids(Run(cmds).replies)[id] + multiset(Run(cmds).waiters)[id] <= 1
  {
    EveryRequestAccountedFor(cmds);
    ReceivedOnce(cmds, id);
  }

  /** Whether a stop attempt has succeeded, or a shutdown has come. */
  predicate Over(cmds: seq<Cmd>) { Run(cmds).stopped || Run(cmds).ended }

  /** Where a reply's request came from. */
  ghost predicate Explained(cmds: seq<Cmd>, r: Reply) {
    exists i :: 0 <= i < |cmds| && (
      cmds[i] == Stop(r.id, r.ok) || (r.ok && Over(cmds) && (cmds[i] == Wait(r.id) || cmds[i] == Stop(r.id, false))))
  }

  ghost predicate AllExplained(cmds: seq<Cmd>, rs: seq<Reply>) {
    forall r <- rs :: Explained(cmds, r)
  }

  lemma AllConcat(cmds: seq<Cmd>, a: seq<Reply>, b: seq<Reply>)
    requires AllExplained(cmds, a) && AllExplained(cmds, b)
    ensures AllExplained(cmds, a + b)
  {
    hide Explained;
  }

  lemma OneExplained(cmds: seq<Cmd>, r: Reply)
    requires Explained(cmds, r)
    ensures AllExplained(cmds, [r])
  {
    hide Explained;
  }

  ghost predicate Asked(cmds: seq<Cmd>, w: nat) { exists i :: 0 <= i < |cmds| && cmds[i] == Wait(w) }

  /** A wait is answered only once the machine is stopped or shut down, and then with
      success; a stop gets the outcome of its own attempt, or success once stopped. */
  lemma {:induction false} RepliesExplained(cmds: seq<Cmd>)
    ensures AllExplained(cmds, Run(cmds).replies)
    ensures forall w <- Run(cmds).waiters :: Asked(cmds, w)
  {
    if cmds != [] {
      var n := |cmds| - 1;
      var front, l := cmds[..n], Run(cmds[..n]);
      assert front + [cmds[n]] == cmds;
      RepliesExplained(front);
      OverIsStable(front, cmds[n]);
      RunStep(cmds);
      ReleasedWaited(l.waiters);
      hide Run, Release, Over;
      assert AllExplained(cmds, l.replies) by {
        forall r <- l.replies ensures Explained(cmds, r) { StillExplained(front, cmds, r); }
      }
      forall w <- l.waiters ensures Asked(cmds, w) { StillAsked(front, cmds, w); }
      LastExplained(cmds, l);
    }
  }

  /** What the last command adds. */
  lemma LastExplained(cmds: seq<Cmd>, l: Loop)
    requires cmds != [] && Run(cmds) == Handle(l, cmds[|cmds| - 1])
    requires AllExplained(cmds, l.replies)
    requires forall w <- l.waiters :: Asked(cmds, w)
    requires forall r <- Release(l.waiters) :: r.ok && r.id in l.waiters
    ensures AllExplained(cmds, Run(cmds).replies)
    ensures forall w <- Run(cmds).waiters :: Asked(cmds, w)
  {
    LastCommandExplains(cmds);
    if Over(cmds) {
      assert AllExplained(cmds, Release(l.waiters)) by {
        forall r <- Release(l.waiters) ensures Explained(cmds, r) { AskedExplained(cmds, r); }
      }
      AllConcat(cmds, l.replies, Release(l.waiters));
    }
    var cmd := cmds[|cmds| - 1];
    if !cmd.Shutdown? {
      AddOne(cmds, l.replies, Reply(cmd.id, true));
      AddOne(cmds, l.replies, Reply(cmd.id, false));
      AddOne(cmds, l.replies + Release(l.waiters), Reply(cmd.id, true));
    }
    hide Run, Release, Explained, AllExplained, Asked;
  }

  lemma AddOne(cmds: seq<Cmd>, a: seq<Reply>, r: Reply)
    ensures AllExplained(cmds, a) && Explained(cmds, r) ==> AllExplained(cmds, a + [r])
  {
    hide Explained;
    if AllExplained(cmds, a) && Explained(cmds, r) {
      OneExplained(cmds, r);
      AllConcat(cmds, a, [r]);
    }
  }

  lemma LastCommandExplains(cmds: seq<Cmd>)
    requires cmds != []
    ensures
      var cmd := cmds[|cmds| - 1];
      && (cmd.Stop? ==> Explained(cmds, Reply(cmd.id, cmd.works)))
      && (cmd.Wait? ==> Asked(cmds, cmd.id))
      && (!cmd.Shutdown? && Over(cmds) ==> Explained(cmds, Reply(cmd.id, true)))
  {
    hide Over;
    var cmd := cmds[|cmds| - 1];
    assert cmd.Stop? ==> cmd == Stop(cmd.id, cmd.works);
    assert cmd.Wait? ==> cmd == Wait(cmd.id);
    assert cmd.Stop? && !cmd.works ==> cmd == Stop(cmd.id, false);
  }

  lemma AskedExplained(cmds: seq<Cmd>, r: Reply)
    requires r.ok && Asked(cmds, r.id)
    ensures Over(cmds) ==> Explained(cmds, r)
  {
    hide Over;
  }

  lemma StillAsked(front: seq<Cmd>, cmds: seq<Cmd>, w: nat)
    requires front <= cmds && Asked(front, w)
    ensures Asked(cmds, w)
  {
    var i :| 0 <= i < |front| && front[i] == Wait(w);
    assert cmds[i] == front[i];
  }

  lemma StillExplained(front: seq<Cmd>, cmds: seq<Cmd>, r: Reply)
    requires front <= cmds && Explained(front, r) && (Over(front) ==> Over(cmds))
    ensures Explained(cmds, r)
  {
    hide Over;
    var i :| 0 <= i < |front| && (
      front[i] == Stop(r.id, r.ok) ||
      (r.ok && Over(front) && (front[i] == Wait(r.id) || front[i] == Stop(r.id, false))));
    assert cmds[i] == front[i];
  }

  lemma WaitAnsweredOnlyAtEnd(cmds: seq<Cmd>, r: Reply, k: nat)
    requires DistinctIds(cmds) && r in Run(cmds).replies && k < |cmds| && cmds[k] == Wait(r.id)
    ensures Over(cmds) && r.ok
  {
    hide Run, Over;
    RepliesExplained(cmds);
    assert AllExplained(cmds, Run(cmds).replies);
    var i :| 0 <= i < |cmds| && (
      cmds[i] == Stop(r.id, r.ok) || (r.ok && Over(cmds) && (cmds[i] == Wait(r.id) || cmds[i] == Stop(r.id, false))));
  }

  lemma RunStep(cmds: seq<Cmd>)
    requires cmds != []
    ensures Run(cmds) == Handle(Run(cmds[..|cmds| - 1]), cmds[|cmds| - 1])
  {
  }

  /** Over once, over for good. */
  lemma OverIsStable(cmds: seq<Cmd>, cmd: Cmd)
    ensures Over(cmds) ==> Over(cmds + [cmd])
  {
    assert (cmds + [cmd])[..|cmds|] == cmds;
  }

  // ---------------------------------------------------------------- what is remembered

  /** A stop attempt that worked, taken before any shutdown. */
  ghost predicate HasStopped(cmds: seq<Cmd>) {
    exists i :: 0 <= i < |cmds| && cmds[i].Stop? && cmds[i].works && forall j :: 0 <= j < i ==> cmds[j] != Shutdown
  }

  /** The machine is stopped exactly once an attempt has worked, and the loop has ended
      exactly once a shutdown has come; neither is ever forgotten. */
  lemma {:induction false} RemembersIff(cmds: seq<Cmd>)
    ensures Run(cmds).stopped <==> HasStopped(cmds)
    ensures Run(cmds).ended <==> Shutdown in cmds
  {
    if cmds != [] {
      var front, last := cmds[..|cmds| - 1], cmds[|cmds| - 1];
      RemembersIff(front);
      assert cmds == front + [last];
      HasStoppedOneMore(front, last);
      hide HasStopped;
    }
  }

  lemma HasStoppedOneMore(front: seq<Cmd>, last: Cmd)
    ensures HasStopped(front + [last]) <==>
      HasStopped(front) || (last.Stop? && last.works && Shutdown !in front)
  {
    var cmds := front + [last];
    if HasStopped(front) {
      var i :| 0 <= i < |front| && front[i].Stop? && front[i].works && forall j :: 0 <= j < i ==> front[j] != Shutdown;
      assert cmds[i] == front[i] && forall j :: 0 <= j < i ==> cmds[j] == front[j];
    }
    if last.Stop? && last.works && Shutdown !in front {
      assert cmds[|front|] == last && forall j :: 0 <= j < |front| ==> cmds[j] == front[j];
    }
    if HasStopped(cmds) {
      var i :| 0 <= i < |cmds| && cmds[i].Stop? && cmds[i].works && forall j :: 0 <= j < i ==> cmds[j] != Shutdown;
      assert forall j :: 0 <= j < |front| ==> cmds[j] == front[j];
    }
  }

  lemma {:induction false} ReleaseAt(waiters: seq<nat>, i: nat)
    requires i < |waiters|
    ensures |Release(waiters)| == |waiters| && Release(waiters)[i] == Reply(waiters[i], true)
  {
    if |waiters| > 1 { ReleaseAt(waiters[..|waiters| - 1], if i < |waiters| - 1 then i else 0); }
  }

  /** While the loop runs: after a stop that worked every request is granted at once; until
      then a wait is kept, a failed attempt is reported to its own caller alone, and an
      attempt that works answers the waiters in their order and then its caller. */
  lemma AnswersFollow(cmds: seq<Cmd>, id: nat)
    requires Shutdown !in cmds
    ensures
      var l := Run(cmds);
      var wait, failed, done := Run(cmds + [Wait(id)]), Run(cmds + [Stop(id, false)]), Run(cmds + [Stop(id, true)]);
      if HasStopped(cmds) then
        wait.replies == failed.replies == done.replies == l.replies + [Reply(id, true)]
      else
        && wait.replies == l.replies && wait.waiters == l.waiters + [id]
        && failed.replies == l.replies + [Reply(id, false)] && failed.waiters == l.waiters
        && done.replies == l.replies + seq(|l.waiters|, i requires 0 <= i < |l.waiters| => Reply(l.waiters[i], true))
             + [Reply(id, true)]
        && done.waiters == []
  {
    RemembersIff(cmds);
    assert forall cmd :: (cmds + [cmd])[..|cmds|] == cmds;
    hide HasStopped, Release;
    ReleaseIsAll(Run(cmds).waiters);
  }

  lemma ReleaseIsAll(waiters: seq<nat>)
    ensures Release(waiters) == seq(|waiters|, i requires 0 <= i < |waiters| => Reply(waiters[i], true))
  {
    forall i | 0 <= i < |waiters|
      ensures |Release(waiters)| == |waiters| && Release(waiters)[i] == Reply(waiters[i], true)
    {
      ReleaseAt(waiters, i);
    }
    if waiters == [] { assert Release(waiters) == []; }
  }
}
