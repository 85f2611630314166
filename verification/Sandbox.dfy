/** The QEMU sandbox: its life from creation to drop, with failures at any point of
    starting, and the routing of each guest mount to its own host filesystem. */
module Sandbox {
  import opened Splitting
  import opened Cmdline

  datatype State = Created | Starting | Running | Stopping | Stopped

  /** A mount in the configuration; `V` stands for user-supplied filesystems. */
  datatype MountSpec<V> =
    | HostDir(tag: string, guestPath: string, hostPath: string, readOnly: bool)
    | UserVfs(tag: string, guestPath: string, vfs: V, readOnly: bool)

  /** What a mount's server answers from. */
  datatype Backend<V> = HostFiles(hostPath: string, readOnly: bool) | User(vfs: V)

  datatype Config<V> = Config(
    mounts: seq<MountSpec<V>>, extra: seq<string>, root: string, hasRootfs: bool, interactive: bool)

  datatype Server<V> = Server(tag: string, guestPath: string, socket: string, backend: Backend<V>)

  /** A virtio-serial port QEMU connects to a host socket. */
  datatype Port = Port(chardev: string, name: string, socket: string)

  /** Where starting fails, if it does. */
  datatype Fault = NoFault | RuntimeFails | NoImage | BindFails(at: nat) | SpawnFails | QmpFails

  datatype Call = Start(fault: Fault) | Stop | Wait | Drop

  /** `listening` is the set of sockets with a live listener, tracked or not. */
  datatype Box<V> = Box(
    state: State, child: bool, qmp: bool, servers: seq<Server<V>>,
    cmdline: string, ports: seq<Port>, mountIds: seq<string>, listening: set<string>)

  // ---------------------------------------------------------------- names

  function Digit(d: nat): char
    requires d < 10
  {
    '0' + d as char
  }

  function Decimal(n: nat): (s: string)
    ensures |s| >= 1
  {
    if n < 10 then [Digit(n)] else Decimal(n / 10) + [Digit(n % 10)]
  }

  lemma {:induction false} DecimalInjective(a: nat, b: nat)
    requires Decimal(a) == Decimal(b)
    ensures a == b
  {
    var s := Decimal(a);
    assert s[|s| - 1] == Digit(a % 10) == Digit(b % 10);
    if a >= 10 && b >= 10 {
      assert Decimal(a / 10) == s[..|s| - 1] == Decimal(b / 10);
      DecimalInjective(a / 10, b / 10);
    }
  }

  /** The number a string of digits spells. */
  function Spelled(s: string): int {
    if s == "" then 0 else 10 * Spelled(s[..|s| - 1]) + (s[|s| - 1] as int - '0' as int)
  }

  lemma {:induction false} DecimalSpells(n: nat)
    ensures Spelled(Decimal(n)) == n && forall c <- Decimal(n) :: '0' <= c <= '9'
    ensures n > 0 ==> Decimal(n)[0] != '0'
  {
    if n >= 10 {
      DecimalSpells(n / 10);
      assert Decimal(n)[..|Decimal(n)| - 1] == Decimal(n / 10);
    } else {
      assert Decimal(n)[..0] == "";
    }
  }

  function SocketPath(root: string, i: nat): string { root + "/rpc" + Decimal(i) + ".sock" }

  const PORT_PREFIX := "tokimo.rpc."

  function PortName(tag: string): string { PORT_PREFIX + tag }

  lemma SocketsDistinct(root: string, i: nat, j: nat)
    requires SocketPath(root, i) == SocketPath(root, j)
    ensures i == j
  {
    var p, a, b := root + "/rpc", Decimal(i), Decimal(j);
    Middle(p, a, b, ".sock");
    DecimalInjective(i, j);
  }

  lemma Middle(p: string, a: string, b: string, q: string)
    requires p + a + q == p + b + q
    ensures a == b
  {
    assert |p + a + q| == |p + b + q|;
    assert a == (p + a + q)[|p|..|p| + |a|];
    assert b == (p + b + q)[|p|..|p| + |b|];
  }

  // ---------------------------------------------------------------- each call

  function BackendOf<V>(m: MountSpec<V>): Backend<V> {
    match m case HostDir(_, _, p, ro) => HostFiles(p, ro) case UserVfs(_, _, v, _) => User(v)
  }

  function ServerOf<V>(c: Config<V>, i: nat): Server<V>
    requires i < |c.mounts|
  {
    var m := c.mounts[i];
    Server(m.tag, m.guestPath, SocketPath(c.root, i), BackendOf(m))
  }

  function Servers<V>(c: Config<V>, n: nat): seq<Server<V>>
    requires n <= |c.mounts|
  {
    if n == 0 then [] else Servers(c, n - 1) + [ServerOf(c, n - 1)]
  }

  function Ports<V>(c: Config<V>, n: nat): seq<Port>
    requires n <= |c.mounts|
  {
    if n == 0 then []
    else Ports(c, n - 1) + [Port("rpc" + Decimal(n - 1), PortName(c.mounts[n - 1].tag), SocketPath(c.root, n - 1))]
  }

  function MountList<V>(ms: seq<MountSpec<V>>): seq<Mount> {
    if ms == [] then [] else MountList(ms[..|ms| - 1]) + [(ms[|ms| - 1].tag, ms[|ms| - 1].guestPath)]
  }

  function Tags<V>(ms: seq<MountSpec<V>>): seq<string> {
    if ms == [] then [] else Tags(ms[..|ms| - 1]) + [ms[|ms| - 1].tag]
  }

  function Sockets<V>(servers: seq<Server<V>>): set<string> { set i | 0 <= i < |servers| :: servers[i].socket }

  /** Binding stops at the mount where it fails; what was bound before stays tracked. */
  function Bound<V>(c: Config<V>, b: Box<V>, n: nat): Box<V>
    requires n <= |c.mounts|
  {
    b.(state := Starting, servers := Servers(c, n), listening := Sockets(Servers(c, n)))
  }

  function StartBox<V>(c: Config<V>, b: Box<V>, fault: Fault): (Box<V>, bool) {
    if b.state != Created then (b, false)
    else if fault == RuntimeFails || fault == NoImage then (b.(state := Starting), false)
    else if fault.BindFails? && fault.at < |c.mounts| then (Bound(c, b, fault.at), false)
    else LaunchBox(c, Bound(c, b, |c.mounts|), fault)
  }

  /** What is left of starting once every mount is bound. */
  function LaunchBox<V>(c: Config<V>, b: Box<V>, fault: Fault): (Box<V>, bool) {
    var args := b.(
      cmdline := Line(c.extra, MountList(c.mounts), c.hasRootfs, c.interactive), ports := Ports(c, |c.mounts|));
    if fault == SpawnFails then (args, false)
    else if fault == QmpFails then (args.(child := true), false)
    else (args.(child := true, qmp := true, mountIds := Tags(c.mounts), state := Running), true)
  }

  function StopBox<V>(b: Box<V>): Box<V> {
    if b.state != Running && b.state != Starting then b
    else b.(
      state := Stopped, qmp := false, child := false,
      servers := [], listening := b.listening - Sockets(b.servers))
  }

  function WaitBox<V>(b: Box<V>): Box<V> { if b.child then b.(state := Stopped) else b }

  function DropBox<V>(b: Box<V>): Box<V> {
    b.(child := false, servers := [], listening := b.listening - Sockets(b.servers))
  }

  function StepBox<V>(c: Config<V>, b: Box<V>, call: Call): Box<V> {
    match call
    case Start(fault) => StartBox(c, b, fault).0
    case Stop => StopBox(b)
    case Wait => WaitBox(b)
    case Drop => DropBox(b)
  }

  // ---------------------------------------------------------------- the object

  class QemuSandbox<V> {
    const config: Config<V>
    var state: State
    var child: bool
    var qmp: bool
    var servers: seq<Server<V>>
    var cmdline: string
    var ports: seq<Port>
    var mountIds: seq<string>
    ghost var listening: set<string>

    constructor (config: Config<V>)
      ensures this.config == config && Model() == NewBox()
    {
      this.config := config;
      state, child, qmp, servers := Created, false, false, [];
      cmdline, ports, mountIds, listening := "", [], [], {};
    }

    ghost function Model(): Box<V>
      reads this
    {
      Box(state, child, qmp, servers, cmdline, ports, mountIds, listening)
    }

    /** Each mount gets a socket, a server, a port and a command line entry, all made
        in one pass and so aligned. */
    method BindMounts(fault: Fault) returns (ok: bool, ports': seq<Port>, mounts: seq<Mount>, ids: seq<string>)
      requires servers == [] && listening == {}
      modifies this`servers, this`listening
      ensures ok == !(fault.BindFails? && fault.at < |config.mounts|)
      ensures var n := if ok then |config.mounts| else fault.at;
        servers == Servers(config, n) && listening == Sockets(servers)
      ensures ok ==> ports' == Ports(config, |config.mounts|)
      ensures ok ==> mounts == MountList(config.mounts) && ids == Tags(config.mounts)
    {
      ports', mounts, ids := [], [], [];
      for i := 0 to |config.mounts|
        invariant servers == Servers(config, i) && listening == Sockets(servers)
        invariant ports' == Ports(config, i)
        invariant mounts == MountList(config.mounts[..i]) && ids == Tags(config.mounts[..i])
        invariant fault.BindFails? ==> i <= fault.at
      {
        var m := config.mounts[i];
        assert config.mounts[..i + 1][..i] == config.mounts[..i];
        ids := ids + [m.tag];
        var socket := SocketPath(config.root, i);
        if fault == BindFails(i) {
          ok := false;
          return;
        }
        listening := listening + {socket};
        servers := servers + [Server(m.tag, m.guestPath, socket, BackendOf(m))];
        ports' := ports' + [Port("rpc" + Decimal(i), PortName(m.tag), socket)];
        mounts := mounts + [(m.tag, m.guestPath)];
        SocketsOneMore(Servers(config, i), ServerOf(config, i));
      }
      assert config.mounts[..|config.mounts|] == config.mounts;
      ok := true;
    }

    method DoStart(fault: Fault) returns (ok: bool)
      requires state == Created ==> servers == [] && listening == {}
      modifies this
      ensures (Model(), ok) == StartBox(config, old(Model()), fault)
    {
      hide LaunchBox, Servers, Ports, MountList, Tags, Sockets;
      if state != Created { return false; }
      state := Starting;
      if fault == RuntimeFails || fault == NoImage { return false; }
      var bound, ports', mounts, ids := BindMounts(fault);
      if !bound { return false; }
      ok := Launch(fault, ports', mounts, ids);
    }

    method Launch(fault: Fault, ports': seq<Port>, mounts: seq<Mount>, ids: seq<string>) returns (ok: bool)
      requires ports' == Ports(config, |config.mounts|)
      requires mounts == MountList(config.mounts) && ids == Tags(config.mounts)
      modifies this`ports, this`cmdline, this`child, this`qmp, this`mountIds, this`state
      ensures (Model(), ok) == LaunchBox(config, old(Model()), fault)
    {
      hide Line, Ports, MountList, Tags, Join, Parts;
      ports := ports';
      cmdline := BuildCmdline(config.extra, mounts, config.hasRootfs);
      if config.interactive {
        cmdline := cmdline + " " + SHELL_WORD;
      }
      LineIs(config.extra, mounts, config.hasRootfs, config.interactive);
      if fault == SpawnFails { return false; }
      child := true;
      if fault == QmpFails { return false; }
      qmp := true;
      mountIds := ids;
      state := Running;
      return true;
    }

    method DoStop()
      modifies this
      ensures Model() == StopBox(old(Model()))
    {
      if state != Running && state != Starting { return; }
      state := Stopping;
      qmp := false;
      child := false;
      RemoveServers();
      state := Stopped;
    }

    method RemoveServers()
      modifies this`servers, this`listening
      ensures servers == [] && listening == old(listening) - Sockets(old(servers))
    {
      var taken := servers;
      servers := [];
      for i := 0 to |taken|
        invariant listening == old(listening) - Sockets(taken[..i])
      {
        assert taken[..i + 1] == taken[..i] + [taken[i]];
        SocketsOneMore(taken[..i], taken[i]);
        listening := listening - {taken[i].socket};
      }
      assert taken[..|taken|] == taken;
    }

    method DoWait()
      modifies this`state
      ensures Model() == WaitBox(old(Model()))
    {
      if child { state := Stopped; }
    }

    method DoDrop()
      modifies this
      ensures Model() == DropBox(old(Model()))
    {
      child := false;
      RemoveServers();
    }

    method Make(call: Call)
      requires state == Created ==> servers == [] && listening == {}
      modifies this
      ensures Model() == StepBox(config, old(Model()), call)
    {
      hide StartBox, StopBox, WaitBox, DropBox;
      match call
      case Start(fault) => var _ := DoStart(fault);
      case Stop => DoStop();
      case Wait => DoWait();
      case Drop => DoDrop();
    }

    /** The owner's calls, one after another, on a new sandbox. */
    method Live(calls: seq<Call>)
      requires Model() == NewBox()
      modifies this
      ensures Model() == Life(config, calls)
      ensures NotDropped(calls) ==> BoxOk(config, Model())
    {
      hide StepBox, BoxOk;
      for i := 0 to |calls|
        invariant Model() == Life(config, calls[..i])
      {
        assert calls[..i + 1][..i] == calls[..i];
        CreatedIsNew(config, calls[..i]);
        Make(calls[i]);
      }
      assert calls[..|calls|] == calls;
      if NotDropped(calls) {
        LifeKeepsBox(config, calls);
      }
    }
  }

  lemma LineIs(extra: seq<string>, mounts: seq<Mount>, hasRootfs: bool, interactive: bool)
    ensures
      var line := Join(Parts(extra, mounts, hasRootfs), " ");
      Line(extra, mounts, hasRootfs, interactive) == if interactive then line + " " + SHELL_WORD else line
  {
    var line := Join(Parts(extra, mounts, hasRootfs), " ");
    assert line + "" == line && line + (" " + SHELL_WORD) == line + " " + SHELL_WORD;
  }

  function NewBox<V>(): Box<V> { Box(Created, false, false, [], "", [], [], {}) }

  lemma SocketsOneMore<V>(servers: seq<Server<V>>, s: Server<V>)
    ensures Sockets(servers + [s]) == Sockets(servers) + {s.socket}
  {
    var more := servers + [s];
    assert forall i :: 0 <= i < |servers| ==> more[i] == servers[i];
    assert more[|servers|] == s;
    assert Sockets(servers) + {s.socket} <= Sockets(more) by {
      forall x | x in Sockets(servers) ensures x in Sockets(more) {
        var i :| 0 <= i < |servers| && servers[i].socket == x;
        assert more[i].socket == x;
      }
    }
  }

  // ---------------------------------------------------------------- every life

  /** The owner may make any calls in any order until it drops the sandbox. */
  function Life<V>(c: Config<V>, calls: seq<Call>): Box<V> {
    if calls == [] then NewBox() else StepBox(c, Life(c, calls[..|calls| - 1]), calls[|calls| - 1])
  }

  /** A sandbox that no start has reached is still new. */
  lemma {:induction false} CreatedIsNew<V>(c: Config<V>, calls: seq<Call>)
    ensures Life(c, calls).state == Created ==> Life(c, calls) == NewBox()
  {
    if calls != [] {
      CreatedIsNew(c, calls[..|calls| - 1]);
      StepFromCreated(c, Life(c, calls[..|calls| - 1]), calls[|calls| - 1]);
    }
  }

  lemma StepFromCreated<V>(c: Config<V>, b: Box<V>, call: Call)
    requires b.state == Created ==> b == NewBox()
    ensures StepBox(c, b, call).state == Created ==> StepBox(c, b, call) == NewBox()
  {
    hide Line, Servers, Ports, MountList, Tags, Sockets;
  }

  predicate NotDropped(calls: seq<Call>) { forall call <- calls :: call != Drop }

  /** Every socket with a listener is tracked. A running sandbox has its process, its
      control connection, and exactly one server per mount; a fresh one has nothing. */
  ghost predicate BoxOk<V>(c: Config<V>, b: Box<V>) {
    && b.listening == Sockets(b.servers)
    && (b.state == Created ==> b == NewBox())
    && (b.state == Running ==> RunningOk(c, b))
    && b.state != Stopping
    && (exists n :: 0 <= n <= |c.mounts| && b.servers == Servers(c, n))
  }

  ghost predicate RunningOk<V>(c: Config<V>, b: Box<V>) {
    && b.child && b.qmp && b.servers == Servers(c, |c.mounts|)
    && b.ports == Ports(c, |c.mounts|) && b.mountIds == Tags(c.mounts)
    && b.cmdline == Line(c.extra, MountList(c.mounts), c.hasRootfs, c.interactive)
  }

  lemma StepKeepsBox<V>(c: Config<V>, b: Box<V>, call: Call)
    requires BoxOk(c, b) && call != Drop
    ensures BoxOk(c, StepBox(c, b, call))
    ensures b.state != Created ==> StepBox(c, b, call).state != Created
  {
    hide Line, Sockets;
    NoSockets<V>();
    assert Servers(c, 0) == [];
  }

  lemma NoSockets<V>()
    ensures Sockets<V>([]) == {}
  {
  }

  lemma {:induction false} LifeKeepsBox<V>(c: Config<V>, calls: seq<Call>)
    requires NotDropped(calls)
    ensures BoxOk(c, Life(c, calls))
  {
    if calls == [] {
      NoSockets<V>();
      assert Servers(c, 0) == [];
    } else {
      hide BoxOk, StepBox;
      var front := calls[..|calls| - 1];
      assert forall call <- front :: call in calls;
      assert calls[|calls| - 1] in calls;
      LifeKeepsBox(c, front);
      StepKeepsBox(c, Life(c, front), calls[|calls| - 1]);
    }
  }

  lemma {:induction false} NeverCreatedAgain<V>(c: Config<V>, calls: seq<Call>, i: nat)
    requires NotDropped(calls) && i < |calls| && calls[i].Start?
    ensures Life(c, calls).state != Created
  {
    hide BoxOk, StepBox;
    var n := |calls| - 1;
    var front := calls[..n];
    assert forall call <- front :: call in calls;
    assert calls[n] in calls;
    if i == n {
      StartLeavesCreated(c, Life(c, front), calls[i].fault);
    } else {
      NeverCreatedAgain(c, front, i);
      LifeKeepsBox(c, front);
      StepKeepsBox(c, Life(c, front), calls[n]);
    }
  }

  /** Only one start ever gets past the guard: once there has been one, whether it
      succeeded or failed, any other is refused and changes nothing. */
  lemma OneStartPasses<V>(c: Config<V>, calls: seq<Call>, i: nat, fault: Fault)
    requires NotDropped(calls) && i < |calls| && calls[i].Start?
    ensures StartBox(c, Life(c, calls), fault) == (Life(c, calls), false)
  {
    hide Life;
    NeverCreatedAgain(c, calls, i);
  }

  lemma StartLeavesCreated<V>(c: Config<V>, b: Box<V>, fault: Fault)
    ensures StepBox(c, b, Start(fault)).state != Created
  {
    hide Line, Servers, Ports, MountList, Tags, Sockets;
  }

  /** Stopping removes every listener exactly when the sandbox was running or starting,
      or had none; after the process was waited for, it leaves them all in place.
      Dropping always removes them. */
  lemma CleanupIff<V>(c: Config<V>, calls: seq<Call>)
    requires NotDropped(calls)
    ensures
      var b := Life(c, calls);
      && (Life(c, calls + [Stop]).listening == {} <==>
            b.state == Running || b.state == Starting || b.servers == [])
      && Life(c, calls + [Drop]).listening == {} && Life(c, calls + [Drop]).servers == []
      && (b.state == Running ==> Life(c, calls + [Wait, Stop]).servers == Servers(c, |c.mounts|))
  {
    LifeKeepsBox(c, calls);
    LifeOneMore(c, calls, Stop);
    LifeOneMore(c, calls, Drop);
    LifeOneMore(c, calls, Wait);
    LifeOneMore(c, calls + [Wait], Stop);
    assert calls + [Wait, Stop] == calls + [Wait] + [Stop];
    hide Life, BoxOk, StopBox, WaitBox, DropBox, Sockets, Servers;
    StopClears(c, Life(c, calls));
  }

  lemma LifeOneMore<V>(c: Config<V>, calls: seq<Call>, call: Call)
    ensures Life(c, calls + [call]) == StepBox(c, Life(c, calls), call)
  {
    assert (calls + [call])[..|calls|] == calls;
    hide StepBox;
  }

  lemma StopClears<V>(c: Config<V>, b: Box<V>)
    requires BoxOk(c, b)
    ensures StopBox(b).listening == {} <==> b.state == Running || b.state == Starting || b.servers == []
    ensures DropBox(b).listening == {} && DropBox(b).servers == []
    ensures b.state == Running ==> StopBox(WaitBox(b)).servers == b.servers == Servers(c, |c.mounts|)
  {
    hide Servers, Ports, Tags, MountList, Line;
    if b.servers != [] {
      assert b.servers[0].socket in Sockets(b.servers);
    }
  }

  // ---------------------------------------------------------------- the process

  /** From running or starting, a stop leaves no process and no control connection; in
      any other state it does nothing. */
  lemma StopEndsProcess<V>(c: Config<V>, calls: seq<Call>)
    ensures
      var b, b' := Life(c, calls), Life(c, calls + [Stop]);
      if b.state == Running || b.state == Starting then b'.state == Stopped && !b'.child && !b'.qmp
      else b' == b
  {
    assert (calls + [Stop])[..|calls|] == calls;
    hide Life;
  }

  lemma DropEndsProcess<V>(c: Config<V>, calls: seq<Call>)
    ensures !Life(c, calls + [Drop]).child
  {
    assert (calls + [Drop])[..|calls|] == calls;
    hide Life;
  }

  /** Waiting ends a life exactly when there is a process to wait for. */
  lemma WaitStopsIff<V>(c: Config<V>, calls: seq<Call>)
    ensures
      var b, b' := Life(c, calls), Life(c, calls + [Wait]);
      && b'.child == b.child && b'.servers == b.servers
      && if b.child then b'.state == Stopped else b' == b
  {
    assert (calls + [Wait])[..|calls|] == calls;
    hide Life;
  }

  /** The first start leaves a process exactly when spawning was reached and worked, even
      if the control connection then failed; only a start that met no fault is running. */
  lemma StartLeavesProcessIff<V>(c: Config<V>, calls: seq<Call>, fault: Fault)
    requires Life(c, calls).state == Created
    ensures
      var b := Life(c, calls + [Start(fault)]);
      var reached := fault == NoFault || fault == QmpFails || (fault.BindFails? && fault.at >= |c.mounts|);
      && (b.child <==> reached)
      && (b.qmp <==> reached && fault != QmpFails)
      && (b.state == Running <==> reached && fault != QmpFails)
      && (b.state != Running ==> b.state == Starting)
      && |b.servers| == (if fault == RuntimeFails || fault == NoImage then 0
                         else if fault.BindFails? && fault.at < |c.mounts| then fault.at else |c.mounts|)
  {
    assert (calls + [Start(fault)])[..|calls|] == calls;
    CreatedIsNew(c, calls);
    ServerCount(c, |c.mounts|);
    if fault.BindFails? && fault.at < |c.mounts| { ServerCount(c, fault.at); }
    hide Life, Servers, Ports, Sockets, MountList, Tags, Line;
  }

  lemma {:induction false} ServerCount<V>(c: Config<V>, n: nat)
    requires n <= |c.mounts|
    ensures |Servers(c, n)| == n
  {
    if n > 0 { ServerCount(c, n - 1); }
  }

  /** A process exists only after a start and until a stop or a drop. */
  lemma {:induction false} ProcessHasCause<V>(c: Config<V>, calls: seq<Call>)
    ensures Life(c, calls).child ==>
      exists i :: 0 <= i < |calls| && calls[i].Start? && forall j :: i < j < |calls| ==> calls[j] != Drop
  {
    if calls != [] {
      var front, n := calls[..|calls| - 1], |calls| - 1;
      ProcessHasCause(c, front);
      if Life(c, calls).child && !calls[n].Start? {
        ChildWasThere(c, Life(c, front), calls[n]);
        var i :| 0 <= i < |front| && front[i].Start? && forall j :: i < j < |front| ==> front[j] != Drop;
        assert calls[i] == front[i];
        assert forall j :: i < j < n ==> calls[j] == front[j];
      }
    }
  }

  lemma ChildWasThere<V>(c: Config<V>, b: Box<V>, call: Call)
    requires StepBox(c, b, call).child && !call.Start?
    ensures b.child && call != Drop
  {
    hide Sockets;
  }

  // ---------------------------------------------------------------- routing

  lemma {:induction false} Aligned<V>(c: Config<V>, n: nat, i: nat)
    requires i < n <= |c.mounts|
    ensures |Servers(c, n)| == |Ports(c, n)| == n
    ensures Servers(c, n)[i] == ServerOf(c, i)
    ensures Ports(c, n)[i].name == PortName(c.mounts[i].tag) && Ports(c, n)[i].socket == SocketPath(c.root, i)
    ensures Ports(c, n)[i].chardev == "rpc" + Decimal(i)
    ensures Ports(c, n)[i].socket == c.root + "/rpc" + Decimal(i) + ".sock"
  {
    if n > 1 { Aligned(c, n - 1, if i < n - 1 then i else 0); }
  }

  lemma {:induction false} MountListAt<V>(ms: seq<MountSpec<V>>, i: nat)
    requires i < |ms|
    ensures |MountList(ms)| == |ms| && MountList(ms)[i] == (ms[i].tag, ms[i].guestPath)
  {
    if |ms| > 1 { MountListAt(ms[..|ms| - 1], if i < |ms| - 1 then i else 0); }
  }

  lemma {:induction false} TagsAt<V>(ms: seq<MountSpec<V>>, i: nat)
    requires i < |ms|
    ensures |Tags(ms)| == |ms| && Tags(ms)[i] == ms[i].tag
  {
    if |ms| > 1 { TagsAt(ms[..|ms| - 1], if i < |ms| - 1 then i else 0); }
  }

  /** QEMU refuses two devices of one name. */
  lemma ChardevsDistinct<V>(c: Config<V>, n: nat, i: nat, j: nat)
    requires i < n <= |c.mounts| && j < n && i != j
    ensures |Ports(c, n)| == n && Ports(c, n)[i].chardev != Ports(c, n)[j].chardev
  {
    hide Ports;
    Aligned(c, n, i);
    Aligned(c, n, j);
    if "rpc" + Decimal(i) == "rpc" + Decimal(j) {
      assert Decimal(i) == ("rpc" + Decimal(i))[3..] && Decimal(j) == ("rpc" + Decimal(j))[3..];
      DecimalInjective(i, j);
    }
  }

  predicate DistinctTags<V>(ms: seq<MountSpec<V>>) {
    forall i, j :: 0 <= i < j < |ms| ==> ms[i].tag != ms[j].tag
  }

  /** The agent started for the `k`-th mount the guest reads opens a port; whichever
      port has that name, the one server on its socket answers from the filesystem of
      that very mount, at that mount's path. */
  lemma EachMountReachesItsFilesystem<V>(c: Config<V>, calls: seq<Call>, k: nat, p: nat, q: nat)
    requires NotDropped(calls) && Life(c, calls).state == Running
    requires Unreserved(AllWords(c.extra)) && Clean(MountList(c.mounts)) && DistinctTags(c.mounts)
    requires
      var b := Life(c, calls);
      var guest := MountsOf(b.cmdline + "\n");
      && k < |guest| && p < |b.ports| && q < |b.servers|
      && b.ports[p].name == "tokimo.rpc." + guest[k].0 && b.servers[q].socket == b.ports[p].socket
    ensures
      var b := Life(c, calls);
      var guest := MountsOf(b.cmdline + "\n");
      && |guest| == |b.ports| == |b.servers| == |c.mounts| && guest[k].1 == c.mounts[k].guestPath
      && (match c.mounts[k]
          case HostDir(_, _, hostPath, readOnly) => b.servers[q].backend == HostFiles(hostPath, readOnly)
          case UserVfs(_, _, vfs, _) => b.servers[q].backend == User(vfs))
      && b.servers[q].tag == guest[k].0 && b.servers[q].guestPath == guest[k].1
      && |b.mountIds| == |guest| && b.mountIds[k] == guest[k].0
      && b.ports[k].name == "tokimo.rpc." + guest[k].0 && b.servers[k].socket == b.ports[k].socket
  {
    hide MountsOf, Line, Clean, BoxOk, Life, SocketPath, AllWords;
    LifeKeepsBox(c, calls);
    var b := Life(c, calls);
    assert RunningOk(c, b) by { BoxIsRunning(c, b); }
    MountsComeBack(c, b);
    MountListAt(c.mounts, k);
    TagsAt(c.mounts, k);
    var n := |c.mounts|;
    Aligned(c, n, k);
    Aligned(c, n, p);
    Aligned(c, n, q);
    SocketsDistinct(c.root, p, q);
    PortNamesDistinct(c.mounts[p].tag, c.mounts[k].tag);
  }

  lemma BoxIsRunning<V>(c: Config<V>, b: Box<V>)
    requires BoxOk(c, b) && b.state == Running
    ensures RunningOk(c, b)
  {
  }

  lemma MountsComeBack<V>(c: Config<V>, b: Box<V>)
    requires RunningOk(c, b) && Unreserved(AllWords(c.extra)) && Clean(MountList(c.mounts))
    ensures MountsOf(b.cmdline + "\n") == MountList(c.mounts)
    ensures |MountList(c.mounts)| == |c.mounts|
  {
    MountsRoundTripIff(c.extra, MountList(c.mounts), c.hasRootfs, c.interactive);
    hide MountsOf, Line, Clean, AllWords;
    if c.mounts != [] { MountListAt(c.mounts, 0); }
  }

  /** Distinct tags are needed: otherwise two ports answer to one name. */
  lemma PortNamesDistinctIff<V>(c: Config<V>)
    ensures DistinctTags(c.mounts) <==>
      var ports := Ports(c, |c.mounts|);
      forall i, j :: 0 <= i < j < |ports| ==> ports[i].name != ports[j].name
  {
    hide Ports, PortName;
    var n := |c.mounts|;
    forall i | 0 <= i < n
      ensures |Ports(c, n)| == n && Ports(c, n)[i].name == PortName(c.mounts[i].tag)
    {
      Aligned(c, n, i);
    }
    PortCount(c, n);
    forall i, j | 0 <= i < j < n
      ensures Ports(c, n)[i].name == Ports(c, n)[j].name <==> c.mounts[i].tag == c.mounts[j].tag
    {
      if PortName(c.mounts[i].tag) == PortName(c.mounts[j].tag) { PortNamesDistinct(c.mounts[i].tag, c.mounts[j].tag); }
    }
  }

  lemma PortCount<V>(c: Config<V>, n: nat)
    requires n <= |c.mounts|
    ensures |Ports(c, n)| == n
  {
    if n > 0 { PortCount(c, n - 1); }
  }

  lemma PortNamesDistinct(a: string, b: string)
    requires PortName(a) == PortName(b)
    ensures a == b
  {
    assert a == PortName(a)[|PORT_PREFIX|..] && b == PortName(b)[|PORT_PREFIX|..];
  }
}
