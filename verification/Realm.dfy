/** Bringing the local realm up and down (src/cmd/dev.rs, the non-native path): what every step does to
    the manager's fields and to the machine, as functions, and the manager's methods proved against
    them. */
module Realm {
  import opened Text
  import opened ClientAddress
  import opened RealmWorld
  import opened Credentials
  import opened TopologyCheck

  datatype Status = Stopped | Starting | Healthy | Unhealthy(gone: bool) | External

  datatype StopAction = NothingRecorded | AlreadyGone | Stop | Refuse

  datatype Failure =
    | NoDirectories | CannotRebind | CannotReshard | ForeignGateway
    | SpawnFailed | ExitedAtOnce | DiedDuringStartup | TimedOut
    | CommandFailed | NoCredential | ClaimRefused | NotSaved | Collapsed | NotSignalled | ForeignProcess(c: Component)

  /** The manager's fields. */
  datatype Manager = Manager(state: RuntimeState, bind: ClientBind, topology: Topology, logStart: nat)

  /** Where a step leaves the machine and the manager, and how it failed. */
  datatype Run = Run(w: World, m: Manager, failure: Option<Failure>)

  function ManagerOf(s: RuntimeState): Manager {
    Manager(s, FromRecorded(s.clientHost), RecordedTopology(s.topology), 0)
  }

  // ---- decisions ----

  function Decide(record: Option<Record>, live: Option<Identity>): StopAction {
    if record.None? then NothingRecorded
    else if live.None? then AlreadyGone
    else if live.value == record.value.identity then Stop
    else Refuse
  }

  function Classify(record: Option<Record>, live: Option<Identity>, serving: bool): Status {
    if record.None? then if serving then External else Stopped
    else if live.None? then Unhealthy(true)
    else if live.value != record.value.identity then Unhealthy(false)
    else if serving then Healthy
    else Starting
  }

  predicate Running(s: Status) { s.Healthy? || s.Starting? }

  function ProbeRecord(w: World, r: Option<Record>): (World, Option<Identity>) {
    if r.None? then (w, None) else ProbePid(w, r.value.pid)
  }

  function StatusFor(w: World, m: Manager, c: Component): (World, Status) {
    var record := RecordOf(m.state, c);
    var (probed, live) := ProbeRecord(w, record);
    (Tick(probed), Classify(record, live, Head(probed).yes))
  }

  // ---- starting a component ----

  function SpawnRecorded(w: World, c: Component, launch: Option<Launch>): (World, Option<Record>, Option<Failure>) {
    var (spawned, pid) := Spawn(w, c, launch);
    if pid.None? then (spawned, None, Some(SpawnFailed))
    else
      var (now, identity) := ProbePid(spawned, pid.value);
      if identity.None? then (now, None, Some(ExitedAtOnce)) else (now, Some(Record(pid.value, identity.value)), None)
  }

  /** The recorded identity after the port answered: whatever has the PID now. */
  function Refreshed(live: Option<Identity>, s: RuntimeState, c: Component): RuntimeState {
    var r := RecordOf(s, c);
    if r.Some? && live.Some? then SetRecord(s, c, Some(Record(r.value.pid, live.value))) else s
  }

  predicate Alive(live: Option<Identity>, r: Record) { live.Some? && live.value.start == r.identity.start }

  function WaitForPort(w: World, s: RuntimeState, c: Component): (World, RuntimeState, Option<Failure>)
    decreases |w.future|
  {
    if w.future == [] || Head(w).late then (Tick(w), s, Some(TimedOut))
    else
      var answered, r := Tick(w), RecordOf(s, c);
      var (probed, live) := ProbeRecord(answered, r);
      if Head(w).yes then (probed, Refreshed(live, s, c), None)
      else if r.Some? && !Alive(live, r.value) then (probed, s, Some(DiedDuringStartup))
      else WaitForPort(probed, s, c)
  }

  /** Spawn, record, wait. */
  function StartUp(w: World, m: Manager, c: Component, launch: Option<Launch>): Run {
    var (spawned, record, failure) := SpawnRecorded(w, c, launch);
    if record.None? then Run(Settle(spawned), m, failure)
    else
      var (waited, state, failed) := WaitForPort(spawned, SetRecord(m.state, c, record), c);
      Run(Settle(waited), m.(state := state), failed)
  }

  function EnsureSpacetime(w: World, m: Manager, current: Status): Run {
    if Running(current) || current.External? then Run(w, m, None) else StartUp(w, m, Spacetime, None)
  }

  function EnsureGateway(w: World, m: Manager, current: Status, c: Credential): Run {
    if Running(current) then Run(w, m, None)
    else if current.External? then Run(w, m, Some(ForeignGateway))
    else
      var length := if Head(w).yes then |Head(w).text| else 0;
      StartUp(Tick(w), m.(logStart := length), Gateway, Some(Launch(m.bind, m.topology, c.token)))
  }

  // ---- up ----

  function RunAll(w: World, commands: seq<Command>): (World, bool)
    decreases |commands|
  {
    if commands == [] then (w, true)
    else
      var (now, worked) := RunCommand(w, commands[0]);
      if worked then RunAll(now, commands[1..]) else (now, false)
  }

  /** Who the next claim is made as: the credential itself, or whoever the `spacetime` CLI is logged in as
      when it is called; without a login it finds an identity of its own. */
  function Caller(w: World, c: Credential): nat {
    w.who(if IsServerIssued(c) then c.token
          else if CliToken(Tick(w)).Some? then CliToken(Tick(w)).value
          else Head(w).text)
  }

  function ClaimAll(w: World, dbs: seq<string>, c: Credential): (World, bool)
    decreases |dbs|
  {
    if dbs == [] then (w, true)
    else
      var (now, worked) := ClaimOn(w, dbs[0], Caller(w, c), c.token);
      if worked then ClaimAll(now, dbs[1..], c) else (now, false)
  }

  function Publishes(dbs: seq<string>): (r: seq<Command>)
    ensures |r| == |dbs|
  {
    seq(|dbs|, k requires 0 <= k < |dbs| => Publish(dbs[k]))
  }

  function Repairs(dbs: seq<string>): (r: seq<Command>)
    ensures |r| == |dbs|
  {
    seq(|dbs|, k requires 0 <= k < |dbs| => Repair(dbs[k]))
  }

  function Asked(m: Manager, bind: ClientBind, topology: Topology): Manager {
    Manager(m.state.(clientHost := Host(bind), topology := TopologyName(topology)), bind, topology, m.logStart)
  }

  /** From the credential to a running gateway. */
  function Operate(w: World, m: Manager, gateway: Status): Run {
    var dbs := Databases(m.topology);
    var (resolved, c) := ResolveOrMint(w);
    if c.None? then Run(resolved, m, Some(NoCredential))
    else
      var (claimed, all) := ClaimAll(resolved, dbs, c.value);
      if !all then Run(claimed, m, Some(ClaimRefused))
      else
        var (repaired, worked) := RunAll(claimed, Repairs(dbs) + [Provision]);
        if !worked then Run(repaired, m, Some(CommandFailed)) else EnsureGateway(repaired, m, gateway, c.value)
  }

  /** Reading the gateway log again until it names enough shards or the deadline passes. A file that
      cannot be read again leaves the text as it was. */
  function AwaitShards(w: World, start: nat, text: string, n: nat): (World, string)
    decreases |w.future|
  {
    if |ConnectedShards(text)| >= n then (w, text)
    else if w.future == [] || Head(w).late then (Tick(w), text)
    else AwaitShards(Tick(w), start, if Head(w).yes then ThisRun(Head(w).text, start) else text, n)
  }

  /** `verify_topology`. */
  function VerifyTopology(w: World, m: Manager): (World, bool) {
    var wanted := Databases(m.topology);
    var first := ThisRun(if Head(w).yes then Head(w).text else "", m.logStart);
    var (read, text) := AwaitShards(Tick(w), m.logStart, first, |wanted|);
    (read, Realised(text, wanted))
  }

  /** The state is saved before the topology is verified. */
  function Finish(w: World, m: Manager): Run {
    var (kept, saved) := Save(w, m.state);
    if !saved then Run(kept, m, Some(NotSaved))
    else
      var (read, realised) := VerifyTopology(kept, m);
      Run(read, m, if realised then None else Some(Collapsed))
  }

  function BringUp(w: World, m: Manager, spacetime: Status, gateway: Status): Run {
    var node := EnsureSpacetime(w, m, spacetime);
    if node.failure.Some? then node
    else
      var (built, worked) := RunAll(node.w, [BuildGateway, Preflight] + Publishes(Databases(node.m.topology)));
      if !worked then Run(built, node.m, Some(CommandFailed))
      else
        var served := Operate(built, node.m, gateway);
        if served.failure.Some? then served else Finish(served.w, served.m)
  }

  /** `up` once its directories are there. */
  function UpFrom(w: World, m: Manager, bind: ClientBind, topology: Topology): Run {
    var (w1, spacetime) := StatusFor(w, m, Spacetime);
    var (w2, running) := StatusFor(w1, m, Gateway);
    if Running(running) && m.bind != bind then Run(w2, m, Some(CannotRebind))
    else if Running(running) && m.topology != topology then Run(w2, m, Some(CannotReshard))
    else
      var asked := Asked(m, bind, topology);
      var (w3, gateway) := StatusFor(w2, asked, Gateway);
      if (spacetime.Healthy? || spacetime.External?) && gateway.Healthy? then Run(w3, asked, None)
      else BringUp(w3, asked, spacetime, gateway)
  }

  function Up(w: World, m: Manager, bind: ClientBind, topology: Topology): Run {
    if Head(w).yes then UpFrom(Tick(w), m, bind, topology) else Run(Tick(w), m, Some(NoDirectories))
  }

  // ---- down ----

  /** Waiting for a signalled process to exit and release its port. */
  function AwaitExit(w: World, pid: nat): World
    decreases |w.future|
  {
    var (probed, live) := ProbePid(w, pid);
    if w.future == [] then probed
    else if live.Some? then if Head(w).late then probed else AwaitExit(probed, pid)
    else if Head(probed).yes && !Head(probed).late then AwaitExit(Tick(probed), pid)
    else Tick(probed)
  }

  /** One component of `down`; the flag says that it was refused. */
  function StopOne(w: World, s: RuntimeState, c: Component, forget: bool)
    : (World, RuntimeState, Option<Failure>, bool)
  {
    var record := RecordOf(s, c);
    var (probed, live) := ProbeRecord(w, record);
    match Decide(record, live)
    case NothingRecorded => (probed, s, None, false)
    case AlreadyGone => (probed, SetRecord(s, c, None), None, false)
    case Stop =>
      var (sent, worked) := Terminate(probed, record.value);
      if !worked then (sent, s, Some(NotSignalled), false)
      else (Tick(AwaitExit(sent, record.value.pid)), SetRecord(s, c, None), None, false)
    case Refuse =>
      if forget then (probed, SetRecord(s, c, None), None, false) else (probed, s, None, true)
  }

  /** The bind belonged to the gateway that is gone. */
  function Unbound(m: Manager): Manager {
    if m.state.gateway.None? then m.(state := m.state.(clientHost := ""), bind := Loopback) else m
  }

  /** `failed` ends the run at once; `refusal` is the first component that was refused. */
  datatype Stopping = Stopping(w: World, state: RuntimeState, failed: Option<Failure>, refusal: Option<Failure>)

  function StopAll(at: Stopping, cs: seq<Component>, forget: bool): Stopping
    decreases |cs|
  {
    if cs == [] then at
    else
      var (w, s, failed, refused) := StopOne(at.w, at.state, cs[0], forget);
      if failed.Some? then Stopping(w, s, failed, at.refusal)
      else
        var refusal := if refused && at.refusal.None? then Some(ForeignProcess(cs[0])) else at.refusal;
        StopAll(Stopping(w, s, None, refusal), cs[1..], forget)
  }

  function Down(w: World, m: Manager, forget: bool): Run {
    var stopped := StopAll(Stopping(w, m.state, None, None), [Gateway, Spacetime], forget);
    if stopped.failed.Some? then Run(stopped.w, m.(state := stopped.state), stopped.failed)
    else
      var left := Unbound(m.(state := stopped.state));
      var (kept, saved) := Save(stopped.w, left.state);
      Run(kept, left, if saved then stopped.refusal else Some(NotSaved))
  }

  // ---- the manager ----

  class DevManager {
    const host: Machine
    var state: RuntimeState
    var bind: ClientBind
    var topology: Topology
    var logStart: nat

    constructor (host: Machine, state: RuntimeState)
      ensures this.host == host && View() == ManagerOf(state)
    {
      this.host := host;
      this.state := state;
      bind := FromRecorded(state.clientHost);
      topology := RecordedTopology(state.topology);
      logStart := 0;
    }

    function View(): Manager
      reads this
    {
      Manager(state, bind, topology, logStart)
    }

    method Identify(r: Option<Record>) returns (live: Option<Identity>)
      modifies host
      ensures (host.world, live) == ProbeRecord(old(host.world), r)
    {
      if r.None? {
        return None;
      }
      live := host.Probe(r.value.pid);
    }

    method ReadStatus(c: Component) returns (s: Status)
      modifies host
      ensures (host.world, s) == StatusFor(old(host.world), View(), c)
    {
      hide Tick, Classify;
      var record := RecordOf(state, c);
      var live := Identify(record);
      var answer := host.Observe();
      s := Classify(record, live, answer.yes);
    }

    method WaitUntilServing(c: Component) returns (failure: Option<Failure>)
      modifies host, `state
      ensures (host.world, state, failure) == WaitForPort(old(host.world), old(state), c)
    {
      hide Tick;
      ghost var all := WaitForPort(host.world, state, c);
      while host.world.future != []
        invariant state == old(state) && WaitForPort(host.world, state, c) == all
        decreases |host.world.future|
      {
        var answer := host.Observe();
        if answer.late {
          return Some(TimedOut);
        }
        var record := RecordOf(state, c);
        var live := Identify(record);
        if answer.yes {
          if record.Some? && live.Some? && live.value != record.value.identity {
            state := SetRecord(state, c, Some(Record(record.value.pid, live.value)));
          }
          return None;
        }
        if record.Some? && (live.None? || live.value.start != record.value.identity.start) {
          return Some(DiedDuringStartup);
        }
      }
      var _ := host.Observe();
      return Some(TimedOut);
    }

    method StartComponent(c: Component, launch: Option<Launch>) returns (failure: Option<Failure>)
      modifies host, `state
      ensures Run(host.world, View(), failure) == StartUp(old(host.world), old(View()), c, launch)
    {
      hide Tick, Spawn, WaitForPort;
      var pid := host.SpawnLogged(c, launch);
      if pid.None? {
        host.world := Settle(host.world);
        return Some(SpawnFailed);
      }
      var identity := host.Probe(pid.value);
      if identity.None? {
        host.world := Settle(host.world);
        return Some(ExitedAtOnce);
      }
      state := SetRecord(state, c, Some(Record(pid.value, identity.value)));
      failure := WaitUntilServing(c);
      host.world := Settle(host.world);
    }

    method RunCommands(commands: seq<Command>) returns (worked: bool)
      modifies host
      ensures (host.world, worked) == RunAll(old(host.world), commands)
    {
      hide RunCommand;
      ghost var all := RunAll(host.world, commands);
      for k := 0 to |commands|
        invariant RunAll(host.world, commands[k..]) == all
      {
        assert commands[k..][0] == commands[k] && commands[k..][1..] == commands[k + 1..];
        worked := host.RunAndWait(commands[k]);
        if !worked {
          return;
        }
      }
      return true;
    }

    method ClaimOperator(c: Credential) returns (worked: bool)
      modifies host
      ensures (host.world, worked) == ClaimAll(old(host.world), Databases(topology), c)
    {
      hide ClaimOn, Caller;
      var dbs := Databases(topology);
      ghost var all := ClaimAll(host.world, dbs, c);
      for k := 0 to |dbs|
        invariant ClaimAll(host.world, dbs[k..], c) == all
      {
        assert dbs[k..][0] == dbs[k] && dbs[k..][1..] == dbs[k + 1..];
        worked := host.CallClaim(dbs[k], Caller(host.world, c), c.token);
        if !worked {
          return;
        }
      }
      return true;
    }

    method ServeGateway(gateway: Status) returns (failure: Option<Failure>)
      modifies host, `state, `logStart
      ensures Run(host.world, View(), failure) == Operate(old(host.world), old(View()), gateway)
    {
      hide ResolveOrMint, ClaimAll, RunAll, StartUp, Repairs, Databases;
      var dbs := Databases(topology);
      var c := Resolve(host);
      if c.None? {
        return Some(NoCredential);
      }
      var claimed := ClaimOperator(c.value);
      if !claimed {
        return Some(ClaimRefused);
      }
      var repaired := RunCommands(Repairs(dbs) + [Provision]);
      if !repaired {
        return Some(CommandFailed);
      }
      if Running(gateway) {
        return None;
      }
      if gateway.External? {
        return Some(ForeignGateway);
      }
      var log := host.Observe();
      logStart := if log.yes then |log.text| else 0;
      failure := StartComponent(Gateway, Some(Launch(bind, topology, c.value.token)));
    }

    /** The log is read once, and again only while it names too few shards. */
    method VerifyRealised() returns (realised: bool)
      modifies host
      ensures (host.world, realised) == VerifyTopology(old(host.world), View())
    {
      hide Tick, ConnectedShards, ThisRun, Realised, Databases;
      var wanted := Databases(topology);
      var first := host.Observe();
      var text := ThisRun(if first.yes then first.text else "", logStart);
      ghost var all := AwaitShards(host.world, logStart, text, |wanted|);
      while |ConnectedShards(text)| < |wanted|
        invariant AwaitShards(host.world, logStart, text, |wanted|) == all
        decreases |host.world.future|
      {
        var more := host.world.future != [];
        var again := host.Observe();
        if !more || again.late {
          break;
        }
        if again.yes {
          text := ThisRun(again.text, logStart);
        }
      }
      return Realised(text, wanted);
    }

    method BringRealmUp(spacetime: Status, gateway: Status) returns (failure: Option<Failure>)
      modifies host, `state, `logStart
      ensures Run(host.world, View(), failure) == BringUp(old(host.world), old(View()), spacetime, gateway)
    {
      hide StartUp, RunAll, Operate, Save, Tick, Publishes, Databases, VerifyTopology;
      if !Running(spacetime) && !spacetime.External? {
        failure := StartComponent(Spacetime, None);
        if failure.Some? {
          return;
        }
      }
      var built := RunCommands([BuildGateway, Preflight] + Publishes(Databases(topology)));
      if !built {
        return Some(CommandFailed);
      }
      failure := ServeGateway(gateway);
      if failure.Some? {
        return;
      }
      var saved := host.SaveState(state);
      if !saved {
        return Some(NotSaved);
      }
      var realised := VerifyRealised();
      return if realised then None else Some(Collapsed);
    }

    method RunUp(bind: ClientBind, topology: Topology) returns (failure: Option<Failure>)
      modifies this, host
      ensures Run(host.world, View(), failure) == Up(old(host.world), old(View()), bind, topology)
    {
      hide StatusFor, BringUp, Tick;
      var made := host.Observe();
      if !made.yes {
        return Some(NoDirectories);
      }
      var spacetime := ReadStatus(Spacetime);
      var running := ReadStatus(Gateway);
      if Running(running) && this.bind != bind {
        return Some(CannotRebind);
      }
      if Running(running) && this.topology != topology {
        return Some(CannotReshard);
      }
      this.bind, this.topology := bind, topology;
      state := state.(clientHost := Host(bind), topology := TopologyName(topology));
      var gateway := ReadStatus(Gateway);
      if (spacetime.Healthy? || spacetime.External?) && gateway.Healthy? {
        return None;
      }
      failure := BringRealmUp(spacetime, gateway);
    }

    method WaitForExit(pid: nat)
      modifies host
      ensures host.world == AwaitExit(old(host.world), pid)
    {
      hide Tick;
      ghost var all := AwaitExit(host.world, pid);
      while host.world.future != []
        invariant AwaitExit(host.world, pid) == all
        decreases |host.world.future|
      {
        var late := Head(host.world).late;
        var live := host.Probe(pid);
        if live.Some? {
          if late {
            return;
          }
        } else {
          var answer := host.Observe();
          if !answer.yes || answer.late {
            return;
          }
        }
      }
      var _ := host.Observe();
    }

    method StopComponent(c: Component, forget: bool) returns (failure: Option<Failure>, refused: bool)
      modifies host, `state
      ensures (host.world, state, failure, refused) == StopOne(old(host.world), old(state), c, forget)
    {
      hide Tick, Terminate, AwaitExit;
      var record := RecordOf(state, c);
      var live := Identify(record);
      failure, refused := None, false;
      match Decide(record, live) {
        case NothingRecorded =>
        case AlreadyGone =>
          state := SetRecord(state, c, None);
        case Stop =>
          var sent := host.SendTerm(record.value);
          if !sent {
            return Some(NotSignalled), false;
          }
          WaitForExit(record.value.pid);
          var _ := host.Probe(record.value.pid);
          state := SetRecord(state, c, None);
        case Refuse =>
          if forget {
            state := SetRecord(state, c, None);
          } else {
            refused := true;
          }
      }
    }

    /** The gateway first; the first refusal is the one reported. */
    method RunDown(forget: bool) returns (failure: Option<Failure>)
      modifies this, host
      ensures Run(host.world, View(), failure) == Down(old(host.world), old(View()), forget)
    {
      hide StopOne, Save;
      var components := [Gateway, Spacetime];
      ghost var all := StopAll(Stopping(host.world, state, None, None), components, forget);
      var refusal: Option<Failure> := None;
      for k := 0 to 2
        invariant StopAll(Stopping(host.world, state, None, refusal), components[k..], forget) == all
        invariant bind == old(bind) && topology == old(topology) && logStart == old(logStart)
      {
        assert components[k..][0] == components[k] && components[k..][1..] == components[k + 1..];
        var failed, refused := StopComponent(components[k], forget);
        if failed.Some? {
          return failed;
        }
        if refused && refusal.None? {
          refusal := Some(ForeignProcess(components[k]));
        }
      }
      if state.gateway.None? {
        state := state.(clientHost := "");
        bind := Loopback;
      }
      var saved := host.SaveState(state);
      return if saved then refusal else Some(NotSaved);
    }
  }
}
