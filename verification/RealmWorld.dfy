/** The machine that `dev up` and `dev down` run against: processes that exit, exec and start on their
    own, a database node whose operators are claimed once, the CLI's login, and the state file. Every
    observation the program makes first lets one turn of the environment pass. */
module RealmWorld {
  import opened Text
  import opened ClientAddress

  datatype Component = Spacetime | Gateway

  datatype Topology = Sharded | Single

  function Databases(t: Topology): seq<string> {
    if t.Single? then ["lyracore"] else ["lyracore", "lyracore-kalimdor", "lyracore-instances", "lyracore-realm"]
  }

  function TopologyName(t: Topology): string { if t.Single? then "single" else "sharded" }

  function RecordedTopology(s: string): Topology { if s == "single" then Single else Sharded }

  /** Two processes never share a PID and a start signature; `comm` changes when a process execs. */
  datatype Identity = Identity(start: nat, comm: string)

  datatype Record = Record(pid: nat, identity: Identity)

  function Key(r: Record): (nat, nat) { (r.pid, r.identity.start) }

  datatype RuntimeState = RuntimeState(
    spacetime: Option<Record>, gateway: Option<Record>, topology: string, clientHost: string)

  const EMPTY := RuntimeState(None, None, "", "")

  function RecordOf(s: RuntimeState, c: Component): Option<Record> {
    if c.Spacetime? then s.spacetime else s.gateway
  }

  function SetRecord(s: RuntimeState, c: Component, r: Option<Record>): RuntimeState {
    if c.Spacetime? then s.(spacetime := r) else s.(gateway := r)
  }

  /** `RuntimeState::load`. */
  datatype Disk = Absent | Corrupt | Saved(state: RuntimeState)

  /** How a gateway was started. */
  datatype Launch = Launch(bind: ClientBind, topology: Topology, token: string)

  datatype Command = BuildGateway | Preflight | Publish(db: string) | Repair(db: string) | Provision

  /** What the CLI has done to the machine: also which claim has worked, as whom it was made, and for which
      token. */
  datatype Action =
    | Signal(pid: nat, live: Option<Identity>, recorded: Identity)
    | Started(c: Component, key: (nat, nat))
    | Ran(command: Command)
    | Claimed(db: string, caller: nat, token: string)

  datatype Event =
    | Exit(pid: nat)
    | Exec(pid: nat, comm: string)
    | Start(pid: nat, start: nat, comm: string)
    | Claim(db: string, caller: nat)

  /** Changes to the credentials on the machine: the `spacetime` login and the token file. */
  datatype Account = LogIn(banner: Option<string>) | Store(content: Option<string>)

  /** What happens before an observation, and how it comes out: what the probe or command answers, whether
      `ps` cannot be run, whether the deadline has passed, and the process or text it yields. */
  datatype Turn = Turn(
    events: seq<Event>, accounts: seq<Account>, yes: bool, blind: bool, late: bool, process: Record, text: string)

  const QUIET := Turn([], [], false, false, true, Record(0, Identity(0, "")), "")

  /** `seen` are the processes there have ever been, `ours` those this CLI spawned, `starting` the one it
      is waiting for. `recycles` says that the system may give the PID of that one to another process
      meanwhile. `who` is the identity behind a token. */
  datatype World = World(
    procs: map<nat, Identity>, seen: set<(nat, nat)>, ours: set<(nat, nat)>, launches: map<(nat, nat), Launch>,
    starting: Option<(nat, nat)>, recycles: bool, operators: map<string, nat>, who: string -> nat,
    login: Option<string>, store: Option<string>, disk: Disk, acts: seq<Action>, future: seq<Turn>)

  function Live(w: World, pid: nat): Option<Identity> {
    if pid in w.procs then Some(w.procs[pid]) else None
  }

  predicate MayStart(w: World, pid: nat, start: nat) {
    pid !in w.procs && (pid, start) !in w.seen && (w.starting.Some? && w.starting.value.0 == pid ==> w.recycles)
  }

  function Apply(w: World, e: Event): World {
    match e
    case Exit(pid) => w.(procs := w.procs - {pid})
    case Exec(pid, comm) =>
      if pid in w.procs then w.(procs := w.procs[pid := Identity(w.procs[pid].start, comm)]) else w
    case Start(pid, start, comm) =>
      if MayStart(w, pid, start)
      then w.(procs := w.procs[pid := Identity(start, comm)], seen := w.seen + {(pid, start)}) else w
    case Claim(db, caller) =>
      if db in w.operators then w else w.(operators := w.operators[db := caller])
  }

  function ApplyAll(w: World, events: seq<Event>): (r: World)
    ensures r.future == w.future
    decreases |events|
  {
    if events == [] then w else ApplyAll(Apply(w, events[0]), events[1..])
  }

  function Alter(w: World, accounts: seq<Account>): (r: World)
    ensures r.future == w.future
    decreases |accounts|
  {
    if accounts == [] then w
    else
      var next := match accounts[0]
        case LogIn(banner) => w.(login := banner)
        case Store(content) => w.(store := content);
      Alter(next, accounts[1..])
  }

  function Head(w: World): Turn { if w.future == [] then QUIET else w.future[0] }

  /** One turn passes. */
  function Tick(w: World): (r: World)
    ensures r.future == if w.future == [] then [] else w.future[1..]
  {
    if w.future == [] then w
    else Alter(ApplyAll(w.(future := w.future[1..]), w.future[0].events), w.future[0].accounts)
  }

  /** Who has the PID, as far as `ps` tells: nobody, too, when `ps` cannot be run. */
  function ProbePid(w: World, pid: nat): (World, Option<Identity>) {
    (Tick(w), if Head(w).blind then None else Live(Tick(w), pid))
  }

  function Log(w: World, a: Action): World { w.(acts := w.acts + [a]) }

  function Born(w: World, c: Component, launch: Option<Launch>, p: Record): World {
    Log(w.(procs := w.procs[p.pid := p.identity],
           seen := w.seen + {Key(p)},
           ours := w.ours + {Key(p)},
           launches := if launch.Some? then w.launches[Key(p) := launch.value] else w.launches,
           starting := Some(Key(p))), Started(c, Key(p)))
  }

  /** A spawned process has a PID that is free and a start signature of its own. */
  function Spawn(w: World, c: Component, launch: Option<Launch>): (World, Option<nat>) {
    var p, now := Head(w).process, Tick(w);
    if Head(w).yes && p.pid !in now.procs && Key(p) !in now.seen
    then (Born(now, c, launch, p), Some(p.pid)) else (now, None)
  }

  /** The end of startup polling. */
  function Settle(w: World): World { w.(starting := None) }

  /** The signal goes to whatever has the PID when it is sent, a turn after the PID was looked at. */
  function Terminate(w: World, r: Record): (World, bool) {
    var now := Tick(w);
    var sent := Log(now, Signal(r.pid, Live(now, r.pid), r.identity));
    (Tick(sent), Head(sent).yes)
  }

  function RunCommand(w: World, c: Command): (World, bool) { (Tick(Log(w, Ran(c))), Head(w).yes) }

  /** The first claim of a database's operator wins; claiming it again as the same identity is fine. */
  function ClaimOn(w: World, db: string, caller: nat, token: string): (World, bool) {
    var now := Tick(w);
    if Head(w).yes && (db in now.operators ==> now.operators[db] == caller)
    then (Log(now.(operators := now.operators[db := caller]), Claimed(db, caller, token)), true) else (now, false)
  }

  /** The state file is replaced whole or not at all. */
  function Save(w: World, s: RuntimeState): (World, bool) {
    var now := Tick(w);
    if Head(w).yes then (now.(disk := Saved(s)), true) else (now, false)
  }

  /** The machine as the program handles it. */
  class Machine {
    var world: World

    constructor (world: World)
      ensures this.world == world
    {
      this.world := world;
    }

    method Probe(pid: nat) returns (identity: Option<Identity>)
      modifies this
      ensures (world, identity) == ProbePid(old(world), pid)
    {
      var p := ProbePid(world, pid);
      world, identity := p.0, p.1;
    }

    /** A port probe, an answer over HTTP, or the output of a command. */
    method Observe() returns (answer: Turn)
      modifies this
      ensures world == Tick(old(world)) && answer == Head(old(world))
    {
      answer := Head(world);
      world := Tick(world);
    }

    method SpawnLogged(c: Component, launch: Option<Launch>) returns (pid: Option<nat>)
      modifies this
      ensures (world, pid) == Spawn(old(world), c, launch)
    {
      var r := Spawn(world, c, launch);
      world, pid := r.0, r.1;
    }

    method SendTerm(r: Record) returns (sent: bool)
      modifies this
      ensures (world, sent) == Terminate(old(world), r)
    {
      var t := Terminate(world, r);
      world, sent := t.0, t.1;
    }

    method RunAndWait(c: Command) returns (worked: bool)
      modifies this
      ensures (world, worked) == RunCommand(old(world), c)
    {
      var r := RunCommand(world, c);
      world, worked := r.0, r.1;
    }

    method CallClaim(db: string, caller: nat, token: string) returns (worked: bool)
      modifies this
      ensures (world, worked) == ClaimOn(old(world), db, caller, token)
    {
      var r := ClaimOn(world, db, caller, token);
      world, worked := r.0, r.1;
    }

    method SaveState(s: RuntimeState) returns (worked: bool)
      modifies this
      ensures (world, worked) == Save(old(world), s)
    {
      var r := Save(world, s);
      world, worked := r.0, r.1;
    }
  }
}
