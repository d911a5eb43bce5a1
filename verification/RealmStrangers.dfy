/** Two histories from an untouched machine in which `down` signals a process that this CLI never spawned:
    once because the recorded gateway exits, and its PID is taken, between the look and the signal; and once
    because the node's PID was taken while the node was being started, so that the stranger was recorded. */
module RealmStrangers {
  import opened ClientAddress
  import opened RealmWorld
  import opened Credentials
  import opened Realm
  import opened RealmMoves
  import opened RealmRuns
  import opened RealmSchedules
  import opened RealmSignals
  import opened RealmWavering
  import opened Text

  // ---- a signal that comes too late ----

  const STRANGER := Record(7, Identity(9, "other"))
  const TAKEN := QUIET.(events := [Exit(7), Start(7, 9, "other")])
  const LATE := RunDown(false, [QUIET] + [TAKEN])

  lemma GatewayIsReplaced(w: World, rest: seq<Turn>)
    requires w.future == [TAKEN] + rest && w.procs == map[7 := GATEWAY.identity]
    requires Key(STRANGER) !in w.seen && w.starting.None?
    ensures Live(Tick(w), 7) == Some(STRANGER.identity)
  {
    var v := w.(future := rest);
    assert w.future[0] == TAKEN && w.future[1..] == rest;
    var gone := Apply(v, Exit(7));
    assert TAKEN.events[1..] == [Start(7, 9, "other")] && TAKEN.events[1..][1..] == [];
    assert ApplyAll(v, TAKEN.events) == Apply(gone, Start(7, 9, "other"));
  }

  /** The gateway that was looked at is not the process that gets the signal. */
  lemma LateSignalReachesStranger(who: string -> nat)
    ensures var u := RealmWavering.Start(who);
      var v := Do(u, FIRST);
      var x, a := Do(v, LATE), Signal(7, Some(STRANGER.identity), GATEWAY.identity);
      && IsRun([u, v, x], [FIRST, LATE]) && !Calm(v, LATE)
      && a in x.acts && !Reached(a) && Key(STRANGER) !in x.ours
  {
    hide Do, Calm, FirstTurns, Served;
    var u := RealmWavering.Start(who);
    var v := Do(u, FIRST);
    FreshIsUntouched(who, None, Some(TOKEN));
    TwoRuns(u, FIRST, LATE);
    FirstServes(who);
    LateSignals(v, who);
    DoReaches(v, LATE);
  }

  lemma LateSignals(v: World, who: string -> nat)
    requires Served(v, who)
    ensures var x, a := Do(v, LATE), Signal(7, Some(STRANGER.identity), GATEWAY.identity);
      a in x.acts && !Reached(a) && !AllReached(x.acts) && Key(STRANGER) !in x.ours && !Calm(v, LATE)
  {
    hide Down, Tick, StopOne, Host, FromRecorded, CalmFor;
    var w, m := v.(future := LATE.future), ManagerOf(SavedState());
    DownSignalsOnly(w, m, false);
    Passes(w, QUIET, [TAKEN]);
    var probed := Tick(w);
    assert probed.future == [TAKEN] + [];
    GatewayIsReplaced(probed, []);
    var a := Signal(7, Some(STRANGER.identity), GATEWAY.identity);
    assert Signals(w, SavedState(), Gateway) == [a];
    var signals, x := DownSignals(w, SavedState(), false), Do(v, LATE);
    assert signals[0] == a && x.acts[|v.acts|] == a;
    SignalReaches(w, SavedState(), Gateway);
    assert !AllReached([a]) by { assert [a][0] == a && !Reached(a); }
  }

  // ---- a stranger that was recorded ----

  const NODE := Record(5, Identity(1, "node"))
  const THIEF := Record(5, Identity(2, "other"))

  /** The spawn, the exit before the first identity is read, the port's answer, the settled identity. */
  const SPAWNED := QUIET.(yes := true, process := NODE)
  const STOLEN := QUIET.(events := [Exit(5), Start(5, 2, "other")])

  function NodeTurns(rest: seq<Turn>): seq<Turn> { [SPAWNED] + ([STOLEN] + ([YES] + ([QUIET] + rest))) }

  function Rest(): seq<Turn> { Yeses(3) + ([YES] + (Yeses(2) + (STARTING + [YES]))) }

  /** The directories, no node, no gateway, and none under the bind asked for. */
  function AdoptTurns(): seq<Turn> { [YES] + ([QUIET] + ([QUIET] + ([QUIET] + NodeTurns(Rest())))) }

  const ADOPT := RunUp(Loopback, Single, AdoptTurns())
  const STOP := RunDown(false, [BLIND] + [QUIET])

  function Recycling(who: string -> nat): World { Fresh(who, None, Some(TOKEN)).(recycles := true) }

  /** The machine once the thief has the PID. */
  function Robbed(w: World, rest: seq<Turn>): World {
    Settle(Born(w, Spacetime, None, NODE).(
             procs := w.procs[5 := THIEF.identity], seen := w.seen + {Key(NODE)} + {Key(THIEF)}, future := rest))
  }

  lemma ThiefTakesOver(w: World, rest: seq<Turn>)
    requires w.future == [STOLEN] + rest && w.recycles && 5 in w.procs && Key(THIEF) !in w.seen
    ensures Tick(w) == w.(procs := w.procs[5 := THIEF.identity], seen := w.seen + {Key(THIEF)}, future := rest)
  {
    var v := w.(future := rest);
    assert w.future[0] == STOLEN && w.future[1..] == rest;
    var gone := Apply(v, Exit(5));
    assert STOLEN.events[1..] == [Start(5, 2, "other")] && STOLEN.events[1..][1..] == [];
    assert ApplyAll(v, STOLEN.events) == Apply(gone, Start(5, 2, "other"));
    assert gone.procs[5 := THIEF.identity] == w.procs[5 := THIEF.identity];
  }

  lemma NodeIsAdopted(w: World, m: Manager, rest: seq<Turn>)
    requires w.future == NodeTurns(rest) && w.recycles && w.starting.None?
    requires 5 !in w.procs && Key(NODE) !in w.seen && Key(THIEF) !in w.seen
    ensures StartUp(w, m, Spacetime, None) ==
      Run(Robbed(w, rest), m.(state := m.state.(spacetime := Some(THIEF))), None)
  {
    hide Tick;
    var after3 := [QUIET] + rest;
    var after2 := [YES] + after3;
    var after1 := [STOLEN] + after2;
    Passes(w, SPAWNED, after1);
    var born := Born(w.(future := after1), Spacetime, None, NODE);
    assert Spawn(w, Spacetime, None) == (born, Some(5));
    ThiefTakesOver(born, after2);
    var first := Tick(born);
    assert SpawnRecorded(w, Spacetime, None) == (first, Some(THIEF), None);
    Passes(first, YES, after3);
    var answered := first.(future := after3);
    Passes(answered, QUIET, rest);
    var s := SetRecord(m.state, Spacetime, Some(THIEF));
    assert WaitForPort(first, s, Spacetime) == (answered.(future := rest), s, None);
    assert born.procs[5 := THIEF.identity] == w.procs[5 := THIEF.identity];
  }

  lemma AdoptingUp(w: World)
    requires w.future == AdoptTurns()
    ensures Up(w, ManagerOf(EMPTY), Loopback, Single) ==
      BringUp(w.(future := NodeTurns(Rest())), Asking(), Stopped, Stopped)
  {
    hide Tick, BringUp, StatusFor, Host, FromRecorded, NodeTurns, Rest;
    var m, t4 := ManagerOf(EMPTY), NodeTurns(Rest());
    var t3 := [QUIET] + t4;
    var t2 := [QUIET] + t3;
    Passes(w, YES, [QUIET] + t2);
    LooksForNobody(w.(future := [QUIET] + t2), m, Spacetime, QUIET, t2);
    LooksForNobody(w.(future := t2), m, Gateway, QUIET, t3);
    LooksForNobody(w.(future := t3), Asking(), Gateway, QUIET, t4);
  }

  function AdoptedState(): RuntimeState { RuntimeState(Some(THIEF), Some(GATEWAY), "single", Host(Loopback)) }

  /** After the run that adopts. */
  predicate Adopted(w: World) {
    && w.disk == Saved(AdoptedState()) && w.starting.None?
    && Live(w, 5) == Some(THIEF.identity) && w.ours == {Key(NODE), Key(GATEWAY)}
  }

  lemma AdoptPlays(who: string -> nat)
    ensures Adopted(Do(Recycling(who), ADOPT))
  {
    hide Up, BringUp, ResolveOrMint, ClaimAll, RunAll, Yeses, AdoptTurns, FromRecorded, Host, Asking, Publishes,
      StartUp;
    var w := Recycling(who).(future := AdoptTurns());
    AdoptingUp(w);
    var begun := w.(future := NodeTurns(Rest()));
    AskingIs();
    NodeIsAdopted(begun, Asking(), Rest());
    var robbed := Robbed(begun, Rest());
    BuildPasses(robbed, [YES] + (Yeses(2) + (STARTING + [YES])));
    var c, built := Credential(TOKEN, Persisted), Built(robbed);
    TokenIsKept(built);
    ClaimWorks(built, c, YES, Yeses(2) + (STARTING + [YES]));
    var v := ClaimAll(built, [DB], c).0;
    assert Unborn(v);
    RunServes(begun, Asking(), Stopped, [YES], c, v);
  }

  lemma StopPlays(v: World)
    requires Adopted(v)
    ensures var x, a := Do(v, STOP), Signal(5, Some(THIEF.identity), THIEF.identity);
      a in x.acts && Key(THIEF) !in x.ours
  {
    hide Down, Tick, Host, FromRecorded, AwaitExit;
    var w, m := v.(future := STOP.future), ManagerOf(AdoptedState());
    DownSignalsOnly(w, m, false);
    Passes(w, BLIND, [QUIET]);
    var w1, s1 := w.(future := [QUIET]), SetRecord(AdoptedState(), Gateway, None);
    assert StopOne(w, AdoptedState(), Gateway, false) == (w1, s1, None, false);
    assert [QUIET] == [QUIET] + [];
    Passes(w1, QUIET, []);
    var probed := w1.(future := []);
    NothingComes(probed);
    var a := Signal(5, Some(THIEF.identity), THIEF.identity);
    assert Signals(w1, s1, Spacetime) == [a];
    assert Signals(w, AdoptedState(), Gateway) == [];
    assert DownSignals(w, AdoptedState(), false)[0] == a && Do(v, STOP).acts[|v.acts|] == a;
  }

  lemma NothingComes(w: World)
    requires w.future == []
    ensures Tick(w) == w
  {
  }

  /** Two runs that keep to every rule, on a machine that recycles PIDs, signal a process that is not ours. */
  lemma StrangerIsSignalled(who: string -> nat)
    ensures var u := Recycling(who);
      var v := Do(u, ADOPT);
      var x, a := Do(v, STOP), Signal(5, Some(THIEF.identity), THIEF.identity);
      && IsRun([u, v, x], [ADOPT, STOP])
      && a in x.acts && Key(THIEF) !in x.ours
  {
    hide Do, AdoptTurns, Adopted;
    var u := Recycling(who);
    var v := Do(u, ADOPT);
    FreshIsUntouched(who, None, Some(TOKEN));
    TwoRuns(u, ADOPT, STOP);
    AdoptPlays(who);
    StopPlays(v);
  }
}
