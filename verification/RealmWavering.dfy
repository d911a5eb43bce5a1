/** The history behind `RealmAgreement.WaveringMisleads`, played out from an untouched machine: a first `up`
    starts a gateway on loopback; then `ps` cannot be run when `up --lan` first looks for that gateway, and
    can be a moment later. */
module RealmWavering {
  import opened ClientAddress
  import opened RealmWorld
  import opened Credentials
  import opened Realm
  import opened RealmSafety
  import opened RealmRuns
  import opened RealmAgreement
  import opened RealmSchedules
  import opened Text

  const LAN := Lan(Ip(10, 0, 0, 1))
  const BLIND := QUIET.(blind := true)

  /** The directories, the node's port, the blind probe and the old port, the second probe and the new port;
      building and publishing, the claim, the two calls, and the save. */
  function WaveringTurns(): seq<Turn> { [YES] + ([YES] + ([BLIND] + ([QUIET] + ([QUIET] + ([QUIET] + LastTurns()))))) }

  function LastTurns(): seq<Turn> { Yeses(3) + ([YES] + (Yeses(2) + [YES])) }

  const FIRST := RunUp(Loopback, Single, FirstTurns([YES]))
  const SECOND := RunUp(LAN, Single, WaveringTurns())

  function Start(who: string -> nat): World { Fresh(who, None, Some(TOKEN)) }

  /** After the first run. */
  ghost predicate Served(w: World, who: string -> nat) {
    && w.disk == Saved(SavedState()) && w.starting.None? && w.who == who && w.store == Some(TOKEN)
    && w.procs == map[GATEWAY.pid := GATEWAY.identity] && w.operators == map[DB := who(TOKEN)]
    && w.seen == {Key(GATEWAY)} && w.ours == {Key(GATEWAY)}
  }

  lemma FirstServes(who: string -> nat)
    ensures Served(Do(Start(who), FIRST), who)
  {
    hide Up, BringUp, ResolveOrMint, ClaimAll, RunAll, Yeses, FirstTurns, FromRecorded, Host, Asking, Publishes;
    var rest := Yeses(2) + (STARTING + [YES]);
    var w := Start(who).(future := FirstTurns([YES]));
    FirstUpBrings(w, [YES]);
    var begun := w.(future := Yeses(3) + ([YES] + rest));
    BuildPasses(begun, [YES] + rest);
    var c, built := Credential(TOKEN, Persisted), Built(begun);
    TokenIsKept(built);
    ClaimWorks(built, c, YES, rest);
    var v := ClaimAll(built, [DB], c).0;
    assert Unborn(v);
    FirstUpServes(begun, [YES], c, v);
  }

  lemma Looks(w: World, m: Manager)
    requires m.state == SavedState() && w.future == WaveringTurns() && Live(w, 7) == Some(GATEWAY.identity)
    ensures Head(w).yes
    ensures FirstLook(Tick(w), m) == Unhealthy(true) && SecondLook(Tick(w), m, LAN, Single) == Starting
    ensures Up(w, m, LAN, Single) == BringUp(w.(future := LastTurns()), Asked(m, LAN, Single), External, Starting)
  {
    hide Tick, BringUp, StatusFor, Host, FromRecorded, LastTurns;
    var t6 := LastTurns();
    var t5 := [QUIET] + t6;
    var t4 := [QUIET] + t5;
    var t3 := [QUIET] + t4;
    var t2 := [BLIND] + t3;
    Passes(w, YES, [YES] + t2);
    LooksForNobody(w.(future := [YES] + t2), m, Spacetime, YES, t2);
    LooksForGateway(w.(future := t2), m, BLIND, QUIET, t4);
    LooksForGateway(w.(future := t4), Asked(m, LAN, Single), QUIET, QUIET, t6);
  }

  /** The gateway that was found is kept. */
  lemma BringUpKeeps(w: World, m: Manager)
    requires w.future == LastTurns() && w.store == Some(TOKEN) && w.operators == map[DB := w.who(TOKEN)]
    requires m.topology == Single
    ensures var r := BringUp(w, m, External, Starting); r.failure.None? && r.w.disk == Saved(m.state)
  {
    hide RunAll, ResolveOrMint, ClaimAll, Finish, Repairs, Publishes, Yeses;
    BuildPasses(w, [YES] + (Yeses(2) + [YES]));
    var c, built := Credential(TOKEN, Persisted), Built(w);
    TokenIsKept(built);
    ClaimWorks(built, c, YES, Yeses(2) + [YES]);
    var claimed := ClaimAll(built, [DB], c).0;
    RepairsPass(claimed, [YES]);
    FinishSaves(RunAll(claimed, Repairs([DB]) + [Provision]).0, m);
  }

  lemma BindsRoundTrip()
    ensures FromRecorded(Host(Loopback)) == Loopback && FromRecorded(Host(LAN)) == LAN
    ensures Askable(LAN) && Askable(Loopback)
  {
    hide FromRecorded, Host;
    AskableMeans(LAN);
    RecordedBindRoundTrips(LAN);
    AskableMeans(Loopback);
    RecordedBindRoundTrips(Loopback);
  }

  lemma SecondIsMisled(w: World, who: string -> nat)
    requires Served(w, who)
    ensures Misleads(w, SECOND)
    ensures Up(w.(future := WaveringTurns()), ManagerOf(SavedState()), LAN, Single).failure.None?
  {
    hide Up, BringUp, FromRecorded, Host, WaveringTurns, LastTurns, FirstLook, SecondLook, Tick, Askable;
    var v, m := w.(future := WaveringTurns()), ManagerOf(SavedState());
    BindsRoundTrip();
    assert m.state == SavedState();
    Looks(v, m);
    BringUpKeeps(v.(future := LastTurns()), Asked(m, LAN, Single));
    assert Asked(m, LAN, Single).state.clientHost != SavedState().clientHost;
  }

  /** From an untouched machine, two runs that both succeed leave a state that disagrees with the gateway. */
  lemma WaveringHappens(who: string -> nat)
    ensures var u := Start(who);
      var v := Do(u, FIRST);
      var x, steps := Do(v, SECOND), [FIRST, SECOND];
      && IsRun([u, v, x], steps) && AllAskable(steps)
      && DiskAgrees(v) && Misleads(v, SECOND) && !DiskAgrees(x)
      && v.disk.Saved? && Up(v.(future := SECOND.future), ManagerOf(v.disk.state), LAN, Single).failure.None?
  {
    hide Do, Misleads, DiskAgrees, Askable, Served, Up, Untouched, FirstTurns, WaveringTurns;
    var u := Start(who);
    FreshIsUntouched(who, None, Some(TOKEN));
    TwoRuns(u, FIRST, SECOND);
    BindsRoundTrip();
    FirstServes(who);
    ServedIs(Do(u, FIRST), who);
    SecondIsMisled(Do(u, FIRST), who);
    SecondDisagrees(u);
  }

  lemma SecondDisagrees(u: World)
    requires Untouched(u) && !u.recycles && Misleads(Do(u, FIRST), SECOND)
    ensures DiskAgrees(Do(u, FIRST)) && !DiskAgrees(Do(Do(u, FIRST), SECOND))
  {
    hide Do, Misleads, Askable, Sound, Agrees, FirstTurns, WaveringTurns;
    UntouchedSound(u);
    BindsRoundTrip();
    NothingMisleads(u, FIRST);
    DoSound(u, FIRST);
    DoAgrees(u, FIRST);
    DoAgrees(Do(u, FIRST), SECOND);
  }

  lemma ServedIs(w: World, who: string -> nat)
    requires Served(w, who)
    ensures w.disk == Saved(SavedState())
  {
  }

  lemma NothingMisleads(w: World, step: Step)
    requires !w.disk.Saved?
    ensures !Misleads(w, step)
  {
  }
}
