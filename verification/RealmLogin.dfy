/** A login that changes between the resolution of the credential and the claim, played out from an
    untouched machine: the first `up` resolves the token of one login, claims through the CLI, which
    somebody has logged in anew meanwhile, and starts a gateway that is not the operator. */
module RealmLogin {
  import opened Text
  import opened ClientAddress
  import opened RealmWorld
  import opened Credentials
  import opened Realm
  import opened RealmOperator
  import opened RealmRuns
  import opened RealmSafety
  import opened RealmSchedules

  /** What `spacetime login show --token` prints, up to the token. */
  const BANNER := "auth token "
  const OTHER := "fedcba9876543210"
  const SWITCH := YES.(accounts := [LogIn(Some(BANNER + OTHER))])

  /** The turn that shows the login, and the one that claims. */
  const CREDENTIAL: seq<Turn> := [YES] + [SWITCH]
  const STEP := RunUp(Loopback, Single, FirstTurns(CREDENTIAL))

  function Start(who: string -> nat): World { Fresh(who, Some(BANNER + TOKEN), None) }

  lemma {:induction false} WordStartIs(s: string, k: nat)
    requires k <= |s| && (k > 0 ==> IsSpace(s[k - 1])) && forall j :: k <= j < |s| ==> !IsSpace(s[j])
    ensures WordStart(s) == k
    decreases |s|
  {
    if k < |s| {
      WordStartIs(s[..|s| - 1], k);
    }
  }

  lemma {:induction false} NoNewline(s: string, i: nat)
    requires i <= |s| && forall j :: i <= j < |s| ==> s[j] != '\n'
    ensures LineEnd(s, i) == |s|
    decreases |s| - i
  {
    if i < |s| {
      NoNewline(s, i + 1);
    }
  }

  lemma BannerIsParsed(token: string)
    requires |token| >= MIN_TOKEN_LEN && forall k :: 0 <= k < |token| ==> !IsSpace(token[k])
    ensures Parse(BANNER + token) == Some(token)
  {
    hide LineEnd, TrimEnd, WordStart, ByteLen, Find, MatchesAt;
    var s := BANNER + token;
    BannerHolds(token);
    NoNewline(s, 0);
    assert Lines(s) == [s] && TokenLine([s]) == Some(s);
    WordStartIs(s, |BANNER|);
    assert s[|BANNER|..] == token;
    assert TrimEnd(s) == s by { assert !IsSpace(s[|s| - 1]); }
  }

  lemma BannerHolds(token: string)
    requires forall k :: 0 <= k < |token| ==> !IsSpace(token[k])
    ensures var s := BANNER + token;
      Contains(s, "auth token") && IsSpace(s[|BANNER| - 1]) && forall k :: 0 <= k < |s| ==> s[k] != '\n'
  {
    var s := BANNER + token;
    assert s[..10] == "auth token";
    assert MatchesAt(s, 0, "auth token");
  }

  lemma TokensAreShown()
    ensures Parse(BANNER + TOKEN) == Some(TOKEN) && Parse(BANNER + OTHER) == Some(OTHER)
  {
    hide Parse;
    assert forall k :: 0 <= k < 16 ==> !IsSpace(TOKEN[k]) && !IsSpace(OTHER[k]);
    BannerIsParsed(TOKEN);
    BannerIsParsed(OTHER);
  }

  /** The login is resolved by one turn. */
  lemma LoginResolves(w: World, rest: seq<Turn>)
    requires w.store.None? && w.login == Some(BANNER + TOKEN) && w.future == [YES] + rest
    ensures ResolveOrMint(w) == (w.(future := rest), Some(Credential(TOKEN, SpacetimeLogin)))
  {
    hide Tick, Parse, Persist;
    Passes(w, YES, rest);
    TokensAreShown();
  }

  lemma SwitchedCaller(w: World, rest: seq<Turn>)
    requires w.future == [SWITCH] + rest
    ensures Caller(w, Credential(TOKEN, SpacetimeLogin)) == w.who(OTHER)
  {
    hide Tick, Parse;
    Passes(w, SWITCH, rest);
    TokensAreShown();
    var v := w.(future := rest);
    assert SWITCH.accounts[0] == LogIn(Some(BANNER + OTHER)) && SWITCH.accounts[1..] == [];
    assert Alter(v, SWITCH.accounts) == v.(login := Some(BANNER + OTHER));
  }

  /** The run succeeds, and its gateway's token is not the operator's. */
  lemma SwitchedLoginLosesOperator(who: string -> nat)
    requires who(TOKEN) != who(OTHER)
    ensures var u := Start(who);
      var v := Do(u, STEP);
      && IsRun([u, v], [STEP]) && Key(GATEWAY) in v.launches
      && DB in Databases(v.launches[Key(GATEWAY)].topology) && v.launches[Key(GATEWAY)].token == TOKEN
      && DB in v.operators && v.operators[DB] == who(OTHER) != v.who(TOKEN)
      && !ClaimedAsItself(v, DB, TOKEN)
  {
    hide Do, Sound, ClaimedAsItself, FirstTurns;
    var u := Start(who);
    var v := Do(u, STEP);
    FreshIsUntouched(who, Some(BANNER + TOKEN), None);
    assert Follows(u, STEP, v);
    assert IsRun([u, v], [STEP]);
    SwitchPlays(who);
    EveryGatewayOperates([u, v], [STEP], 1, Key(GATEWAY), DB);
  }

  lemma SwitchPlays(who: string -> nat)
    ensures var v := Do(Start(who), STEP);
      && v.launches == map[Key(GATEWAY) := Launch(Loopback, Single, TOKEN)]
      && v.operators == map[DB := who(OTHER)] && v.who == who
  {
    hide Up, BringUp, ResolveOrMint, ClaimAll, RunAll, Yeses, FirstTurns, FromRecorded, Host, Asking, Publishes, Parse,
      Alter, Caller;
    var rest := Yeses(2) + (STARTING + [YES]);
    var w := Start(who).(future := FirstTurns(CREDENTIAL));
    FirstUpBrings(w, CREDENTIAL);
    var begun := w.(future := Yeses(3) + (CREDENTIAL + rest));
    BuildPasses(begun, CREDENTIAL + rest);
    var c, built := Credential(TOKEN, SpacetimeLogin), Built(begun);
    assert built.future == [YES] + ([SWITCH] + rest);
    LoginResolves(built, [SWITCH] + rest);
    var resolved := built.(future := [SWITCH] + rest);
    SwitchedCaller(resolved, rest);
    ClaimWorks(resolved, c, SWITCH, rest);
    AlterKeeps(resolved.(future := rest), SWITCH.accounts);
    var v := ClaimAll(resolved, [DB], c).0;
    assert Unborn(v);
    FirstUpServes(begun, CREDENTIAL, c, v);
  }
}
