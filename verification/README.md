# LyraCore CLI: models and proofs

A Dafny model of the parts of the LyraCore command line that decide something: which SQL filters the
module may publish, which processes `dev up` and `dev down` may touch, when generated bindings may be
reused, when the host guards grant or withdraw a lease, and a handful of scanners over logs, shell
scripts, passwords and paths. Code that loops or updates state in the program is a method or a class
here; each such method is proved equal to a function of its inputs or of the old state, and the lemmas
say what that function means.

Check the whole project with `dafny verify dfyconfig.toml` (Dafny 4.11).

## Layout

| file | what it models |
|---|---|
| `Text.dfy` | character classes, trimming, searching, splitting and lines, shared by all scanners |
| `SqlText.dfy`, `SqlLiterals.dfy` | tokens, spans, and the in-place blanking of string literals and parameters |
| `SqlRefs.dfy`, `SqlScope.dfy`, `SqlFilter.dfy` | the FROM/JOIN matcher, name resolution, and the verdict on a filter |
| `RustLiteral.dfy`, `RustEscapes.dfy` | finding `Filter::Sql(`, decoding the Rust string literal behind it, and where that reading is Rust's |
| `ClientAddress.dfy`, `RealmWorld.dfy`, `Credentials.dfy`, `TopologyCheck.dfy`, `Realm.dfy` | the local realm: addresses, the machine and its environment, the credential ladder, the topology read back from the log, `up` and `down` |
| `RealmActs.dfy`, `RealmPolls.dfy` | what an `up` does in order, how it ends and what it saves; what each wait has seen when it ends |
| `RealmSafety.dfy`, `RealmRuns.dfy` | the lifecycle invariant, and the theorems over all runs |
| `RealmAgreement.dfy` | exactly when the saved state agrees with the gateway |
| `RealmMoves.dfy`, `RealmOperator.dfy`, `RealmSignals.dfy` | what the steps of `up` and `down` leave alone, exactly when a gateway is the operator, and exactly when a signal reaches the recorded process |
| `RealmSchedules.dfy`, `RealmWavering.dfy`, `RealmLogin.dfy`, `RealmStrangers.dfy` | played runs, from an untouched machine, in which each of the three is lost |
| `SourceWalk.dfy`, `Bindings.dfy`, `BindingsCache.dfy` | the recursive hash walk over a graph with symlinks, the recorded inputs, and the receipt cache |
| `DiskGuard.dfy`, `LeaseRenewal.dfy`, `Capture.dfy` | the disk guard's latch and lease; the renewal budget; the capture root's quota |
| `UpdateSafety.dfy` | `update`: commits kept reachable, untracked paths kept |
| `ShellLines.dfy` | preflight's shell-line scanners |
| `GatewayLog.dfy`, `GatewayFields.dfy`, `Occupancy.dfy` | evidence from the latest gateway start, what each of its fields says about the lines, production status' topology comparison, and which occupancy figures count as measured |
| `LogTail.dfy`, `SecretLine.dfy` | the bounded log tail; the bounded password reader |

## Assumptions

- Text is a `string`: one element per byte where the program scans bytes, one per Unicode scalar where it
  scans `&str`. The byte scanners compare ASCII only; trimming and splitting at blanks know the Unicode
  blanks, and the SQL validator's test for `(` after a name reads the UTF-8 encoding of these byte by byte.
  Texts are valid UTF-8. Positions in the gateway log count elements, and fall between characters.
- Realm. A PID and a start signature name one process for ever (`ps` prints start times to the second,
  src/proc/inspect.rs:41-46); an `exec` changes only the command name. Before every observation the
  environment may move: processes, operators, the login and the token file. Any probe may find that `ps`
  cannot be run, which reads as nobody there (src/proc/inspect.rs:43-49). The token that `spacetime login show` prints is the identity that the
  `spacetime` CLI calls as; logged out, it calls as any identity. An operator, once claimed, stays. The
  state file is written only at src/cmd/dev.rs:227 and :955, so nothing is claimed about an `up` that fails
  earlier.
- Recycled PIDs. The identity refresh at src/cmd/dev.rs:631-643 does not compare start signatures. That a
  recorded or signalled process is one that the CLI spawned, and that a started gateway is recorded as it
  was started, is therefore proved for systems that do not give the PID of a process that is still being
  started to another one (`!recycles`); the rest of the invariant does not need that.
  `RealmRuns.StartRecordsLastHolder` says what a start records in any case, and
  `RealmRuns.RecycledPidIsAdopted` gives a schedule. `RealmStrangers.StrangerIsSignalled` plays an `up` and a
  `down` on a machine that recycles PIDs, which signal a process of somebody else.
- Bindings. Hashes do not collide; the generator's output is a function of the inputs it starts from, goes
  into a new directory, and is not edited while the run that writes it lasts; no edit made while the
  generator runs is undone before the inputs are read again. `BindingsCache.FreshForEveryGenerator` says
  that the last one is exactly what freshness needs, `BindingsCache.UndoneEditGoesUnseen` what happens without
  it. Runs of `ensure` exclude one another (the lock at src/cmd/bindings.rs:161-167).
- Host guards. Clocks are real numbers. A completion record is at most 64 KiB. A capture's `rank` stands
  for its path.
- Git answers truthfully: a fetch adds commits and moves only the remote-tracking branch, the printed
  count is 0 exactly when upstream has every commit of the head, and a reset that succeeds moves only the
  current branch.
- A log file does not change while it is shown.

## Where the code and its surroundings differ

- `strip_inline_comment` (src/cmd/preflight.rs:416-437) starts a word only after a space or a tab, not after
  an operator as section 2.3 of the POSIX.1-2017 Shell Command Language does. `ShellLines.StripIsPosix` says
  exactly which lines it strips as the shell does, and `ShellLines.OperatorCommentIsKept` shows one that it
  does not. Its `trim_end` can drop an escaped blank and so leave a backslash that continues the line:
  `ShellLines.StrippedContinues` says exactly when, `ShellLines.EscapedBlankContinues` gives a line.
- A match of `table_refs` takes its alias slot even when that holds a keyword: in `FROM a JOIN b` the table
  `b` is not looked up, and passes as a column name of `a` (`SqlFilter.UnknownTablePasses`).
  `SqlRefs.AllTablesSeen` says exactly when every table is seen.
- `up` looks at the gateway twice (src/cmd/dev.rs:173 and :181). When the recorded gateway looks gone or
  foreign the first time and its own self the second, as it does when `ps` fails once or when it changes its
  name and back, another bind or topology is saved for it. `RealmAgreement.AgreementIsExact` says that the
  saved state and the gateway disagree in no other way, and `RealmWavering.WaveringHappens` plays two runs
  that make them.
- `claim_operator` calls the `spacetime` CLI for a credential that comes from its login, whoever is logged in
  by then. Every gateway is the operator of all its databases when no login or logout falls between the
  resolution of a credential and the last claim made with it (`RealmOperator.LoggedInRunsOperate`), so in
  particular when they fall between runs (`RealmOperator.SteadyRunsOperate`).
  `RealmOperator.GatewayOperatesExactly` says exactly when it is, and `RealmLogin.SwitchedLoginLosesOperator`
  plays a run that succeeds although it is not.
- `down` looks at a PID and then signals it (src/cmd/dev.rs:890-903), with a moment in between.
  `RealmSignals.SignalsAreExact` says that every signal reaches the recorded process exactly when nothing
  happens to its PID in that moment, and `RealmStrangers.LateSignalReachesStranger` plays a run where it
  reaches another one.
- `logs` loses the first of the last 100 lines when these start exactly at the edge of the 64 KiB window.
  `LogTail.DisplayIsLastLines` says exactly when the display is the last 100 lines, and
  `LogTail.EdgeLosesALine` gives a file where it is not.
- The decoder of Rust string literals does not know `\x`, `\u`, continued lines and carriage returns.
  `RustEscapes.ReadsAsRust` says exactly which literals it reads as Rust does.
- `same_set` is not set equality on lists with repetitions (`GatewayLog.SameSetNeedsUnique`); it is exact
  where it is used because the configured list has none.

## Model

| member | source | states |
|---|---|---|
| SqlText.WordsExact | src/rls.rs:55-75 | The tokens are exactly the maximal runs of word bytes, in increasing order. |
| SqlText.ScanWords | src/rls.rs:60-75 | The two nested loops yield exactly those tokens. |
| SqlText.Blank | src/rls.rs:95-99 | Exactly the bytes of the span become spaces; every other byte of the buffer stays. |
| SqlText.BlankedWords | src/rls.rs:687-698 | Span alignment: when tokens are blanked whole, the tokens of the blanked text are exactly the tokens left readable, in order. |
| SqlText.BlankSqlStrings | src/rls.rs:528-553 | The in-place loop leaves the buffer equal to the blanked text, also when a literal is not terminated. |
| SqlText.BlankParameters | src/rls.rs:556-574 | The in-place loop blanks exactly the bytes of `:parameter`s. |
| SqlText.ParameterBytes | src/rls.rs:556-574 | A byte belongs to a parameter exactly when a colon and an identifier start lie before it with only word bytes in between. |
| SqlLiterals.BlankedExactly | src/rls.rs:526-553 | Blanking turns exactly the bytes of closed literals into spaces, where closed is defined by counting quotes alone; the literal that stays open starts at the first quote that nothing behind it closes, exists exactly when the quotes are odd in number, and stays as it is. |
| SqlLiterals.BlankStringsIdempotent | src/rls.rs:526-553 | Blanking twice is blanking once. |
| SqlLiterals.LiteralContentsUnread | src/rls.rs:526-553 | Two texts with quotes in the same places that agree outside closed literals blank to the same text. |
| SqlRefs.TableRefs | src/rls.rs:476-524 | The index-driven loop returns the non-overlapping matches. |
| SqlRefs.RefsAreMatches | src/rls.rs:476-524 | Every match has a FROM or JOIN head with a table name after it. |
| SqlRefs.OpensIs | src/rls.rs:486-492 | A token opens a match exactly when it reads FROM or JOIN in any case and a name stands behind it with nothing but blanks between. |
| SqlRefs.AliasIs | src/rls.rs:493-508 | The alias of a table is the spaced name behind it, or, if that reads AS in any case and a spaced name follows, the name behind AS; else there is none. |
| SqlRefs.ScanReads | src/rls.rs:476-524 | The scan passes a token that opens no match; at one that does it takes the table, the alias if there is one, and goes on behind whatever it has taken. |
| SqlRefs.AliasBehindAs | src/rls.rs:493-508 | In `FROM table AS alias` the alias is the name behind AS, and the scan goes on behind that. |
| SqlRefs.RefsComplete | src/rls.rs:465-524 | Every FROM or JOIN with a table after it is matched, unless an earlier match swallowed it; the match and its tokens are returned. |
| SqlRefs.AllTablesSeen | src/rls.rs:465-524 | Every FROM or JOIN with a table after it is in the result exactly when none stands as the table or in the alias slot of another. |
| SqlRefs.JoinIsSwallowed | src/rls.rs:465-475 | In `FROM a JOIN b` the JOIN is not in the result. |
| SqlRefs.RefBoundaries | src/rls.rs:515-521 | The span of a match lies between token boundaries, so blanking it cannot cut a token. |
| SqlScope.DeclareTables | src/rls.rs:590-626 | The first pass over the references builds exactly the alias map, table list, spans and errors of the specification. |
| SqlScope.ScopeOf | src/rls.rs:590-626 | Every alias and every referenced table is a table of the schema, so indexing the schema cannot fail. |
| SqlScope.ScopeMeans | src/rls.rs:594-626 | The first pass reports nothing exactly when every table is in the schema; then a name resolves to the table of the last reference that declares it as its table or as its alias. |
| SqlScope.ScopeResolves | src/rls.rs:590-626 | After the first pass a name stands for the table of the last reference to a known table that declares it, as its table or as its alias; exactly the referenced tables that the schema does not have are reported. |
| SqlScope.DeclarationMeans | src/rls.rs:594-626 | What a match declares and covers: its table; its alias unless that is a keyword; and the text from its head to the last of them. |
| SqlScope.KeywordMeans | src/rls.rs:16-26 | The words that name nothing, listed, in any case. |
| SqlScope.PairReads | src/rls.rs:628-666 | A pair is, in the text, the owner, a dot with blanks around it, and the column or a star. |
| SqlScope.PairAtMeans | src/rls.rs:628-666 | A token owns a pair exactly when, blanks aside, a dot stands behind it and a name or a star behind that. |
| SqlScope.PairScan | src/rls.rs:628-684 | The scan goes on behind the column of a pair, and else with the next token. |
| SqlScope.PairsComplete | src/rls.rs:628-684 | Every token that owns a pair is reported, unless it is the column of the pair before it. |
| SqlScope.QualifiedPairs | src/rls.rs:628-685 | The loop returns the spans of all pairs, and exactly the errors of those whose owner or column does not resolve. |
| SqlFilter.RemainingWords | src/rls.rs:687-698 | After blanking parameters, declarations and pairs, the remaining tokens are exactly the uncovered tokens of the text, with their spelling. |
| SqlFilter.CheckLeftovers | src/rls.rs:692-714 | The last loop reports exactly the identifiers that are no keyword, alias, table, function name or column of a referenced table. |
| SqlFilter.ValidateSql | src/rls.rs:576-715 | The whole imperative pass returns the error list of the specification, on every text and every schema. |
| SqlFilter.ErrorsExactly | src/rls.rs:576-715 | The errors one by one, on the text: the one error of a filter without FROM or JOIN; otherwise exactly the unknown tables, the pairs whose owner is unknown or has no such column, and the uncovered names that are no keyword, declared name, function or column. |
| SqlFilter.AliasBehindAsResolves | src/rls.rs:493-666 | An alias behind AS resolves to its table: its pairs are never reported as unknown owners, and are reported for the column exactly when the table has no such column. |
| SqlFilter.CoverMeans | src/rls.rs:687-691 | What is blanked before the last loop is exactly the declarations, the pairs and the parameters, found on the text. |
| SqlFilter.ValidatorDecides | src/rls.rs:576-715 | No errors exactly when some table is referenced, all are in the schema, every pair resolves to an existing column, and every uncovered identifier is a keyword, a declared name, a name before `(`, or a column of a referenced table. |
| SqlFilter.AcceptanceSurvivesGrowth | src/rls.rs:576-715 | A schema that only adds tables or columns accepts everything that was accepted. |
| SqlFilter.UnknownTablePasses | src/rls.rs:465-475 | `FROM a JOIN b` passes against a schema without `b` in which `a` has a column of that name. |
| SqlFilter.LiteralContentsIrrelevant | src/rls.rs:526-582 | Changing the contents of closed literals, quotes kept in place, leaves the errors unchanged. |
| RustLiteral.RustStringLiteral | src/rls.rs:137-194 | The decoder loops compute the specified value for raw and quoted literals, at every position of every text. |
| RustLiteral.LiteralMeans | src/rls.rs:137-194 | The decoder returns a value exactly when a quoted literal whose pieces spell it, or a raw literal that holds it and no earlier terminator, stands at that position. |
| RustLiteral.DecodesQuoted | src/rls.rs:167-193 | Decoding the escaped quoted form of a string gives back that string, whatever surrounds it. |
| RustLiteral.DecodesRaw | src/rls.rs:141-166 | Decoding the raw form with `n` hashes gives back the string if and only if its terminator occurs nowhere in the string. |
| RustEscapes.ReadsAsRust | src/rls.rs:167-193 | A quoted literal is read as Rust reads it exactly when it never ends, or has only one-character escapes and no carriage return; of the literals that Rust accepts, exactly those without `\x`, `\u`, continued lines and carriage returns. |
| RustEscapes.HexEscapeIsCopied | src/rls.rs:175-186 | `"\x41"` is read as `x41`. |
| RustLiteral.FilterSqlCall | src/rls.rs:260-280 | Returns where the argument of the first `Filter::Sql` that is a call begins, and nothing exactly when no occurrence is a call. |
| RustLiteral.CallMeans | src/rls.rs:260-280 | A call is `Filter::Sql`, blanks and a parenthesis; its argument begins behind the parenthesis and the blanks after it. |
| ClientAddress.AddressSpelling | src/project.rs:29-69 | A text parses as an address exactly when it is that address as printed. |
| ClientAddress.PrintMeans | src/project.rs:29-69 | An address is written as its four numbers in decimal with dots between them. |
| ClientAddress.LanMeans | src/project.rs:38-59 | `--lan` takes exactly the private addresses, blanks aside. |
| ClientAddress.PrivateMeans | src/project.rs:38-59 | The private addresses are three ranges of 32-bit numbers. |
| ClientAddress.AskableMeans | src/project.rs:38-59 | A bind can be asked for exactly when it is loopback or a private address. |
| ClientAddress.RecordedBindRoundTrips | src/project.rs:31-69 | The host recorded for any bind that can be asked for reads back as that bind; a cleared host reads back as loopback. |
| Credentials.Resolve | src/token.rs:64-117 | The ladder as run: the persisted token, else the login, else mint and persist, with every failure. |
| Credentials.Ladder | src/token.rs:64-146 | Rung by rung, with the files: a stored token of at least 16 bytes changes nothing; a login's token is not stored; a minted one of at least 16 bytes is stored on a line of its own, or nothing is returned. |
| Credentials.ParseMeans | src/token.rs:211-218 | The token of a banner is the last word, of at least 16 bytes, of the first line that mentions the auth token. |
| Credentials.MintedIsReused | src/token.rs:64-146 | A token minted by one run is what every later run reads back from the file, as a persisted credential. |
| Realm.DevManager.WaitUntilServing | src/cmd/dev.rs:615-674 | The polling loop: a served port refreshes the recorded identity, a changed start signature is a death, the deadline ends it; the other record is left alone. |
| Realm.DevManager.StartComponent | src/cmd/dev.rs:546-674 | Spawn, record, wait: the new machine, state and failure in every branch. |
| Realm.DevManager.ClaimOperator | src/cmd/dev.rs:394-422 | Claims every database of the topology in order, as the credential or through the CLI, and stops at the first refusal. |
| Realm.DevManager.VerifyRealised | src/cmd/dev.rs:471-544 | Reads the log again only while it names too few shards and the deadline has not passed, and judges the last text read. |
| TopologyCheck.RealisedMeans | src/cmd/dev.rs:495-522 | On a log that says anything the topology is verified exactly when the lines of its latest start name the wanted databases and no others. |
| RealmRuns.EarlierRunsDoNotCount | src/cmd/dev.rs:471-493 | The verdict of the verification does not depend on what was in the log before the gateway was started, however often the log is read. |
| Realm.DevManager.RunUp | src/cmd/dev.rs:153-239 | `up` as a whole, from its directories to the verified topology: the new fields, the new machine and the failure are those of the specification. |
| RealmActs.UpActs | src/cmd/dev.rs:153-239 | Every `up` that saves has done this, in order: perhaps started the node; built the gateway and checked; published every database of the topology asked for, once each and in order; claimed each for one token; repaired each; provisioned; and started the gateway unless its second look found it running. The claims begin only once all before them has worked. |
| RealmActs.BringUpEnds | src/cmd/dev.rs:206-239 | An `up` that brings the realm up ends with the first of its steps that does not work, and well exactly when all of them do. |
| RealmActs.OperateEnds | src/cmd/dev.rs:206-224 | From the credential to the gateway: which step's failure is reported, and when there is none. |
| RealmActs.AlreadyUp | src/cmd/dev.rs:187-197 | An `up` that finds everything serving does nothing and succeeds; every other one that succeeds has built the gateway. |
| RealmActs.SavedShape | src/cmd/dev.rs:181-227 | A saved state is the manager's, with the bind asked for as a dotted address and the topology asked for by its name. |
| RealmActs.StatusMeans | src/cmd/dev.rs:1128-1154 | Stopped, external, healthy, starting and both kinds of unhealthy, each exactly when its record, the process behind the PID and the port say so. |
| RealmActs.OwnLinesAreRead | src/cmd/dev.rs:485-579 | After a start the verification reads exactly what was appended to the log since it was looked at right before the start. |
| RealmPolls.PortAwaited | src/cmd/dev.rs:615-674 | The wait for a port ends in the first round in which the time is up, or the port answers, or the process is gone or another one; it succeeds exactly when the port answers in time, and records whatever has the PID then. |
| RealmPolls.ShardsAwaited | src/cmd/dev.rs:471-494 | The log is read again exactly for as long as it names too few shards and there is time; an unreadable log leaves the text as it was. |
| RealmPolls.StoppedMeansGone | src/cmd/dev.rs:903-921 | Unless the time runs out, the wait behind a signal ends with a look that finds nobody behind the PID and then a silent port. |
| Realm.DevManager.StopComponent | src/cmd/dev.rs:889-946 | One component of `down`: nothing recorded, already gone, stopped, refused or forgotten. |
| Realm.DevManager.RunDown | src/cmd/dev.rs:880-963 | `down` as a whole, gateway first; the first refusal is the one reported, a failed signal ends the run unsaved, and the bind is cleared with the gateway. |
| RealmActs.DownActs | src/cmd/dev.rs:880-963 | What every `down` does, in order: perhaps it signals the recorded gateway, then perhaps the recorded node; and it saves what it keeps unless a signal or the saving fails. |
| RealmSafety.WaitSound | src/cmd/dev.rs:615-674 | Startup polling may replace the record by what the spawned process has become, never by another process (PIDs not being recycled), and touches no other field. |
| RealmSafety.StartUpSound | src/cmd/dev.rs:596-674 | After a start the record is of the process just spawned (PIDs not being recycled), and for a gateway it was spawned with the bind and topology asked for; the other record and the state file are left alone. |
| RealmSafety.ClaimAllSound | src/cmd/dev.rs:394-422 | Once all claims have worked, each database has been claimed for the credential's token; claims touch nothing else. |
| RealmSafety.UpSound | src/cmd/dev.rs:153-239 | Every `up`, with any bind and topology, whatever fails in it, and however its looks at the gateway come out, keeps the lifecycle invariant. |
| RealmSafety.DownSound | src/cmd/dev.rs:880-963 | Every `down`, with or without `--forget`, keeps the lifecycle invariant. |
| RealmRuns.RunsAreSound | src/cmd/dev.rs:102-239 | The invariant holds after every sequence of runs, environment steps and losses of the state file; no run is excluded. |
| RealmSignals.SignalsAreExact | src/cmd/dev.rs:889-905 | Over all runs, every signal reached the recorded process under its recorded name exactly when, between each look at a PID and the signal to it, the holder of the PID and its name stayed as they were. |
| RealmSignals.OnlyOwnProcessesAreSignalled | src/cmd/dev.rs:67-78 | Over all runs, a signal was only ever meant for a process that this CLI spawned (PIDs not being recycled), and reached it if that moment was always quiet. |
| RealmSignals.QuietTurnIsCalm | src/cmd/dev.rs:889-905 | It is quiet when no process with that PID exits, execs or starts. |
| RealmStrangers.LateSignalReachesStranger | src/cmd/dev.rs:889-905 | Two runs from an untouched machine: the gateway exits and its PID is taken between the look and the signal, which reaches the taker. |
| RealmStrangers.StrangerIsSignalled | src/cmd/dev.rs:603-645 | Two runs from an untouched machine that recycles PIDs: `up` records the process that took the node's PID, and `down` signals it. |
| RealmAgreement.UpAgreesExactly | src/cmd/dev.rs:169-227 | An `up` makes the saved state disagree with its gateway exactly when the first look misses the recorded gateway, the second finds it, something else is asked for, and the run saves. |
| RealmAgreement.AgreementIsExact | src/cmd/dev.rs:166-227 | Over every sequence of runs: the saved state agrees with its gateway throughout exactly when no `up` was misled in that way. |
| RealmAgreement.SavedGatewayIsAsRecorded | src/cmd/dev.rs:166-227 | Until an `up` is misled, the recorded gateway of every saved state was spawned with exactly the saved bind and topology. |
| RealmOperator.SteadyRunsOperate | src/cmd/dev.rs:198-224 | Over all runs during which nobody logs in or out, with any logins, logouts and lost token files between them: every gateway ever spawned holds a token whose identity is the operator of every database of its topology. |
| RealmOperator.LoggedInRunsOperate | src/cmd/dev.rs:198-224 | The same over all runs in which no login or logout falls between the resolution of a credential that is not server-issued and the last claim made with it. |
| RealmOperator.GatewayOperatesExactly | src/cmd/dev.rs:198-224 | Over all runs, with logins changing at any time: from the `up` that starts a gateway on, the token's identity is the operator of all its databases exactly when each claim of that `up` found the CLI logged in as it, where the CLI was needed. |
| RealmOperator.EveryGatewayOperates | src/cmd/dev.rs:198-224 | Over all runs, each database of a gateway ever spawned was claimed for its token, and its operator is who these claims were made as. |
| RealmOperator.ClaimsDecide | src/cmd/dev.rs:394-422 | Claims that all worked make the credential's identity the operator of every database exactly when each was made as it. |
| RealmOperator.SteadyClaims | src/cmd/dev.rs:385-422 | Claims are made as the credential's identity when the server issued it, or the CLI stays logged in with it until the last one. |
| RealmOperator.UpAround | src/cmd/dev.rs:153-239 | An `up` starts a gateway only with the credential it has made its claims with, and only after all of them have worked. |
| RealmLogin.SwitchedLoginLosesOperator | src/cmd/dev.rs:394-406 | A run from an untouched machine that succeeds: the login changes before the claim, and the gateway's token is not the operator's. |
| RealmRuns.LiveGatewayKeepsItsShape | src/cmd/dev.rs:169-180 | `up` refuses a rebind or reshard exactly when it finds the recorded gateway live and something else is asked for; it has then acted on nothing and saved nothing. |
| RealmRuns.ExternalIsNeverRecorded | src/cmd/dev.rs:290-314 | A node that somebody else runs is never recorded, and a foreign gateway makes `up` fail unrecorded. |
| RealmRuns.DownKeepsExactlyForeign | src/cmd/dev.rs:880-963 | A completed `down` keeps a record exactly when the PID is somebody else's and `--forget` is off, reports success exactly when it kept none, and saves what it kept. |
| RealmRuns.StartRecordsLastHolder | src/cmd/dev.rs:596-674 | Whatever happens to PIDs: when a start succeeds, the record is of the spawned process exactly when the last identity read for its PID was that of no other process. |
| RealmRuns.RecycledPidIsAdopted | src/cmd/dev.rs:603-645 | A schedule on which the process that got the PID is what is recorded. |
| RealmAgreement.WaveringMisleads | src/cmd/dev.rs:173-192 | If the first probe misses the recorded gateway, the second finds it, and the run saves, the saved state agrees with the gateway exactly when the bind and topology asked for are the recorded ones. |
| RealmWavering.WaveringHappens | src/cmd/dev.rs:166-227 | Two runs from an untouched machine: the first starts a loopback gateway; `ps` fails once, `up --lan` succeeds over it, and the saved state disagrees with it. |
| SourceWalk.Collector.Collect | src/cmd/bindings.rs:43-69 | The recursion terminates on every finite graph, restores the ancestor stack on success, adds exactly the files of the walk, and fails as the walk does. |
| SourceWalk.SucceedsExactly | src/cmd/bindings.rs:43-69 | On every graph the walk succeeds exactly when the start and all that can be reached from it is there and can be read, and no directory among it is reachable from itself. |
| SourceWalk.FailsExactlyOnCycles | src/cmd/bindings.rs:49-56 | Where all of it can be read, the walk refuses exactly on such a cycle and succeeds otherwise. |
| SourceWalk.WalkFindsFiles | src/cmd/bindings.rs:57-67 | A successful walk records exactly the files below its start, each under the path that leads to it. |
| Bindings.ReadInputs | src/cmd/bindings.rs:71-110 | The loop over the watched paths returns exactly the hashes and watches of the specification, and fails when any walk fails. |
| BindingsCache.InputsCoverTheRoots | src/cmd/bindings.rs:71-110 | The recorded inputs are exactly the project's files under the watched roots, with their contents. |
| BindingsCache.InputsRecordExactly | src/cmd/bindings.rs:71-110 | On the graph: the receipt records exactly the files at or below the eight fixed places and the `src` tree of every package, each with its content. |
| BindingsCache.InputsReadExactly | src/cmd/bindings.rs:71-110 | The inputs can be read exactly when the packages directory, if it is there, can be listed and each of these places can be walked. |
| BindingsCache.EditIsSeen | src/cmd/bindings.rs:118-136 | Once any such file differs from what the receipt was made from, appears or goes, the check fails. |
| BindingsCache.InputsWatchExactly | src/cmd/bindings.rs:72-99 | The recorded watches are exactly the nine fixed places and the `src` tree of every package, there or not. |
| BindingsCache.Cache.RunCheck | src/cmd/bindings.rs:118-136 | Read-only: returns the receipt's directory and its watches exactly when inputs, collected output and `mod.rs` agree with the receipt. |
| BindingsCache.Cache.RunEnsure | src/cmd/bindings.rs:158-198 | The whole new state and result of a run, with every way of failing. |
| BindingsCache.RegeneratesExactly | src/cmd/bindings.rs:168-198 | A regeneration succeeds exactly when the tools match, the generator works and writes `mod.rs`, its output can be read, the inputs are the same before, after and at the check, and the receipt is put in place. |
| BindingsCache.EnsureIsSafe | src/cmd/bindings.rs:156-198 | A run that does not reach the swap leaves the receipt, and no run alters or removes an existing directory. |
| BindingsCache.WatchesCover | src/cmd/bindings.rs:128-135 | A success returns watches for every watched path, every recorded file, the receipt and the directory. |
| BindingsCache.PreparedMeans | src/cmd/bindings.rs:118-136 | A success returns exactly these watches: the nine fixed places, every package's `src`, every recorded file, the receipt and the directory. |
| BindingsCache.SuccessIsReused | src/cmd/bindings.rs:168-170 | A run right after a success returns the same directory and changes nothing, whatever the tools would do. |
| BindingsCache.DirectoriesStay | src/cmd/bindings.rs:156-198 | Over all histories, a directory that exists, in particular one that a run has returned, changes only when somebody edits it. |
| BindingsCache.AlwaysGenuine | src/cmd/bindings.rs:172-196 | Over all histories the receipt's output is what the generator makes of the receipt's inputs. |
| BindingsCache.SuccessIsFresh | src/cmd/bindings.rs:118-198 | Over all histories, a successful run returns a directory that holds, file for file, what the generator makes of the inputs as just read. |
| BindingsCache.FreshForEveryGenerator | src/cmd/bindings.rs:172-197 | A regeneration that succeeds is fresh, whatever the generator does, exactly when the sources it started from had the inputs that were read before and after it. |
| BindingsCache.UndoneEditGoesUnseen | src/cmd/bindings.rs:172-183 | An edit undone before the second reading goes unseen: the run succeeds and is stale wherever the generator's output differs. |
| DiskGuard.ForecastReachesReserve | deploy/lyracore-disk-guard.py:58-62 | A forecast is the time at which the measured growth uses up the space above the reserve. |
| DiskGuard.StatusRecord.RequireRecent | deploy/lyracore-disk-guard.py:91-98 | Fills in the prune result; an overdue or failed prune suspends and zeroes the lease, and a recent one changes neither. |
| DiskGuard.StatusRecord.Check | deploy/lyracore-disk-guard.py:101-114 | The status after the prune check; healthy exactly when the trusted exit time is a success at most 1800 s old. |
| DiskGuard.Host.Run | deploy/lyracore-disk-guard.py:117-148 | The exact effects of one run, in order: the status is persisted, each database is called in turn with the persisted lease and its share of the time, and the status is persisted again with the failures. |
| DiskGuard.RunDecides | deploy/lyracore-disk-guard.py:43-98 | A run suspends exactly below 20 GiB, while the latch holds without a resume, or without a recent prune; it warns exactly below 30 GiB otherwise; and unless it suspends, the lease is the microseconds of now + 180 s, truncated. |
| DiskGuard.RefusesExactly | deploy/lyracore-disk-guard.py:25-114 | A run writes nothing exactly when the status or the prune unit cannot be read, or a resume is asked for below 30 GiB. |
| DiskGuard.RunWrites | deploy/lyracore-disk-guard.py:48-114 | The sample, the growth since the last sample, whether there is a forecast, and the trusted prune of the status written. |
| DiskGuard.EffectsAre | deploy/lyracore-disk-guard.py:69-148 | One effect after the other: the status, a call for each timeout to the databases in order with the lease of the status, and the status with the failures. |
| DiskGuard.LeaseIsEarned | deploy/lyracore-disk-guard.py:43-148 | Over every history: a lease is positive exactly when not suspended; then it ends at most 180 s ahead, at least 20 GiB are free, and a prune success at most 1800 s old was really observed in this boot. |
| DiskGuard.SuspensionLatches | deploy/lyracore-disk-guard.py:43-57 | From any point of any history on, a suspended status stays suspended until a run resumes with at least 30 GiB free. |
| LeaseRenewal.RenewLeases | deploy/lyracore-disk-guard.py:69-88 | The budgeted loop: the failures and the timeouts given, in order. |
| LeaseRenewal.RenewTimes | deploy/lyracore-disk-guard.py:71-77 | Each call gets its fair share of what is left of the 45 seconds, at most 10; a call is left out only once they are over. |
| LeaseRenewal.FailuresExactly | deploy/lyracore-disk-guard.py:69-88 | The failures are the failed calls in order, then every unattempted database; none is left out before the deadline. |
| LeaseRenewal.ReportedOnce | deploy/lyracore-disk-guard.py:69-88 | With unique names each database is reported at most once, and exactly when its call failed or was never made. |
| LeaseRenewal.RenewNeverStarves | deploy/lyracore-disk-guard.py:71-77 | If calls keep to their timeouts and nothing else takes time, every one of n databases gets at least min(10, 45/n) seconds and the total is at most 45. |
| Capture.Record | deploy/lyracore-capture.py:88-113 | Stores the first `limit` bytes and the last 65536; saved plus omitted is the length of the stream. |
| Capture.Cutoff | deploy/lyracore-capture.py:46-53 | The fewest oldest captures to delete: what remains is young and fits, and no longer suffix does. |
| Capture.Expire | deploy/lyracore-capture.py:46-53 | The deletion loop removes exactly those captures and returns the size of the rest. |
| Capture.PruneKeepsTheRest | deploy/lyracore-capture.py:23-53 | Pruning never deletes a directory without a valid completion record. |
| Capture.PruneKeepsExactly | deploy/lyracore-capture.py:23-53 | Capture by capture, without sorting: what pruning keeps is every directory that is not a finished capture, and exactly the captures that are young enough and fit with all newer ones. |
| Capture.RecordedIs | deploy/lyracore-capture.py:88-157 | What a capture leaves: the first 256 MiB of its output, the last 64 KiB if that was not all, and the completion record unless an exception came first. |
| Capture.AdmittedMeans | deploy/lyracore-capture.py:131-146 | A capture is made exactly when 256 MiB and 128 KiB fit into the 2 GiB beside all that is there, and its name is simple and new. |
| Capture.Root.Invoke | deploy/lyracore-capture.py:131-157 | One invocation: prune, admission check, recording, prune. |
| Capture.InvocationMeans | deploy/lyracore-capture.py:131-157 | One invocation in figures: pruned to 2 GiB, or, for a capture, to what leaves room for it; then the capture, and once it is complete a prune to 2 GiB. |
| Capture.QuotaHolds | deploy/lyracore-capture.py:131-157 | No sequence of captures, timeouts, failures and prunes takes the root over 2 GiB, not even between a recording and the prune after it. |
| UpdateSafety.PrefixIsAncestor | src/cmd/update.rs:72-73 | A path starts with another and a slash exactly when the other is a proper ancestor, component by component. |
| UpdateSafety.OverlapIsAncestry | src/cmd/update.rs:70-74 | The three string tests hold exactly when the paths are equal or one is an ancestor of the other. |
| UpdateSafety.FindClash | src/cmd/update.rs:65-78 | The nested search finds a clash exactly when an untracked entry and an incoming one overlap. |
| UpdateSafety.NothingLocalIsFastForward | src/cmd/update.rs:25-42 | No commit of the head is missing upstream exactly when upstream contains the head. |
| UpdateSafety.Checkout.Update | src/cmd/update.rs:11-87 | With every git command able to fail: at the reset every commit of the old HEAD is reachable from origin/main or the recovery branch and no path clashes; before it no local branch has moved. |
| UpdateSafety.EndsExactly | src/cmd/update.rs:11-87 | How every run ends and exactly when: updated, up to date, refused for local edits, local commits or a path in the way, or failed where git fails. |
| UpdateSafety.DirtyMeans | src/cmd/update.rs:103-115 | The checkout is dirty exactly when some line of the porcelain status is neither blank nor begins with two question marks. |
| UpdateSafety.ListsMeans | src/cmd/update.rs:65-69 | The entries of a listing are exactly its non-empty pieces between NUL bytes. |
| ShellLines.StripInlineComment | src/cmd/preflight.rs:416-437 | The skipping scan cuts at exactly the first unquoted, unescaped `#` that starts a word, as a character-by-character scanner defines it. |
| ShellLines.CommentMeans | src/cmd/preflight.rs:416-437 | A comment is a `#` outside of quotes that is not escaped, at the start of the line or behind a blank that is not escaped. |
| ShellLines.StripIsIdempotentPrefix | src/cmd/preflight.rs:413-437 | Stripping yields a prefix of the line, and stripping again changes nothing. |
| ShellLines.StripIsPosix | src/cmd/preflight.rs:413-437 | The line is stripped as a scanner after sections 2.2 and 2.3 of the POSIX.1-2017 Shell Command Language strips it exactly when its first comment does not stand right behind an operator. |
| ShellLines.OperatorCommentIsKept | src/cmd/preflight.rs:427-432 | In `a;# b` the shell reads a comment and the program does not. |
| ShellLines.StrippedContinues | src/cmd/preflight.rs:413-437 | A line with a comment continues once stripped exactly when only blanks stand between a backslash and the comment, also when the backslash escapes one of them. |
| ShellLines.EscapedBlankContinues | src/cmd/preflight.rs:430 | A line where an escaped blank is trimmed away and its backslash is left. |
| ShellLines.JoinContinuations | src/cmd/preflight.rs:439-463 | The loop returns the joined logical lines of the stripped physical lines. |
| ShellLines.JoinKeepsText | src/cmd/preflight.rs:439-463 | The logical lines in order are the physical lines in order, of the same total length, each continuation backslash turned into one space. |
| ShellLines.ThreadsDb | src/cmd/preflight.rs:481-498 | True exactly when `$DB` or `${DB` occurs at a word boundary. |
| ShellLines.DbThreadingOffenders | src/cmd/preflight.rs:394-403 | Returns exactly the logical lines that drive a tool without threading `$DB`, and none in a script without an override. |
| ShellLines.OffendersMeans | src/cmd/preflight.rs:394-498 | On cuts of the lines: nothing unless some line is letters and underscores, `DB=` and anything; then exactly the logical lines that run a tool and use `$DB` nowhere. |
| ShellLines.DrivesToolMeans | src/cmd/preflight.rs:465-479 | A line runs a tool exactly when its first `spacetime` is followed by blanks and sql, call, logs or describe, or when it holds one of the two tool paths. |
| ShellLines.DefinesOverrideMeans | src/cmd/preflight.rs:405-411 | A line defines an override exactly when it is letters and underscores, `DB=` and anything. |
| ShellLines.CommentsDoNotMatter | src/cmd/preflight.rs:394-463 | Inserting a whole-line comment after a line that does not continue leaves the offenders unchanged. |
| GatewayLog.Parse | src/cmd/gateway_log.rs:22-82 | One pass fills every field with what the latest segment says: last settings, counts, warnings and per-shard samples. |
| GatewayFields.SettingsAre | src/cmd/gateway_log.rs:22-82 | Each setting is read off the lines of the latest segment, in its own field. |
| GatewayFields.LatestMeans | src/cmd/gateway_log.rs:23-28 | The latest segment is the log from its last `gateway starting:` on, or all of it. |
| GatewayFields.LastOrMeans | src/cmd/gateway_log.rs:40-58 | A setting is what the last line that says anything about it says. |
| GatewayFields.ListenersMean | src/cmd/gateway_log.rs:50-55 | Each listener is the first word behind its own phrase, on cuts of the line. |
| GatewayFields.ShardMeans | src/cmd/gateway_log.rs:34-39 | A line names a shard exactly when the first word behind the first marker is a plausible name, and that one. |
| GatewayFields.ConfiguredExactly | src/cmd/gateway_log.rs:105-115 | A listed text configures nothing if any of its entries is no name, and else exactly the names between the commas, without blanks and quotes around them. |
| GatewayFields.SampleMeans | src/cmd/gateway_log.rs:66-79 | A line samples a shard exactly when name and figure stand behind the phrase as first and second word. |
| GatewayFields.CountsAndWarnings | src/cmd/gateway_log.rs:56-82 | The errors are the lines that report one, counted; each warning is a line that holds its words. |
| GatewayLog.LatestStartWins | src/cmd/gateway_log.rs:22-28 | What precedes a log that holds a start marker does not matter. |
| GatewayLog.ConnectedInOrder | src/cmd/gateway_log.rs:35-39 | The connected shards are exactly the named ones, each once, ordered by the first line that names them. |
| GatewayLog.ParseConfigured | src/cmd/gateway_log.rs:105-115 | The loop returns the distinct entries, or nothing once an entry is implausible. |
| GatewayLog.ConfiguredMeans | src/cmd/gateway_log.rs:99-115 | A configured list has no repetition and names exactly the entries between the brackets; one implausible entry discards it. |
| GatewayLog.MetricsWarningMeans | src/cmd/gateway_log.rs:61-79 | The metrics warning holds exactly when the unset line appears or some shard's last sample was not measured. |
| Occupancy.MeasuredMeans | src/cmd/gateway_log.rs:70-76 | A figure counts as measured exactly when it is a sign, digits with at most one point among them and an exponent, with `%` behind, and the number so written is finite and not negative once rounded to a double. |
| Occupancy.PlainFigures | src/cmd/gateway_log.rs:70-76 | Digits with at most one point, and at most 300 of them before it, followed by `%`, count as measured. |
| Occupancy.WordsAreUnmeasured | src/cmd/gateway_log.rs:70-76 | No text without a digit counts as measured, with or without a sign. |
| Occupancy.NegativeFigures | src/cmd/gateway_log.rs:70-76 | A plain figure with a minus sign and at most 300 decimal places counts as measured exactly when it is zero. |
| GatewayLog.SameSetIsExact | src/cmd/production.rs:103-105 | Against a list without repetitions the test holds exactly when the other list has none either and the same members. |
| GatewayLog.SameSetNeedsUnique | src/cmd/production.rs:103-105 | A list with a repetition passes against a different set. |
| GatewayLog.TopologyCheckIsExact | src/cmd/production.rs:177-189 | On every log, with the unique names that src/cmd/mod.rs:437-440 demands, the topology check is set equality. |
| LogTail.Show | src/cmd/logs.rs:8-45 | Seek, read, count back, and the fallback for a cut line compute the specified display. |
| LogTail.DisplayIsBounded | src/cmd/logs.rs:18-44 | For every non-empty file: a suffix of at most 65536 bytes and 100 lines, starting at a line boundary unless the window has no newline before its last byte. |
| LogTail.DisplayIsLastLines | src/cmd/logs.rs:22-44 | The display is exactly the last 100 lines if and only if the file fits the window or the newline before those lines lies inside it. |
| LogTail.EdgeLosesALine | src/cmd/logs.rs:22-44 | A file whose last 100 lines start exactly at the window is shown with 99. |
| LogTail.LastLinesWhole | src/cmd/logs.rs:22-30 | The last 100 lines are the whole file exactly when the file has at most 100 lines. |
| SecretLine.ReadLineSecret | src/cmd/account.rs:97-124 | The buffer never exceeds its 18 bytes, and the result is that of the byte-by-byte specification. |
| SecretLine.AcceptsExactlyShortLines | src/cmd/account.rs:81-124 | For every stream and pattern of interruptions, the password is accepted exactly when the first line has 1 to 16 bytes, and then it is that line. |
| SecretLine.InterruptsDoNotMatter | src/cmd/account.rs:115 | An interrupted read anywhere changes nothing. |

## Left out

- Sockets, HTTP, `ps`, `kill`, terminal echo and subprocess plumbing: answers of the environment here.
- The native host, `watch`, publishing commands, packages, imports, doctor, editor, client and character
  commands.
- SRP verifiers (src/cmd/account.rs:49), which an external library computes.
- Finding filters and reading the generated schema from files (src/rls.rs:105-256, src/rls.rs:286-463).
- The `database`, `native_runtime` and `native_hot_reload` fields of the state file, and `status`, `smoke`
  and `logs` as commands.
- BindingsCache.Cache.RunEnsure: the version check of the tools is one answer of the environment.
- UpdateSafety.Checkout.Update: git's own commands are modelled by their effect on a commit graph; the pin
  that is printed afterwards is not.
- DiskGuard.Host.Run: reading the configuration and the lock are not modelled; a status that is not JSON
  stops the script before the model begins.
- Realm.DevManager.RunDown: how long a signalled process takes to die. It may outlive the wait; then nothing says that
  it is gone.
- Printed output, error wording and file permissions.
