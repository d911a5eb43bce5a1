/** Receipts, checking and regeneration in the bindings cache (src/cmd/bindings.rs, `check` and
    `ensure`), and what holds over any sequence of runs and edits. */
module BindingsCache {
  import opened Text
  import opened SourceWalk
  import opened Bindings

  datatype Receipt = Receipt(inputs: Inputs, directory: string, output: map<Path, Digest>)

  datatype World = World(src: Fs, receipt: Option<Receipt>, dirs: map<string, Fs>)

  /** What the walk over a generated directory collects. */
  function Output(dir: Fs, name: string): Walked { Walk(dir.graph, dir.root, [name], []) }

  function Check(w: World): Option<string> {
    match w.receipt
    case None => None
    case Some(r) =>
      if InputsOf(w.src) != Some(r.inputs) || r.directory !in w.dirs then None
      else if Output(w.dirs[r.directory], r.directory) != Files(r.output) then None
      else if FileAt(w.dirs[r.directory].graph, w.dirs[r.directory].root, ["mod.rs"]).None? then None
      else Some(r.directory)
  }

  /** What a success returns: the directory, and the paths whose changes call for another look. */
  datatype Prepared = Prepared(directory: string, watches: multiset<Path>)

  const CACHE: Path := [".lyracore", "generated", "gateway"]
  const RECEIPT: Path := CACHE + ["current.json"]

  function Watches(r: Receipt): multiset<Path> {
    r.inputs.watches + multiset(r.inputs.files.Keys) + multiset{RECEIPT} + multiset{CACHE + [r.directory]}
  }

  function Prepare(w: World): Option<Prepared> {
    if Check(w).Some? then Some(Prepared(Check(w).value, Watches(w.receipt.value))) else None
  }

  /** One regeneration as the environment plays it: the sources when the inputs are first read, when the
      generator starts, when it is done, and when the result is checked; what it writes, and into which new
      directory; and whether the new receipt can be written and put in place. */
  datatype Generation = Generation(
    toolsMatch: bool, atInputs: Fs, atStart: Fs, works: bool, writes: Fs, atEnd: Fs, staging: string,
    writeWorks: bool, swapWorks: bool, atCheck: Fs)

  /** `ensure`. The new directory goes away with a run that fails before the receipt is written, and stays
      behind one that fails after it. */
  function Ensure(w: World, run: Generation): (World, Option<string>) {
    if Check(w).Some? then (w, Check(w))
    else if !run.toolsMatch then (w, None)
    else match InputsOf(run.atInputs)
      case None => (w.(src := run.atInputs), None)
      case Some(before) =>
        if !run.works || FileAt(run.writes.graph, run.writes.root, ["mod.rs"]).None? then (w.(src := run.atStart), None)
        else if InputsOf(run.atEnd) != Some(before) then (w.(src := run.atEnd), None)
        else match Output(run.writes, run.staging)
          case Files(output) =>
            var kept := w.(src := run.atEnd, dirs := w.dirs[run.staging := run.writes]);
            if !run.writeWorks then (w.(src := run.atEnd), None)
            else if !run.swapWorks then (kept, None)
            else
              var swapped := kept.(receipt := Some(Receipt(before, run.staging, output)), src := run.atCheck);
              (swapped, Check(swapped))
          case _ => (w.(src := run.atEnd), None)
  }

  class Cache {
    var world: World

    method RunCheck() returns (prepared: Option<Prepared>)
      ensures prepared == Prepare(world)
    {
      hide InputsOf, Walk, FileAt;
      if world.receipt.None? {
        return None;
      }
      var r := world.receipt.value;
      var inputs := ReadInputs(world.src);
      if inputs != Some(r.inputs) || r.directory !in world.dirs {
        return None;
      }
      var dir := world.dirs[r.directory];
      var collector := new Collector();
      var failure := collector.Collect(dir.graph, dir.root, [r.directory]);
      if failure.Some? {
        return None;
      }
      assert collector.files == Walk(dir.graph, dir.root, [r.directory], []).files;
      if collector.files != r.output || FileAt(dir.graph, dir.root, ["mod.rs"]).None? {
        return None;
      }
      var watches := r.inputs.watches;
      watches := watches + multiset(r.inputs.files.Keys);
      watches := watches + multiset{RECEIPT};
      watches := watches + multiset{CACHE + [r.directory]};
      return Some(Prepared(r.directory, watches));
    }

    method RunEnsure(run: Generation) returns (prepared: Option<Prepared>)
      requires run.staging !in world.dirs
      modifies this
      ensures world == Ensure(old(world), run).0
      ensures Ensure(old(world), run).1.Some? ==>
        prepared == Prepare(world) && prepared.Some? && prepared.value.directory == Ensure(old(world), run).1.value
      ensures Ensure(old(world), run).1.None? ==> prepared.None?
    {
      hide InputsOf, Walk, FileAt, Check;
      prepared := RunCheck();
      if prepared.Some? || !run.toolsMatch {
        return;
      }
      world := world.(src := run.atInputs);
      var before := ReadInputs(world.src);
      if before.None? {
        return None;
      }
      world := world.(src := run.atStart);
      if !run.works || FileAt(run.writes.graph, run.writes.root, ["mod.rs"]).None? {
        return None;
      }
      world := world.(src := run.atEnd);
      var after := ReadInputs(world.src);
      if before != after {
        return None;
      }
      var collector := new Collector();
      var failure := collector.Collect(run.writes.graph, run.writes.root, [run.staging]);
      if failure.Some? {
        return None;
      }
      assert collector.files == Output(run.writes, run.staging).files;
      if !run.writeWorks {
        return None;
      }
      world := world.(dirs := world.dirs[run.staging := run.writes]);
      if !run.swapWorks {
        return None;
      }
      world := world.(receipt := Some(Receipt(before.value, run.staging, collector.files)));
      world := world.(src := run.atCheck);
      prepared := RunCheck();
    }
  }

  // ---- single runs ----

  /** A run that does not reach the receipt swap leaves the receipt as it was; and no run alters or
      removes a directory that existed before it. */
  lemma EnsureIsSafe(w: World, run: Generation)
    requires run.staging !in w.dirs
    ensures forall d :: d in w.dirs ==> d in Ensure(w, run).0.dirs && Ensure(w, run).0.dirs[d] == w.dirs[d]
    ensures Ensure(w, run).0.receipt != w.receipt ==>
      && Check(w).None? && run.toolsMatch && run.works && run.writeWorks && run.swapWorks
      && InputsOf(run.atInputs) == InputsOf(run.atEnd) != None
    ensures Ensure(w, run).0.dirs != w.dirs ==> Check(w).None? && run.toolsMatch && run.works && run.writeWorks
  {
    hide InputsOf, Walk, FileAt, Check;
  }

  /** A success tells its caller to watch everything that the next check would look at. */
  lemma WatchesCover(w: World)
    requires Prepare(w).Some?
    ensures var watches := Prepare(w).value.watches;
      && InputsOf(w.src).Some?
      && (forall path :: path in WATCHED || path in InputsOf(w.src).value.files ==> path in watches)
      && RECEIPT in watches && CACHE + [Prepare(w).value.directory] in watches
  {
    hide InputsOf, Output, FileAt;
    var inputs := InputsOf(w.src).value;
    InputsWatchRoots(w.src);
    assert forall path :: path in inputs.files ==> path in multiset(inputs.files.Keys);
  }

  lemma InputsWatchRoots(src: Fs)
    requires InputsOf(src).Some?
    ensures forall path :: path in WATCHED ==> path in InputsOf(src).value.watches
  {
    hide WalkRoots, AllRoots, PackagesHidden, PackageWatches, AllPackages;
    assert forall path :: path in WATCHED ==> path in multiset(WATCHED);
  }

  /** A second run right after a success reuses its directory, whatever the tools do. */
  lemma SuccessIsReused(w: World, run: Generation, again: Generation)
    requires Ensure(w, run).1.Some?
    ensures Ensure(Ensure(w, run).0, again) == Ensure(w, run)
  {
    hide InputsOf, Walk, FileAt;
  }

  // ---- all runs ----

  datatype Event = Edit(src: Fs, dirs: map<string, Fs>, receiptKept: bool) | RunCheck | RunEnsure(run: Generation)

  function Step(w: World, e: Event): World {
    match e
    case Edit(src, dirs, kept) => World(src, if kept then w.receipt else None, dirs)
    case RunCheck => w
    case RunEnsure(run) => Ensure(w, run).0
  }

  function Returned(w: World, e: Event): Option<string> {
    match e
    case Edit(_, _, _) => None
    case RunCheck => Check(w)
    case RunEnsure(run) => Ensure(w, run).1
  }

  /** The generator writes what `gen` says for the inputs it starts from, into a new directory; and no
      edit made while it was running had been undone by the time the inputs are read again. */
  ghost predicate Plays(gen: Inputs -> Fs, w: World, e: Event) {
    e.RunEnsure? ==>
      var run := e.run;
      && run.staging !in w.dirs
      && (run.works && InputsOf(run.atStart).Some? ==> run.writes == gen(InputsOf(run.atStart).value))
      && (InputsOf(run.atEnd) == InputsOf(run.atInputs) ==> InputsOf(run.atStart) == InputsOf(run.atInputs))
  }

  ghost predicate Follows(gen: Inputs -> Fs, w: World, e: Event, v: World) { Plays(gen, w, e) && v == Step(w, e) }

  /** The project and its cache before each event, and after the last. */
  ghost predicate IsHistory(gen: Inputs -> Fs, trace: seq<World>, events: seq<Event>) {
    && |trace| == |events| + 1 && trace[0].receipt.None?
    && forall k :: 0 <= k < |events| ==> Follows(gen, trace[k], events[k], trace[k + 1])
  }

  /** The receipt's output is that of the generator on the receipt's inputs. */
  ghost predicate Genuine(gen: Inputs -> Fs, w: World) {
    w.receipt.Some? ==>
      var r := w.receipt.value;
      Output(gen(r.inputs), r.directory) == Files(r.output)
  }

  lemma StepStaysGenuine(gen: Inputs -> Fs, w: World, e: Event)
    requires Genuine(gen, w) && Plays(gen, w, e)
    ensures Genuine(gen, Step(w, e))
  {
    hide InputsOf, Walk, FileAt;
  }

  lemma {:induction false} AlwaysGenuine(gen: Inputs -> Fs, trace: seq<World>, events: seq<Event>, n: nat)
    requires IsHistory(gen, trace, events) && n <= |events|
    ensures Genuine(gen, trace[n])
  {
    hide Plays, Step;
    if n > 0 {
      AlwaysGenuine(gen, trace, events, n - 1);
      assert Follows(gen, trace[n - 1], events[n - 1], trace[n]);
      StepStaysGenuine(gen, trace[n - 1], events[n - 1]);
    }
  }

  /** No run alters or removes a directory that an earlier run returned: what is in it changes only when
      somebody edits it. */
  lemma {:induction false} DirectoriesStay(
      gen: Inputs -> Fs, trace: seq<World>, events: seq<Event>, j: nat, n: nat, d: string)
    requires IsHistory(gen, trace, events) && j <= n <= |events| && d in trace[j].dirs
    requires forall k :: j <= k < n && events[k].Edit? ==>
      d in events[k].dirs && events[k].dirs[d] == trace[j].dirs[d]
    ensures d in trace[n].dirs && trace[n].dirs[d] == trace[j].dirs[d]
  {
    hide InputsOf, Walk, FileAt, Check, Ensure;
    if j < n {
      DirectoriesStay(gen, trace, events, j, n - 1, d);
      var w, e := trace[n - 1], events[n - 1];
      assert Follows(gen, w, e, trace[n]);
      if e.RunEnsure? {
        EnsureIsSafe(w, e.run);
      }
    }
  }

  /** Two directories with the same collected output hold the same files. */
  lemma SameOutputSameFiles(a: Fs, b: Fs, name: string, names: Path)
    requires WellFormed(a.graph) && WellFormed(b.graph)
    requires Output(a, name).Files? && Output(a, name) == Output(b, name)
    ensures FileAt(a.graph, a.root, names) == FileAt(b.graph, b.root, names)
  {
    var key := [name] + names;
    assert key[1..] == names && [name] <= key;
    WalkFindsFiles(a.graph, a.root, [name], [], key);
    WalkFindsFiles(b.graph, b.root, [name], [], key);
  }

  /** Over every history of edits, checks and regenerations: when a run succeeds, the directory it
      returns holds, file for file, what the generator produces from the inputs as that run last read
      them. */
  lemma SuccessIsFresh(gen: Inputs -> Fs, trace: seq<World>, events: seq<Event>, k: nat, d: string, names: Path)
    requires IsHistory(gen, trace, events) && k < |events| && Returned(trace[k], events[k]) == Some(d)
    requires forall i :: WellFormed(gen(i).graph)
    requires d in trace[k + 1].dirs ==> WellFormed(trace[k + 1].dirs[d].graph)
    ensures d in trace[k + 1].dirs && InputsOf(trace[k + 1].src).Some?
    ensures var dir, made := trace[k + 1].dirs[d], gen(InputsOf(trace[k + 1].src).value);
      FileAt(dir.graph, dir.root, names) == FileAt(made.graph, made.root, names)
  {
    hide InputsOf, Walk, FileAt, Check, Ensure;
    AlwaysGenuine(gen, trace, events, k + 1);
    assert Follows(gen, trace[k], events[k], trace[k + 1]);
    ReturnedIsChecked(trace[k], events[k]);
    CheckedIsGenuine(gen, trace[k + 1], d, names);
  }

  /** A success is a check of the state that the run leaves behind. */
  lemma ReturnedIsChecked(w: World, e: Event)
    requires Returned(w, e).Some?
    ensures Check(Step(w, e)) == Returned(w, e)
  {
    hide InputsOf, Output, FileAt, Check;
  }

  lemma CheckedIsGenuine(gen: Inputs -> Fs, w: World, d: string, names: Path)
    requires Genuine(gen, w) && Check(w) == Some(d)
    requires forall i :: WellFormed(gen(i).graph)
    requires d in w.dirs ==> WellFormed(w.dirs[d].graph)
    ensures d in w.dirs && InputsOf(w.src).Some?
    ensures var dir, made := w.dirs[d], gen(InputsOf(w.src).value);
      FileAt(dir.graph, dir.root, names) == FileAt(made.graph, made.root, names)
  {
    hide InputsOf, Walk, FileAt;
    var r := w.receipt.value;
    SameOutputSameFiles(w.dirs[d], gen(r.inputs), d, names);
  }

  // ---- undone edits ----

  /** What a regeneration that succeeds has done, whatever happened to the sources meanwhile. */
  lemma RegeneratedIs(w: World, run: Generation)
    requires Check(w).None? && Ensure(w, run).1.Some?
    ensures var (now, d) := Ensure(w, run);
      && d == Some(run.staging) && run.staging in now.dirs && now.dirs[run.staging] == run.writes
      && InputsOf(run.atInputs) == InputsOf(run.atEnd) == InputsOf(now.src) != None
      && FileAt(run.writes.graph, run.writes.root, ["mod.rs"]).Some?
  {
    hide InputsOf, Output, FileAt;
  }

  /** What the run wrote is what `gen` makes of the inputs there were when it started. */
  ghost predicate Generates(gen: Inputs -> Fs, run: Generation) {
    InputsOf(run.atStart).Some? ==> run.writes == gen(InputsOf(run.atStart).value)
  }

  /** The directory holds, file for file, what `gen` makes of the inputs as they are read now. */
  ghost predicate Fresh(gen: Inputs -> Fs, now: World, d: string) {
    d in now.dirs && InputsOf(now.src).Some? &&
    var dir, made := now.dirs[d], gen(InputsOf(now.src).value);
    forall names :: FileAt(dir.graph, dir.root, names) == FileAt(made.graph, made.root, names)
  }

  const NOTHING := Fs(map[0 := Dir([], true)], 0)

  /** A generator that makes what the run wrote, except from the inputs `but`. */
  function MakesNothingFrom(but: Inputs, writes: Fs): Inputs -> Fs { i => if i == but then NOTHING else writes }

  /** A regeneration that succeeds is fresh, whatever the generator does, exactly when the sources it
      started from had the inputs that were read before and after it. */
  lemma FreshForEveryGenerator(w: World, run: Generation)
    requires Check(w).None? && Ensure(w, run).1.Some?
    ensures (forall gen: Inputs -> Fs :: Generates(gen, run) ==> Fresh(gen, Ensure(w, run).0, run.staging)) <==>
      InputsOf(run.atStart) == InputsOf(run.atInputs)
  {
    hide InputsOf, FileAt, Check, Ensure;
    RegeneratedIs(w, run);
    var now, inputs := Ensure(w, run).0, InputsOf(run.atInputs).value;
    if InputsOf(run.atStart) != InputsOf(run.atInputs) {
      var gen := MakesNothingFrom(inputs, run.writes);
      assert Generates(gen, run);
      NothingHasNoFile();
      assert !Fresh(gen, now, run.staging);
    }
  }

  lemma NothingHasNoFile()
    ensures FileAt(NOTHING.graph, NOTHING.root, ["mod.rs"]).None?
  {
  }

  /** An edit that is reverted before the second reading of the inputs goes unseen: the run succeeds, keeps
      what was generated from the edited sources, and is stale wherever that differs from what the inputs
      as last read would give. */
  lemma UndoneEditGoesUnseen(gen: Inputs -> Fs, w: World, run: Generation, edited: Inputs, names: Path)
    requires Check(w).None? && run.toolsMatch && run.works && run.writeWorks && run.swapWorks
    requires InputsOf(run.atStart) == Some(edited) && run.writes == gen(edited)
    requires InputsOf(run.atInputs).Some? && InputsOf(run.atEnd) == InputsOf(run.atCheck) == InputsOf(run.atInputs)
    requires Output(gen(edited), run.staging).Files?
    requires FileAt(gen(edited).graph, gen(edited).root, ["mod.rs"]).Some?
    ensures var now := Ensure(w, run).0;
      && Ensure(w, run).1 == Some(run.staging) && run.staging in now.dirs && now.dirs[run.staging] == gen(edited)
      && InputsOf(now.src) == InputsOf(run.atInputs)
    ensures var made := gen(InputsOf(run.atInputs).value);
      FileAt(gen(edited).graph, gen(edited).root, names) != FileAt(made.graph, made.root, names) ==>
        !Fresh(gen, Ensure(w, run).0, run.staging)
  {
    hide InputsOf, Output, FileAt, Check;
    var receipt := Receipt(InputsOf(run.atInputs).value, run.staging, Output(run.writes, run.staging).files);
    var swapped := World(run.atCheck, Some(receipt), w.dirs[run.staging := run.writes]);
    ReceiptChecks(swapped, receipt);
    assert Ensure(w, run) == (swapped, Check(swapped));
  }

  lemma ReceiptChecks(w: World, r: Receipt)
    requires w.receipt == Some(r) && InputsOf(w.src) == Some(r.inputs) && r.directory in w.dirs
    requires Output(w.dirs[r.directory], r.directory) == Files(r.output)
    requires FileAt(w.dirs[r.directory].graph, w.dirs[r.directory].root, ["mod.rs"]).Some?
    ensures Check(w) == Some(r.directory)
  {
    hide InputsOf, Output, FileAt;
  }

  // ---- what the inputs cover ----

  /** `key` lies at or below one of the places the input walk starts from. */
  ghost predicate UnderRoot(src: Fs, roots: seq<Root>, key: Path) {
    exists k :: 0 <= k < |roots| && roots[k].path <= key
  }

  /** Every start of the input walk is what its path resolves to. */
  ghost predicate Resolved(src: Fs, roots: seq<Root>) {
    forall k :: 0 <= k < |roots| ==> IdAt(src.graph, src.root, roots[k].path) == Some(roots[k].id)
  }

  lemma {:induction false} PackageRootsResolve(src: Fs, packages: seq<string>)
    ensures Resolved(src, PackageRoots(src, packages))
  {
    if packages != [] {
      PackageRootsResolve(src, packages[1..]);
    }
  }

  lemma {:induction false} RootsResolve(src: Fs, watched: seq<Path>)
    ensures Resolved(src, AllRoots(src, watched))
  {
    if watched != [] {
      PackageRootsResolve(src, AllPackages(src));
      RootsResolve(src, watched[1..]);
    }
  }

  lemma RootContent(src: Fs, root: Root, key: Path)
    requires IdAt(src.graph, src.root, root.path) == Some(root.id)
    ensures Content(src.graph, root.id, root.path, key) ==
      if root.path <= key then FileAt(src.graph, src.root, key) else None
  {
    if root.path <= key {
      assert key == root.path + key[|root.path|..];
      PathConcat(src.graph, src.root, root.path, key[|root.path|..]);
    }
  }

  lemma {:induction false} RootsFindFiles(src: Fs, roots: seq<Root>, key: Path)
    requires WellFormed(src.graph) && Resolved(src, roots) && WalkRoots(src.graph, roots).Files?
    ensures Records(WalkRoots(src.graph, roots).files, key,
                    if UnderRoot(src, roots, key) then FileAt(src.graph, src.root, key) else None)
  {
    if roots != [] {
      var rest := roots[1..];
      assert forall k :: 0 <= k < |rest| ==> rest[k] == roots[k + 1];
      RootsFindFiles(src, rest, key);
      WalkFindsFiles(src.graph, roots[0].id, roots[0].path, [], key);
      RootContent(src, roots[0], key);
      assert UnderRoot(src, roots, key) <==> roots[0].path <= key || UnderRoot(src, rest, key);
    }
  }

  /** The recorded inputs are exactly the project's files under the watched roots, each with the hash of
      its content: equal inputs mean equal content everywhere the Module reads. */
  lemma InputsCoverTheRoots(src: Fs, key: Path)
    requires WellFormed(src.graph) && InputsOf(src).Some?
    ensures Records(InputsOf(src).value.files, key,
                    if UnderRoot(src, AllRoots(src, WATCHED), key) then FileAt(src.graph, src.root, key) else None)
  {
    RootsResolve(src, WATCHED);
    RootsFindFiles(src, AllRoots(src, WATCHED), key);
  }

  // ---- the watched files, written out ----

  /** The source tree of a package: `packages`, a directory in it, and `src`. */
  predicate IsPackageSource(src: Fs, path: Path) {
    |path| == 3 && path[0] == "packages" && path[2] == "src" &&
    match NodeAt(src.graph, src.root, path[..2]) case Some(Dir(_, _)) => true case _ => false
  }

  predicate IsFixed(path: Path) {
    || path == ["Cargo.toml"] || path == ["Cargo.lock"] || path == ["rust-toolchain.toml"]
    || path == [".lyracore-cli-rev"] || path == [".cargo"] || path == ["module"] || path == ["crates"]
    || path == ["datascripts", "runtime-scripts", "events.json"]
  }

  /** A place whose files the receipt hashes. */
  predicate IsStart(src: Fs, path: Path) { IsFixed(path) || IsPackageSource(src, path) }

  ghost predicate Watched(src: Fs, key: Path) { exists n: nat :: n <= |key| && IsStart(src, key[..n]) }

  /** The content of a watched file. */
  ghost function WatchedContent(src: Fs, key: Path): Option<string> {
    if Watched(src, key) then FileAt(src.graph, src.root, key) else None
  }

  lemma {:induction false} PrefixResolves(g: Graph, id: Id, a: Path, b: Path)
    requires IdAt(g, id, a + b).Some?
    ensures IdAt(g, id, a).Some?
    decreases |a|
  {
    if a == [] {
      assert a + b == b;
    } else {
      assert (a + b)[1..] == a[1..] + b;
      PrefixResolves(g, Lookup(g[id].entries, a[0]).value, a[1..], b);
    }
  }

  lemma {:induction false} LookupFinds(entries: seq<Entry>, name: string)
    requires Lookup(entries, name).Some?
    ensures exists k :: 0 <= k < |entries| && entries[k].name == name
  {
    if entries[0].name != name {
      LookupFinds(entries[1..], name);
      var k :| 0 <= k < |entries[1..]| && entries[1..][k].name == name;
      assert entries[k + 1].name == name;
    }
  }

  lemma {:induction false} PackagesAre(src: Fs, entries: seq<Entry>, p: string)
    ensures p in Packages(src, entries) <==>
      IsDirAt(src, ["packages", p]) && exists k :: 0 <= k < |entries| && entries[k].name == p
  {
    hide IsDirAt;
    if entries != [] {
      var rest := entries[1..];
      PackagesAre(src, rest, p);
      assert forall k :: 0 <= k < |rest| ==> rest[k] == entries[k + 1];
      assert (exists k :: 0 <= k < |entries| && entries[k].name == p) <==>
             entries[0].name == p || exists k :: 0 <= k < |rest| && rest[k].name == p;
    }
  }

  /** A package is a directory in the packages directory. */
  lemma AllPackagesAre(src: Fs, p: string)
    ensures p in AllPackages(src) <==> IsDirAt(src, ["packages", p])
  {
    hide IsDirAt, Packages, Lookup;
    if IsDirAt(src, ["packages", p]) {
      DirIsEntry(src, p);
    }
    if NodeAt(src.graph, src.root, ["packages"]).Some? && NodeAt(src.graph, src.root, ["packages"]).value.Dir? {
      PackagesAre(src, NodeAt(src.graph, src.root, ["packages"]).value.entries, p);
    }
  }

  lemma DirIsEntry(src: Fs, p: string)
    requires IsDirAt(src, ["packages", p])
    ensures var node := NodeAt(src.graph, src.root, ["packages"]);
      node.Some? && node.value.Dir? && exists k :: 0 <= k < |node.value.entries| && node.value.entries[k].name == p
  {
    var g, a := src.graph, ["packages"];
    assert ["packages", p] == a + [p];
    PrefixResolves(g, src.root, a, [p]);
    PathConcat(g, src.root, a, [p]);
    LookupFinds(g[IdAt(g, src.root, a).value].entries, p);
  }

  /** The starts of the walks that are there. */
  ghost predicate StartsAt(src: Fs, roots: seq<Root>, path: Path) {
    exists k :: 0 <= k < |roots| && roots[k].path == path
  }

  lemma StartsConcat(src: Fs, a: seq<Root>, b: seq<Root>, path: Path)
    ensures StartsAt(src, a + b, path) <==> StartsAt(src, a, path) || StartsAt(src, b, path)
  {
    if k :| 0 <= k < |a| && a[k].path == path {
      assert (a + b)[k].path == path;
    }
    if k :| 0 <= k < |b| && b[k].path == path {
      assert (a + b)[|a| + k].path == path;
    }
  }

  lemma RootAtStarts(src: Fs, at: Path, path: Path)
    ensures StartsAt(src, RootAt(src, at), path) <==> path == at && IdAt(src.graph, src.root, at).Some?
  {
    hide IdAt;
    if IdAt(src.graph, src.root, at).Some? {
      assert RootAt(src, at)[0].path == at;
    }
  }

  lemma {:induction false} PackageStarts(src: Fs, packages: seq<string>, path: Path)
    ensures StartsAt(src, PackageRoots(src, packages), path) <==>
      IdAt(src.graph, src.root, path).Some? && exists p :: p in packages && path == SourceOf(p)
  {
    hide RootAt, IdAt, StartsAt;
    if packages == [] {
      assert !StartsAt(src, [], path) by { NoStarts(src, path); }
    } else {
      PackageStarts(src, packages[1..], path);
      RootAtStarts(src, SourceOf(packages[0]), path);
      StartsConcat(src, RootAt(src, SourceOf(packages[0])), PackageRoots(src, packages[1..]), path);
      assert packages == [packages[0]] + packages[1..];
    }
  }

  lemma NoStarts(src: Fs, path: Path)
    ensures !StartsAt(src, [], path)
  {
  }

  lemma PackageSources(src: Fs, path: Path)
    ensures IsPackageSource(src, path) <==> exists p :: p in AllPackages(src) && path == SourceOf(p)
  {
    hide AllPackages;
    if IsPackageSource(src, path) {
      var p := path[1];
      assert path[..2] == ["packages", p] && path == SourceOf(p);
      AllPackagesAre(src, p);
    }
    if p :| p in AllPackages(src) && path == SourceOf(p) {
      AllPackagesAre(src, p);
      assert path[..2] == ["packages", p];
    }
  }

  lemma {:induction false} WalkStarts(src: Fs, watched: seq<Path>, path: Path)
    ensures StartsAt(src, AllRoots(src, watched), path) <==>
      IdAt(src.graph, src.root, path).Some? &&
      ((path in watched && path != ["packages"]) || (["packages"] in watched && IsPackageSource(src, path)))
  {
    hide RootAt, IdAt, StartsAt, AllPackages, PackageRoots, IsPackageSource;
    if watched == [] {
      NoStarts(src, path);
    } else {
      var first, rest := watched[0], watched[1..];
      assert watched == [first] + rest;
      WalkStarts(src, rest, path);
      StartsConcat(src, RootsFor(src, first), AllRoots(src, rest), path);
      RootAtStarts(src, first, path);
      PackageStarts(src, AllPackages(src), path);
      PackageSources(src, path);
    }
  }

  /** Where the walks start: the eight fixed places and the source tree of every package, as far as they are
      there. */
  lemma WalksStartAt(src: Fs, path: Path)
    ensures StartsAt(src, AllRoots(src, WATCHED), path) <==> IdAt(src.graph, src.root, path).Some? && IsStart(src, path)
  {
    hide AllRoots, IdAt, StartsAt;
    WalkStarts(src, WATCHED, path);
    assert ["packages"] in WATCHED && (path in WATCHED <==> IsFixed(path) || path == ["packages"]) by {
      FixedAre(path);
    }
    assert !IsStart(src, ["packages"]);
  }

  lemma FixedAre(path: Path)
    ensures path in WATCHED <==> IsFixed(path) || path == ["packages"]
  {
    assert WATCHED[0] == ["Cargo.toml"] && WATCHED[1] == ["Cargo.lock"] && WATCHED[2] == ["rust-toolchain.toml"];
    assert WATCHED[3] == [".lyracore-cli-rev"] && WATCHED[4] == [".cargo"] && WATCHED[5] == ["module"];
    assert WATCHED[6] == ["crates"] && WATCHED[7] == ["packages"];
    assert WATCHED[8] == ["datascripts", "runtime-scripts", "events.json"];
  }

  lemma FileIsThere(src: Fs, key: Path, n: nat)
    requires n <= |key| && FileAt(src.graph, src.root, key).Some?
    ensures IdAt(src.graph, src.root, key[..n]).Some?
  {
    assert key == key[..n] + key[n..];
    PrefixResolves(src.graph, src.root, key[..n], key[n..]);
  }

  /** The receipt records exactly the files at or below the eight fixed places and the source trees of all packages,
      each with its content. */
  lemma InputsRecordExactly(src: Fs, key: Path)
    requires WellFormed(src.graph) && InputsOf(src).Some?
    ensures Records(InputsOf(src).value.files, key, WatchedContent(src, key))
  {
    hide InputsOf, AllRoots, IsStart, StartsAt, FileAt;
    InputsCoverTheRoots(src, key);
    var roots := AllRoots(src, WATCHED);
    if UnderRoot(src, roots, key) {
      var k :| 0 <= k < |roots| && roots[k].path <= key;
      UnderIsStart(src, roots, k);
      WalksStartAt(src, roots[k].path);
      assert key[..|roots[k].path|] == roots[k].path;
    } else if Watched(src, key) && FileAt(src.graph, src.root, key).Some? {
      var n: nat :| n <= |key| && IsStart(src, key[..n]);
      FileIsThere(src, key, n);
      WalksStartAt(src, key[..n]);
      StartIsUnder(src, roots, key, n);
    }
  }

  lemma UnderIsStart(src: Fs, roots: seq<Root>, k: nat)
    requires k < |roots|
    ensures StartsAt(src, roots, roots[k].path)
  {
  }

  lemma StartIsUnder(src: Fs, roots: seq<Root>, key: Path, n: nat)
    requires n <= |key| && StartsAt(src, roots, key[..n])
    ensures UnderRoot(src, roots, key)
  {
    var k :| 0 <= k < |roots| && roots[k].path == key[..n];
  }

  /** Once a watched file differs from what the receipt was made from, appears or goes, the check fails. */
  lemma EditIsSeen(w: World, made: Fs, key: Path)
    requires WellFormed(made.graph) && WellFormed(w.src.graph) && InputsOf(made).Some?
    requires w.receipt.Some? && w.receipt.value.inputs == InputsOf(made).value
    requires WatchedContent(made, key) != WatchedContent(w.src, key)
    ensures Check(w).None? && Prepare(w).None?
  {
    hide InputsOf, WatchedContent, Output, FileAt;
    InputsRecordExactly(made, key);
    if InputsOf(w.src).Some? {
      InputsRecordExactly(w.src, key);
    }
  }

  lemma {:induction false} WalksSucceed(g: Graph, roots: seq<Root>)
    ensures WalkRoots(g, roots).Files? <==>
      forall k :: 0 <= k < |roots| ==> Walk(g, roots[k].id, roots[k].path, []).Files?
  {
    hide Walk;
    if roots != [] {
      WalksSucceed(g, roots[1..]);
      assert roots == [roots[0]] + roots[1..];
      assert forall k :: 0 <= k < |roots[1..]| ==> roots[1..][k] == roots[k + 1];
    }
  }

  /** A place the walk can read: everything below it is there and readable, and no directory is reachable from
      itself. */
  ghost predicate Walkable(src: Fs, path: Path) {
    IdAt(src.graph, src.root, path).Some? ==>
      AllReadable(src.graph, IdAt(src.graph, src.root, path).value) &&
      !HasCycle(src.graph, IdAt(src.graph, src.root, path).value)
  }

  lemma RootWalks(src: Fs, k: nat)
    requires k < |AllRoots(src, WATCHED)|
    ensures var r := AllRoots(src, WATCHED)[k];
      IsStart(src, r.path) && (Walk(src.graph, r.id, r.path, []).Files? <==> Walkable(src, r.path))
  {
    hide AllRoots, IdAt, IsStart, StartsAt, Walk, AllReadable, HasCycle;
    var roots := AllRoots(src, WATCHED);
    RootsResolve(src, WATCHED);
    UnderIsStart(src, roots, k);
    WalksStartAt(src, roots[k].path);
    SucceedsExactly(src.graph, roots[k].id, roots[k].path);
  }

  /** The inputs can be read exactly when the packages directory, if it is there, can be listed and each of these
      places can be walked. */
  lemma InputsReadExactly(src: Fs)
    ensures var packages := NodeAt(src.graph, src.root, ["packages"]);
      InputsOf(src).Some? <==>
        && (packages.Some? && packages.value.Dir? ==> packages.value.readable)
        && forall path :: IsStart(src, path) ==> Walkable(src, path)
  {
    hide AllRoots, IdAt, IsStart, StartsAt, Walk, Walkable, WalkRoots, NodeAt;
    var roots := AllRoots(src, WATCHED);
    WalksSucceed(src.graph, roots);
    forall k | 0 <= k < |roots|
      ensures IsStart(src, roots[k].path)
      ensures Walk(src.graph, roots[k].id, roots[k].path, []).Files? <==> Walkable(src, roots[k].path)
    {
      RootWalks(src, k);
    }
    forall path | IsStart(src, path) && !Walkable(src, path)
      ensures exists k :: 0 <= k < |roots| && roots[k].path == path
    {
      UnwalkableIsThere(src, path);
      WalksStartAt(src, path);
      StartIsRoot(src, roots, path);
    }
  }

  lemma UnwalkableIsThere(src: Fs, path: Path)
    requires !Walkable(src, path)
    ensures IdAt(src.graph, src.root, path).Some?
  {
  }

  lemma StartIsRoot(src: Fs, roots: seq<Root>, path: Path)
    requires StartsAt(src, roots, path)
    ensures exists k :: 0 <= k < |roots| && roots[k].path == path
  {
  }

  lemma {:induction false} PackageWatchesAre(packages: seq<string>, path: Path)
    ensures path in PackageWatches(packages) <==>
      |path| == 3 && path[0] == "packages" && path[2] == "src" && path[1] in packages
  {
    if packages != [] {
      PackageWatchesAre(packages[1..], path);
      assert path == SourceOf(packages[0]) <==>
        |path| == 3 && path[0] == "packages" && path[1] == packages[0] && path[2] == "src";
      assert |path| == 3 ==> (path[1] in packages <==> path[1] == packages[0] || path[1] in packages[1..]);
    }
  }

  /** The recorded watches: the nine fixed places, and the source tree of every package, there or not. */
  lemma InputsWatchExactly(src: Fs, path: Path)
    requires InputsOf(src).Some?
    ensures path in InputsOf(src).value.watches <==>
      IsFixed(path) || path == ["packages"] || IsPackageSource(src, path)
  {
    hide WalkRoots, AllRoots, PackagesHidden, PackageWatches, AllPackages, IsFixed, IsPackageSource;
    PackageSourcesWatched(src, path);
    FixedWatched(path);
  }

  lemma PackageSourcesWatched(src: Fs, path: Path)
    ensures path in PackageWatches(AllPackages(src)) <==> IsPackageSource(src, path)
  {
    hide NodeAt, AllPackages, PackageWatches;
    PackageWatchesAre(AllPackages(src), path);
    if |path| == 3 {
      AllPackagesAre(src, path[1]);
      assert path[..2] == [path[0], path[1]];
    }
  }

  lemma FixedWatched(path: Path)
    ensures path in multiset(WATCHED) <==> IsFixed(path) || path == ["packages"]
  {
    hide IsFixed;
    InMultiset(WATCHED, path);
    FixedAre(path);
  }

  lemma InMultiset(paths: seq<Path>, path: Path)
    ensures path in multiset(paths) <==> path in paths
  {
  }

  /** A check succeeds exactly when the receipt's directory is there with a `mod.rs`, and inputs and output, as
      read now, are the receipt's. */
  lemma CheckMeans(w: World, d: string)
    ensures Check(w) == Some(d) <==>
      && w.receipt.Some? && w.receipt.value.directory == d && d in w.dirs
      && InputsOf(w.src) == Some(w.receipt.value.inputs)
      && Output(w.dirs[d], d) == Files(w.receipt.value.output)
      && FileAt(w.dirs[d].graph, w.dirs[d].root, ["mod.rs"]).Some?
  {
    hide InputsOf, Output, FileAt;
  }

  /** A regeneration succeeds exactly when the tools have the pinned versions, the generator works and writes a
      `mod.rs`, the inputs are the same before, after and at the check, what it wrote can be read, and the
      receipt is put in place. */
  lemma RegeneratesExactly(w: World, run: Generation, d: string)
    requires Check(w).None?
    ensures Ensure(w, run).1 == Some(d) <==>
      && d == run.staging && run.toolsMatch && run.works && run.writeWorks && run.swapWorks
      && FileAt(run.writes.graph, run.writes.root, ["mod.rs"]).Some? && Output(run.writes, run.staging).Files?
      && InputsOf(run.atInputs).Some? && InputsOf(run.atInputs) == InputsOf(run.atEnd) == InputsOf(run.atCheck)
    ensures Ensure(w, run).0.receipt != w.receipt ==>
      && InputsOf(run.atInputs).Some? && Output(run.writes, run.staging).Files?
      && Ensure(w, run).0.receipt ==
         Some(Receipt(InputsOf(run.atInputs).value, run.staging, Output(run.writes, run.staging).files))
  {
    hide InputsOf, Output, FileAt;
  }

  /** What a check returns: the directory, and exactly the places whose changes it would see. */
  lemma PreparedMeans(w: World, path: Path)
    ensures Prepare(w).Some? <==> Check(w).Some?
    ensures Prepare(w).Some? ==>
      var d, watches := Prepare(w).value.directory, Prepare(w).value.watches;
      && Check(w) == Some(d) && InputsOf(w.src).Some?
      && (path in watches <==>
            || IsFixed(path) || path == ["packages"] || IsPackageSource(w.src, path)
            || path in InputsOf(w.src).value.files
            || path == [".lyracore", "generated", "gateway", "current.json"]
            || path == [".lyracore", "generated", "gateway", d])
  {
    hide InputsOf, Output, FileAt, IsFixed, IsPackageSource;
    if Prepare(w).Some? {
      InputsWatchExactly(w.src, path);
      var r := w.receipt.value;
      FilesCount(r.inputs.files, path);
      assert RECEIPT == [".lyracore", "generated", "gateway", "current.json"];
      assert CACHE + [r.directory] == [".lyracore", "generated", "gateway", r.directory];
    }
  }

  lemma FilesCount(files: map<Path, Digest>, path: Path)
    ensures path in multiset(files.Keys) <==> path in files
  {
  }

  /** How far a regeneration has got when it ends: the sources are then those of its last step. */
  lemma EndsWithSources(w: World, run: Generation)
    requires Check(w).None? && run.toolsMatch
    ensures Ensure(w, run).0.src ==
      if InputsOf(run.atInputs).None? then run.atInputs
      else if !run.works || FileAt(run.writes.graph, run.writes.root, ["mod.rs"]).None? then run.atStart
      else if InputsOf(run.atEnd) == InputsOf(run.atInputs) && Output(run.writes, run.staging).Files? &&
              run.writeWorks && run.swapWorks then run.atCheck
      else run.atEnd
  {
    hide InputsOf, Output, FileAt, Check;
  }
}
