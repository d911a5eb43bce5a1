/** The bindings cache (src/cmd/bindings.rs): generated code is reused only while a receipt agrees with
    the inputs and the output as read now. `gen` is the generator, a function of the inputs. */
module Bindings {
  import opened Text
  import opened SourceWalk

  datatype Fs = Fs(graph: Graph, root: Id)

  // ---- the inputs ----

  /** What the receipt remembers of the project: file hashes, and the watched paths (a sorted list, so
      a multiset). */
  datatype Inputs = Inputs(files: map<Path, Digest>, watches: multiset<Path>)

  const WATCHED: seq<Path> := [
    ["Cargo.toml"], ["Cargo.lock"], ["rust-toolchain.toml"], [".lyracore-cli-rev"], [".cargo"],
    ["module"], ["crates"], ["packages"], ["datascripts", "runtime-scripts", "events.json"]]

  datatype Root = Root(path: Path, id: Id)

  function RootAt(src: Fs, path: Path): seq<Root> {
    match IdAt(src.graph, src.root, path) case None => [] case Some(id) => [Root(path, id)]
  }

  predicate IsDirAt(src: Fs, path: Path) {
    match NodeAt(src.graph, src.root, path) case Some(Dir(_, _)) => true case _ => false
  }

  function SourceOf(package: string): Path { ["packages", package, "src"] }

  /** The packages that are directories, in listing order. */
  function Packages(src: Fs, entries: seq<Entry>): seq<string> {
    if entries == [] then []
    else (if IsDirAt(src, ["packages", entries[0].name]) then [entries[0].name] else []) + Packages(src, entries[1..])
  }

  function AllPackages(src: Fs): seq<string> {
    match NodeAt(src.graph, src.root, ["packages"])
    case Some(Dir(entries, _)) => Packages(src, entries)
    case _ => []
  }

  /** The directory of packages is there, and cannot be listed. */
  predicate PackagesHidden(src: Fs) {
    match NodeAt(src.graph, src.root, ["packages"]) case Some(Dir(_, readable)) => !readable case _ => false
  }

  function PackageRoots(src: Fs, packages: seq<string>): seq<Root> {
    if packages == [] then [] else RootAt(src, SourceOf(packages[0])) + PackageRoots(src, packages[1..])
  }

  function PackageWatches(packages: seq<string>): multiset<Path> {
    if packages == [] then multiset{} else multiset{SourceOf(packages[0])} + PackageWatches(packages[1..])
  }

  /** Where the walks start for one watched path. */
  function RootsFor(src: Fs, path: Path): seq<Root> {
    if path == ["packages"] then PackageRoots(src, AllPackages(src)) else RootAt(src, path)
  }

  function AllRoots(src: Fs, watched: seq<Path>): seq<Root> {
    if watched == [] then [] else RootsFor(src, watched[0]) + AllRoots(src, watched[1..])
  }

  function WalkRoots(g: Graph, roots: seq<Root>): Walked {
    if roots == [] then Files(map[]) else And(Walk(g, roots[0].id, roots[0].path, []), WalkRoots(g, roots[1..]))
  }

  function InputsOf(src: Fs): Option<Inputs> {
    if PackagesHidden(src) then None
    else match WalkRoots(src.graph, AllRoots(src, WATCHED))
    case Files(files) => Some(Inputs(files, multiset(WATCHED) + PackageWatches(AllPackages(src))))
    case _ => None
  }

  method CollectRoots(g: Graph, roots: seq<Root>, into: Collector) returns (ok: bool)
    modifies into
    ensures ok <==> WalkRoots(g, roots).Files?
    ensures ok ==> into.files == old(into.files) + WalkRoots(g, roots).files
  {
    hide And, Walk;
    ghost var found: map<Path, Digest> := map[];
    AndNothing(WalkRoots(g, roots));
    for k := 0 to |roots|
      invariant into.files == old(into.files) + found
      invariant And(Files(found), WalkRoots(g, roots[k..])) == WalkRoots(g, roots)
    {
      RootsStep(g, roots, k, found);
      into.ancestors := [];
      var failure := into.Collect(g, roots[k].id, roots[k].path);
      if failure.Some? {
        return false;
      }
      ghost var child := Walk(g, roots[k].id, roots[k].path, []).files;
      FilesRegroup(old(into.files), found, child);
      found := found + child;
    }
    AndAll(found);
    return true;
  }

  lemma RootsStep(g: Graph, roots: seq<Root>, k: nat, found: map<Path, Digest>)
    requires k < |roots|
    ensures var child := Walk(g, roots[k].id, roots[k].path, []);
      And(Files(found), WalkRoots(g, roots[k..])) ==
        if child.Files? then And(Files(found + child.files), WalkRoots(g, roots[k + 1..])) else child
  {
    assert roots[k..][0] == roots[k] && roots[k..][1..] == roots[k + 1..];
    hide And;
    AndRegroup(found, Walk(g, roots[k].id, roots[k].path, []), WalkRoots(g, roots[k + 1..]));
  }

  lemma AndAssociates(x: Walked, y: Walked, z: Walked)
    ensures And(x, And(y, z)) == And(And(x, y), z)
  {
    if x.Files? {
      AndRegroup(x.files, y, z);
    }
  }

  lemma {:induction false} WalkConcat(g: Graph, a: seq<Root>, b: seq<Root>)
    ensures WalkRoots(g, a + b) == And(WalkRoots(g, a), WalkRoots(g, b))
  {
    hide And, Walk;
    if a == [] {
      assert a + b == b;
      AndNothing(WalkRoots(g, b));
    } else {
      WalkConcat(g, a[1..], b);
      assert (a + b)[1..] == a[1..] + b;
      AndAssociates(Walk(g, a[0].id, a[0].path, []), WalkRoots(g, a[1..]), WalkRoots(g, b));
    }
  }

  /** `inputs`: the watch list grows by one source tree per package while the walks fill the map. */
  method ReadInputs(src: Fs) returns (r: Option<Inputs>)
    ensures r == InputsOf(src)
  {
    hide And, WalkRoots, RootAt, AllRoots, PackageRoots, PackageWatches, AllPackages, PackagesHidden;
    var watches := multiset(WATCHED);
    var collector := new Collector();
    ghost var found: map<Path, Digest> := map[];
    AndNothing(WalkRoots(src.graph, AllRoots(src, WATCHED)));
    for k := 0 to |WATCHED|
      invariant collector.files == found && fresh(collector)
      invariant And(Files(found), WalkRoots(src.graph, AllRoots(src, WATCHED[k..]))) ==
        WalkRoots(src.graph, AllRoots(src, WATCHED))
      invariant k > 7 ==> !PackagesHidden(src)
      invariant watches == multiset(WATCHED) + if k > 7 then PackageWatches(AllPackages(src)) else multiset{}
    {
      OnePackageList(k);
      InputsStep(src, k, found);
      var roots;
      if WATCHED[k] == ["packages"] {
        if PackagesHidden(src) {
          return None;
        }
        var packages := AllPackages(src);
        var more := ReadPackages(packages);
        watches := watches + more;
        roots := PackageRoots(src, packages);
      } else {
        roots := RootAt(src, WATCHED[k]);
      }
      var ok := CollectRoots(src.graph, roots, collector);
      if !ok {
        return None;
      }
      found := found + WalkRoots(src.graph, roots).files;
    }
    NothingToWalk(src);
    AndAll(found);
    return Some(Inputs(collector.files, watches));
  }

  lemma OnePackageList(k: nat)
    requires k < |WATCHED|
    ensures WATCHED[k] == ["packages"] <==> k == 7
  {
  }

  lemma InputsStep(src: Fs, k: nat, found: map<Path, Digest>)
    requires k < |WATCHED|
    ensures
      var child := WalkRoots(src.graph, RootsFor(src, WATCHED[k]));
      var rest := WalkRoots(src.graph, AllRoots(src, WATCHED[k + 1..]));
      And(Files(found), WalkRoots(src.graph, AllRoots(src, WATCHED[k..]))) ==
        if child.Files? then And(Files(found + child.files), rest) else child
  {
    hide And, WalkRoots, RootsFor;
    assert WATCHED[k..][0] == WATCHED[k] && WATCHED[k..][1..] == WATCHED[k + 1..];
    WalkConcat(src.graph, RootsFor(src, WATCHED[k]), AllRoots(src, WATCHED[k + 1..]));
    AndRegroup(found, WalkRoots(src.graph, RootsFor(src, WATCHED[k])),
               WalkRoots(src.graph, AllRoots(src, WATCHED[k + 1..])));
  }

  lemma NothingToWalk(src: Fs)
    ensures WalkRoots(src.graph, AllRoots(src, WATCHED[|WATCHED|..])) == Files(map[])
  {
  }

  method ReadPackages(packages: seq<string>) returns (watches: multiset<Path>)
    ensures watches == PackageWatches(packages)
  {
    watches := multiset{};
    for k := 0 to |packages|
      invariant watches + PackageWatches(packages[k..]) == PackageWatches(packages)
    {
      assert packages[k..][0] == packages[k] && packages[k..][1..] == packages[k + 1..];
      watches := watches + multiset{SourceOf(packages[k])};
    }
  }
}
