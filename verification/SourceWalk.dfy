/** The recursive hash walk of the bindings cache (src/cmd/bindings.rs, `collect`) over a directory
    graph with symlinks. Nodes are named by what their path resolves to, so a symlink is just another
    entry with the same target; a target outside the graph is a dangling link. */
module SourceWalk {
  import opened Text

  type Id = nat
  type Path = seq<string>

  datatype Entry = Entry(name: string, target: Id)
  /** A file may not be readable, and a directory may not let itself be listed. */
  datatype Node = File(content: string, readable: bool) | Dir(entries: seq<Entry>, readable: bool)
  type Graph = map<Id, Node>

  /** A content hash, taken to be injective: it is the content. */
  datatype Digest = Digest(content: string)

  datatype Walked = Files(files: map<Path, Digest>) | Cycle | IoError

  predicate DistinctNames(entries: seq<Entry>) {
    forall i, j :: 0 <= i < j < |entries| ==> entries[i].name != entries[j].name
  }

  predicate WellFormed(g: Graph) { forall id :: id in g && g[id].Dir? ==> DistinctNames(g[id].entries) }

  ghost function Unvisited(g: Graph, ancestors: seq<Id>): nat { |g.Keys - (set a | a in ancestors)| }

  lemma DescendingVisits(g: Graph, ancestors: seq<Id>, id: Id)
    requires id in g && id !in ancestors
    ensures Unvisited(g, ancestors + [id]) < Unvisited(g, ancestors)
  {
    var all, fewer := g.Keys - (set a | a in ancestors), g.Keys - (set a | a in ancestors + [id]);
    assert all == fewer + {id};
  }

  /** The walk as a function of the ancestor stack; it ends because each step down visits a directory
      not yet on the stack. */
  function Walk(g: Graph, id: Id, path: Path, ancestors: seq<Id>): Walked
    decreases Unvisited(g, ancestors), 0
  {
    if id !in g then IoError
    else match g[id]
      case File(content, readable) => if readable then Files(map[path := Digest(content)]) else IoError
      case Dir(entries, readable) =>
        if id in ancestors then Cycle
        else if !readable then IoError
        else
          DescendingVisits(g, ancestors, id);
          WalkEntries(g, entries, path, ancestors + [id])
  }

  function WalkEntries(g: Graph, entries: seq<Entry>, path: Path, ancestors: seq<Id>): Walked
    decreases Unvisited(g, ancestors), |entries|
  {
    if entries == [] then Files(map[])
    else
      And(Walk(g, entries[0].target, path + [entries[0].name], ancestors),
          WalkEntries(g, entries[1..], path, ancestors))
  }

  /** The first failure, or all files found. */
  function And(a: Walked, b: Walked): Walked {
    if !a.Files? then a else if !b.Files? then b else Files(a.files + b.files)
  }

  class Collector {
    var files: map<Path, Digest>
    var ancestors: seq<Id>

    constructor ()
      ensures files == map[] && ancestors == []
    {
      files, ancestors := map[], [];
    }

    /** Every file below `id` is inserted and the ancestor stack restored, or the walk fails as `Walk`
        says. */
    method Collect(g: Graph, id: Id, path: Path) returns (failure: Option<Walked>)
      modifies this
      ensures Walk(g, id, path, old(ancestors)).Files? ==>
        failure.None? && ancestors == old(ancestors) && files == old(files) + Walk(g, id, path, old(ancestors)).files
      ensures !Walk(g, id, path, old(ancestors)).Files? ==> failure == Some(Walk(g, id, path, old(ancestors)))
      decreases Unvisited(g, ancestors)
    {
      hide And;
      if id !in g {
        return Some(IoError);
      }
      if g[id].File? {
        if !g[id].readable {
          return Some(IoError);
        }
        files := files[path := Digest(g[id].content)];
        return None;
      }
      if id in ancestors {
        return Some(Cycle);
      }
      if !g[id].readable {
        return Some(IoError);
      }
      var entries := g[id].entries;
      ghost var below := ancestors + [id];
      ghost var all, found := WalkEntries(g, entries, path, below), map[];
      DescendingVisits(g, ancestors, id);
      ancestors := ancestors + [id];
      AndNothing(all);
      for k := 0 to |entries|
        invariant ancestors == below
        invariant files == old(files) + found
        invariant And(Files(found), WalkEntries(g, entries[k..], path, below)) == all
      {
        EntriesStep(g, entries, path, below, k, found);
        var sub := Collect(g, entries[k].target, path + [entries[k].name]);
        if sub.Some? {
          return sub;
        }
        ghost var child := Walk(g, entries[k].target, path + [entries[k].name], below).files;
        FilesRegroup(old(files), found, child);
        found := found + child;
      }
      AndAll(found);
      ancestors := ancestors[..|ancestors| - 1];
      return None;
    }
  }

  lemma FilesRegroup(a: map<Path, Digest>, b: map<Path, Digest>, c: map<Path, Digest>)
    ensures (a + b) + c == a + (b + c)
  {
  }

  lemma AndNothing(all: Walked)
    ensures And(Files(map[]), all) == all
  {
    if all.Files? { assert map[] + all.files == all.files; }
  }

  lemma AndAll(found: map<Path, Digest>)
    ensures And(Files(found), Files(map[])) == Files(found)
  {
    assert found + map[] == found;
  }

  /** A failed child decides the outcome; a successful one joins what was found before it. */
  lemma AndRegroup(found: map<Path, Digest>, child: Walked, rest: Walked)
    ensures child.Files? ==> And(Files(found), And(child, rest)) == And(Files(found + child.files), rest)
    ensures !child.Files? ==> And(Files(found), And(child, rest)) == child
  {
    if child.Files? && rest.Files? {
      assert found + (child.files + rest.files) == (found + child.files) + rest.files;
    }
  }

  /** One turn of the loop: the child's failure is the walk's, or its files join those found. */
  lemma EntriesStep(g: Graph, entries: seq<Entry>, path: Path, ancestors: seq<Id>, k: nat, found: map<Path, Digest>)
    requires k < |entries|
    ensures var child := Walk(g, entries[k].target, path + [entries[k].name], ancestors);
      And(Files(found), WalkEntries(g, entries[k..], path, ancestors)) ==
        if child.Files? then And(Files(found + child.files), WalkEntries(g, entries[k + 1..], path, ancestors))
        else child
  {
    hide And;
    assert entries[k..][0] == entries[k] && entries[k..][1..] == entries[k + 1..];
    AndRegroup(found, Walk(g, entries[k].target, path + [entries[k].name], ancestors),
               WalkEntries(g, entries[k + 1..], path, ancestors));
  }

  // ---- cycles ----

  /** A walk down through directories. */
  ghost predicate Descent(g: Graph, p: seq<Id>) {
    && p != []
    && (forall i :: 0 <= i < |p| ==> p[i] in g && g[p[i]].Dir?)
    && (forall i :: 0 <= i < |p| - 1 ==> Below(g, p[i], p[i + 1]))
  }

  ghost predicate Below(g: Graph, a: Id, b: Id)
    requires a in g && g[a].Dir?
  {
    exists k :: 0 <= k < |g[a].entries| && g[a].entries[k].target == b
  }

  /** Some directory at or below `id` is reachable from itself by going down. */
  ghost predicate HasCycle(g: Graph, id: Id) {
    exists p: seq<Id> :: Descent(g, p) && p[0] == id && !NoDup(p)
  }

  lemma {:induction false} EntriesSucceed(g: Graph, entries: seq<Entry>, path: Path, ancestors: seq<Id>, k: nat)
    requires WalkEntries(g, entries, path, ancestors).Files? && k < |entries|
    ensures Walk(g, entries[k].target, path + [entries[k].name], ancestors).Files?
    decreases |entries|
  {
    if k > 0 {
      EntriesSucceed(g, entries[1..], path, ancestors, k - 1);
    }
  }

  lemma {:induction false} EntriesFail(g: Graph, entries: seq<Entry>, path: Path, ancestors: seq<Id>) returns (k: nat)
    requires WalkEntries(g, entries, path, ancestors) == Cycle
    ensures k < |entries| && Walk(g, entries[k].target, path + [entries[k].name], ancestors) == Cycle
    decreases |entries|
  {
    if Walk(g, entries[0].target, path + [entries[0].name], ancestors) == Cycle {
      k := 0;
    } else {
      k := EntriesFail(g, entries[1..], path, ancestors);
      k := k + 1;
    }
  }

  /** After a successful walk no descent repeats a directory, or meets one of the ancestors. */
  lemma {:induction false} SuccessIsAcyclic(g: Graph, id: Id, path: Path, ancestors: seq<Id>, p: seq<Id>)
    requires Walk(g, id, path, ancestors).Files?
    requires Descent(g, p) && p[0] == id
    ensures NoDup(p) && forall x :: x in p ==> x !in ancestors
    decreases |p|
  {
    if |p| > 1 {
      var rest := p[1..];
      var k :| 0 <= k < |g[id].entries| && g[id].entries[k].target == p[1];
      EntriesSucceed(g, g[id].entries, path, ancestors + [id], k);
      assert Descent(g, rest) by {
        assert forall i :: 0 <= i < |rest| ==> rest[i] == p[i + 1];
      }
      SuccessIsAcyclic(g, p[1], path + [g[id].entries[k].name], ancestors + [id], rest);
      assert p == [id] + rest;
      assert forall j :: 0 <= j < |rest| ==> rest[j] in rest;
      assert id in ancestors + [id];
    }
  }

  /** A refused walk exhibits a descent that comes back to itself, or to an ancestor. */
  lemma {:induction false} RefusalHasDescent(g: Graph, id: Id, path: Path, ancestors: seq<Id>) returns (p: seq<Id>)
    requires Walk(g, id, path, ancestors) == Cycle
    ensures Descent(g, p) && p[0] == id
    ensures !NoDup(p) || p[|p| - 1] in ancestors
    decreases Unvisited(g, ancestors)
  {
    if id in ancestors {
      p := [id];
    } else {
      DescendingVisits(g, ancestors, id);
      var k := EntriesFail(g, g[id].entries, path, ancestors + [id]);
      var child := g[id].entries[k].target;
      var q := RefusalHasDescent(g, child, path + [g[id].entries[k].name], ancestors + [id]);
      p := [id] + q;
      assert Descent(g, p) by {
        assert Below(g, id, child);
        assert forall i :: 0 < i < |p| ==> p[i] == q[i - 1];
      }
      if !NoDup(q) {
        var i, j :| 0 <= i < j < |q| && q[i] == q[j];
        assert p[i + 1] == p[j + 1];
      } else if q[|q| - 1] == id {
        assert p[0] == p[|p| - 1];
      } else {
        assert p[|p| - 1] == q[|q| - 1];
      }
    }
  }

  // ---- what can be read ----

  /** `x` is an entry of the last directory of the descent. */
  ghost predicate EndsAt(g: Graph, p: seq<Id>, x: Id) { Descent(g, p) && Below(g, p[|p| - 1], x) }

  ghost predicate Reaches(g: Graph, id: Id, x: Id) {
    x == id || exists p: seq<Id> :: EndsAt(g, p, x) && p[0] == id
  }

  predicate IsReadable(g: Graph, x: Id) { x in g && g[x].readable }

  /** The start of the walk, and whatever can be reached from it, is there and can be read. */
  ghost predicate AllReadable(g: Graph, id: Id) { forall x :: Reaches(g, id, x) ==> IsReadable(g, x) }

  lemma ReachesThrough(g: Graph, id: Id, k: nat, x: Id)
    requires id in g && g[id].Dir? && k < |g[id].entries| && Reaches(g, g[id].entries[k].target, x)
    ensures Reaches(g, id, x)
  {
    var child := g[id].entries[k].target;
    assert Below(g, id, child);
    if x == child {
      assert EndsAt(g, [id], x);
    } else {
      var p: seq<Id> :| EndsAt(g, p, x) && p[0] == child;
      var q := [id] + p;
      assert forall i :: 0 < i < |q| ==> q[i] == p[i - 1];
      assert EndsAt(g, q, x);
    }
  }

  lemma {:induction false} EntriesReadable(g: Graph, entries: seq<Entry>, path: Path, ancestors: seq<Id>)
    requires forall k :: 0 <= k < |entries| ==>
      Walk(g, entries[k].target, path + [entries[k].name], ancestors) != IoError
    ensures WalkEntries(g, entries, path, ancestors) != IoError
    decreases |entries|
  {
    if entries != [] {
      assert forall k :: 0 <= k < |entries[1..]| ==> entries[1..][k] == entries[k + 1];
      EntriesReadable(g, entries[1..], path, ancestors);
    }
  }

  lemma {:induction false} ReadableWalks(g: Graph, id: Id, path: Path, ancestors: seq<Id>)
    requires AllReadable(g, id)
    ensures Walk(g, id, path, ancestors) != IoError
    decreases Unvisited(g, ancestors)
  {
    hide Reaches;
    assert IsReadable(g, id) by { ReachesItself(g, id); }
    if g[id].Dir? && id !in ancestors {
      var entries := g[id].entries;
      DescendingVisits(g, ancestors, id);
      forall k | 0 <= k < |entries|
        ensures Walk(g, entries[k].target, path + [entries[k].name], ancestors + [id]) != IoError
      {
        forall x | Reaches(g, entries[k].target, x) ensures IsReadable(g, x) {
          ReachesThrough(g, id, k, x);
        }
        ReadableWalks(g, entries[k].target, path + [entries[k].name], ancestors + [id]);
      }
      EntriesReadable(g, entries, path, ancestors + [id]);
    }
  }

  lemma ReachesItself(g: Graph, id: Id)
    ensures Reaches(g, id, id)
  {
  }

  /** A successful walk has read everything that a descent comes to. */
  lemma {:induction false} SuccessHasRead(g: Graph, id: Id, path: Path, ancestors: seq<Id>, p: seq<Id>, x: Id)
    requires Walk(g, id, path, ancestors).Files? && EndsAt(g, p, x) && p[0] == id
    ensures IsReadable(g, x)
    decreases |p|
  {
    var entries := g[id].entries;
    var next := if |p| > 1 then p[1] else x;
    var k :| 0 <= k < |entries| && entries[k].target == next;
    EntriesSucceed(g, entries, path, ancestors + [id], k);
    if |p| > 1 {
      var rest := p[1..];
      assert forall i :: 0 <= i < |rest| ==> rest[i] == p[i + 1];
      SuccessHasRead(g, next, path + [entries[k].name], ancestors + [id], rest, x);
    }
  }

  /** The walk succeeds exactly when everything that can be reached is there and can be read, and no directory
      that can be reached is reachable from itself. */
  lemma SucceedsExactly(g: Graph, id: Id, path: Path)
    ensures Walk(g, id, path, []).Files? <==> AllReadable(g, id) && !HasCycle(g, id)
  {
    if Walk(g, id, path, []).Files? {
      forall x | Reaches(g, id, x) ensures IsReadable(g, x) {
        if x != id {
          var p: seq<Id> :| EndsAt(g, p, x) && p[0] == id;
          SuccessHasRead(g, id, path, [], p, x);
        }
      }
      if HasCycle(g, id) {
        var p: seq<Id> :| Descent(g, p) && p[0] == id && !NoDup(p);
        SuccessIsAcyclic(g, id, path, [], p);
      }
    } else if AllReadable(g, id) {
      ReadableWalks(g, id, path, []);
      var p := RefusalHasDescent(g, id, path, []);
    }
  }

  /** Where all can be read, the walk refuses exactly when some directory is reachable from itself. */
  lemma FailsExactlyOnCycles(g: Graph, id: Id, path: Path)
    requires AllReadable(g, id)
    ensures Walk(g, id, path, []) == Cycle <==> HasCycle(g, id)
    ensures Walk(g, id, path, []).Files? <==> !HasCycle(g, id)
  {
    SucceedsExactly(g, id, path);
    ReadableWalks(g, id, path, []);
  }

  // ---- what is found ----

  function Lookup(entries: seq<Entry>, name: string): Option<Id> {
    if entries == [] then None
    else if entries[0].name == name then Some(entries[0].target)
    else Lookup(entries[1..], name)
  }

  /** The node a relative path resolves to, following symlinks. */
  function IdAt(g: Graph, id: Id, names: Path): (r: Option<Id>)
    ensures r.Some? ==> r.value in g
    decreases |names|
  {
    if id !in g then None
    else if names == [] then Some(id)
    else match g[id]
      case File(_, _) => None
      case Dir(entries, _) =>
        match Lookup(entries, names[0])
        case None => None
        case Some(target) => IdAt(g, target, names[1..])
  }

  function NodeAt(g: Graph, id: Id, names: Path): Option<Node> {
    match IdAt(g, id, names) case None => None case Some(found) => Some(g[found])
  }

  lemma {:induction false} PathConcat(g: Graph, id: Id, a: Path, b: Path)
    requires IdAt(g, id, a).Some?
    ensures IdAt(g, id, a + b) == IdAt(g, IdAt(g, id, a).value, b)
    decreases |a|
  {
    if a == [] {
      assert a + b == b;
    } else {
      assert (a + b)[1..] == a[1..] + b;
      PathConcat(g, Lookup(g[id].entries, a[0]).value, a[1..], b);
    }
  }

  /** The content of the file at a relative path. */
  function FileAt(g: Graph, id: Id, names: Path): Option<string> {
    match NodeAt(g, id, names)
    case Some(File(content, _)) => Some(content)
    case _ => None
  }

  lemma {:induction false} LookupAbsent(entries: seq<Entry>, name: string)
    requires forall k :: 0 <= k < |entries| ==> entries[k].name != name
    ensures Lookup(entries, name).None?
  {
    if entries != [] {
      LookupAbsent(entries[1..], name);
    }
  }

  /** What a successful walk recorded under one key. */
  ghost predicate Records(files: map<Path, Digest>, key: Path, content: Option<string>) {
    match content
    case None => key !in files
    case Some(c) => key in files && files[key] == Digest(c)
  }

  /** The content a key stands for, relative to `path`. */
  function Content(g: Graph, id: Id, path: Path, key: Path): Option<string> {
    if path <= key then FileAt(g, id, key[|path|..]) else None
  }

  function EntryContent(g: Graph, entries: seq<Entry>, path: Path, key: Path): Option<string> {
    if path <= key && |key| > |path| then
      match Lookup(entries, key[|path|])
      case None => None
      case Some(target) => FileAt(g, target, key[|path| + 1..])
    else None
  }

  /** A successful walk records exactly the files below its start, each with its content, under the path
      that leads to it. */
  lemma {:induction false} WalkFindsFiles(g: Graph, id: Id, path: Path, ancestors: seq<Id>, key: Path)
    requires WellFormed(g) && Walk(g, id, path, ancestors).Files?
    ensures Records(Walk(g, id, path, ancestors).files, key, Content(g, id, path, key))
    decreases Unvisited(g, ancestors), 0
  {
    match g[id]
    case File(content, _) =>
      if path <= key && key != path {
        assert key[|path|..] != [];
      }
    case Dir(entries, _) =>
      DescendingVisits(g, ancestors, id);
      EntriesFindFiles(g, entries, path, ancestors + [id], key);
      if path <= key && |key| > |path| {
        assert key[|path|..][1..] == key[|path| + 1..];
      }
  }

  lemma {:induction false} EntriesFindFiles(g: Graph, entries: seq<Entry>, path: Path, ancestors: seq<Id>, key: Path)
    requires WellFormed(g) && DistinctNames(entries) && WalkEntries(g, entries, path, ancestors).Files?
    ensures Records(WalkEntries(g, entries, path, ancestors).files, key, EntryContent(g, entries, path, key))
    decreases Unvisited(g, ancestors), |entries|
  {
    if entries != [] {
      var e, rest := entries[0], entries[1..];
      WalkFindsFiles(g, e.target, path + [e.name], ancestors, key);
      EntriesFindFiles(g, rest, path, ancestors, key);
      KeyUnder(path, e.name, key);
      if path <= key && |key| > |path| && key[|path|] == e.name {
        LookupAbsent(rest, e.name);
      }
    }
  }

  lemma KeyUnder(path: Path, name: string, key: Path)
    ensures path + [name] <= key <==> path <= key && |key| > |path| && key[|path|] == name
  {
  }
}
