/** `lyracore update` (src/cmd/update.rs): no local commit becomes unreachable, and no untracked file is
    where an incoming file goes. Git is a commit graph with branches; what it prints is a parameter. */
module UpdateSafety {
  import opened Text

  // ---- path overlap ----

  /** The path's components, from the root down. */
  function Components(path: string): seq<string> { Split(path, '/') }

  /** The three string tests on a tracked path and an untracked one. */
  predicate Overlaps(path: string, tracked: string) {
    tracked == path || StartsWith(tracked, path + "/") || StartsWith(path, tracked + "/")
  }

  /** `deeper` starts with `path` and a slash exactly when `path` is a proper ancestor, component by
      component. */
  lemma PrefixIsAncestor(path: string, deeper: string)
    ensures StartsWith(deeper, path + "/") <==> Components(path) < Components(deeper)
  {
    var a, b := Components(path), Components(deeper);
    if StartsWith(deeper, path + "/") {
      var rest := deeper[|path| + 1..];
      assert deeper == path + ['/'] + rest;
      SplitConcat(path, rest, '/');
    }
    if a < b {
      var rest := b[|a|..];
      assert b == a + rest;
      JoinSplit(path, '/');
      JoinSplit(deeper, '/');
      JoinConcat(a, rest, '/');
      assert deeper == (path + "/") + JoinWith(rest, '/');
    }
  }

  /** The overlap test is exact: equal paths, or one a component-wise ancestor of the other. */
  lemma OverlapIsAncestry(path: string, tracked: string)
    ensures Overlaps(path, tracked) <==>
      Components(path) <= Components(tracked) || Components(tracked) <= Components(path)
  {
    PrefixIsAncestor(path, tracked);
    PrefixIsAncestor(tracked, path);
    JoinSplit(path, '/');
    JoinSplit(tracked, '/');
    var a, b := Components(path), Components(tracked);
    assert a <= b ==> a < b || a == b;
    assert b <= a ==> b < a || a == b;
  }

  /** `trim_end_matches('/')`. */
  function TrimSlashes(path: string): string {
    if path != [] && path[|path| - 1] == '/' then TrimSlashes(path[..|path| - 1]) else path
  }

  predicate AllSlashes(s: string) { forall k :: 0 <= k < |s| ==> s[k] == '/' }

  /** Exactly the slashes at the end go. */
  lemma {:induction false} TrimSlashesMeans(path: string)
    ensures TrimSlashes(path) <= path && AllSlashes(path[|TrimSlashes(path)|..])
    ensures TrimSlashes(path) != "" ==> TrimSlashes(path)[|TrimSlashes(path)| - 1] != '/'
  {
    if path != [] && path[|path| - 1] == '/' {
      var shorter := path[..|path| - 1];
      TrimSlashesMeans(shorter);
      var n := |TrimSlashes(path)|;
      assert path[n..] == shorter[n..] + "/";
    }
  }

  /** A `-z` listing: the entries between NUL bytes that are not empty. */
  ghost predicate Lists(listing: string, entry: string) {
    entry != "" && entry in Split(listing, '\0')
  }

  /** An entry stands in the listing between NUL bytes, or at an end of it. */
  ghost predicate Entry(listing: string, pre: string, entry: string, post: string) {
    && listing == pre + (entry + post) && (pre == "" || pre[|pre| - 1] == '\0') && (post == "" || post[0] == '\0')
  }

  lemma EntryIsListed(listing: string, pre: string, entry: string, post: string)
    requires Entry(listing, pre, entry, post) && '\0' !in entry
    ensures entry in Split(listing, '\0')
  {
    hide Split;
    OnePiece(entry, '\0');
    var tail := entry + post;
    if post != "" {
      assert tail == entry + ['\0'] + post[1..];
      SplitConcat(entry, post[1..], '\0');
    } else {
      assert tail == entry;
    }
    assert entry in Split(tail, '\0');
    if pre != "" {
      assert listing == pre[..|pre| - 1] + ['\0'] + tail;
      SplitConcat(pre[..|pre| - 1], tail, '\0');
    } else {
      assert listing == tail;
    }
  }

  lemma {:induction false} PiecesAreWhole(s: string, sep: char, k: nat)
    requires k < |Split(s, sep)|
    ensures sep !in Split(s, sep)[k]
  {
    hide Split;
    SplitCons(s, sep);
    if s != "" {
      if s[0] == sep {
        if k > 0 {
          PiecesAreWhole(s[1..], sep, k - 1);
        }
      } else {
        PiecesAreWhole(s[1..], sep, k);
      }
    }
  }

  lemma ListedIsEntry(listing: string, k: nat) returns (pre: string, post: string)
    requires k < |Split(listing, '\0')|
    ensures Entry(listing, pre, Split(listing, '\0')[k], post)
  {
    hide Split, JoinWith;
    var parts := Split(listing, '\0');
    var a, p, b := parts[..k], parts[k], parts[k + 1..];
    JoinSplit(listing, '\0');
    JoinOne(p, '\0');
    post := if b == [] then "" else ['\0'] + JoinWith(b, '\0');
    if b == [] {
      assert [p] + b == [p];
    } else {
      JoinConcat([p], b, '\0');
    }
    assert JoinWith([p] + b, '\0') == p + post;
    assert parts == a + ([p] + b);
    if a == [] {
      assert parts == [p] + b;
      pre := "";
    } else {
      JoinConcat(a, [p] + b, '\0');
      pre := JoinWith(a, '\0') + ['\0'];
    }
    assert listing == pre + (p + post);
  }

  lemma JoinOne(p: string, sep: char)
    ensures JoinWith([p], sep) == p
  {
  }

  /** The entries of a listing: what stands between NUL bytes and is not empty. */
  lemma ListsMeans(listing: string, entry: string)
    ensures Lists(listing, entry) <==>
      entry != "" && '\0' !in entry && exists pre, post :: Entry(listing, pre, entry, post)
  {
    hide Split, Entry;
    if Lists(listing, entry) {
      var k :| 0 <= k < |Split(listing, '\0')| && Split(listing, '\0')[k] == entry;
      PiecesAreWhole(listing, '\0', k);
      var pre, post := ListedIsEntry(listing, k);
    }
    if '\0' !in entry {
      if pre, post :| Entry(listing, pre, entry, post) {
        EntryIsListed(listing, pre, entry, post);
      }
    }
  }

  ghost predicate Clash(untracked: string, incoming: string) {
    exists path, tracked :: Lists(untracked, path) && Lists(incoming, tracked) && Overlaps(TrimSlashes(path), tracked)
  }

  /** An untracked entry, without the slashes behind it, is an incoming one, or one of them lies below the other. */
  ghost predicate InTheWay(untracked: string, incoming: string, path: string, tracked: string) {
    var mine, theirs := Components(TrimSlashes(path)), Components(tracked);
    Lists(untracked, path) && Lists(incoming, tracked) && (mine <= theirs || theirs <= mine)
  }

  /** What a clash is, component by component. */
  lemma ClashMeans(untracked: string, incoming: string)
    ensures Clash(untracked, incoming) <==> exists path, tracked :: InTheWay(untracked, incoming, path, tracked)
  {
    hide Lists, TrimSlashes, Overlaps, Components;
    if path, tracked :| Lists(untracked, path) && Lists(incoming, tracked) && Overlaps(TrimSlashes(path), tracked) {
      OverlapIsAncestry(TrimSlashes(path), tracked);
      assert InTheWay(untracked, incoming, path, tracked);
    }
    if path, tracked :| InTheWay(untracked, incoming, path, tracked) {
      OverlapIsAncestry(TrimSlashes(path), tracked);
    }
  }

  method FindClash(untracked: string, incoming: string) returns (clash: bool)
    ensures clash <==> Clash(untracked, incoming)
  {
    var paths, trackeds := Split(untracked, '\0'), Split(incoming, '\0');
    for i := 0 to |paths|
      invariant forall k, tracked :: 0 <= k < i && paths[k] != "" && Lists(incoming, tracked) ==>
        !Overlaps(TrimSlashes(paths[k]), tracked)
    {
      if paths[i] == "" {
        continue;
      }
      var path := TrimSlashes(paths[i]);
      if j :| 0 <= j < |trackeds| && trackeds[j] != "" && Overlaps(path, trackeds[j]) {
        assert Lists(untracked, paths[i]) && Lists(incoming, trackeds[j]);
        return true;
      }
    }
    return false;
  }

  // ---- the commit graph ----

  type Commit = string

  datatype Head = OnBranch(name: string) | Detached(commit: Commit)

  datatype Repo = Repo(parents: map<Commit, set<Commit>>, branches: map<string, Commit>, head: Head, upstream: Commit)

  ghost predicate IsWalk(parents: map<Commit, set<Commit>>, walk: seq<Commit>) {
    && walk != []
    && forall i :: 0 <= i < |walk| - 1 ==> walk[i] in parents && walk[i + 1] in parents[walk[i]]
  }

  ghost predicate Walks(parents: map<Commit, set<Commit>>, walk: seq<Commit>, a: Commit, b: Commit) {
    IsWalk(parents, walk) && walk[0] == a && walk[|walk| - 1] == b
  }

  ghost predicate Reaches(parents: map<Commit, set<Commit>>, a: Commit, b: Commit) {
    exists walk :: Walks(parents, walk, a, b)
  }

  lemma ReachesSelf(parents: map<Commit, set<Commit>>, a: Commit)
    ensures Reaches(parents, a, a)
  {
    assert Walks(parents, [a], a, a);
  }

  lemma ReachesOn(parents: map<Commit, set<Commit>>, a: Commit, b: Commit, c: Commit)
    requires Reaches(parents, a, b) && Reaches(parents, b, c)
    ensures Reaches(parents, a, c)
  {
    var p :| Walks(parents, p, a, b);
    var q :| Walks(parents, q, b, c);
    var walk := p + q[1..];
    forall i | 0 <= i < |walk| - 1 ensures walk[i] in parents && walk[i + 1] in parents[walk[i]] {
      if i >= |p| - 1 {
        assert walk[i] == q[i - (|p| - 1)] && walk[i + 1] == q[i - (|p| - 1) + 1];
      }
    }
    assert walk[|walk| - 1] == c;
    assert Walks(parents, walk, a, c);
  }

  /** Every commit of `head` is also a commit of `upstream`: the count git prints is 0. */
  ghost predicate NothingLocal(parents: map<Commit, set<Commit>>, upstream: Commit, head: Commit) {
    forall c :: Reaches(parents, head, c) ==> Reaches(parents, upstream, c)
  }

  /** An ordinary update is a fast-forward: nothing is local exactly when upstream contains the head. */
  lemma NothingLocalIsFastForward(parents: map<Commit, set<Commit>>, upstream: Commit, head: Commit)
    ensures NothingLocal(parents, upstream, head) <==> Reaches(parents, upstream, head)
  {
    ReachesSelf(parents, head);
    if Reaches(parents, upstream, head) {
      forall c | Reaches(parents, head, c) ensures Reaches(parents, upstream, c) {
        ReachesOn(parents, upstream, head, c);
      }
    }
  }

  predicate HasHead(repo: Repo) { repo.head.Detached? || repo.head.name in repo.branches }

  function HeadCommit(repo: Repo): Commit
    requires HasHead(repo)
  {
    match repo.head case Detached(c) => c case OnBranch(b) => repo.branches[b]
  }

  /** `git reset --keep`, when it succeeds: only the current branch (or a detached HEAD) moves. */
  function ResetTo(repo: Repo, target: Commit): Repo
    requires HasHead(repo)
  {
    match repo.head
    case Detached(_) => repo.(head := Detached(target))
    case OnBranch(b) => repo.(branches := repo.branches[b := target])
  }

  // ---- the command ----

  /** What git answers during one run, None where a command fails. `fetched` is the repository after the
      fetch. */
  datatype Git = Git(
    porcelain: Option<string>, fetchWorks: bool, fetched: Repo, headKnown: bool, upstreamKnown: bool,
    localCount: Option<nat>, untracked: Option<string>, incoming: Option<string>, branchWorks: bool, resetWorks: bool)

  /** A fetch brings new commits and moves only the remote-tracking branch; the count is right. */
  ghost predicate Answers(git: Git, before: Repo) {
    && git.fetched.branches == before.branches && git.fetched.head == before.head
    && (forall c :: c in before.parents ==> c in git.fetched.parents && git.fetched.parents[c] == before.parents[c])
    && (HasHead(before) && git.localCount.Some? ==>
          (git.localCount.value == 0 <==> NothingLocal(git.fetched.parents, git.fetched.upstream, HeadCommit(before))))
  }

  /** A porcelain line that is neither blank nor an untracked file. */
  predicate IsDirty(line: string) { TrimEnd(line) != "" && !StartsWith(line, "??") }

  /** Something but blanks, and no question marks in front. */
  ghost predicate Dirty(porcelain: string) {
    exists line :: line in Lines(porcelain) && (exists k :: 0 <= k < |line| && !IsSpace(line[k])) &&
      !(|line| >= 2 && line[0] == line[1] == '?')
  }

  lemma DirtyLine(line: string)
    ensures IsDirty(line) <==>
      (exists k :: 0 <= k < |line| && !IsSpace(line[k])) && !(|line| >= 2 && line[0] == line[1] == '?')
  {
    MatchesChars(line, 0, "??");
    if TrimEnd(line) != "" {
      assert !IsSpace(line[|TrimEnd(line)| - 1]);
    }
  }

  lemma DirtyMeans(porcelain: string)
    ensures Dirty(porcelain) <==> exists line :: line in Lines(porcelain) && IsDirty(line)
  {
    hide Lines, IsDirty;
    forall line | line in Lines(porcelain)
      ensures IsDirty(line) <==>
        (exists k :: 0 <= k < |line| && !IsSpace(line[k])) && !(|line| >= 2 && line[0] == line[1] == '?')
    {
      DirtyLine(line);
    }
  }

  datatype Outcome = UpToDate | Refused | Failed | ResetFailed | Updated

  predicate ReachedReset(o: Outcome) { o.ResetFailed? || o.Updated? }

  function BackupName(head: Commit): string { "lyracore-backup/" + head }

  /** How a run ends: the first thing that stops it. */
  ghost function Decision(git: Git, repo: Repo, resetMirror: bool): Outcome {
    if git.porcelain.None? then Failed
    else if Dirty(git.porcelain.value) then Refused
    else if !git.fetchWorks || !HasHead(repo) || !git.headKnown || !git.upstreamKnown then Failed
    else if HeadCommit(repo) == git.fetched.upstream then UpToDate
    else if !resetMirror && git.localCount.None? then Failed
    else if !resetMirror && git.localCount.value != 0 then Refused
    else if git.untracked.None? || git.incoming.None? then Failed
    else if Clash(git.untracked.value, git.incoming.value) then Refused
    else if resetMirror && (!git.branchWorks || BackupName(HeadCommit(repo)) in repo.branches) then Failed
    else if git.resetWorks then Updated
    else ResetFailed
  }

  /** A run that gets as far as comparing HEAD with what was fetched. */
  ghost predicate Compares(git: Git, repo: Repo) {
    && git.porcelain.Some? && !Dirty(git.porcelain.value) && git.fetchWorks && HasHead(repo)
    && git.headKnown && git.upstreamKnown
  }

  /** When the reset is attempted: HEAD is behind or, with `--reset-mirror`, anything else; no path overlaps; and
      the recovery branch is new, if one is made. */
  ghost predicate MayReset(git: Git, repo: Repo, resetMirror: bool) {
    && Compares(git, repo) && HeadCommit(repo) != git.fetched.upstream
    && (!resetMirror ==>
          git.localCount.Some? && Reaches(git.fetched.parents, git.fetched.upstream, HeadCommit(repo)))
    && git.untracked.Some? && git.incoming.Some? && !Clash(git.untracked.value, git.incoming.value)
    && (resetMirror ==> git.branchWorks && "lyracore-backup/" + HeadCommit(repo) !in repo.branches)
  }

  /** What makes a run refuse: local edits, local commits in an ordinary update, or a path in the way. */
  ghost predicate MustRefuse(git: Git, repo: Repo, resetMirror: bool) {
    || (git.porcelain.Some? && Dirty(git.porcelain.value))
    || (Compares(git, repo) && HeadCommit(repo) != git.fetched.upstream && !resetMirror && git.localCount.Some? &&
        !Reaches(git.fetched.parents, git.fetched.upstream, HeadCommit(repo)))
    || (Compares(git, repo) && HeadCommit(repo) != git.fetched.upstream &&
        (!resetMirror ==>
           git.localCount.Some? && Reaches(git.fetched.parents, git.fetched.upstream, HeadCommit(repo))) &&
        git.untracked.Some? && git.incoming.Some? && Clash(git.untracked.value, git.incoming.value))
  }

  /** How every run ends, and exactly when: it updates if it may and the reset works, says so if there is nothing
      to do, refuses if it must, and fails where git does. */
  lemma EndsExactly(git: Git, repo: Repo, resetMirror: bool)
    requires Answers(git, repo)
    ensures var o := Decision(git, repo, resetMirror);
      && (o.Updated? <==> MayReset(git, repo, resetMirror) && git.resetWorks)
      && (o.ResetFailed? <==> MayReset(git, repo, resetMirror) && !git.resetWorks)
      && (o.UpToDate? <==> Compares(git, repo) && HeadCommit(repo) == git.fetched.upstream)
      && (o.Refused? <==> MustRefuse(git, repo, resetMirror))
  {
    hide Dirty, Clash, Reaches, NothingLocal;
    if HasHead(repo) {
      NothingLocalIsFastForward(git.fetched.parents, git.fetched.upstream, HeadCommit(repo));
    }
  }

  class Checkout {
    var repo: Repo

    /** Once the reset is attempted, every commit of the old HEAD is reachable from origin/main or
        from the recovery branch, no untracked path clashes with an incoming one, and no other branch
        has moved; before that nothing but the remote-tracking branch has changed. */
    method Update(resetMirror: bool, git: Git) returns (o: Outcome)
      requires Answers(git, repo)
      modifies this
      ensures HasHead(repo) <==> HasHead(old(repo))
      ensures repo == old(repo) || repo.parents == git.fetched.parents
      ensures !HasHead(old(repo)) ==> o.Refused? || o.Failed?
      ensures ReachedReset(o) ==> HasHead(old(repo)) && forall c :: Reaches(repo.parents, HeadCommit(old(repo)), c) ==>
        Reaches(repo.parents, repo.upstream, c) ||
        (BackupName(HeadCommit(old(repo))) in repo.branches &&
         Reaches(repo.parents, repo.branches[BackupName(HeadCommit(old(repo)))], c))
      ensures ReachedReset(o) ==>
        git.untracked.Some? && git.incoming.Some? && !Clash(git.untracked.value, git.incoming.value)
      ensures ReachedReset(o) && !resetMirror && HasHead(old(repo)) ==>
        Reaches(repo.parents, repo.upstream, HeadCommit(old(repo)))
      ensures o.Updated? ==> HasHead(repo) && HeadCommit(repo) == repo.upstream == git.fetched.upstream
      ensures !o.Updated? ==> repo.head == old(repo).head
      ensures !o.Updated? && HasHead(old(repo)) ==> HasHead(repo) && HeadCommit(repo) == HeadCommit(old(repo))
      ensures forall b :: b in old(repo).branches && old(repo).head != OnBranch(b) ==>
        b in repo.branches && repo.branches[b] == old(repo).branches[b]
      ensures !ReachedReset(o) ==> repo.branches == old(repo).branches
      ensures git.porcelain.None? ==> o == Failed && repo == old(repo)
      ensures git.porcelain.Some? && Dirty(git.porcelain.value) ==> o == Refused && repo == old(repo)
      ensures o == Decision(git, old(repo), resetMirror)
      ensures ReachedReset(o) && resetMirror ==>
        var backup := "lyracore-backup/" + HeadCommit(old(repo));
        backup in repo.branches && (repo.head != OnBranch(backup) ==> repo.branches[backup] == HeadCommit(old(repo)))
    {
      hide Dirty, Clash, IsDirty, Lines;
      if git.porcelain.None? {
        return Failed;
      }
      var lines := Lines(git.porcelain.value);
      DirtyMeans(git.porcelain.value);
      if k :| 0 <= k < |lines| && IsDirty(lines[k]) {
        return Refused;
      }
      if !git.fetchWorks {
        return Failed;
      }
      repo := git.fetched;
      if !HasHead(repo) || !git.headKnown || !git.upstreamKnown {
        return Failed;
      }
      var head, upstream := HeadCommit(repo), repo.upstream;
      NothingLocalIsFastForward(repo.parents, upstream, head);
      if head == upstream {
        return UpToDate;
      }
      if !resetMirror {
        if git.localCount.None? {
          return Failed;
        }
        if git.localCount.value != 0 {
          return Refused;
        }
      }
      if git.untracked.None? || git.incoming.None? {
        return Failed;
      }
      var clash := FindClash(git.untracked.value, git.incoming.value);
      if clash {
        return Refused;
      }
      if resetMirror {
        var backup := BackupName(head);
        if !git.branchWorks || backup in repo.branches {
          return Failed;
        }
        repo := repo.(branches := repo.branches[backup := head]);
      }
      if !git.resetWorks {
        return ResetFailed;
      }
      repo := ResetTo(repo, upstream);
      return Updated;
    }
  }
}
