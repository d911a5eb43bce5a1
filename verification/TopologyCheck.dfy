/** Reading the realised topology back out of the gateway log (src/cmd/dev.rs, `verify_topology`). Log
    positions count the elements of the text. */
module TopologyCheck {
  import opened Text
  import GatewayLog

  /** The lines of this run: what stands behind the length the log had when its gateway was spawned. A
      shorter file has been replaced and is read from its start. */
  function ThisRun(full: string, start: nat): string { if start <= |full| then full[start..] else full }

  function ConnectedShards(text: string): seq<string> { GatewayLog.Connected(Lines(GatewayLog.Latest(text))) }

  /** The gateway connected to what was wanted and to nothing else, or its build does not say. */
  predicate Realised(text: string, wanted: seq<string>) {
    !Contains(text, GatewayLog.CONNECTED) ||
    ((forall k :: 0 <= k < |wanted| ==> wanted[k] in ConnectedShards(text)) &&
     forall k :: 0 <= k < |ConnectedShards(text)| ==> ConnectedShards(text)[k] in wanted)
  }

  /** Some line names the shard. */
  predicate Names(lines: seq<string>, db: string) {
    exists k :: 0 <= k < |lines| && GatewayLog.Shard(lines[k]) == Some(db)
  }

  /** On a log that says anything the verdict is exactly that the lines of the latest start name the wanted
      databases and no others. */
  lemma RealisedMeans(text: string, wanted: seq<string>)
    requires Contains(text, GatewayLog.CONNECTED)
    ensures Realised(text, wanted) <==> forall db :: db in wanted <==> Names(Lines(GatewayLog.Latest(text)), db)
  {
    hide Lines, GatewayLog.Latest, GatewayLog.Connected, Names, Contains;
    var lines, connected := Lines(GatewayLog.Latest(text)), ConnectedShards(text);
    forall db ensures db in connected <==> Names(lines, db) {
      NamedExactly(lines, db);
    }
    SameMembers(wanted, connected);
    if Realised(text, wanted) {
      assert forall db :: db in wanted <==> db in connected;
    }
    if forall db :: db in wanted <==> Names(lines, db) {
      assert forall db :: db in wanted <==> db in connected;
    }
  }

  lemma SameMembers(a: seq<string>, b: seq<string>)
    ensures ((forall k :: 0 <= k < |a| ==> a[k] in b) && forall k :: 0 <= k < |b| ==> b[k] in a) <==>
      forall x :: x in a <==> x in b
  {
  }

  lemma NamedExactly(lines: seq<string>, db: string)
    ensures db in GatewayLog.Connected(lines) <==> Names(lines, db)
  {
    hide GatewayLog.Shard, GatewayLog.Connected;
    var at := GatewayLog.ConnectedInOrder(lines);
    if db in GatewayLog.Connected(lines) {
      var i :| 0 <= i < |at| && GatewayLog.Connected(lines)[i] == db;
      assert GatewayLog.FirstNaming(lines, at[i], db);
    }
  }

  /** A gateway that says nothing about its shards passes unverified. */
  lemma SilentPasses(text: string, wanted: seq<string>)
    requires !Contains(text, "coordinator connected to shard")
    ensures Realised(text, wanted)
  {
  }

  /** What counts is what was appended behind the position; a file that has become shorter counts as a whole. */
  lemma ThisRunMeans(earlier: string, now: string, start: nat)
    ensures ThisRun(earlier + now, |earlier|) == now
    ensures start > |now| ==> ThisRun(now, start) == now
  {
  }
}
