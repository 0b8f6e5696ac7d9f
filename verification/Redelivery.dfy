/** Processing a window of metadata logs twice.

    When the commit of a window fails the crawler fetches and processes the window
    again. This module says when the DDO store then ends as after the first pass. */
module Redelivery {
  import opened Options
  import opened Documents
  import opened DdoDatabases
  import opened Processors

  // ---------- one DID at a time ----------

  function MetaOne(ix: Indexing, previous: Option<Ddo>, log: Log): Option<Ddo>
    requires log.MetadataLog?
  {
    if ix.checkProofs && !log.proved then previous
    else if log.payload.None? || log.payload.value.id != log.did then previous
    else if !MaySave(previous, log) then previous
    else SaveOne(ix.cfg, previous, Stamped(log.payload.value, log))
  }

  function SaveOne(cfg: Config, previous: Option<Ddo>, ddo: Ddo): Option<Ddo> {
    if !Accepted(cfg, ddo) then previous
    else if previous.Some? then Some(Merge(cfg, previous.value, ddo))
    else Some(ddo)
  }

  /** Saving an accepted document over a stored one. */
  function Merge(cfg: Config, stored: Ddo, ddo: Ddo): Ddo {
    if GetDdoSchema(cfg, stored) == GetDdoSchema(cfg, ddo) then Patch(stored, ddo) else ddo
  }

  predicate About(log: Log, did: string) {
    log.MetadataLog? && log.did == did
  }

  /** The logs that concern one DID, folded into its document. */
  function FoldOne(ix: Indexing, did: string, previous: Option<Ddo>, logs: seq<Log>): Option<Ddo>
    decreases |logs|
  {
    if logs == [] then previous
    else FoldOne(ix, did, if About(logs[0], did) then MetaOne(ix, previous, logs[0]) else previous, logs[1..])
  }

  lemma {:induction false} FoldOneConcat(ix: Indexing, did: string, previous: Option<Ddo>, a: seq<Log>, b: seq<Log>)
    ensures FoldOne(ix, did, previous, a + b) == FoldOne(ix, did, FoldOne(ix, did, previous, a), b)
    decreases |a|
  {
    if a == [] {
      assert a + b == b;
    } else {
      assert (a + b)[1..] == a[1..] + b;
      FoldOneConcat(ix, did, if About(a[0], did) then MetaOne(ix, previous, a[0]) else previous, a[1..], b);
    }
  }

  predicate OnlyMetadata(logs: seq<Log>) {
    forall i :: 0 <= i < |logs| ==> logs[i].MetadataLog? || logs[i].OtherLog?
  }

  /** Seen through one DID, the store is a fold over that DID's own logs. */
  lemma {:induction false} StoreIsFoldPerDid(ix: Indexing, st: Stores, logs: seq<Log>, did: string)
    requires OnlyMetadata(logs)
    ensures Lookup(ProcessLogs(ix, st, logs).docs, did) == FoldOne(ix, did, Lookup(st.docs, did), logs)
    ensures ProcessLogs(ix, st, logs).orders == st.orders
    decreases |logs|
  {
    if logs == [] {
    } else {
      StoreIsFoldPerDid(ix, ProcessLog(ix, st, logs[0]), logs[1..], did);
    }
  }

  // ---------- what one block does ----------

  /** An event that saves a document if the handler gets that far. */
  predicate Usable(ix: Indexing, log: Log, did: string) {
    && About(log, did) && (ix.checkProofs ==> log.proved)
    && log.payload.Some? && log.payload.value.id == did
    && Accepted(ix.cfg, Stamped(log.payload.value, log))
  }

  /** The document of the first usable event of one of the kinds. */
  function First(ix: Indexing, logs: seq<Log>, did: string, kinds: set<MetadataKind>): Option<Ddo> {
    if logs == [] then None
    else if Usable(ix, logs[0], did) && logs[0].kind in kinds then Some(Stamped(logs[0].payload.value, logs[0]))
    else First(ix, logs[1..], did, kinds)
  }

  function Lead(ix: Indexing, logs: seq<Log>, did: string): Option<Ddo> {
    First(ix, logs, did, {MetadataUpdated})
  }

  /** A DID without an active document: the store does not have it, or has it inactive. */
  predicate Dormant(previous: Option<Ddo>) {
    previous.Some? ==> previous.value.nft.Some? && !IsActive(previous.value)
  }

  /** The kinds of events that give such a DID an active document. An update needs a stored
      document that knows the event it came from. */
  function WakingKinds(previous: Option<Ddo>): set<MetadataKind> {
    if previous.Some? && previous.value.event.Some? then {MetadataCreated, MetadataUpdated} else {MetadataCreated}
  }

  /** A DDO that is stored, active, and knows the event it came from. */
  predicate Registered(ddo: Ddo) {
    IsActive(ddo) && ddo.event.Some?
  }

  /** The logs of block `b`: dated with it, and with active NFTs. */
  predicate InBlock(logs: seq<Log>, b: int) {
    forall i :: 0 <= i < |logs| && logs[i].MetadataLog? ==>
      logs[i].block == b && (logs[i].payload.Some? ==> IsActive(logs[i].payload.value))
  }

  predicate Mentions(logs: seq<Log>, tx: string) {
    exists i :: 0 <= i < |logs| && logs[i].MetadataLog? && logs[i].tx == tx
  }

  lemma {:induction false} FirstIsFromLog(ix: Indexing, logs: seq<Log>, did: string, kinds: set<MetadataKind>, b: int)
    requires InBlock(logs, b) && b > 0
    ensures var d := First(ix, logs, did, kinds);
            d.Some? ==> && Registered(d.value) && Accepted(ix.cfg, d.value) && d.value.id == did
                        && d.value.event.value.block == b && Mentions(logs, d.value.event.value.tx)
  {
    if logs == [] || (Usable(ix, logs[0], did) && logs[0].kind in kinds) {
    } else {
      FirstIsFromLog(ix, logs[1..], did, kinds, b);
      var d := First(ix, logs[1..], did, kinds);
      if d.Some? {
        var i :| 0 <= i < |logs[1..]| && logs[1..][i].MetadataLog? && logs[1..][i].tx == d.value.event.value.tx;
        assert logs[i + 1].tx == d.value.event.value.tx;
      }
    }
  }

  /** Once the stored DDO is of this very block, the block does nothing more. */
  lemma {:induction false} SameBlockSkips(ix: Indexing, did: string, ddo: Ddo, logs: seq<Log>, b: int)
    requires InBlock(logs, b) && Registered(ddo) && ddo.event.value.block == b
    ensures FoldOne(ix, did, Some(ddo), logs) == Some(ddo)
    decreases |logs|
  {
    if logs == [] {
    } else {
      SameBlockSkips(ix, did, ddo, logs[1..], b);
    }
  }

  /** An active document replaces an inactive one: it goes to another shard. */
  lemma WakingReplaces(cfg: Config, stored: Ddo, ddo: Ddo)
    requires !IsActive(stored) && IsActive(ddo) && Accepted(cfg, ddo)
    ensures Merge(cfg, stored, ddo) == ddo
  {
    VersionedIsNotShort(ddo.version.value);
  }

  /** A dormant DID: the block's first usable event that can wake it is stored as it is. */
  lemma {:induction false} BlockOnDormant(ix: Indexing, did: string, previous: Option<Ddo>, logs: seq<Log>, b: int)
    requires InBlock(logs, b) && b > 0 && Dormant(previous)
    requires previous.Some? && previous.value.event.Some? ==>
               previous.value.event.value.block != b && !Mentions(logs, previous.value.event.value.tx)
    ensures var woken := First(ix, logs, did, WakingKinds(previous));
            FoldOne(ix, did, previous, logs) == if woken.Some? then woken else previous
    decreases |logs|
  {
    if logs == [] {
    } else {
      var rest := logs[1..];
      if previous.Some? && previous.value.event.Some? {
        assert logs[0].MetadataLog? ==> logs[0].tx != previous.value.event.value.tx;
        forall i | 0 <= i < |rest| && rest[i].MetadataLog? ensures rest[i].tx != previous.value.event.value.tx {
          assert rest[i] == logs[i + 1];
        }
      }
      if Usable(ix, logs[0], did) && logs[0].kind in WakingKinds(previous) {
        var woken := Stamped(logs[0].payload.value, logs[0]);
        if previous.Some? {
          WakingReplaces(ix.cfg, previous.value, woken);
        }
        SameBlockSkips(ix, did, woken, rest, b);
      } else {
        BlockOnDormant(ix, did, previous, rest, b);
      }
    }
  }

  /** A registered DID from another block: the block's first usable update is saved. */
  lemma {:induction false} BlockOnRegistered(ix: Indexing, did: string, ddo: Ddo, logs: seq<Log>, b: int)
    requires InBlock(logs, b) && b > 0
    requires Registered(ddo) && ddo.event.value.block != b && !Mentions(logs, ddo.event.value.tx)
    ensures var lead := Lead(ix, logs, did);
            FoldOne(ix, did, Some(ddo), logs) == Some(if lead.Some? then Merge(ix.cfg, ddo, lead.value) else ddo)
    decreases |logs|
  {
    if logs == [] {
    } else {
      var rest := logs[1..];
      assert logs[0].MetadataLog? ==> logs[0].tx != ddo.event.value.tx;
      forall i | 0 <= i < |rest| && rest[i].MetadataLog? ensures rest[i].tx != ddo.event.value.tx {
        assert rest[i] == logs[i + 1];
      }
      if Usable(ix, logs[0], did) && logs[0].kind == MetadataUpdated {
        var saved := Stamped(logs[0].payload.value, logs[0]);
        MergeIsRegistered(ix.cfg, ddo, saved);
        SameBlockSkips(ix, did, Merge(ix.cfg, ddo, saved), logs[1..], b);
      } else {
        BlockOnRegistered(ix, did, ddo, logs[1..], b);
      }
    }
  }

  lemma MergeIsRegistered(cfg: Config, stored: Ddo, ddo: Ddo)
    requires Registered(stored) && Registered(ddo) && Accepted(cfg, ddo)
    ensures Registered(Merge(cfg, stored, ddo))
    ensures Merge(cfg, stored, ddo).event.value.block == ddo.event.value.block
    ensures Merge(cfg, stored, ddo).event.value.tx == ddo.event.value.tx
    ensures GetDdoSchema(cfg, Merge(cfg, stored, ddo)) == GetDdoSchema(cfg, ddo)
    ensures Merge(cfg, Merge(cfg, stored, ddo), ddo) == Merge(cfg, stored, ddo)
  {
    PatchIsIdempotent(stored, ddo);
    if GetDdoSchema(cfg, stored) == GetDdoSchema(cfg, ddo) {
      PatchKeepsSchema(cfg, stored, ddo);
    }
  }

  // ---------- saving a list of documents, twice ----------

  function SaveAll(cfg: Config, ddo: Ddo, docs: seq<Ddo>): Ddo {
    if docs == [] then ddo
    else Merge(cfg, SaveAll(cfg, ddo, docs[..|docs| - 1]), docs[|docs| - 1])
  }

  predicate AllAccepted(cfg: Config, docs: seq<Ddo>) {
    forall i :: 0 <= i < |docs| ==> Accepted(cfg, docs[i])
  }

  predicate OneShard(cfg: Config, docs: seq<Ddo>) {
    forall i :: 0 < i < |docs| ==> GetDdoSchema(cfg, docs[i]) == GetDdoSchema(cfg, docs[0])
  }

  lemma SaveAllSchema(cfg: Config, ddo: Ddo, docs: seq<Ddo>)
    requires AllAccepted(cfg, docs) && docs != []
    ensures GetDdoSchema(cfg, SaveAll(cfg, ddo, docs)) == GetDdoSchema(cfg, docs[|docs| - 1])
  {
    var before := SaveAll(cfg, ddo, docs[..|docs| - 1]);
    if GetDdoSchema(cfg, before) == GetDdoSchema(cfg, docs[|docs| - 1]) {
      PatchKeepsSchema(cfg, before, docs[|docs| - 1]);
    }
  }

  /** The DDO ends with the event of the last document saved. */
  lemma SaveAllEvent(cfg: Config, ddo: Ddo, docs: seq<Ddo>)
    requires AllAccepted(cfg, docs) && docs != [] && docs[|docs| - 1].event.Some?
    ensures var after := SaveAll(cfg, ddo, docs);
            after.event.Some? && after.event.value.block == docs[|docs| - 1].event.value.block
  {
  }

  /** The last document goes to another shard than the ones before it. */
  lemma ShardChangeAtEnd(cfg: Config, ddo: Ddo, front: seq<Ddo>, last: Ddo)
    requires AllAccepted(cfg, front) && OneShard(cfg, front) && front != []
    requires GetDdoSchema(cfg, last) != GetDdoSchema(cfg, front[0])
    ensures Merge(cfg, SaveAll(cfg, ddo, front), last) == last
  {
    SaveAllSchema(cfg, ddo, front);
    assert GetDdoSchema(cfg, front[|front| - 1]) == GetDdoSchema(cfg, front[0]);
  }

  /** A list that changes shard forgets what was stored before it. */
  lemma {:induction false} ShardChangeForgets(cfg: Config, a: Ddo, b: Ddo, docs: seq<Ddo>)
    requires AllAccepted(cfg, docs) && !OneShard(cfg, docs)
    ensures SaveAll(cfg, a, docs) == SaveAll(cfg, b, docs)
    decreases |docs|
  {
    hide GetDdoSchema, Merge;
    var front := docs[..|docs| - 1];
    if OneShard(cfg, front) {
      ShardChangeAtEnd(cfg, a, front, docs[|docs| - 1]);
      ShardChangeAtEnd(cfg, b, front, docs[|docs| - 1]);
    } else {
      ShardChangeForgets(cfg, a, b, front);
    }
  }

  lemma {:induction false} PatchAllSnoc(ddo: Ddo, docs: seq<Ddo>, last: Ddo)
    ensures PatchAll(ddo, docs + [last]) == Patch(PatchAll(ddo, docs), last)
    decreases |docs|
  {
    if docs == [] {
    } else {
      assert (docs + [last])[1..] == docs[1..] + [last];
      PatchAllSnoc(Patch(ddo, docs[0]), docs[1..], last);
    }
  }

  /** Within one shard, saving a list is the first save followed by patches. */
  lemma {:induction false} SaveAllInShard(cfg: Config, ddo: Ddo, docs: seq<Ddo>)
    requires AllAccepted(cfg, docs) && OneShard(cfg, docs) && docs != []
    ensures SaveAll(cfg, ddo, docs) == PatchAll(Merge(cfg, ddo, docs[0]), docs[1..])
    decreases |docs|
  {
    if |docs| == 1 {
      assert SaveAll(cfg, ddo, docs[..0]) == ddo;
    } else {
      var front, last := docs[..|docs| - 1], docs[|docs| - 1];
      SaveAllInShard(cfg, ddo, front);
      SaveAllSchema(cfg, ddo, front);
      assert GetDdoSchema(cfg, front[|front| - 1]) == GetDdoSchema(cfg, last);
      PatchAllSnoc(Merge(cfg, ddo, docs[0]), front[1..], last);
      assert docs[1..] == front[1..] + [last];
    }
  }

  /** Saving a list of documents a second time changes nothing. */
  lemma SaveAllTwice(cfg: Config, ddo: Ddo, docs: seq<Ddo>)
    requires AllAccepted(cfg, docs)
    ensures SaveAll(cfg, SaveAll(cfg, ddo, docs), docs) == SaveAll(cfg, ddo, docs)
  {
    if docs != [] {
      var once := SaveAll(cfg, ddo, docs);
      if OneShard(cfg, docs) {
        SaveAllInShard(cfg, ddo, docs);
        SaveAllInShard(cfg, once, docs);
        SaveAllSchema(cfg, ddo, docs);
        PatchAllTwice(ddo, docs[0], docs[1..]);
      } else {
        ShardChangeForgets(cfg, ddo, once, docs);
      }
    }
  }
}
