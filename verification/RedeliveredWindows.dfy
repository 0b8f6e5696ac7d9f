/** Redelivery of whole windows of blocks: exactly when it is harmless. */
module RedeliveredWindows {
  import opened Options
  import opened Documents
  import opened Processors
  import opened ChainLogs
  import opened Redelivery

  predicate OwnDocument(log: Log)
    requires log.MetadataLog?
  {
    log.payload.Some? && log.payload.value.id == log.did
  }

  /** For each metadata log of a transaction the node decodes the event that opens the
      transaction's receipt, so all of them carry one document. Only its id is compared
      with the log's DID: the opening event may be another NFT's. (The policy server is
      asked about creations and updates apart, and may turn one of them away.) */
  predicate Alike(a: Log, b: Log) {
    a.MetadataLog? && b.MetadataLog? && a.tx == b.tx ==>
      && a.decodable == b.decodable
      && (OwnDocument(a) && OwnDocument(b) ==> a.did == b.did)
      && (a.did == b.did ==>
            && a.from == b.from && a.contract == b.contract && a.datetime == b.datetime
            && (a.payload.Some? && b.payload.Some? ==> a.payload == b.payload))
  }

  /** If log g is the first of a transaction, and log i is metadata of it that the node can
      decode, then log g is metadata. */
  predicate OpensWithMetadata(logs: seq<Log>, g: int, i: int)
    requires 0 <= g < |logs| && 0 <= i < |logs|
  {
    (forall k :: 0 <= k < g ==> logs[k].tx != logs[g].tx)
    && logs[i].tx == logs[g].tx && logs[i].MetadataLog? && logs[i].decodable
    ==> logs[g].MetadataLog?
  }

  /** The logs of a block as the node reads them: one document for a transaction, and none
      for one that does not open with a metadata event. */
  predicate Decoded(logs: seq<Log>) {
    && (forall i, j :: 0 <= i < |logs| && 0 <= j < |logs| ==> Alike(logs[i], logs[j]))
    && (forall i :: 0 <= i < |logs| && logs[i].MetadataLog? && logs[i].payload.Some? ==> logs[i].decodable)
    && (forall g, i :: 0 <= g < |logs| && 0 <= i < |logs| ==> OpensWithMetadata(logs, g, i))
  }

  /** The chain's logs say which block they are in, a transaction is in one block, and its
      logs carry what the node decodes. */
  ghost predicate Dated(chain: Chain, lo: int, hi: int) {
    && (forall b :: lo < b <= hi ==> InBlock(chain(b), b) && Decoded(chain(b)))
    && (forall b, c, tx :: lo < b <= hi && lo < c <= hi && Mentions(chain(b), tx) && Mentions(chain(c), tx) ==> b == c)
  }

  /** A registered DDO that agrees with the chain: its transaction is in its own block,
      and if that block is in range its first usable update is already in the document. */
  ghost predicate Agrees(ix: Indexing, chain: Chain, did: string, lo: int, hi: int, ddo: Ddo) {
    && Registered(ddo)
    && (forall b :: lo < b <= hi && Mentions(chain(b), ddo.event.value.tx) ==> b == ddo.event.value.block)
    && var block := ddo.event.value.block;
       (lo < block <= hi && Lead(ix, chain(block), did).Some?
        ==> Merge(ix.cfg, ddo, Lead(ix, chain(block), did).value) == ddo)
  }

  /** The documents a window's updates save: the first usable one of each block. */
  function Leads(ix: Indexing, chain: Chain, did: string, lo: int, hi: int): seq<Ddo>
    decreases hi - lo
  {
    if hi <= lo then []
    else
      var lead := Lead(ix, chain(hi), did);
      Leads(ix, chain, did, lo, hi - 1) + (if lead.Some? then [lead.value] else [])
  }

  lemma {:induction false} LeadsAccepted(ix: Indexing, chain: Chain, did: string, lo: int, hi: int)
    requires 0 <= lo && Dated(chain, lo, hi)
    ensures AllAccepted(ix.cfg, Leads(ix, chain, did, lo, hi))
    decreases hi - lo
  {
    if hi <= lo {
    } else {
      LeadsAccepted(ix, chain, did, lo, hi - 1);
      FirstIsFromLog(ix, chain(hi), did, {MetadataUpdated}, hi);
    }
  }

  lemma {:induction false} LeadsOfAdjacentWindows(ix: Indexing, chain: Chain, did: string, lo: int, mid: int, hi: int)
    requires lo <= mid <= hi
    ensures Leads(ix, chain, did, lo, hi) == Leads(ix, chain, did, lo, mid) + Leads(ix, chain, did, mid, hi)
    decreases hi - mid
  {
    if mid == hi {
      assert Leads(ix, chain, did, hi, hi) == [];
    } else {
      LeadsOfAdjacentWindows(ix, chain, did, lo, mid, hi - 1);
    }
  }

  lemma {:induction false} LeadsAre(ix: Indexing, chain: Chain, did: string, lo: int, hi: int, d: Ddo)
    requires d in Leads(ix, chain, did, lo, hi)
    ensures exists n :: lo < n <= hi && Lead(ix, chain(n), did) == Some(d)
    decreases hi - lo
  {
    if Lead(ix, chain(hi), did) == Some(d) {
    } else {
      LeadsAre(ix, chain, did, lo, hi - 1, d);
    }
  }

  lemma {:induction false} LeadIsAmong(ix: Indexing, chain: Chain, did: string, lo: int, hi: int, n: int)
    requires lo < n <= hi && Lead(ix, chain(n), did).Some?
    ensures Lead(ix, chain(n), did).value in Leads(ix, chain, did, lo, hi)
    decreases hi - lo
  {
    if n == hi {
    } else {
      LeadIsAmong(ix, chain, did, lo, hi - 1, n);
    }
  }

  /** One block on a DDO that agrees with the chain: its lead is saved. */
  lemma BlockSavesLead(ix: Indexing, chain: Chain, did: string, lo: int, hi: int, ddo: Ddo, b: int)
    requires 0 <= lo < b <= hi && Dated(chain, lo, hi) && Agrees(ix, chain, did, lo, hi, ddo)
    ensures var lead := Lead(ix, chain(b), did);
            var saved := if lead.Some? then Merge(ix.cfg, ddo, lead.value) else ddo;
            FoldOne(ix, did, Some(ddo), chain(b)) == Some(saved) && Agrees(ix, chain, did, lo, hi, saved)
  {
    var lead := Lead(ix, chain(b), did);
    if ddo.event.value.block == b {
      SameBlockSkips(ix, did, ddo, chain(b), b);
    } else {
      BlockOnRegistered(ix, did, ddo, chain(b), b);
      if lead.Some? {
        FirstIsFromLog(ix, chain(b), did, {MetadataUpdated}, b);
        MergeIsRegistered(ix.cfg, ddo, lead.value);
      }
    }
  }

  /** A window on a DDO that agrees with the chain: its leads are saved in order. */
  lemma {:induction false} WindowSavesLeads(ix: Indexing, chain: Chain, did: string, lo: int, hi: int, ddo: Ddo,
                                            from: int, end: int)
    requires 0 <= lo <= from <= end <= hi && Dated(chain, lo, hi) && Agrees(ix, chain, did, lo, hi, ddo)
    ensures var saved := SaveAll(ix.cfg, ddo, Leads(ix, chain, did, from, end));
            FoldOne(ix, did, Some(ddo), LogsBetween(chain, from, end)) == Some(saved)
            && Agrees(ix, chain, did, lo, hi, saved)
    decreases end - from
  {
    if from == end {
    } else {
      WindowSavesLeads(ix, chain, did, lo, hi, ddo, from, end - 1);
      var before := SaveAll(ix.cfg, ddo, Leads(ix, chain, did, from, end - 1));
      FoldOneConcat(ix, did, Some(ddo), LogsBetween(chain, from, end - 1), chain(end));
      BlockSavesLead(ix, chain, did, lo, hi, before, end);
      var lead := Lead(ix, chain(end), did);
      if lead.Some? {
        var leads := Leads(ix, chain, did, from, end);
        assert leads[..|leads| - 1] == Leads(ix, chain, did, from, end - 1);
      } else {
        assert Leads(ix, chain, did, from, end) == Leads(ix, chain, did, from, end - 1);
      }
    }
  }

  /** After a window with updates the DDO is of one of the window's blocks. */
  lemma WindowMovesEvent(ix: Indexing, chain: Chain, did: string, lo: int, hi: int, ddo: Ddo, from: int, end: int)
    returns (after: Ddo)
    requires 0 <= lo <= from <= end <= hi && Dated(chain, lo, hi) && Agrees(ix, chain, did, lo, hi, ddo)
    requires Leads(ix, chain, did, from, end) != []
    ensures FoldOne(ix, did, Some(ddo), LogsBetween(chain, from, end)) == Some(after)
    ensures Agrees(ix, chain, did, lo, hi, after) && after.event.Some? && from < after.event.value.block <= end
  {
    assert Dated(chain, from, end);
    assert forall n :: from < n <= end ==> InBlock(chain(n), n);
    hide FoldOne, LogsBetween, First, Leads, SaveAll, Agrees, Dated, InBlock;
    var leads := Leads(ix, chain, did, from, end);
    WindowSavesLeads(ix, chain, did, lo, hi, ddo, from, end);
    after := SaveAll(ix.cfg, ddo, leads);
    var last := leads[|leads| - 1];
    LeadsAre(ix, chain, did, from, end, last);
    var n :| from < n <= end && Lead(ix, chain(n), did) == Some(last);
    FirstIsFromLog(ix, chain(n), did, {MetadataUpdated}, n);
    LeadsAccepted(ix, chain, did, from, end);
    SaveAllEvent(ix.cfg, ddo, leads);
  }

  /** For a DDO that agrees with the chain, a second delivery of a window changes nothing. */
  lemma RegisteredTwice(ix: Indexing, chain: Chain, did: string, lo: int, hi: int, ddo: Ddo, from: int, end: int)
    requires 0 <= lo <= from <= end <= hi && Dated(chain, lo, hi) && Agrees(ix, chain, did, lo, hi, ddo)
    ensures var logs := LogsBetween(chain, from, end);
            var once := FoldOne(ix, did, Some(ddo), logs);
            FoldOne(ix, did, once, logs) == once
  {
    var leads := Leads(ix, chain, did, from, end);
    WindowSavesLeads(ix, chain, did, lo, hi, ddo, from, end);
    WindowSavesLeads(ix, chain, did, lo, hi, SaveAll(ix.cfg, ddo, leads), from, end);
    assert Dated(chain, from, end);
    LeadsAccepted(ix, chain, did, from, end);
    SaveAllTwice(ix.cfg, ddo, leads);
  }

  // ---------- a DID without an active document ----------

  /** An event of a kind for a DID that the node heeds, and that can carry a document. */
  predicate Heeded(ix: Indexing, log: Log, did: string, kind: MetadataKind) {
    About(log, did) && log.kind == kind && (ix.checkProofs ==> log.proved) && log.decodable
  }

  predicate Has(ix: Indexing, logs: seq<Log>, did: string, kind: MetadataKind) {
    exists i :: 0 <= i < |logs| && Heeded(ix, logs[i], did, kind)
  }

  /** The log whose document is a block's first of some kinds. */
  lemma {:induction false} FirstComesFrom(ix: Indexing, logs: seq<Log>, did: string, kinds: set<MetadataKind>)
    returns (i: nat)
    requires First(ix, logs, did, kinds).Some?
    ensures i < |logs| && Usable(ix, logs[i], did) && logs[i].kind in kinds
    ensures First(ix, logs, did, kinds) == Some(Stamped(logs[i].payload.value, logs[i]))
    ensures forall k :: 0 <= k < i ==> !(Usable(ix, logs[k], did) && logs[k].kind in kinds)
  {
    if Usable(ix, logs[0], did) && logs[0].kind in kinds {
      i := 0;
    } else {
      i := FirstComesFrom(ix, logs[1..], did, kinds);
      forall k | 0 <= k < i + 1 ensures !(Usable(ix, logs[k], did) && logs[k].kind in kinds) {
        if k > 0 {
          assert logs[k] == logs[1..][k - 1];
        }
      }
      i := i + 1;
    }
  }

  lemma FirstNeedsEvent(ix: Indexing, logs: seq<Log>, did: string, kind: MetadataKind)
    requires Decoded(logs)
    ensures First(ix, logs, did, {kind}).Some? ==> Has(ix, logs, did, kind)
  {
    if First(ix, logs, did, {kind}).Some? {
      var i := FirstComesFrom(ix, logs, did, {kind});
      assert Heeded(ix, logs[i], did, kind);
    }
  }

  /** A block without a usable event of some kinds has none of fewer kinds. */
  lemma {:induction false} FirstOfFewer(ix: Indexing, logs: seq<Log>, did: string,
                                        kinds: set<MetadataKind>, fewer: set<MetadataKind>)
    requires fewer <= kinds && First(ix, logs, did, kinds).None?
    ensures First(ix, logs, did, fewer).None?
  {
    if logs == [] {
    } else {
      FirstOfFewer(ix, logs[1..], did, kinds, fewer);
    }
  }

  predicate OtherUpdate(ix: Indexing, creation: Log, update: Log, did: string) {
    && Heeded(ix, creation, did, MetadataCreated) && Heeded(ix, update, did, MetadataUpdated)
    && creation.tx != update.tx
  }

  /** Whether a block holds a creation and an update of different transactions. Where an
      update can wake the DID as well, only a creation ahead of the update counts. */
  predicate HasOtherUpdate(ix: Indexing, logs: seq<Log>, did: string, kinds: set<MetadataKind>) {
    exists i, j :: 0 <= i < |logs| && 0 <= j < |logs| && (MetadataUpdated in kinds ==> i < j)
                   && OtherUpdate(ix, logs[i], logs[j], did)
  }

  /** A block that wakes the DID and has no other update: its first usable update is the
      waking event itself, or another log of its transaction. */
  lemma LeadIsWaking(ix: Indexing, logs: seq<Log>, did: string, kinds: set<MetadataKind>, b: int)
    requires InBlock(logs, b) && Decoded(logs)
    requires MetadataCreated in kinds && !HasOtherUpdate(ix, logs, did, kinds)
    requires First(ix, logs, did, kinds).Some? && Lead(ix, logs, did).Some?
    ensures Lead(ix, logs, did) == First(ix, logs, did, kinds)
  {
    var i := FirstComesFrom(ix, logs, did, kinds);
    var j := FirstComesFrom(ix, logs, did, {MetadataUpdated});
    if logs[i].kind == MetadataCreated {
      assert !OtherUpdate(ix, logs[i], logs[j], did);
      assert Alike(logs[i], logs[j]);
    }
  }

  ghost predicate NoUpdates(ix: Indexing, chain: Chain, did: string, lo: int, hi: int) {
    forall b :: lo < b <= hi ==> !Has(ix, chain(b), did, MetadataUpdated)
  }

  /** The schedule of a window is safe for a dormant DID that events of `kinds` wake: no
      update that cannot wake it comes before a creation, and if an update of another
      transaction shares a creation's block then no update comes after it. Only kinds,
      DIDs, transactions, blocks and the order in a block are looked at. */
  ghost predicate SafeSchedule(ix: Indexing, chain: Chain, did: string, kinds: set<MetadataKind>, lo: int, hi: int) {
    forall b :: lo < b <= hi ==>
      && (MetadataUpdated !in kinds && Has(ix, chain(b), did, MetadataCreated) ==> NoUpdates(ix, chain, did, lo, b - 1))
      && (HasOtherUpdate(ix, chain(b), did, kinds) ==> NoUpdates(ix, chain, did, b, hi))
  }

  /** No block of the window has a usable update. */
  ghost predicate Quiet(ix: Indexing, chain: Chain, did: string, lo: int, hi: int) {
    forall b :: lo < b <= hi ==> Lead(ix, chain(b), did).None?
  }

  lemma NoUpdatesIsQuiet(ix: Indexing, chain: Chain, did: string, lo: int, hi: int)
    requires Dated(chain, lo, hi) && NoUpdates(ix, chain, did, lo, hi)
    ensures Quiet(ix, chain, did, lo, hi)
  {
    forall b | lo < b <= hi ensures Lead(ix, chain(b), did).None? {
      FirstNeedsEvent(ix, chain(b), did, MetadataUpdated);
    }
  }

  lemma {:induction false} QuietHasNoLeads(ix: Indexing, chain: Chain, did: string, lo: int, hi: int)
    requires Quiet(ix, chain, did, lo, hi)
    ensures Leads(ix, chain, did, lo, hi) == []
    decreases hi - lo
  {
    if hi <= lo {
    } else {
      QuietHasNoLeads(ix, chain, did, lo, hi - 1);
    }
  }

  /** A dormant DID as the store has it before a window: what the store knows of it comes
      from outside the window. */
  ghost predicate Sleeps(chain: Chain, previous: Option<Ddo>, lo: int, hi: int) {
    && Dormant(previous)
    && (previous.Some? && previous.value.event.Some? ==>
          && !(lo < previous.value.event.value.block <= hi)
          && forall b :: lo < b <= hi ==> !Mentions(chain(b), previous.value.event.value.tx))
  }

  function Waking(ix: Indexing, chain: Chain, did: string, previous: Option<Ddo>, b: int): Option<Ddo> {
    First(ix, chain(b), did, WakingKinds(previous))
  }

  /** The first block of a window that wakes a dormant DID, if there is one. */
  lemma {:induction false} FirstWaking(ix: Indexing, chain: Chain, did: string, previous: Option<Ddo>, lo: int, hi: int)
    returns (b: Option<int>)
    requires 0 <= lo <= hi && Dated(chain, lo, hi) && Sleeps(chain, previous, lo, hi)
    ensures b.None? ==> FoldOne(ix, did, previous, LogsBetween(chain, lo, hi)) == previous
    ensures b.Some? ==> && lo < b.value <= hi
                        && Waking(ix, chain, did, previous, b.value).Some?
                        && FoldOne(ix, did, previous, LogsBetween(chain, lo, b.value))
                           == Waking(ix, chain, did, previous, b.value)
    ensures forall n :: lo < n <= hi && (b.Some? ==> n < b.value) ==> Waking(ix, chain, did, previous, n).None?
    decreases hi - lo
  {
    if lo == hi {
      b := None;
    } else {
      b := FirstWaking(ix, chain, did, previous, lo, hi - 1);
      if b.None? {
        FoldOneConcat(ix, did, previous, LogsBetween(chain, lo, hi - 1), chain(hi));
        BlockOnDormant(ix, did, previous, chain(hi), hi);
        b := if Waking(ix, chain, did, previous, hi).Some? then Some(hi) else None;
      }
    }
  }

  lemma FoldSplit(ix: Indexing, chain: Chain, did: string, previous: Option<Ddo>, lo: int, mid: int, hi: int)
    requires lo <= mid <= hi
    ensures FoldOne(ix, did, previous, LogsBetween(chain, lo, hi))
         == FoldOne(ix, did, FoldOne(ix, did, previous, LogsBetween(chain, lo, mid)), LogsBetween(chain, mid, hi))
  {
    LogsOfAdjacentWindows(chain, lo, mid, hi);
    FoldOneConcat(ix, did, previous, LogsBetween(chain, lo, mid), LogsBetween(chain, mid, hi));
  }

  /** Before the block that wakes the DID, a safe window has no usable updates. */
  lemma QuietBeforeWaking(ix: Indexing, chain: Chain, did: string, previous: Option<Ddo>, lo: int, hi: int, b: int)
    requires 0 <= lo < b <= hi && Dated(chain, lo, hi)
    requires SafeSchedule(ix, chain, did, WakingKinds(previous), lo, hi)
    requires Waking(ix, chain, did, previous, b).Some?
    requires forall n :: lo < n < b ==> Waking(ix, chain, did, previous, n).None?
    ensures Quiet(ix, chain, did, lo, b - 1)
  {
    if MetadataUpdated in WakingKinds(previous) {
      forall n | lo < n <= b - 1 ensures Lead(ix, chain(n), did).None? {
        assert Waking(ix, chain, did, previous, n).None?;
        FirstOfFewer(ix, chain(n), did, WakingKinds(previous), {MetadataUpdated});
      }
    } else {
      FirstNeedsEvent(ix, chain(b), did, MetadataCreated);
      assert Dated(chain, lo, b - 1);
      NoUpdatesIsQuiet(ix, chain, did, lo, b - 1);
    }
  }

  /** A newborn DDO agrees with every range in which it skips, or has no, other update. */
  lemma NewbornAgrees(ix: Indexing, chain: Chain, did: string, kinds: set<MetadataKind>, lo: int, hi: int, b: int,
                      from: int, end: int)
    requires 0 <= lo < b <= hi && Dated(chain, lo, hi) && lo <= from <= end <= hi
    requires MetadataCreated in kinds && First(ix, chain(b), did, kinds).Some?
    requires !(from < b <= end) || !HasOtherUpdate(ix, chain(b), did, kinds)
    ensures Agrees(ix, chain, did, from, end, First(ix, chain(b), did, kinds).value) && Dated(chain, from, end)
    ensures First(ix, chain(b), did, kinds).value.event.value.block == b
  {
    var born := First(ix, chain(b), did, kinds).value;
    FirstIsFromLog(ix, chain(b), did, kinds, b);
    if from < b <= end && Lead(ix, chain(b), did).Some? {
      LeadIsWaking(ix, chain(b), did, kinds, b);
      PatchIsIdempotent(born, born);
    }
  }

  /** Redelivery of a window of a safe schedule is harmless for a dormant DID. */
  lemma DormantTwice(ix: Indexing, chain: Chain, did: string, previous: Option<Ddo>, lo: int, hi: int)
    requires 0 <= lo <= hi && Dated(chain, lo, hi) && Sleeps(chain, previous, lo, hi)
    requires SafeSchedule(ix, chain, did, WakingKinds(previous), lo, hi)
    ensures var logs := LogsBetween(chain, lo, hi);
            var once := FoldOne(ix, did, previous, logs);
            FoldOne(ix, did, once, logs) == once
  {
    hide Dated, FoldOne, LogsBetween, First, HasOtherUpdate;
    var kinds := WakingKinds(previous);
    var waking := FirstWaking(ix, chain, did, previous, lo, hi);
    if waking.Some? {
      var b := waking.value;
      QuietBeforeWaking(ix, chain, did, previous, lo, hi, b);
      FoldSplit(ix, chain, did, previous, lo, b, hi);
      if HasOtherUpdate(ix, chain(b), did, kinds) {
        assert Dated(chain, b, hi) by { NewbornAgrees(ix, chain, did, kinds, lo, hi, b, b, hi); }
        NoUpdatesIsQuiet(ix, chain, did, b, hi);
        BornWithUpdate(ix, chain, did, kinds, lo, b, hi);
      } else {
        BornAlone(ix, chain, did, kinds, lo, b, hi);
      }
    }
  }

  /** The waking block has no other update: the second pass meets the newborn DDO again in
      its own block, and saves the later leads once more. */
  lemma BornAlone(ix: Indexing, chain: Chain, did: string, kinds: set<MetadataKind>, lo: int, b: int, hi: int)
    requires 0 <= lo < b <= hi && Dated(chain, lo, hi) && MetadataCreated in kinds
    requires First(ix, chain(b), did, kinds).Some? && Quiet(ix, chain, did, lo, b - 1)
    requires !HasOtherUpdate(ix, chain(b), did, kinds)
    ensures var once := FoldOne(ix, did, First(ix, chain(b), did, kinds), LogsBetween(chain, b, hi));
            FoldOne(ix, did, once, LogsBetween(chain, lo, hi)) == once
  {
    hide Agrees, Dated, Quiet, FoldOne, LogsBetween, First, HasOtherUpdate;
    var ddo := First(ix, chain(b), did, kinds).value;
    NewbornAgrees(ix, chain, did, kinds, lo, hi, b, lo, b - 1);
    QuietWindow(ix, chain, did, lo, b - 1, ddo);
    NewbornSkipsBlock(ix, chain, did, kinds, lo, hi, b);
    FoldThroughBlock(ix, chain, did, Some(ddo), lo, b, hi);
    NewbornAgrees(ix, chain, did, kinds, lo, hi, b, lo, hi);
    RegisteredTwice(ix, chain, did, lo, hi, ddo, lo, hi);
  }

  /** A window as the blocks before one block, that block, and the blocks after it. */
  lemma FoldThroughBlock(ix: Indexing, chain: Chain, did: string, previous: Option<Ddo>, lo: int, b: int, hi: int)
    requires lo < b <= hi
    ensures FoldOne(ix, did, previous, LogsBetween(chain, lo, hi))
         == FoldOne(ix, did,
                    FoldOne(ix, did, FoldOne(ix, did, previous, LogsBetween(chain, lo, b - 1)), chain(b)),
                    LogsBetween(chain, b, hi))
  {
    FoldSplit(ix, chain, did, previous, lo, b, hi);
    FoldOneConcat(ix, did, previous, LogsBetween(chain, lo, b - 1), chain(b));
  }

  /** The waking block has other updates, which are skipped, and there are no others. */
  lemma BornWithUpdate(ix: Indexing, chain: Chain, did: string, kinds: set<MetadataKind>, lo: int, b: int, hi: int)
    requires 0 <= lo < b <= hi && Dated(chain, lo, hi) && MetadataCreated in kinds
    requires First(ix, chain(b), did, kinds).Some?
    requires Quiet(ix, chain, did, lo, b - 1) && Quiet(ix, chain, did, b, hi)
    ensures var once := FoldOne(ix, did, First(ix, chain(b), did, kinds), LogsBetween(chain, b, hi));
            FoldOne(ix, did, once, LogsBetween(chain, lo, hi)) == once
  {
    hide Agrees, Dated, Quiet, FoldOne, LogsBetween, First;
    var ddo := First(ix, chain(b), did, kinds).value;
    NewbornAgrees(ix, chain, did, kinds, lo, hi, b, b, hi);
    QuietWindow(ix, chain, did, b, hi, ddo);
    NewbornAgrees(ix, chain, did, kinds, lo, hi, b, lo, b - 1);
    QuietWindow(ix, chain, did, lo, b - 1, ddo);
    NewbornSkipsBlock(ix, chain, did, kinds, lo, hi, b);
    FoldThroughBlock(ix, chain, did, Some(ddo), lo, b, hi);
  }

  lemma NewbornSkipsBlock(ix: Indexing, chain: Chain, did: string, kinds: set<MetadataKind>, lo: int, hi: int, b: int)
    requires 0 <= lo < b <= hi && Dated(chain, lo, hi) && First(ix, chain(b), did, kinds).Some?
    ensures FoldOne(ix, did, First(ix, chain(b), did, kinds), chain(b)) == First(ix, chain(b), did, kinds)
  {
    FirstIsFromLog(ix, chain(b), did, kinds, b);
    SameBlockSkips(ix, did, First(ix, chain(b), did, kinds).value, chain(b), b);
  }

  /** A window without usable updates leaves a registered DDO alone. */
  lemma QuietWindow(ix: Indexing, chain: Chain, did: string, lo: int, hi: int, ddo: Ddo)
    requires 0 <= lo <= hi && Dated(chain, lo, hi) && Agrees(ix, chain, did, lo, hi, ddo)
    requires Quiet(ix, chain, did, lo, hi)
    ensures FoldOne(ix, did, Some(ddo), LogsBetween(chain, lo, hi)) == Some(ddo)
  {
    WindowSavesLeads(ix, chain, did, lo, hi, ddo, lo, hi);
    QuietHasNoLeads(ix, chain, did, lo, hi);
  }
}
