/** Which schedules of metadata events survive redelivery, whatever the documents say. */
module RedeliverySchedules {
  import opened Options
  import opened Documents
  import opened DdoDatabases
  import opened Processors
  import opened ChainLogs
  import opened Redelivery
  import opened RedeliveredWindows

  /** The same event with possibly another document. */
  predicate SameEvent(a: Log, b: Log) {
    if a.MetadataLog? then b.MetadataLog? && b == a.(payload := b.payload) else b == a
  }

  ghost predicate SameSchedule(chain: Chain, other: Chain, lo: int, hi: int) {
    forall b :: lo < b <= hi ==>
      |other(b)| == |chain(b)| && forall i :: 0 <= i < |chain(b)| ==> SameEvent(chain(b)[i], other(b)[i])
  }

  /** Delivering the window twice ends as after once. */
  ghost predicate TwiceIsOnce(ix: Indexing, chain: Chain, did: string, previous: Option<Ddo>, lo: int, hi: int) {
    var logs := LogsBetween(chain, lo, hi);
    var once := FoldOne(ix, did, previous, logs);
    FoldOne(ix, did, once, logs) == once
  }

  /** Redelivery is harmless with any documents in the events of the schedule. */
  ghost predicate Harmless(ix: Indexing, chain: Chain, did: string, previous: Option<Ddo>, lo: int, hi: int) {
    forall other: Chain :: SameSchedule(chain, other, lo, hi) && Dated(other, lo, hi) ==>
      TwiceIsOnce(ix, other, did, previous, lo, hi)
  }

  /** A document that the store takes whatever event it comes from. */
  ghost predicate Publishable(ix: Indexing, did: string, ddo: Ddo) {
    ddo.id == did && IsActive(ddo) && forall e :: Accepted(ix.cfg, ddo.(event := Some(e)))
  }

  // ---------- safe schedules are harmless ----------

  lemma SameScheduleHas(ix: Indexing, chain: Chain, other: Chain, lo: int, hi: int, b: int,
                        did: string, kind: MetadataKind)
    requires SameSchedule(chain, other, lo, hi) && lo < b <= hi
    ensures Has(ix, chain(b), did, kind) == Has(ix, other(b), did, kind)
  {
    forall i | 0 <= i < |chain(b)|
      ensures Heeded(ix, chain(b)[i], did, kind) == Heeded(ix, other(b)[i], did, kind)
    {
      assert SameEvent(chain(b)[i], other(b)[i]);
    }
  }

  lemma SameScheduleHasOther(ix: Indexing, chain: Chain, other: Chain, lo: int, hi: int, b: int,
                             did: string, kinds: set<MetadataKind>)
    requires SameSchedule(chain, other, lo, hi) && lo < b <= hi
    ensures HasOtherUpdate(ix, chain(b), did, kinds) == HasOtherUpdate(ix, other(b), did, kinds)
  {
    forall i, j | 0 <= i < |chain(b)| && 0 <= j < |chain(b)|
      ensures OtherUpdate(ix, chain(b)[i], chain(b)[j], did) == OtherUpdate(ix, other(b)[i], other(b)[j], did)
    {
      assert SameEvent(chain(b)[i], other(b)[i]) && SameEvent(chain(b)[j], other(b)[j]);
    }
  }

  lemma SameScheduleSleeps(chain: Chain, other: Chain, previous: Option<Ddo>, lo: int, hi: int)
    requires SameSchedule(chain, other, lo, hi) && Sleeps(chain, previous, lo, hi)
    ensures Sleeps(other, previous, lo, hi)
  {
    forall b, tx | lo < b <= hi && Mentions(other(b), tx) ensures Mentions(chain(b), tx) {
      var i :| 0 <= i < |other(b)| && other(b)[i].MetadataLog? && other(b)[i].tx == tx;
      assert SameEvent(chain(b)[i], other(b)[i]);
    }
  }

  lemma SafeIsHarmless(ix: Indexing, chain: Chain, did: string, previous: Option<Ddo>, lo: int, hi: int)
    requires 0 <= lo <= hi && Sleeps(chain, previous, lo, hi)
    requires SafeSchedule(ix, chain, did, WakingKinds(previous), lo, hi)
    ensures Harmless(ix, chain, did, previous, lo, hi)
  {
    hide FoldOne, LogsBetween, Dated, SameSchedule, Sleeps, Has, HasOtherUpdate;
    var kinds := WakingKinds(previous);
    forall other: Chain | SameSchedule(chain, other, lo, hi) && Dated(other, lo, hi)
      ensures TwiceIsOnce(ix, other, did, previous, lo, hi)
    {
      forall b | lo < b <= hi
        ensures Has(ix, chain(b), did, MetadataCreated) == Has(ix, other(b), did, MetadataCreated)
        ensures Has(ix, chain(b), did, MetadataUpdated) == Has(ix, other(b), did, MetadataUpdated)
        ensures HasOtherUpdate(ix, chain(b), did, kinds) == HasOtherUpdate(ix, other(b), did, kinds)
      {
        SameScheduleHas(ix, chain, other, lo, hi, b, did, MetadataCreated);
        SameScheduleHas(ix, chain, other, lo, hi, b, did, MetadataUpdated);
        SameScheduleHasOther(ix, chain, other, lo, hi, b, did, kinds);
      }
      SameScheduleSleeps(chain, other, previous, lo, hi);
      DormantTwice(ix, other, did, previous, lo, hi);
    }
  }

  // ---------- unsafe schedules are not ----------

  lemma {:induction false} FirstAt(ix: Indexing, logs: seq<Log>, did: string, kinds: set<MetadataKind>, i: nat)
    requires i < |logs| && Usable(ix, logs[i], did) && logs[i].kind in kinds
    requires forall j :: 0 <= j < i ==> !(Usable(ix, logs[j], did) && logs[j].kind in kinds)
    ensures First(ix, logs, did, kinds) == Some(Stamped(logs[i].payload.value, logs[i]))
  {
    if i == 0 {
    } else {
      FirstAt(ix, logs[1..], did, kinds, i - 1);
    }
  }

  lemma {:induction false} FirstNone(ix: Indexing, logs: seq<Log>, did: string, kinds: set<MetadataKind>)
    requires forall j :: 0 <= j < |logs| ==> !(Usable(ix, logs[j], did) && logs[j].kind in kinds)
    ensures First(ix, logs, did, kinds) == None
  {
    if logs == [] {
    } else {
      FirstNone(ix, logs[1..], did, kinds);
    }
  }

  /** The logs of a block with the given documents, by index, and no others. */
  function Repaid(logs: seq<Log>, pays: map<int, Ddo>): seq<Log> {
    seq(|logs|, i requires 0 <= i < |logs| =>
      if logs[i].MetadataLog? then logs[i].(payload := Lookup(pays, i)) else logs[i])
  }

  /** The chain with the given documents, by block and index, and no others. */
  function WithDocuments(chain: Chain, pays: map<int, map<int, Ddo>>): Chain {
    n => Repaid(chain(n), if n in pays then pays[n] else map[])
  }

  /** Documents that a block's logs can carry: active ones, of logs that the node can
      decode, and one for all logs of a transaction. */
  predicate Payable(logs: seq<Log>, pays: map<int, Ddo>) {
    && (forall i :: i in pays ==> IsActive(pays[i]))
    && (forall i :: 0 <= i < |logs| && i in pays && logs[i].MetadataLog? ==> logs[i].decodable)
    && (forall i, j :: 0 <= i < |logs| && 0 <= j < |logs| && i in pays && j in pays ==>
          (logs[i].tx == logs[j].tx ==> pays[i] == pays[j]))
  }

  lemma RepaidIsDecoded(logs: seq<Log>, pays: map<int, Ddo>, b: int)
    requires InBlock(logs, b) && Decoded(logs) && Payable(logs, pays)
    ensures InBlock(Repaid(logs, pays), b) && Decoded(Repaid(logs, pays))
  {
    var other := Repaid(logs, pays);
    forall i | 0 <= i < |logs| ensures SameEvent(logs[i], other[i]) {}
    forall i, j | 0 <= i < |other| && 0 <= j < |other|
      ensures Alike(other[i], other[j]) && OpensWithMetadata(other, i, j)
    {
      assert SameEvent(logs[i], other[i]) && SameEvent(logs[j], other[j]);
      assert Alike(logs[i], logs[j]) && OpensWithMetadata(logs, i, j);
      if forall k :: 0 <= k < i ==> other[k].tx != other[i].tx {
        forall k | 0 <= k < i ensures logs[k].tx != logs[i].tx {
          assert SameEvent(logs[k], other[k]);
        }
      }
    }
    forall i | 0 <= i < |other| && other[i].MetadataLog?
      ensures other[i].block == b && (other[i].payload.Some? ==> other[i].decodable && IsActive(other[i].payload.value))
    {
      assert logs[i].block == b;
    }
  }

  lemma RepaidSameSchedule(chain: Chain, pays: map<int, map<int, Ddo>>, lo: int, hi: int)
    requires Dated(chain, lo, hi) && forall n :: n in pays ==> Payable(chain(n), pays[n])
    ensures SameSchedule(chain, WithDocuments(chain, pays), lo, hi)
    ensures Dated(WithDocuments(chain, pays), lo, hi)
  {
    var other := WithDocuments(chain, pays);
    forall b, tx | lo < b <= hi && Mentions(other(b), tx) ensures Mentions(chain(b), tx) {
      var i :| 0 <= i < |other(b)| && other(b)[i].MetadataLog? && other(b)[i].tx == tx;
      assert chain(b)[i].tx == tx;
    }
    forall b | lo < b <= hi ensures InBlock(other(b), b) && Decoded(other(b)) {
      RepaidIsDecoded(chain(b), if b in pays then pays[b] else map[], b);
    }
  }

  predicate HasKey(ddo: Ddo, key: string) {
    key in ddo.content
  }

  lemma {:induction false} KeyNeverAppears(cfg: Config, ddo: Ddo, docs: seq<Ddo>, key: string)
    requires !HasKey(ddo, key) && forall i :: 0 <= i < |docs| ==> !HasKey(docs[i], key)
    ensures !HasKey(SaveAll(cfg, ddo, docs), key)
  {
    if docs == [] {
    } else {
      KeyNeverAppears(cfg, ddo, docs[..|docs| - 1], key);
    }
  }

  /** Within one shard a key that was saved once stays. */
  lemma {:induction false} KeyStays(cfg: Config, ddo: Ddo, docs: seq<Ddo>, key: string, k: nat)
    requires AllAccepted(cfg, docs) && k < |docs| && HasKey(docs[k], key)
    requires forall i :: 0 <= i < |docs| ==> GetDdoSchema(cfg, docs[i]) == GetDdoSchema(cfg, docs[0])
    ensures HasKey(SaveAll(cfg, ddo, docs), key)
  {
    var front := docs[..|docs| - 1];
    if k == |front| {
    } else {
      KeyStays(cfg, ddo, front, key, k);
      SaveAllSchema(cfg, ddo, front);
    }
  }

  /** A DDO without the key meets a lead with the key on redelivery, and gains it. */
  lemma SecondPassAddsKey(ix: Indexing, chain: Chain, did: string, lo: int, hi: int, once: Ddo, u: int,
                          schema: Option<string>, key: string)
    requires 0 <= lo < u <= hi && Dated(chain, lo, hi) && Agrees(ix, chain, did, lo, hi, once)
    requires !HasKey(once, key)
    requires forall n :: lo < n <= hi && Lead(ix, chain(n), did).Some? ==>
               GetDdoSchema(ix.cfg, Lead(ix, chain(n), did).value) == schema
    requires Lead(ix, chain(u), did).Some? && HasKey(Lead(ix, chain(u), did).value, key)
    ensures FoldOne(ix, did, Some(once), LogsBetween(chain, lo, hi)) != Some(once)
  {
    var leads := Leads(ix, chain, did, lo, hi);
    WindowSavesLeads(ix, chain, did, lo, hi, once, lo, hi);
    LeadsAccepted(ix, chain, did, lo, hi);
    forall i | 0 <= i < |leads| ensures GetDdoSchema(ix.cfg, leads[i]) == schema {
      LeadsAre(ix, chain, did, lo, hi, leads[i]);
    }
    LeadIsAmong(ix, chain, did, lo, hi, u);
    var k :| 0 <= k < |leads| && leads[k] == Lead(ix, chain(u), did).value;
    KeyStays(ix.cfg, once, leads, key, k);
  }

  // ---------- the documents that show it ----------

  lemma PaidFirst(ix: Indexing, chain: Chain, pays: map<int, map<int, Ddo>>, did: string, n: int,
                  kinds: set<MetadataKind>, i: int)
    requires n in pays && i in pays[n] && 0 <= i < |chain(n)|
    requires chain(n)[i].MetadataLog? && chain(n)[i].kind in kinds && Heeded(ix, chain(n)[i], did, chain(n)[i].kind)
    requires Publishable(ix, did, pays[n][i])
    requires forall j :: 0 <= j < i && j in pays[n] && chain(n)[j].MetadataLog? ==> chain(n)[j].kind !in kinds
    ensures First(ix, WithDocuments(chain, pays)(n), did, kinds) == Some(Stamped(pays[n][i], chain(n)[i]))
  {
    var logs := WithDocuments(chain, pays)(n);
    var ddo := Stamped(pays[n][i], chain(n)[i]);
    assert ddo == pays[n][i].(event := Some(ddo.event.value));
    assert Usable(ix, logs[i], did);
    FirstAt(ix, logs, did, kinds, i);
  }

  lemma UnpaidFirst(ix: Indexing, chain: Chain, pays: map<int, map<int, Ddo>>, did: string, n: int,
                    kinds: set<MetadataKind>)
    requires n in pays ==>
               forall j :: 0 <= j < |chain(n)| && j in pays[n] && chain(n)[j].MetadataLog? ==>
                 chain(n)[j].kind !in kinds
    ensures First(ix, WithDocuments(chain, pays)(n), did, kinds) == None
  {
    var mine := if n in pays then pays[n] else map[];
    var logs := Repaid(chain(n), mine);
    assert logs == WithDocuments(chain, pays)(n);
    hide Accepted, Stamped;
    forall j | 0 <= j < |logs| ensures !(Usable(ix, logs[j], did) && logs[j].kind in kinds) {
      assert SameEvent(chain(n)[j], logs[j]);
      assert logs[j].MetadataLog? ==> logs[j].payload == Lookup(mine, j);
    }
    hide First, Usable;
    FirstNone(ix, logs, did, kinds);
  }

  /** `base` and `base` with one more field: two documents that tell the passes apart. */
  ghost predicate TellsApart(ix: Indexing, did: string, base: Ddo, more: Ddo, key: string) {
    && Publishable(ix, did, base) && Publishable(ix, did, more)
    && key !in base.content && more == base.(content := base.content[key := ""])
  }

  lemma StampedIn(ix: Indexing, did: string, base: Ddo, more: Ddo, key: string, ddo: Ddo, log: Log)
    requires TellsApart(ix, did, base, more, key) && log.MetadataLog? && (ddo == base || ddo == more)
    ensures GetDdoSchema(ix.cfg, Stamped(ddo, log)) == GetDdoSchema(ix.cfg, base)
    ensures HasKey(Stamped(ddo, log), key) <==> ddo == more
  {
  }

  lemma PaysAreActive(ix: Indexing, did: string, base: Ddo, more: Ddo, key: string)
    requires TellsApart(ix, did, base, more, key)
    ensures IsActive(base) && IsActive(more)
  {
  }

  /** The first pass up to and after the only block of a window that wakes the DID. */
  lemma OnceAfterWaking(ix: Indexing, chain: Chain, did: string, previous: Option<Ddo>, lo: int, hi: int, b: int)
    requires 0 <= lo < b <= hi && Dated(chain, lo, hi) && Sleeps(chain, previous, lo, hi)
    requires forall n :: lo < n < b ==> Waking(ix, chain, did, previous, n) == None
    requires Waking(ix, chain, did, previous, b).Some?
    ensures FoldOne(ix, did, previous, LogsBetween(chain, lo, hi))
         == FoldOne(ix, did, Waking(ix, chain, did, previous, b), LogsBetween(chain, b, hi))
  {
    hide First, FoldOne, LogsBetween;
    assert Dated(chain, lo, b);
    var waking := FirstWaking(ix, chain, did, previous, lo, b);
    assert waking == Some(b);
    FoldSplit(ix, chain, did, previous, lo, b, hi);
  }

  /** An update before the creation, which cannot wake the DID: the second pass saves it,
      the first did not. */
  lemma EarlyUpdateHarms(ix: Indexing, chain: Chain, did: string, previous: Option<Ddo>, lo: int, hi: int,
                         b: int, i: int, u: int, j: int, base: Ddo, more: Ddo, key: string)
    requires 0 <= lo < u < b <= hi && Dated(chain, lo, hi) && TellsApart(ix, did, base, more, key)
    requires Sleeps(chain, previous, lo, hi) && MetadataUpdated !in WakingKinds(previous)
    requires 0 <= i < |chain(b)| && Heeded(ix, chain(b)[i], did, MetadataCreated)
    requires 0 <= j < |chain(u)| && Heeded(ix, chain(u)[j], did, MetadataUpdated)
    ensures !Harmless(ix, chain, did, previous, lo, hi)
  {
    var other := EarlyUpdateDocuments(ix, chain, did, lo, hi, b, i, u, j, base, more, key);
    SameScheduleSleeps(chain, other, previous, lo, hi);
    assert forall n :: Waking(ix, other, did, previous, n) == First(ix, other(n), did, {MetadataCreated});
    var born := Waking(ix, other, did, previous, b).value;
    OnceAfterWaking(ix, other, did, previous, lo, hi, b);
    FirstIsFromLog(ix, other(b), did, {MetadataCreated}, b);
    assert Agrees(ix, other, did, lo, hi, born);
    QuietHasNoLeads(ix, other, did, b, hi);
    WindowSavesLeads(ix, other, did, lo, hi, born, b, hi);
    SecondPassAddsKey(ix, other, did, lo, hi, born, u, GetDdoSchema(ix.cfg, base), key);
    assert !TwiceIsOnce(ix, other, did, previous, lo, hi);
  }

  /** Documents for the schedule: `more` in the update that comes before the creation. */
  lemma EarlyUpdateDocuments(ix: Indexing, chain: Chain, did: string, lo: int, hi: int,
                             b: int, i: int, u: int, j: int, base: Ddo, more: Ddo, key: string)
    returns (other: Chain)
    requires 0 <= lo < u < b <= hi && Dated(chain, lo, hi) && TellsApart(ix, did, base, more, key)
    requires 0 <= i < |chain(b)| && Heeded(ix, chain(b)[i], did, MetadataCreated)
    requires 0 <= j < |chain(u)| && Heeded(ix, chain(u)[j], did, MetadataUpdated)
    ensures SameSchedule(chain, other, lo, hi) && Dated(other, lo, hi)
    ensures forall n :: First(ix, other(n), did, {MetadataCreated}).Some? <==> n == b
    ensures forall n :: Lead(ix, other(n), did).Some? <==> n == u
    ensures !HasKey(First(ix, other(b), did, {MetadataCreated}).value, key)
    ensures HasKey(Lead(ix, other(u), did).value, key)
    ensures GetDdoSchema(ix.cfg, Lead(ix, other(u), did).value) == GetDdoSchema(ix.cfg, base)
  {
    hide First, Accepted, Publishable, SchemaName, Dated, SameSchedule, HasKey, GetDdoSchema;
    var pays := map[b := map[i := base], u := map[j := more]];
    other := WithDocuments(chain, pays);
    PaysAreActive(ix, did, base, more, key);
    RepaidSameSchedule(chain, pays, lo, hi);
    PaidFirst(ix, chain, pays, did, b, {MetadataCreated}, i);
    PaidFirst(ix, chain, pays, did, u, {MetadataUpdated}, j);
    forall n | n != b ensures First(ix, other(n), did, {MetadataCreated}) == None {
      UnpaidFirst(ix, chain, pays, did, n, {MetadataCreated});
    }
    forall n | n != u ensures Lead(ix, other(n), did) == None {
      UnpaidFirst(ix, chain, pays, did, n, {MetadataUpdated});
    }
    StampedIn(ix, did, base, more, key, base, chain(b)[i]);
    StampedIn(ix, did, base, more, key, more, chain(u)[j]);
  }

  /** An update of another transaction in the creation's block and a later one: the first
      pass skips the former, the second pass saves it. */
  lemma SharedBlockHarms(ix: Indexing, chain: Chain, did: string, previous: Option<Ddo>, lo: int, hi: int,
                         b: int, i: int, j: int, v: int, k: int, base: Ddo, more: Ddo, key: string)
    requires 0 <= lo < b < v <= hi && Dated(chain, lo, hi) && TellsApart(ix, did, base, more, key)
    requires Sleeps(chain, previous, lo, hi) && (MetadataUpdated in WakingKinds(previous) ==> i < j)
    requires 0 <= i < |chain(b)| && 0 <= j < |chain(b)| && OtherUpdate(ix, chain(b)[i], chain(b)[j], did)
    requires 0 <= k < |chain(v)| && Heeded(ix, chain(v)[k], did, MetadataUpdated)
    ensures !Harmless(ix, chain, did, previous, lo, hi)
  {
    var kinds := WakingKinds(previous);
    var other := SharedBlockDocuments(ix, chain, did, kinds, lo, hi, b, i, j, v, k, base, more, key);
    SameScheduleSleeps(chain, other, previous, lo, hi);
    OnceAfterWaking(ix, other, did, previous, lo, hi, b);
    var once := OnceAfterLaterUpdate(ix, other, did, kinds, lo, hi, b, v);
    SecondPassAddsKey(ix, other, did, lo, hi, once, b, GetDdoSchema(ix.cfg, base), key);
    assert !TwiceIsOnce(ix, other, did, previous, lo, hi);
  }

  /** Documents for the schedule: `more` in the update that shares the creation's block. */
  lemma SharedBlockDocuments(ix: Indexing, chain: Chain, did: string, kinds: set<MetadataKind>, lo: int, hi: int,
                             b: int, i: int, j: int, v: int, k: int, base: Ddo, more: Ddo, key: string)
    returns (other: Chain)
    requires 0 <= lo < b < v <= hi && Dated(chain, lo, hi) && TellsApart(ix, did, base, more, key)
    requires MetadataCreated in kinds && (MetadataUpdated in kinds ==> i < j)
    requires 0 <= i < |chain(b)| && 0 <= j < |chain(b)| && OtherUpdate(ix, chain(b)[i], chain(b)[j], did)
    requires 0 <= k < |chain(v)| && Heeded(ix, chain(v)[k], did, MetadataUpdated)
    ensures SameSchedule(chain, other, lo, hi) && Dated(other, lo, hi)
    ensures forall n :: n < b ==> First(ix, other(n), did, kinds) == None
    ensures First(ix, other(b), did, kinds).Some?
    ensures forall n :: Lead(ix, other(n), did).Some? <==> n == b || n == v
    ensures !HasKey(First(ix, other(b), did, kinds).value, key)
    ensures HasKey(Lead(ix, other(b), did).value, key) && !HasKey(Lead(ix, other(v), did).value, key)
    ensures forall n :: n == b || n == v ==>
              GetDdoSchema(ix.cfg, Lead(ix, other(n), did).value) == GetDdoSchema(ix.cfg, base)
  {
    hide First, Accepted, Publishable, SchemaName, Dated, SameSchedule, HasKey, GetDdoSchema;
    var pays := map[b := map[i := base, j := more], v := map[k := base]];
    other := WithDocuments(chain, pays);
    PaysAreActive(ix, did, base, more, key);
    RepaidSameSchedule(chain, pays, lo, hi);
    PaidFirst(ix, chain, pays, did, b, kinds, i);
    PaidFirst(ix, chain, pays, did, b, {MetadataUpdated}, j);
    PaidFirst(ix, chain, pays, did, v, {MetadataUpdated}, k);
    forall n | n < b ensures First(ix, other(n), did, kinds) == None {
      UnpaidFirst(ix, chain, pays, did, n, kinds);
    }
    forall n | n != b && n != v ensures Lead(ix, other(n), did) == None {
      UnpaidFirst(ix, chain, pays, did, n, {MetadataUpdated});
    }
    StampedIn(ix, did, base, more, key, base, chain(b)[i]);
    StampedIn(ix, did, base, more, key, more, chain(b)[j]);
    StampedIn(ix, did, base, more, key, base, chain(v)[k]);
  }

  /** The newborn DDO with the window's only other lead saved agrees with the window. */
  lemma OnceAfterLaterUpdate(ix: Indexing, chain: Chain, did: string, kinds: set<MetadataKind>, lo: int, hi: int,
                             b: int, v: int)
    returns (once: Ddo)
    requires 0 <= lo < b < v <= hi && Dated(chain, lo, hi) && MetadataCreated in kinds
    requires First(ix, chain(b), did, kinds).Some? && Lead(ix, chain(v), did).Some?
    requires forall n :: b < n <= hi && n != v ==> Lead(ix, chain(n), did) == None
    ensures once == Merge(ix.cfg, First(ix, chain(b), did, kinds).value, Lead(ix, chain(v), did).value)
    ensures FoldOne(ix, did, First(ix, chain(b), did, kinds), LogsBetween(chain, b, hi)) == Some(once)
    ensures Agrees(ix, chain, did, lo, hi, once)
  {
    hide First, FoldOne, LogsBetween, Accepted, GetDdoSchema, Decoded, InBlock;
    var born, lead := First(ix, chain(b), did, kinds).value, Lead(ix, chain(v), did).value;
    FirstIsFromLog(ix, chain(b), did, kinds, b);
    FirstIsFromLog(ix, chain(v), did, {MetadataUpdated}, v);
    NewbornAgrees(ix, chain, did, kinds, lo, hi, b, b, hi);
    once := Merge(ix.cfg, born, lead);
    MergeIsRegistered(ix.cfg, born, lead);
    QuietHasNoLeads(ix, chain, did, b, v - 1);
    QuietHasNoLeads(ix, chain, did, v, hi);
    LeadsOfAdjacentWindows(ix, chain, did, b, v, hi);
    assert Leads(ix, chain, did, b, hi) == [lead];
    WindowSavesLeads(ix, chain, did, b, hi, born, b, hi);
    assert SaveAll(ix.cfg, born, [lead]) == once by {
      assert [lead][..0] == [];
    }
  }

  /** A document is compared with the DID of the log it comes to, not with that of the
      event it is decoded from. So an update counts even if its transaction opens with
      another NFT's metadata: that event may carry this DID's document. */
  lemma AnotherNftMayOpen(ix: Indexing, chain: Chain, did: string, base: Ddo, more: Ddo, key: string)
    requires Dated(chain, 0, 2) && |chain(1)| == 3 && |chain(2)| == 1 && TellsApart(ix, did, base, more, key)
    requires Heeded(ix, chain(1)[0], did, MetadataCreated)
    requires chain(1)[1].MetadataLog? && chain(1)[1].did != did && chain(1)[1].tx == chain(1)[2].tx
    requires OtherUpdate(ix, chain(1)[0], chain(1)[2], did)
    requires Heeded(ix, chain(2)[0], did, MetadataUpdated)
    ensures !Harmless(ix, chain, did, None, 0, 2)
  {
    SharedBlockHarms(ix, chain, did, None, 0, 2, 1, 0, 2, 2, 0, base, more, key);
  }

  /** Redelivery of a window to a dormant DID, unknown to the store or stored inactive, is
      harmless for every content of its events exactly when the schedule is safe. (The
      store must take some document with and without a further field, or nothing could
      ever differ.) */
  lemma HarmlessIffSafe(ix: Indexing, chain: Chain, did: string, previous: Option<Ddo>, lo: int, hi: int,
                        base: Ddo, more: Ddo, key: string)
    requires 0 <= lo <= hi && Dated(chain, lo, hi) && Sleeps(chain, previous, lo, hi)
    requires TellsApart(ix, did, base, more, key)
    ensures Harmless(ix, chain, did, previous, lo, hi)
       <==> SafeSchedule(ix, chain, did, WakingKinds(previous), lo, hi)
  {
    hide Harmless, Dated, Sleeps, TellsApart;
    var kinds := WakingKinds(previous);
    if SafeSchedule(ix, chain, did, kinds, lo, hi) {
      SafeIsHarmless(ix, chain, did, previous, lo, hi);
    } else {
      var b :| lo < b <= hi
               && !(&& (MetadataUpdated !in kinds && Has(ix, chain(b), did, MetadataCreated) ==>
                          NoUpdates(ix, chain, did, lo, b - 1))
                    && (HasOtherUpdate(ix, chain(b), did, kinds) ==> NoUpdates(ix, chain, did, b, hi)));
      if HasOtherUpdate(ix, chain(b), did, kinds) && !NoUpdates(ix, chain, did, b, hi) {
        var i, j :| 0 <= i < |chain(b)| && 0 <= j < |chain(b)| && (MetadataUpdated in kinds ==> i < j)
                    && OtherUpdate(ix, chain(b)[i], chain(b)[j], did);
        var v :| b < v <= hi && Has(ix, chain(v), did, MetadataUpdated);
        var k :| 0 <= k < |chain(v)| && Heeded(ix, chain(v)[k], did, MetadataUpdated);
        SharedBlockHarms(ix, chain, did, previous, lo, hi, b, i, j, v, k, base, more, key);
      } else {
        var i :| 0 <= i < |chain(b)| && Heeded(ix, chain(b)[i], did, MetadataCreated);
        var u :| lo < u <= b - 1 && Has(ix, chain(u), did, MetadataUpdated);
        var j :| 0 <= j < |chain(u)| && Heeded(ix, chain(u)[j], did, MetadataUpdated);
        EarlyUpdateHarms(ix, chain, did, previous, lo, hi, b, i, u, j, base, more, key);
      }
    }
  }
}
