/** Whole runs of NFT state events on one DDO: what survives while the document moves
    between the short collection and the versioned ones. */
module StateRuns {
  import opened Options
  import opened Documents
  import DdoDatabases
  import opened Processors

  /** A state event that is heeded; its transaction does not matter. */
  function StateEvent(did: string, state: int): Log {
    StateLog(did, "", true, state)
  }

  /** The effect of a run of states on the documents: the events of one DID, in order. */
  function AfterStates(ix: Indexing, docs: map<string, Ddo>, did: string, states: seq<int>): map<string, Ddo>
    decreases |states|
  {
    if states == [] then docs
    else AfterStates(ix, ProcessState(ix, docs, StateEvent(did, states[0])), did, states[1..])
  }

  /** Everything but the NFT. */
  function Content(ddo: Ddo): Ddo {
    ddo.(nft := None)
  }

  function StateOf(ddo: Ddo): Option<int> {
    if ddo.nft.Some? then Some(ddo.nft.value.state) else None
  }

  /** A stored document of a known version, with everything it was published with. */
  predicate IsFull(ix: Indexing, docs: map<string, Ddo>, did: string) {
    && did in docs && docs[did].id == did && docs[did].nft.Some?
    && docs[did].version.Some? && docs[did].version.value != ""
    && "op_ddo_v" + docs[did].version.value in ix.cfg.schemas
    && DdoDatabases.SHORT_SCHEMA in ix.cfg.schemas
  }

  /** The direct step from active to deprecated or revoked, which stores the short form. */
  predicate Strips(ddo: Ddo, state: int) {
    IsActive(ddo) && (state == REVOKED || state == DEPRECATED)
  }

  /** The states by number: from zero, active, to two, deprecated, or three, revoked. */
  lemma StripsIff(ddo: Ddo, state: int)
    ensures Strips(ddo, state) <==> ddo.nft.Some? && ddo.nft.value.state == 0 && (state == 2 || state == 3)
  {
  }

  predicate StripsInRun(ix: Indexing, docs: map<string, Ddo>, did: string, states: seq<int>)
    decreases |states|
  {
    did in docs && states != [] &&
    (|| Strips(docs[did], states[0])
     || StripsInRun(ix, ProcessState(ix, docs, StateEvent(did, states[0])), did, states[1..]))
  }

  /** One state event that does not strip: the new state is stored and nothing else
      changes, not even the other details of the NFT, or validation refuses the return to
      active and nothing changes at all. */
  lemma StateStep(ix: Indexing, docs: map<string, Ddo>, did: string, state: int)
    requires IsFull(ix, docs, did) && !Strips(docs[did], state)
    ensures var after := ProcessState(ix, docs, StateEvent(did, state));
            && IsFull(ix, after, did)
            && Content(after[did]) == Content(docs[did])
            && after[did].nft.value.details == docs[did].nft.value.details
            && (StateOf(after[did]) == Some(state) || (after == docs && state == ACTIVE))
            && after == docs[did := after[did]]
  {
    var ddo := docs[did];
    var saved := WithState(ddo, state, ix.chainId);
    assert ddo.content + saved.content == ddo.content;
    assert docs == docs[did := ddo];
  }

  /** One stripping event: only identity and the new state are left, and no other
      document changes. */
  lemma StripStep(ix: Indexing, docs: map<string, Ddo>, did: string, state: int)
    requires IsFull(ix, docs, did) && Strips(docs[did], state)
    ensures var after := ProcessState(ix, docs, StateEvent(did, state));
            && after == docs[did := Ddo(did, ix.chainId, docs[did].nftAddress, None, Some(Nft(state, map[])),
                                        None, None, None, map[])]
            && IsStripped(ix, after, did)
  {
    DdoDatabases.VersionedIsNotShort(docs[did].version.value);
  }

  predicate IsStripped(ix: Indexing, docs: map<string, Ddo>, did: string) {
    && did in docs && docs[did].id == did && docs[did].nft.Some? && docs[did].nft.value.state != ACTIVE
    && docs[did].version.None? && DdoDatabases.SHORT_SCHEMA in ix.cfg.schemas
  }

  /** A stripped document never gets its content back from state events, nor becomes
      active again: without a version no schema fits an active document. */
  lemma {:induction false} StrippedForGood(ix: Indexing, docs: map<string, Ddo>, did: string, states: seq<int>)
    requires IsStripped(ix, docs, did)
    ensures var after := AfterStates(ix, docs, did, states);
            && IsStripped(ix, after, did)
            && Content(after[did]) == Content(docs[did])
    decreases |states|
  {
    if states == [] {
    } else {
      var saved := WithState(docs[did], states[0], ix.chainId);
      assert docs[did].content + saved.content == docs[did].content;
      StrippedForGood(ix, ProcessState(ix, docs, StateEvent(did, states[0])), did, states[1..]);
    }
  }

  /** Through any run of state events, the content of a full document survives exactly
      when the run never takes the direct step from active to deprecated or revoked. */
  lemma {:induction false} ContentSurvivesIff(ix: Indexing, docs: map<string, Ddo>, did: string, states: seq<int>)
    requires IsFull(ix, docs, did)
    ensures var after := AfterStates(ix, docs, did, states);
            && did in after
            && (Content(after[did]) == Content(docs[did]) <==> !StripsInRun(ix, docs, did, states))
            && (!StripsInRun(ix, docs, did, states) ==> IsFull(ix, after, did))
    decreases |states|
  {
    if states == [] {
    } else {
      var next := ProcessState(ix, docs, StateEvent(did, states[0]));
      if Strips(docs[did], states[0]) {
        StripStep(ix, docs, did, states[0]);
        StrippedForGood(ix, next, did, states[1..]);
      } else {
        StateStep(ix, docs, did, states[0]);
        ContentSurvivesIff(ix, next, did, states[1..]);
      }
    }
  }

  /** State events of a DID touch no other document. */
  lemma {:induction false} OthersUntouched(ix: Indexing, docs: map<string, Ddo>, did: string, states: seq<int>,
                                           other: string)
    requires other != did && (did in docs ==> docs[did].id == did)
    ensures Lookup(AfterStates(ix, docs, did, states), other) == Lookup(docs, other)
    decreases |states|
  {
    if states == [] {
    } else {
      OthersUntouched(ix, ProcessState(ix, docs, StateEvent(did, states[0])), did, states[1..], other);
    }
  }
}
