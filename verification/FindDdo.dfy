/** Asking other peers for a DDO: whom is asked, to whom an answer is attributed, and
    what the cache keeps. */
module FindDdos {
  import opened Options

  /** A DDO's latest update, and the peer that has it. Times are milliseconds. */
  datatype Found = Found(id: string, lastUpdateTx: string, lastUpdateTime: int, provider: string)

  /** What the sink makes of a peer's stream. `Answered` carries the DDO that came, and
      the verdict of the legitimacy check. */
  datatype Sink =
    | NotRun
    | BadStatus
    | Unreadable
    | Answered(id: string, tx: string, time: int, verdict: Verdict)

  datatype Verdict = Legit | NotLegit | CheckThrows

  datatype Sent = SentOk | SentFailed | SentThrows

  /** One contact with a peer. A send is only reported as successful after the sink ran. */
  datatype Contact = Contact(sink: Sink, sent: Sent)

  const MAX_NUM_PROVIDERS := 5
  const CACHE_TTL := 1000 * 60 * 5

  // ---------- what is found ----------

  /** The results of one contact: a legitimate answer, attributed to the peer asked. */
  function FoundAt(peer: string, contact: Contact): seq<Found> {
    if contact.sink.Answered? && contact.sink.verdict == Legit
    then [Found(contact.sink.id, contact.sink.tx, contact.sink.time, peer)]
    else []
  }

  function FoundAmong(peers: seq<string>, contacts: nat -> Contact): seq<Found> {
    if peers == [] then []
    else FoundAmong(peers[..|peers| - 1], contacts) + FoundAt(peers[|peers| - 1], contacts(|peers| - 1))
  }

  function Without(peers: seq<string>, self: string): seq<string> {
    if peers == [] then []
    else (if peers[0] != self then [peers[0]] else []) + Without(peers[1..], self)
  }

  function FirstFew(peers: seq<string>): seq<string> {
    if |peers| > MAX_NUM_PROVIDERS then peers[..MAX_NUM_PROVIDERS] else peers
  }

  lemma OneMorePeer(peers: seq<string>, contacts: nat -> Contact, i: nat)
    requires i < |peers|
    ensures peers[..i + 1] == peers[..i] + [peers[i]]
    ensures FoundAmong(peers[..i + 1], contacts) == FoundAmong(peers[..i], contacts) + FoundAt(peers[i], contacts(i))
  {
    assert peers[..i + 1][..i] == peers[..i];
  }

  /** Every result names the peer whose answer it is. */
  lemma {:induction false} ResultsAreAttributed(peers: seq<string>, contacts: nat -> Contact, found: Found)
    ensures found in FoundAmong(peers, contacts) <==>
              exists i :: 0 <= i < |peers| && found in FoundAt(peers[i], contacts(i))
  {
    if peers == [] {
    } else {
      var front := peers[..|peers| - 1];
      ResultsAreAttributed(front, contacts, found);
      forall i | 0 <= i < |front| ensures FoundAt(peers[i], contacts(i)) == FoundAt(front[i], contacts(i)) {}
      if found in FoundAmong(front, contacts) {
        var i :| 0 <= i < |front| && found in FoundAt(front[i], contacts(i));
        assert found in FoundAt(peers[i], contacts(i));
      }
    }
  }

  /** What a result is: a legitimate answer of a peer asked, with that answer's id,
      transaction and time, under that peer. Answers that are refused, cannot be checked or
      cannot be read give none. */
  lemma ResultsAreLegitimate(peers: seq<string>, contacts: nat -> Contact, found: Found)
    ensures found in FoundAmong(peers, contacts) <==>
              exists i :: 0 <= i < |peers| && contacts(i).sink.Answered? && contacts(i).sink.verdict == Legit
                          && found == Found(contacts(i).sink.id, contacts(i).sink.tx, contacts(i).sink.time, peers[i])
  {
    ResultsAreAttributed(peers, contacts, found);
    hide FoundAmong;
    forall i | 0 <= i < |peers|
      ensures found in FoundAt(peers[i], contacts(i)) <==>
                && contacts(i).sink.Answered? && contacts(i).sink.verdict == Legit
                && found == Found(contacts(i).sink.id, contacts(i).sink.tx, contacts(i).sink.time, peers[i])
    {
    }
  }

  function CountOf(peers: seq<string>, self: string): nat {
    if peers == [] then 0 else (if peers[0] == self then 1 else 0) + CountOf(peers[1..], self)
  }

  /** The own id is never asked, and every other provider keeps its place. */
  lemma {:induction false} OthersKeepTheirPlace(peers: seq<string>, self: string)
    ensures self !in Without(peers, self) && |Without(peers, self)| == |peers| - CountOf(peers, self)
    ensures forall i :: 0 <= i < |peers| && peers[i] != self ==>
              var k := i - CountOf(peers[..i], self);
              0 <= k < |Without(peers, self)| && Without(peers, self)[k] == peers[i]
  {
    if peers == [] {
    } else {
      var rest := peers[1..];
      OthersKeepTheirPlace(rest, self);
      forall i | 0 <= i < |peers| && peers[i] != self
        ensures var k := i - CountOf(peers[..i], self);
                0 <= k < |Without(peers, self)| && Without(peers, self)[k] == peers[i]
      {
        if i > 0 {
          assert peers[..i][1..] == rest[..i - 1] && peers[i] == rest[i - 1];
        }
      }
    }
  }

  /** At most five, in the order given. */
  lemma AtMostFiveAreAsked(peers: seq<string>)
    ensures |FirstFew(peers)| == (if |peers| < 5 then |peers| else 5) && FirstFew(peers) <= peers
  {
  }

  // ---------- the cache ----------

  /** An entry is replaced only by a newer one. */
  function Cached(dht: map<string, Found>, found: Found): map<string, Found> {
    if found.id in dht && !(found.lastUpdateTime > dht[found.id].lastUpdateTime) then dht
    else dht[found.id := found]
  }

  function CachedAll(dht: map<string, Found>, founds: seq<Found>): map<string, Found> {
    if founds == [] then dht else Cached(CachedAll(dht, founds[..|founds| - 1]), founds[|founds| - 1])
  }

  /** Newest wins: the entry of an id is one of those seen, none seen is newer, and an id
      not seen keeps its entry. */
  lemma {:induction false} NewestWins(dht: map<string, Found>, founds: seq<Found>, id: string)
    ensures var after := CachedAll(dht, founds);
            && (id in after <==> id in dht || exists i :: 0 <= i < |founds| && founds[i].id == id)
            && (id in after ==>
                  && (after[id] in founds || (id in dht && after[id] == dht[id]))
                  && (id in dht ==> dht[id].lastUpdateTime <= after[id].lastUpdateTime)
                  && forall i :: 0 <= i < |founds| && founds[i].id == id ==>
                       founds[i].lastUpdateTime <= after[id].lastUpdateTime)
  {
    if founds == [] {
    } else {
      var front, last := founds[..|founds| - 1], founds[|founds| - 1];
      NewestWins(dht, front, id);
      assert CachedAll(dht, founds) == Cached(CachedAll(dht, front), last);
      assert forall i :: 0 <= i < |founds| ==> founds[i] == if i < |front| then front[i] else last;
      hide CachedAll;
      if exists i :: 0 <= i < |front| && front[i].id == id {
        var i :| 0 <= i < |front| && front[i].id == id;
        assert founds[i].id == id;
      }
    }
  }

  /** Only a strictly newer result replaces an entry: without one, the entry stays. */
  lemma {:induction false} NothingNewerKeeps(dht: map<string, Found>, founds: seq<Found>, id: string)
    requires id in dht
    requires forall i :: 0 <= i < |founds| && founds[i].id == id ==> founds[i].lastUpdateTime <= dht[id].lastUpdateTime
    ensures id in CachedAll(dht, founds) && CachedAll(dht, founds)[id] == dht[id]
  {
    if founds == [] {
    } else {
      NothingNewerKeeps(dht, founds[..|founds| - 1], id);
    }
  }

  // ---------- newest first ----------

  /** The host's stable sort, newest first. */
  function Insert(sorted: seq<Found>, f: Found): seq<Found> {
    if sorted == [] || sorted[|sorted| - 1].lastUpdateTime >= f.lastUpdateTime then sorted + [f]
    else Insert(sorted[..|sorted| - 1], f) + [sorted[|sorted| - 1]]
  }

  function NewestFirst(founds: seq<Found>): seq<Found> {
    if founds == [] then [] else Insert(NewestFirst(founds[..|founds| - 1]), founds[|founds| - 1])
  }

  predicate IsNewestFirst(founds: seq<Found>) {
    forall i, j :: 0 <= i < j < |founds| ==> founds[i].lastUpdateTime >= founds[j].lastUpdateTime
  }

  lemma {:induction false} InsertSorts(sorted: seq<Found>, f: Found)
    requires IsNewestFirst(sorted)
    ensures IsNewestFirst(Insert(sorted, f))
    ensures multiset(Insert(sorted, f)) == multiset(sorted) + multiset{f}
    ensures forall g :: g in Insert(sorted, f) ==> g in sorted || g == f
  {
    if sorted == [] || sorted[|sorted| - 1].lastUpdateTime >= f.lastUpdateTime {
      AppendOldest(sorted, f);
    } else {
      var front, last := sorted[..|sorted| - 1], sorted[|sorted| - 1];
      assert sorted == front + [last];
      InsertSorts(front, f);
      var inserted := Insert(front, f);
      forall i | 0 <= i < |inserted| ensures inserted[i].lastUpdateTime >= last.lastUpdateTime {
        assert inserted[i] in inserted;
      }
      AppendOldest(inserted, last);
    }
  }

  lemma AppendOldest(sorted: seq<Found>, f: Found)
    requires IsNewestFirst(sorted)
    requires sorted == [] || sorted[|sorted| - 1].lastUpdateTime >= f.lastUpdateTime
    ensures IsNewestFirst(sorted + [f])
    ensures multiset(sorted + [f]) == multiset(sorted) + multiset{f}
  {
    forall i | 0 <= i < |sorted| ensures sorted[i].lastUpdateTime >= f.lastUpdateTime {
      assert sorted[i].lastUpdateTime >= sorted[|sorted| - 1].lastUpdateTime;
    }
  }

  /** The sorted results are the results, newest first. */
  lemma {:induction false} NewestFirstSorts(founds: seq<Found>)
    ensures IsNewestFirst(NewestFirst(founds)) && multiset(NewestFirst(founds)) == multiset(founds)
  {
    if founds == [] {
    } else {
      var front, last := founds[..|founds| - 1], founds[|founds| - 1];
      assert founds == front + [last];
      NewestFirstSorts(front);
      InsertSorts(NewestFirst(front), last);
    }
  }

  /** The results of one time. */
  function OfTime(founds: seq<Found>, time: int): seq<Found> {
    if founds == [] then []
    else OfTime(founds[..|founds| - 1], time)
         + if founds[|founds| - 1].lastUpdateTime == time then [founds[|founds| - 1]] else []
  }

  lemma OfTimeSnoc(founds: seq<Found>, last: Found, time: int)
    ensures OfTime(founds + [last], time)
         == OfTime(founds, time) + if last.lastUpdateTime == time then [last] else []
  {
    assert (founds + [last])[..|founds + [last]| - 1] == founds;
  }

  lemma {:induction false} InsertIsStable(sorted: seq<Found>, f: Found, time: int)
    requires IsNewestFirst(sorted)
    ensures OfTime(Insert(sorted, f), time) == OfTime(sorted, time) + if f.lastUpdateTime == time then [f] else []
  {
    if sorted == [] || sorted[|sorted| - 1].lastUpdateTime >= f.lastUpdateTime {
      OfTimeSnoc(sorted, f, time);
    } else {
      var front, last := sorted[..|sorted| - 1], sorted[|sorted| - 1];
      InsertIsStable(front, f, time);
      assert sorted == front + [last];
      OfTimeSnoc(Insert(front, f), last, time);
    }
  }

  /** Results of one time keep the order they came in. */
  lemma {:induction false} NewestFirstIsStable(founds: seq<Found>, time: int)
    ensures OfTime(NewestFirst(founds), time) == OfTime(founds, time)
  {
    if founds == [] {
    } else {
      var front, last := founds[..|founds| - 1], founds[|founds| - 1];
      assert founds == front + [last];
      NewestFirstIsStable(front, time);
      NewestFirstSorts(front);
      InsertIsStable(NewestFirst(front), last, time);
      OfTimeSnoc(front, last, time);
    }
  }

  // ---------- the handler ----------

  class FindDdoHandler {
    var dht: map<string, Found>
    var updated: int

    constructor ()
      ensures dht == map[] && updated == 0
    {
      dht, updated := map[], 0;
    }

    /** hasCachedDDO. */
    method HasCachedDDO(id: string, now: int) returns (r: bool)
      ensures r <==> id in dht && now - updated <= 300000
    {
      r := id in dht && now - updated <= CACHE_TTL;
    }

    /** The cache part of findDDOLocally and of the sink. */
    method Remember(found: Found)
      modifies this`dht
      ensures dht == Cached(old(dht), found)
    {
      if found.id in dht {
        if found.lastUpdateTime > dht[found.id].lastUpdateTime {
          dht := dht[found.id := found];
        }
      } else {
        dht := dht[found.id := found];
      }
    }

    /** handle. `p2p` is whether the node has a P2P interface: without one it answers from
        its own database, and has no cache to look at. `local` is the node's own copy,
        `contacts(k)` how the k-th contact goes, `contacted` the peers asked, in order. */
    method Handle(p2p: bool, id: string, now: int, self: string, local: Option<Found>, providers: seq<string>,
                  contacts: nat -> Contact, finished: int)
      returns (results: seq<Found>, contacted: seq<string>)
      requires forall k :: contacts(k).sent == SentOk ==> contacts(k).sink != NotRun
      requires local.Some? ==> local.value.provider == self
      modifies this
      ensures !p2p ==>
                && results == (if local.Some? then [local.value] else []) && contacted == []
                && dht == old(dht) && updated == old(updated)
      ensures p2p && id in old(dht) && now - old(updated) <= 300000 ==>
                results == [old(dht)[id]] && contacted == [] && dht == old(dht) && updated == old(updated)
      ensures p2p && !(id in old(dht) && now - old(updated) <= 300000) ==>
                var own := if local.Some? then [local.value] else [];
                var asked := FirstFew(Without(providers, self));
                var found := FoundAmong(asked, contacts);
                && contacted == asked
                && results == NewestFirst(own + found)
                && dht == CachedAll(old(dht), own + found)
                && updated == if asked != [] && own + found != [] then finished else old(updated)
    {
      contacted := [];
      if !p2p {
        return if local.Some? then [local.value] else [], [];
      }
      var cached := HasCachedDDO(id, now);
      if cached {
        return [dht[id]], [];
      }
      var updatedCache := false;
      var resultList: seq<Found> := [];
      if local.Some? {
        Remember(local.value);
        resultList := [local.value];
        updatedCache := true;
        assert [local.value][..0] == [];
      }
      var filteredProviders := Without(providers, self);
      assert resultList + [] == resultList;
      if |filteredProviders| > 0 {
        var found: seq<Found>;
        contacted, found := Poll(filteredProviders, contacts);
        CachedAllConcat(old(dht), resultList, found);
        resultList := resultList + found;
        if updatedCache || found != [] {
          updated := finished;
        }
      }
      results := NewestFirst(resultList);
    }

    /** The sink, while the contacted peers' ids are on the stack: it pops one for an answer
        it can read. `ticks` is how much it adds to the count of processed peers. */
    method ReadAnswer(sink: Sink, providerIds: seq<string>)
      returns (rest: seq<string>, found: seq<Found>, ticks: nat)
      requires providerIds != []
      modifies this`dht
      ensures found == FoundAt(providerIds[|providerIds| - 1], Contact(sink, SentOk))
      ensures dht == CachedAll(old(dht), found)
      ensures sink != NotRun ==> ticks > 0
    {
      rest, found, ticks := providerIds, [], 0;
      match sink {
        case NotRun =>
        case BadStatus => ticks := 2;
        case Unreadable => ticks := 1;
        case Answered(ddoId, tx, time, verdict) =>
          var peer := providerIds[|providerIds| - 1];
          rest := providerIds[..|providerIds| - 1];
          if verdict == Legit {
            var ddoInfo := Found(ddoId, tx, time, peer);
            found := [ddoInfo];
            assert [ddoInfo][..0] == [];
            Remember(ddoInfo);
          }
          ticks := 1;
      }
    }

    /** One contact: push the peer, send with the sink, and pop it again if the send fails. */
    method ContactPeer(peer: string, contact: Contact, providerIds: seq<string>)
      returns (rest: seq<string>, found: seq<Found>, ticks: nat)
      requires contact.sent == SentOk ==> contact.sink != NotRun
      modifies this`dht
      ensures found == FoundAt(peer, contact)
      ensures dht == CachedAll(old(dht), found)
      ensures ticks > 0
    {
      rest, found, ticks := ReadAnswer(contact.sink, providerIds + [peer]);
      if contact.sent != SentOk {
        if |rest| > 0 {
          rest := rest[..|rest| - 1];
        }
        ticks := ticks + 1;
      }
    }

    /** One pass of the for loop. */
    method Pass(peers: seq<string>, contacts: nat -> Contact, toProcess: nat, doneLoop: nat, stack: seq<string>)
      returns (contacted: seq<string>, found: seq<Found>, processed: nat, providerIds: seq<string>)
      requires forall k :: contacts(k).sent == SentOk ==> contacts(k).sink != NotRun
      requires toProcess <= |peers| && doneLoop < toProcess
      modifies this`dht
      ensures contacted == peers[..toProcess]
      ensures found == FoundAmong(peers[..toProcess], contacts)
      ensures dht == CachedAll(old(dht), found)
      ensures processed >= toProcess
    {
      contacted, found, processed, providerIds := [], [], 0, stack;
      var i := 0;
      while i < toProcess && doneLoop < toProcess
        invariant 0 <= i <= toProcess && i <= processed
        invariant contacted == peers[..i]
        invariant found == FoundAmong(peers[..i], contacts)
        invariant dht == CachedAll(old(dht), found)
      {
        hide CachedAll, FoundAmong, FoundAt, Cached;
        OneMorePeer(peers, contacts, i);
        var rest, answer, ticks := ContactPeer(peers[i], contacts(i), providerIds);
        CachedAllConcat(old(dht), found, answer);
        contacted := contacted + [peers[i]];
        providerIds, found, processed := rest, found + answer, processed + ticks;
        i := i + 1;
      }
    }

    /** The do/while loop over the providers: it ends after one pass. */
    method Poll(peers: seq<string>, contacts: nat -> Contact)
      returns (contacted: seq<string>, found: seq<Found>)
      requires peers != []
      requires forall k :: contacts(k).sent == SentOk ==> contacts(k).sink != NotRun
      modifies this`dht
      ensures contacted == FirstFew(peers)
      ensures found == FoundAmong(FirstFew(peers), contacts)
      ensures dht == CachedAll(old(dht), found)
    {
      contacted, found := [], [];
      var providerIds: seq<string> := [];
      var processed := 0;
      var toProcess := if |peers| > MAX_NUM_PROVIDERS then MAX_NUM_PROVIDERS else |peers|;
      var doneLoop := 0;
      var again := true;
      assert peers[..toProcess] == FirstFew(peers) && 0 < toProcess <= |peers|;
      hide CachedAll, FoundAmong, FoundAt, Cached, FirstFew;
      while again
        invariant again ==> doneLoop == 0 && processed == 0 && contacted == [] && found == [] && dht == old(dht)
        invariant !again ==> contacted == FirstFew(peers) && found == FoundAmong(FirstFew(peers), contacts)
        invariant !again ==> dht == CachedAll(old(dht), found)
        decreases again
      {
        var asked, answers, ticks, rest := Pass(peers, contacts, toProcess, doneLoop, providerIds);
        assert contacted + asked == asked && found + answers == answers;
        contacted, found := contacted + asked, found + answers;
        processed, providerIds := processed + ticks, rest;
        doneLoop := doneLoop + 1;
        again := processed < toProcess;
      }
    }
  }

  lemma {:induction false} CachedAllConcat(dht: map<string, Found>, a: seq<Found>, b: seq<Found>)
    ensures CachedAll(dht, a + b) == CachedAll(CachedAll(dht, a), b)
    decreases |b|
  {
    if b == [] {
      assert a + b == a;
    } else {
      assert (a + b)[..|a + b| - 1] == a + b[..|b| - 1];
      CachedAllConcat(dht, a, b[..|b| - 1]);
    }
  }
}
