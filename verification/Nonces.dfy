/** The nonce of each consumer, and the check that uses each value once. */
module Nonces {
  import opened Options

  type Rows = map<string, int>

  datatype Request =
    | GetNonce(address: string, writeOk: bool)
      /** `signed` says whether the signature is the consumer's. */
    | CheckNonce(consumer: string, nonce: int, signed: bool, writeOk: bool)

  /** The stored nonce; a row that is not there reads as zero. */
  function Stored(rows: Rows, consumer: string): int {
    if consumer in rows then rows[consumer] else 0
  }

  predicate Accepts(rows: Rows, req: Request) {
    req.CheckNonce? && req.nonce > Stored(rows, req.consumer) && req.signed && req.writeOk
  }

  function Served(rows: Rows, req: Request): Rows {
    match req
    case GetNonce(address, writeOk) => if address !in rows && writeOk then rows[address := 0] else rows
    case CheckNonce(consumer, nonce, _, _) => if Accepts(rows, req) then rows[consumer := nonce] else rows
  }

  /** The table of nonces. */
  class NonceTable {
    var rows: Rows

    constructor ()
      ensures rows == map[]
    {
      rows := map[];
    }

    method Create(address: string, nonce: int)
      modifies this
      ensures rows == old(rows)[address := nonce]
    {
      rows := rows[address := nonce];
    }

    method Retrieve(address: string) returns (nonce: Option<int>)
      ensures nonce == Lookup(rows, address)
    {
      nonce := Lookup(rows, address);
    }

    method Delete(address: string) returns (nonce: Option<int>)
      modifies this
      ensures nonce == Lookup(old(rows), address)
      ensures rows == old(rows) - {address}
    {
      nonce := Lookup(rows, address);
      if nonce.Some? {
        rows := rows - {address};
      }
    }

    /** getNonce: the stored nonce, or a new row with zero. None is the error answer. */
    method GetNonce(address: string, writeOk: bool) returns (answer: Option<int>)
      modifies this
      ensures rows == Served(old(rows), Request.GetNonce(address, writeOk))
      ensures answer == if address in old(rows) || writeOk then Some(Stored(old(rows), address)) else None
    {
      var found := Retrieve(address);
      if found.Some? {
        return found;
      }
      if writeOk {
        Create(address, 0);
        return Some(0);
      }
      return None;
    }

    /** checkNonce, as one step. */
    method CheckNonce(consumer: string, nonce: int, signed: bool, writeOk: bool) returns (valid: bool)
      modifies this
      ensures rows == Served(old(rows), Request.CheckNonce(consumer, nonce, signed, writeOk))
      ensures valid == Accepts(old(rows), Request.CheckNonce(consumer, nonce, signed, writeOk))
    {
      var previousNonce := 0;
      var existing := Retrieve(consumer);
      if existing.Some? {
        previousNonce := existing.value;
      }
      if !(nonce > previousNonce && signed) {
        return false;
      }
      if writeOk {
        Create(consumer, nonce);
      }
      return writeOk;
    }
  }

  // ---------- runs ----------

  function After(rows: Rows, reqs: seq<Request>): Rows {
    if reqs == [] then rows else Served(After(rows, reqs[..|reqs| - 1]), reqs[|reqs| - 1])
  }

  /** The nonces a run accepts from a consumer, in order. */
  function Accepted(rows: Rows, reqs: seq<Request>, consumer: string): seq<int> {
    if reqs == [] then []
    else
      var front, req := reqs[..|reqs| - 1], reqs[|reqs| - 1];
      Accepted(rows, front, consumer)
      + if Accepts(After(rows, front), req) && req.consumer == consumer then [req.nonce] else []
  }

  predicate Increasing(s: seq<int>) {
    forall i, j :: 0 <= i < j < |s| ==> s[i] < s[j]
  }

  lemma AppendIncreasing(s: seq<int>, n: int)
    requires Increasing(s) && s != [] && s[|s| - 1] < n
    ensures Increasing(s + [n])
  {
    forall i | 0 <= i < |s| ensures s[i] < n {
      assert s[i] <= s[|s| - 1];
    }
  }

  /** A consumer's accepted nonces strictly increase from the stored one, and the stored
      one is always the last accepted: nothing else in the run moves it. */
  lemma {:induction false} NoncesIncrease(rows: Rows, reqs: seq<Request>, consumer: string)
    ensures var seen := [Stored(rows, consumer)] + Accepted(rows, reqs, consumer);
            Increasing(seen) && Stored(After(rows, reqs), consumer) == seen[|seen| - 1]
  {
    if reqs == [] {
    } else {
      var front, req := reqs[..|reqs| - 1], reqs[|reqs| - 1];
      NoncesIncrease(rows, front, consumer);
      var before := [Stored(rows, consumer)] + Accepted(rows, front, consumer);
      if Accepts(After(rows, front), req) && req.consumer == consumer {
        assert [Stored(rows, consumer)] + Accepted(rows, reqs, consumer) == before + [req.nonce];
        AppendIncreasing(before, req.nonce);
      } else {
        assert Accepted(rows, reqs, consumer) == Accepted(rows, front, consumer);
      }
    }
  }

  /** At any time, a request is accepted exactly when it is signed, its write succeeds, and
      its nonce exceeds the initial one and every nonce accepted before it. */
  lemma AcceptedIffNew(rows: Rows, reqs: seq<Request>, req: Request)
    requires req.CheckNonce?
    ensures Accepts(After(rows, reqs), req) <==>
              && req.signed && req.writeOk
              && req.nonce > Stored(rows, req.consumer)
              && forall n :: n in Accepted(rows, reqs, req.consumer) ==> req.nonce > n
  {
    NoncesIncrease(rows, reqs, req.consumer);
    var accepted := Accepted(rows, reqs, req.consumer);
    var seen := [Stored(rows, req.consumer)] + accepted;
    var last := seen[|seen| - 1];
    assert Stored(rows, req.consumer) == seen[0] <= last;
    forall n | n in accepted ensures n <= last {
      var i :| 0 <= i < |accepted| && accepted[i] == n;
      assert seen[i + 1] == n;
    }
    if accepted != [] {
      assert last == accepted[|accepted| - 1];
      assert last in accepted;
    } else {
      assert last == Stored(rows, req.consumer);
    }
  }

  /** Every nonce accepted from a consumer was asked for, signed and written, by a request
      of that consumer in the run. */
  lemma {:induction false} AcceptedWereSigned(rows: Rows, reqs: seq<Request>, consumer: string, n: int)
    requires n in Accepted(rows, reqs, consumer)
    ensures exists i :: 0 <= i < |reqs| && reqs[i] == CheckNonce(consumer, n, true, true)
  {
    var front, req := reqs[..|reqs| - 1], reqs[|reqs| - 1];
    if n in Accepted(rows, front, consumer) {
      AcceptedWereSigned(rows, front, consumer, n);
      var i :| 0 <= i < |front| && front[i] == CheckNonce(consumer, n, true, true);
      assert reqs[i] == front[i];
    } else {
      assert req == CheckNonce(consumer, n, true, true);
    }
  }

  /** What one request does to the table: an accepted one stores its nonce in the row of its
      consumer; one that is unsigned, stale, or whose write fails changes no row; reading
      adds a row with zero where there was none. */
  lemma RequestMeans(rows: Rows, req: Request)
    ensures req.CheckNonce? && req.signed && req.writeOk
            && req.nonce > (if req.consumer in rows then rows[req.consumer] else 0) ==>
              Served(rows, req) == rows[req.consumer := req.nonce]
    ensures req.CheckNonce? && !(req.signed && req.writeOk
                                 && req.nonce > (if req.consumer in rows then rows[req.consumer] else 0)) ==>
              Served(rows, req) == rows
    ensures req.GetNonce? ==>
              Served(rows, req) == if req.address in rows || !req.writeOk then rows else rows[req.address := 0]
  {
  }
}
