/** Choosing the database node for a request, and retrying on the next one. */
module TypesenseApis {
  /** How one attempt ends: a status below 300, one below 500, or anything that is
      retried (a status of 500 or more, or no response). */
  datatype Reply = Success | ClientError | Retryable

  datatype Answer = Resolved | RejectedBy(reply: Reply)

  /** The index after one call of getNextNode. A single node leaves it alone. */
  function NextIndex(index: int, nodes: nat): int
    requires nodes > 0
  {
    if nodes == 1 then index else (index + 1) % nodes
  }

  function NodeFor(index: int, nodes: nat): (node: nat)
    requires nodes > 0 && -1 <= index < nodes
    ensures node < nodes
  {
    if nodes == 1 then 0 else NextIndex(index, nodes)
  }

  function IndexAfter(index: int, nodes: nat, calls: nat): (after: int)
    requires nodes > 0 && -1 <= index < nodes
    ensures -1 <= after < nodes
  {
    if calls == 0 then index else NextIndex(IndexAfter(index, nodes, calls - 1), nodes)
  }

  /** The nodes that `calls` calls return, in order. */
  function Returned(index: int, nodes: nat, calls: nat): (r: seq<nat>)
    requires nodes > 0 && -1 <= index < nodes
    ensures |r| == calls
  {
    if calls == 0 then []
    else Returned(index, nodes, calls - 1) + [NodeFor(IndexAfter(index, nodes, calls - 1), nodes)]
  }

  class TypesenseApi {
    const nodes: nat
    const numRetries: nat
    var currentNodeIndex: int

    ghost predicate Valid()
      reads this
    {
      nodes > 0 && -1 <= currentNodeIndex < nodes
    }

    constructor (nodes: nat, numRetries: nat)
      requires nodes > 0
      ensures Valid() && this.nodes == nodes && this.numRetries == numRetries && currentNodeIndex == -1
    {
      this.nodes, this.numRetries, this.currentNodeIndex := nodes, numRetries, -1;
    }

    method GetNextNode() returns (node: nat)
      requires Valid()
      modifies this
      ensures Valid()
      ensures node == NodeFor(old(currentNodeIndex), nodes) && node < nodes
      ensures currentNodeIndex == NextIndex(old(currentNodeIndex), nodes)
    {
      node := 0;
      if nodes == 1 {
        return;
      }
      currentNodeIndex := (currentNodeIndex + 1) % nodes;
      node := currentNodeIndex;
    }

    /** `replies(k)` is what attempt k meets. `visited` are the nodes tried, in order. */
    method Request(replies: nat -> Reply) returns (answer: Answer, visited: seq<nat>)
      requires Valid()
      modifies this
      ensures Valid()
      ensures 0 < |visited| <= numRetries + 1
      ensures visited == Returned(old(currentNodeIndex), nodes, |visited|)
      ensures forall k: nat :: k < |visited| - 1 ==> replies(k) == Retryable
      ensures |visited| <= numRetries ==> replies(|visited| - 1) != Retryable
      ensures answer == if replies(|visited| - 1) == Success then Resolved else RejectedBy(replies(|visited| - 1))
    {
      visited := [];
      var lastReply := Retryable;
      var numTries := 1;
      while numTries <= numRetries + 1
        invariant 1 <= numTries <= numRetries + 2
        invariant |visited| == numTries - 1
        invariant Valid() && currentNodeIndex == IndexAfter(old(currentNodeIndex), nodes, numTries - 1)
        invariant visited == Returned(old(currentNodeIndex), nodes, numTries - 1)
        invariant forall k: nat :: k < |visited| ==> replies(k) == Retryable
        invariant visited != [] ==> lastReply == replies(|visited| - 1)
      {
        var node := GetNextNode();
        visited := visited + [node];
        var reply := replies(numTries - 1);
        if reply == Success {
          return Resolved, visited;
        } else if reply == ClientError {
          return RejectedBy(reply), visited;
        }
        lastReply := reply;
        numTries := numTries + 1;
      }
      return RejectedBy(lastReply), visited;
    }
  }

  // ---------- fairness ----------

  /** With a single node every call returns it, and the index stays. */
  lemma {:induction false} SingleNode(index: int, calls: nat)
    requires -1 <= index < 1
    ensures IndexAfter(index, 1, calls) == index
    ensures forall k :: 0 <= k < calls ==> Returned(index, 1, calls)[k] == 0
  {
    if calls == 0 {
    } else {
      SingleNode(index, calls - 1);
    }
  }

  function CountOf(s: seq<nat>, node: nat): nat {
    if s == [] then 0 else CountOf(s[..|s| - 1], node) + if s[|s| - 1] == node then 1 else 0
  }

  /** The node after another, cyclically. */
  function After(node: int, nodes: nat): int {
    if node + 1 == nodes then 0 else node + 1
  }

  /** How many nodes after the first one a node comes. */
  function Offset(index: int, nodes: nat, node: nat): int {
    var first := After(index, nodes);
    if node >= first then node - first else node - first + nodes
  }

  lemma NextIsAfter(index: int, nodes: nat)
    requires nodes > 1 && -1 <= index < nodes
    ensures NextIndex(index, nodes) == NodeFor(index, nodes) == After(index, nodes)
  {
  }

  /** Consecutive calls go round the nodes: with q whole laps and r more calls behind,
      the next call returns the r-th node after the first. */
  lemma {:induction false} CallsGoRound(index: int, nodes: nat, calls: nat, laps: nat, more: nat)
    requires nodes > 1 && -1 <= index < nodes
    requires calls == nodes * laps + more && more < nodes
    ensures Offset(index, nodes, NodeFor(IndexAfter(index, nodes, calls), nodes)) == more
    ensures calls > 0 ==> 0 <= IndexAfter(index, nodes, calls)
  {
    NextIsAfter(IndexAfter(index, nodes, calls), nodes);
    if calls > 0 {
      NextIsAfter(IndexAfter(index, nodes, calls - 1), nodes);
      var l, m := CallBefore(calls, nodes, laps, more);
      CallsGoRound(index, nodes, calls - 1, l, m);
    } else {
      NoCalls(nodes, laps, more);
    }
  }

  lemma NoCalls(nodes: nat, laps: nat, more: nat)
    requires nodes > 0 && nodes * laps + more == 0
    ensures laps == 0 && more == 0
  {
    if laps > 0 {
      Product(nodes, laps - 1);
    }
  }

  lemma Product(n: nat, k: nat)
    ensures n * (k + 1) == n * k + n >= n
  {
  }

  /** Laps and remainder one call earlier. */
  lemma CallBefore(calls: nat, nodes: nat, laps: nat, more: nat) returns (l: nat, m: nat)
    requires calls > 0 && nodes > 1 && calls == nodes * laps + more && more < nodes
    ensures calls - 1 == nodes * l + m && m < nodes
    ensures if more > 0 then l == laps && m == more - 1 else l == laps - 1 && m == nodes - 1
  {
    if more > 0 {
      l, m := laps, more - 1;
    } else {
      assert laps != 0;
      Product(nodes, laps - 1);
      l, m := laps - 1, nodes - 1;
    }
  }

  /** Round robin is fair: after q laps and r more calls, from any index, every node was
      returned q times, and the first r of them once more. */
  lemma {:induction false} RoundRobinIsFair(index: int, nodes: nat, calls: nat, laps: nat, more: nat, node: nat)
    requires nodes > 1 && -1 <= index < nodes && node < nodes
    requires calls == nodes * laps + more && more < nodes
    ensures CountOf(Returned(index, nodes, calls), node)
         == laps + if Offset(index, nodes, node) < more then 1 else 0
  {
    if calls > 0 {
      var r := Returned(index, nodes, calls);
      assert r[..|r| - 1] == Returned(index, nodes, calls - 1);
      var l, m := CallBefore(calls, nodes, laps, more);
      RoundRobinIsFair(index, nodes, calls - 1, l, m, node);
      CallsGoRound(index, nodes, calls - 1, l, m);
      assert r[|r| - 1] == node <==> Offset(index, nodes, node) == m;
    } else {
      NoCalls(nodes, laps, more);
    }
  }

  /** The attempts of a request that always meets retryable replies: one per try, on
      consecutive nodes. */
  lemma {:induction false} VisitedAreConsecutive(index: int, nodes: nat, calls: nat)
    requires nodes > 1 && -1 <= index < nodes
    ensures var r := Returned(index, nodes, calls);
            && (calls > 0 ==> r[0] == After(index, nodes))
            && (forall k :: 0 < k < calls ==> r[k] == After(r[k - 1], nodes))
            && (calls > 0 ==> IndexAfter(index, nodes, calls) == r[calls - 1])
  {
    if calls == 0 {
    } else {
      VisitedAreConsecutive(index, nodes, calls - 1);
      NextIsAfter(IndexAfter(index, nodes, calls - 1), nodes);
    }
  }
}
