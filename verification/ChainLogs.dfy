/** The chain's logs by block, and the logs of a window of blocks. */
module ChainLogs {
  import Processors

  /** The logs of each block, oldest first. */
  type Chain = int -> seq<Processors.Log>

  /** What getLogs answers for fromBlock = `lo` + 1 and toBlock = `hi`. */
  function LogsBetween(chain: Chain, lo: int, hi: int): seq<Processors.Log>
    decreases hi - lo
  {
    if hi <= lo then [] else LogsBetween(chain, lo, hi - 1) + chain(hi)
  }

  /** Two windows that meet hold the logs of the window that spans both. */
  lemma {:induction false} LogsOfAdjacentWindows(chain: Chain, lo: int, mid: int, hi: int)
    requires lo <= mid <= hi
    ensures LogsBetween(chain, lo, hi) == LogsBetween(chain, lo, mid) + LogsBetween(chain, mid, hi)
    decreases hi - mid
  {
    if mid == hi {
      assert LogsBetween(chain, hi, hi) == [];
    } else {
      LogsOfAdjacentWindows(chain, lo, mid, hi - 1);
    }
  }
}
