/** The development node a tracker follows, seen through everything its chain has been.

    A chain lists block hashes by block number.  Between two observations the node may drop any
    suffix (a revert, a snapshot restore, a restart) or mine one block whose hash it has never
    used before. */
module NodeHistory {
  type Hash = nat
  type Chain = seq<Hash>

  datatype Header = Header(hash: Hash, number: nat)

  /** The block of header `h` is the node's block at that height. */
  predicate OnChain(chain: Chain, h: Header) {
    h.number < |chain| && chain[h.number] == h.hash
  }

  ghost predicate Distinct(chain: Chain) {
    forall i, j :: 0 <= i < j < |chain| ==> chain[i] != chain[j]
  }

  /** State `k` of the history extends the one before it by a block with a never used hash. */
  ghost predicate Mines(history: seq<Chain>, k: nat)
    requires 0 < k < |history|
  {
    && |history[k]| == |history[k - 1]| + 1
    && history[k - 1] <= history[k]
    && forall j :: 0 <= j < k ==> history[k][|history[k - 1]|] !in history[j]
  }

  ghost predicate Possible(history: seq<Chain>) {
    && history != []
    && Distinct(history[0])
    && forall k :: 0 < k < |history| ==> history[k] <= history[k - 1] || Mines(history, k)
  }

  lemma {:induction false} ChainsAreDistinct(history: seq<Chain>, k: nat)
    requires Possible(history) && k < |history|
    ensures Distinct(history[k])
  {
    if k > 0 {
      ChainsAreDistinct(history, k - 1);
    }
  }

  /** A block seen on the chain at two moments was there all the time in between, and nothing at
      or below it changed: removed blocks never come back, and a revert removes a suffix. */
  lemma {:induction false} BlockPersists(history: seq<Chain>, i: nat, k: nat, h: Header)
    requires Possible(history) && i <= k < |history|
    requires OnChain(history[i], h) && h.hash in history[k]
    ensures OnChain(history[k], h)
    ensures history[k][..h.number + 1] == history[i][..h.number + 1]
    ensures forall j :: i <= j <= k ==> OnChain(history[j], h)
    decreases k
  {
    ChainsAreDistinct(history, k);
    if i < k {
      ChainsAreDistinct(history, k - 1);
      if history[k] <= history[k - 1] {
        assert h.hash in history[k - 1];
      }
      BlockPersists(history, i, k - 1, h);
      var m :| 0 <= m < |history[k]| && history[k][m] == h.hash;
    } else {
      var m :| 0 <= m < |history[k]| && history[k][m] == h.hash;
    }
  }
}
