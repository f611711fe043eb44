/** Transaction identities with the priority order used by wound-wait. */
module Txn {

  /** `conn` stands for the address of the client connection that issued the MSET. */
  datatype TxnId = TxnId(timestamp: nat, conn: nat, pipeline: nat)

  /** Three-way comparison: time stamp first, then pipeline slot, then connection. */
  function Compare(a: TxnId, b: TxnId): (r: int)
    ensures r == 0 <==> a == b
  {
    if a.timestamp != b.timestamp then (if a.timestamp < b.timestamp then -1 else 1)
    else if a.pipeline != b.pipeline then (if a.pipeline < b.pipeline then -1 else 1)
    else if a.conn != b.conn then (if a.conn < b.conn then -1 else 1)
    else 0
  }

  /** `a` has priority over `b`. */
  predicate Older(a: TxnId, b: TxnId) {
    Compare(a, b) < 0
  }

  /** The comparison is a strict total order, so every non-empty set has an oldest member. */
  lemma OlderIsStrictTotalOrder(a: TxnId, b: TxnId, c: TxnId)
    ensures !Older(a, a)
    ensures Older(a, b) ==> !Older(b, a)
    ensures Older(a, b) && Older(b, c) ==> Older(a, c)
    ensures a == b || Older(a, b) || Older(b, a)
    ensures Compare(a, b) == -Compare(b, a)
  {
  }

  /** An earlier time stamp has priority; so has, at the same time, an earlier slot, and then a lower connection. */
  lemma OlderMeans(a: TxnId, b: TxnId)
    ensures a.timestamp < b.timestamp ==> Older(a, b)
    ensures a.timestamp == b.timestamp && a.pipeline < b.pipeline ==> Older(a, b)
    ensures a.timestamp == b.timestamp && a.pipeline == b.pipeline ==> (Older(a, b) <==> a.conn < b.conn)
    ensures Older(a, b) ==> a.timestamp <= b.timestamp
  {
  }

  lemma {:induction false} OldestExists(ts: set<TxnId>) returns (oldest: TxnId)
    requires ts != {}
    ensures oldest in ts
    ensures forall t :: t in ts && t != oldest ==> Older(oldest, t)
    decreases ts
  {
    var pick :| pick in ts;
    if ts == {pick} {
      oldest := pick;
    } else {
      var rest := OldestExists(ts - {pick});
      oldest := if Older(pick, rest) then pick else rest;
      forall t | t in ts && t != oldest ensures Older(oldest, t) {
        OlderIsStrictTotalOrder(pick, rest, t);
        OlderIsStrictTotalOrder(rest, pick, t);
      }
    }
  }
}
