/**
 * Admission: each coordinator counts its live MSETs and never exceeds its limit; requests over
 * the limit wait, and the identities of one connection grow with dispatch order.
 */
module MsetAdmission {
  import opened Txn
  import opened MsetCore
  import opened MsetEngine
  import opened MsetFin

  type Msets = map<TxnId, Mset>

  /** MSETs coordinated by `c` that have not been answered. */
  ghost function Live(msets: Msets, ledger: Ledgers, c: nat): set<TxnId> {
    set t | t in msets && t in ledger && msets[t].coord == c && ledger[t].oks == 0
  }

  ghost predicate InflightExact(cfg: Config, msets: Msets, ledger: Ledgers, inflight: seq<nat>) {
    && |inflight| == cfg.shards
    && (forall c :: 0 <= c < cfg.shards ==> inflight[c] == |Live(msets, ledger, c)| && inflight[c] <= cfg.limit)
  }

  ghost predicate Identities(cfg: Config, home: nat -> nat, msets: Msets, clock: nat) {
    && (forall t :: t in msets ==>
          msets[t].coord == home(t.conn) && msets[t].coord < cfg.shards && t.timestamp <= clock && |msets[t].pairs| > 0)
    && (forall t, u :: t in msets && u in msets && t.conn == u.conn && msets[u].no < msets[t].no ==> Older(u, t))
  }

  ghost predicate WaitingSound(cfg: Config, home: nat -> nat, msets: Msets, waiting: seq<seq<Request>>) {
    && |waiting| == cfg.shards
    && (forall c, j :: 0 <= c < cfg.shards && 0 <= j < |waiting[c]| ==>
          && home(waiting[c][j].conn) == c && |waiting[c][j].pairs| > 0
          && (forall u :: u in msets && u.conn == waiting[c][j].conn ==> u.pipeline < waiting[c][j].pipeline))
    && (forall c, i, j :: 0 <= c < cfg.shards && 0 <= i < j < |waiting[c]| ==> waiting[c][i].conn != waiting[c][j].conn)
  }

  ghost predicate AdmInv(cfg: Config, home: nat -> nat, msets: Msets, ledger: Ledgers, inflight: seq<nat>,
                         waiting: seq<seq<Request>>, clock: nat) {
    && InflightExact(cfg, msets, ledger, inflight)
    && Identities(cfg, home, msets, clock)
    && WaitingSound(cfg, home, msets, waiting)
  }

  /** Counters change, nothing else. */
  ghost predicate SameIdentity(msets: Msets, msets': Msets) {
    && msets'.Keys == msets.Keys
    && (forall t :: t in msets ==>
          msets'[t].no == msets[t].no && msets'[t].coord == msets[t].coord && msets'[t].pairs == msets[t].pairs)
  }

  lemma AdmSame(cfg: Config, home: nat -> nat, msets: Msets, msets': Msets, ledger: Ledgers, ledger': Ledgers,
                inflight: seq<nat>, waiting: seq<seq<Request>>, clock: nat)
    requires AdmInv(cfg, home, msets, ledger, inflight, waiting, clock) && SameIdentity(msets, msets')
    requires ledger'.Keys == ledger.Keys && forall t :: t in ledger ==> ledger'[t].oks == ledger[t].oks
    ensures AdmInv(cfg, home, msets', ledger', inflight, waiting, clock)
  {
    forall c: nat ensures Live(msets', ledger', c) == Live(msets, ledger, c) {}
  }

  lemma AdmReply(cfg: Config, home: nat -> nat, msets: Msets, ledger: Ledgers, inflight: seq<nat>,
                 waiting: seq<seq<Request>>, clock: nat, t: TxnId)
    requires AdmInv(cfg, home, msets, ledger, inflight, waiting, clock)
    requires t in msets && t in ledger && ledger[t].oks == 0
    ensures var c := msets[t].coord;
      && c < |inflight| && inflight[c] > 0
      && AdmInv(cfg, home, msets, ledger[t := ledger[t].(oks := 1)], inflight[c := inflight[c] - 1], waiting, clock)
  {
    var c := msets[t].coord;
    var ledger' := ledger[t := ledger[t].(oks := 1)];
    assert t in Live(msets, ledger, c);
    assert Live(msets, ledger', c) == Live(msets, ledger, c) - {t};
    forall d: nat | d != c ensures Live(msets, ledger', d) == Live(msets, ledger, d) {}
  }

  lemma AdmBegin(cfg: Config, home: nat -> nat, msets: Msets, ledger: Ledgers, inflight: seq<nat>,
                 waiting: seq<seq<Request>>, clock: nat, c: nat, req: Request, ts: nat, m: Mset)
    requires AdmInv(cfg, home, msets, ledger, inflight, waiting, clock)
    requires c < cfg.shards && inflight[c] < cfg.limit && clock <= ts
    requires home(req.conn) == c && |req.pairs| > 0
    requires forall u :: u in msets && u.conn == req.conn ==> u.pipeline < req.pipeline
    requires forall q :: q in waiting[c] ==> q.conn != req.conn
    requires m.no == |msets| && m.coord == c && m.pairs == req.pairs
             && (forall u :: u in msets ==> msets[u].no < |msets|)
    ensures var t := TxnId(ts, req.conn, req.pipeline);
      t !in msets
      && AdmInv(cfg, home, msets[t := m], ledger[t := Ledger(0, 0)], inflight[c := inflight[c] + 1], waiting, ts)
  {
    var t := TxnId(ts, req.conn, req.pipeline);
    assert t !in msets;
    BeginInflight(cfg, msets, ledger, inflight, c, t, m);
    BeginIdentities(cfg, home, msets, clock, t, m);
    BeginWaiting(cfg, home, msets, waiting, c, req, t, m);
  }

  lemma BeginInflight(cfg: Config, msets: Msets, ledger: Ledgers, inflight: seq<nat>, c: nat, t: TxnId, m: Mset)
    requires InflightExact(cfg, msets, ledger, inflight) && c < cfg.shards && inflight[c] < cfg.limit
    requires t !in msets && m.coord == c
    ensures InflightExact(cfg, msets[t := m], ledger[t := Ledger(0, 0)], inflight[c := inflight[c] + 1])
  {
    var msets' := msets[t := m];
    var ledger' := ledger[t := Ledger(0, 0)];
    assert Live(msets', ledger', c) == Live(msets, ledger, c) + {t};
    forall d: nat | d != c ensures Live(msets', ledger', d) == Live(msets, ledger, d) {}
  }

  lemma BeginIdentities(cfg: Config, home: nat -> nat, msets: Msets, clock: nat, t: TxnId, m: Mset)
    requires Identities(cfg, home, msets, clock) && clock <= t.timestamp && t !in msets
    requires m.coord == home(t.conn) && m.coord < cfg.shards && |m.pairs| > 0
    requires forall u :: u in msets && u.conn == t.conn ==> u.pipeline < t.pipeline
    requires m.no == |msets| && (forall u :: u in msets ==> msets[u].no < |msets|)
    ensures Identities(cfg, home, msets[t := m], t.timestamp)
  {
  }

  lemma BeginWaiting(cfg: Config, home: nat -> nat, msets: Msets, waiting: seq<seq<Request>>, c: nat, req: Request,
                     t: TxnId, m: Mset)
    requires WaitingSound(cfg, home, msets, waiting) && c < cfg.shards && home(req.conn) == c && t.conn == req.conn
    requires forall q :: q in waiting[c] ==> q.conn != req.conn
    ensures WaitingSound(cfg, home, msets[t := m], waiting)
  {
    forall d, j | 0 <= d < cfg.shards && 0 <= j < |waiting[d]|
      ensures forall u :: u in msets[t := m] && u.conn == waiting[d][j].conn ==> u.pipeline < waiting[d][j].pipeline
    {
      assert waiting[d][j] in waiting[d];
      assert waiting[d][j].conn != req.conn;
    }
  }

  lemma AdmPark(cfg: Config, home: nat -> nat, msets: Msets, waiting: seq<seq<Request>>, c: nat, req: Request)
    requires WaitingSound(cfg, home, msets, waiting) && c < cfg.shards && home(req.conn) == c && |req.pairs| > 0
    requires forall u :: u in msets && u.conn == req.conn ==> u.pipeline < req.pipeline
    requires forall q :: q in waiting[c] ==> q.conn != req.conn
    ensures WaitingSound(cfg, home, msets, waiting[c := waiting[c] + [req]])
  {
    var waiting': seq<seq<Request>> := waiting[c := waiting[c] + [req]];
    forall d, i, j | 0 <= d < cfg.shards && 0 <= i < j < |waiting'[d]|
      ensures waiting'[d][i].conn != waiting'[d][j].conn
    {
      if d == c {
        assert waiting'[c][i] == waiting[c][i] && waiting[c][i] in waiting[c];
      }
    }
  }

  /** The first waiting request is admissible once it has left the queue. */
  lemma AdmResume(cfg: Config, home: nat -> nat, msets: Msets, waiting: seq<seq<Request>>, c: nat)
    requires WaitingSound(cfg, home, msets, waiting) && c < cfg.shards && waiting[c] != []
    ensures var waiting' := waiting[c := waiting[c][1..]]; var req := waiting[c][0];
      && WaitingSound(cfg, home, msets, waiting')
      && home(req.conn) == c && |req.pairs| > 0
      && (forall u :: u in msets && u.conn == req.conn ==> u.pipeline < req.pipeline)
      && (forall q :: q in waiting'[c] ==> q.conn != req.conn)
  {
    var waiting' := waiting[c := waiting[c][1..]];
    assert forall j :: 0 <= j < |waiting'[c]| ==> waiting'[c][j] == waiting[c][j + 1];
  }
}
