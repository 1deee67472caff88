/** The state machine over the block tree: pool transactions applied early, blocks played, undone and walked.
    What it should hold, whatever way it came, is the plain replay of the applied chain with the pool on top. */
module Machine {
  import opened Tree
  import opened Transactions
  import opened Effects
  import opened Utxo
  import opened Worth
  import opened Chain

  datatype Machine = Machine(cash: Cash, latest: Hash, pool: map<Hash, Tx>, irreversible: nat)

  ghost function PoolWeb(pool: map<Hash, Tx>): Web {
    map id | id in pool :: Pending(pool[id])
  }

  ghost predicate PoolTx(id: Hash, tx: Tx) {
    tx.txid == id && !tx.coinbase && DistinctInputs(tx) && Balanced(tx)
  }

  /** The cash is the web run on table t, and the cached balances agree with it. */
  ghost predicate Sound(t: Table, f: Web, c: Cash) {
    IsNet(t, f, c.table) && Coherent(c.table, c.balances)
  }

  /** The table is the replay of the applied chain with the pool on top, and the total is what the chain has issued. */
  ghost predicate Replayed(v: View, m: Machine) {
    && At(v, m.latest)
    && (forall x :: x in m.pool ==> PoolTx(x, m.pool[x]) && x !in PathTxids(v, m.latest))
    && IsNet(TableAt(v, m.latest), PoolWeb(m.pool), m.cash.table)
    && m.cash.total == TotalAt(v, m.latest)
  }

  /** Besides, every block of the chain is valid: it finds its inputs as it declares them; and the cached balances agree
      with the table. */
  ghost predicate Faithful(v: View, m: Machine) {
    Replayed(v, m) && ChainFits(v, m.latest) && Coherent(m.cash.table, m.cash.balances)
  }

  /** With an empty pool the table is the replay itself, so the branches visited on the way do not matter. */
  lemma ReplayAlone(v: View, m: Machine)
    requires Replayed(v, m) && m.pool == map[]
    ensures m.cash.table == TableAt(v, m.latest) && m.cash.total == TotalAt(v, m.latest)
  {
    assert PoolWeb(m.pool) == map[];
    EmptyNet(TableAt(v, m.latest));
    NetUnique(TableAt(v, m.latest), map[], m.cash.table, TableAt(v, m.latest));
  }

  lemma ReplayReplayed(v: View, m: Machine)
    requires At(v, m.latest) && m.pool == map[]
    requires m.cash.table == TableAt(v, m.latest) && m.cash.total == TotalAt(v, m.latest)
    ensures Replayed(v, m)
  {
    assert PoolWeb(m.pool) == map[];
    EmptyNet(TableAt(v, m.latest));
  }

  /** The cash without its cached balances, which say nothing about the table. */
  function Unbanked(c: Cash): Cash {
    c.(balances := map[])
  }

  lemma ReplayFaithful(v: View, m: Machine)
    requires At(v, m.latest) && ChainFits(v, m.latest) && m.pool == map[]
    requires m.cash.table == TableAt(v, m.latest) && m.cash.total == TotalAt(v, m.latest)
    requires Coherent(m.cash.table, m.cash.balances)
    ensures Faithful(v, m)
  {
    ReplayReplayed(v, m);
  }

  // ----- Single steps

  /** Do a transaction and leave its fees for later. */
  lemma DoStep(t: Table, f: Web, c: Cash, tx: Tx)
    requires Sound(t, f, c) && tx.txid !in f && DistinctInputs(tx)
    requires Within(Spent(tx), c.table) && Outs(tx).Keys !! t.Keys
    ensures Sound(t, f[tx.txid := Pending(tx)], DoTx(c, tx))
    ensures Outs(tx).Keys !! c.table.Keys
  {
    SettledTagged(tx, "");
    forall k | k in Outs(tx) ensures k !in c.table {
      assert NetAt(t, f, c.table, k);
    }
    AddEffect(t, f, c.table, tx.txid, Pending(tx));
    DoTxTable(c, tx, "");
    DoTxCoherent(c, tx);
  }

  /** Pay the fees of a transaction already done. */
  lemma PayStep(t: Table, f: Web, c: Cash, tx: Tx, proposer: Addr)
    requires Sound(t, f, c) && tx.txid in f && f[tx.txid] == Pending(tx) && Fees(tx, proposer).Keys !! t.Keys
    ensures Sound(t, f[tx.txid := Settled(tx, proposer)], PayFee(c, tx, proposer))
  {
    SettledTagged(tx, proposer);
    forall k | k in Fees(tx, proposer) ensures k !in c.table {
      assert NetAt(t, f, c.table, k);
    }
    SettleEffect(t, f, c.table, tx.txid, Fees(tx, proposer));
    DoTxTable(c, tx, proposer);
    PayFeeCoherent(c, tx, proposer);
  }

  /** Undo a pending transaction nobody in the web depends on. */
  lemma UndoStep(t: Table, f: Web, c: Cash, tx: Tx)
    requires Sound(t, f, c) && tx.txid in f && f[tx.txid] == Pending(tx) && DistinctInputs(tx) && Unused(f, tx.txid)
    ensures Sound(t, f - {tx.txid}, UndoTx(c, tx))
  {
    RemoveEffect(t, f, c.table, tx.txid);
    UndoTxTable(c, tx, "");
    assert Placed(t, f, tx.txid);
    forall k | k in Spent(tx) ensures k !in c.table {
      assert NetAt(t, f, c.table, k);
    }
    forall k | k in Outs(tx) ensures k in c.table && c.table[k] == Outs(tx)[k] {
      assert NetAt(t, f, c.table, k);
      UnusedIsUnspent(t, f, tx.txid, k);
    }
    UndoTxCoherent(c, tx);
  }

  // ----- Submitting

  ghost predicate CanSubmit(v: View, m: Machine, tx: Tx)
    requires At(v, m.latest)
  {
    && tx.txid !in m.pool && PoolTx(tx.txid, tx)
    && Within(Spent(tx), m.cash.table) && tx.txid !in PathTxids(v, m.latest)
  }

  function Submit(m: Machine, tx: Tx): Machine {
    m.(cash := DoTx(m.cash, tx), pool := m.pool[tx.txid := tx])
  }

  /** A transaction that is not of the chain makes no key the replayed table has. */
  lemma OutsAreNew(v: View, b: Hash, tx: Tx)
    requires At(v, b) && tx.txid !in PathTxids(v, b)
    ensures Outs(tx).Keys !! TableAt(v, b).Keys
  {
    SettledTagged(tx, "");
    forall k | k in Outs(tx) ensures k !in TableAt(v, b) {
      if k in TableAt(v, b) { TableTagged(v, b, k); }
    }
  }

  lemma {:induction false} SubmitNet(t: Table, pool: map<Hash, Tx>, c: Cash, tx: Tx)
    requires IsNet(t, PoolWeb(pool), c.table) && tx.txid !in pool && DistinctInputs(tx)
    requires Within(Spent(tx), c.table) && Outs(tx).Keys !! t.Keys
    ensures IsNet(t, PoolWeb(pool[tx.txid := tx]), DoTx(c, tx).table)
  {
    DoStep(t, PoolWeb(pool), Unbanked(c), tx);
    DoTxTable(c, tx, "");
    DoTxTable(Unbanked(c), tx, "");
    PoolWebMore(pool, tx);
  }

  lemma {:induction false} SubmitReplayed(v: View, m: Machine, tx: Tx)
    requires Replayed(v, m) && CanSubmit(v, m, tx)
    ensures Replayed(v, Submit(m, tx))
  {
    OutsAreNew(v, m.latest, tx);
    SubmitNet(TableAt(v, m.latest), m.pool, m.cash, tx);
    TxTotal(m.cash, tx, "");
  }

  lemma SubmitFaithful(v: View, m: Machine, tx: Tx)
    requires Faithful(v, m) && CanSubmit(v, m, tx)
    ensures Faithful(v, Submit(m, tx))
  {
    SubmitReplayed(v, m, tx);
    OutsAreNew(v, m.latest, tx);
    DoStep(TableAt(v, m.latest), PoolWeb(m.pool), m.cash, tx);
  }

  // ----- Rolling back the pool

  /** One of the transactions spends an output of the other. */
  ghost predicate DependsOn(tx: Tx, on: Tx) {
    exists k :: k in Spent(tx) && k in Outs(on)
  }

  /** The list holds exactly the pool, each transaction after those it depends on: nobody depends on the last,
      and the others are so ordered too. */
  ghost predicate DependencyOrder(pool: map<Hash, Tx>, order: seq<Tx>)
    decreases |order|
  {
    if order == [] then pool == map[] else
    var tx := order[|order| - 1];
    && tx.txid in pool && pool[tx.txid] == tx
    && (forall id :: id in pool && id != tx.txid ==> !DependsOn(pool[id], tx))
    && DependencyOrder(pool - {tx.txid}, order[..|order| - 1])
  }

  /** Undo the transactions of a list from the last to the first. */
  function UndoBack(c: Cash, order: seq<Tx>): Cash
    decreases |order|
  {
    if order == [] then c else UndoBack(UndoTx(c, order[|order| - 1]), order[..|order| - 1])
  }

  lemma {:induction false} UndoBackSound(t: Table, pool: map<Hash, Tx>, c: Cash, order: seq<Tx>)
    requires Sound(t, PoolWeb(pool), c) && DependencyOrder(pool, order)
    requires forall id :: id in pool ==> PoolTx(id, pool[id])
    ensures UndoBack(c, order).table == t && Coherent(UndoBack(c, order).table, UndoBack(c, order).balances)
    ensures UndoBack(c, order).total == c.total
    decreases |order|
  {
    if order == [] {
      assert PoolWeb(pool) == map[];
      EmptyNet(t);
      NetUnique(t, map[], c.table, t);
    } else {
      var n := |order| - 1;
      var tx := order[n];
      NobodyDepends(pool, tx);
      UndoStep(t, PoolWeb(pool), c, tx);
      PoolWebLess(pool, tx.txid);
      TxTotal(c, tx, "");
      UndoBackSound(t, pool - {tx.txid}, UndoTx(c, tx), order[..n]);
    }
  }

  lemma NobodyDepends(pool: map<Hash, Tx>, tx: Tx)
    requires tx.txid in pool && pool[tx.txid] == tx
    requires forall id :: id in pool && id != tx.txid ==> !DependsOn(pool[id], tx)
    ensures Unused(PoolWeb(pool), tx.txid)
  {
  }

  lemma PoolWebLess(pool: map<Hash, Tx>, id: Hash)
    ensures PoolWeb(pool) - {id} == PoolWeb(pool - {id})
  {
  }

  lemma PoolWebMore(pool: map<Hash, Tx>, tx: Tx)
    ensures PoolWeb(pool[tx.txid := tx]) == PoolWeb(pool)[tx.txid := Pending(tx)]
  {
  }

  function Rollback(m: Machine, order: seq<Tx>): Machine {
    m.(cash := UndoBack(m.cash, order), pool := map[])
  }

  /** Balances play no part in what becomes of table and total. */
  lemma {:induction false} UndoBackAlike(c: Cash, d: Cash, order: seq<Tx>)
    requires c.table == d.table && c.total == d.total
    ensures UndoBack(c, order).table == UndoBack(d, order).table && UndoBack(c, order).total == UndoBack(d, order).total
    decreases |order|
  {
    if order != [] {
      var n := |order| - 1;
      UndoTxTable(c, order[n], "");
      UndoTxTable(d, order[n], "");
      TxTotal(c, order[n], "");
      TxTotal(d, order[n], "");
      UndoBackAlike(UndoTx(c, order[n]), UndoTx(d, order[n]), order[..n]);
    }
  }

  /** Rolling back in any dependency order leaves exactly the replay of the applied chain. */
  lemma RollbackReplayed(v: View, m: Machine, order: seq<Tx>)
    requires Replayed(v, m) && DependencyOrder(m.pool, order)
    ensures Replayed(v, Rollback(m, order))
  {
    UndoBackSound(TableAt(v, m.latest), m.pool, Unbanked(m.cash), order);
    UndoBackAlike(Unbanked(m.cash), m.cash, order);
    ReplayReplayed(v, Rollback(m, order));
  }

  lemma RollbackFaithful(v: View, m: Machine, order: seq<Tx>)
    requires Faithful(v, m) && DependencyOrder(m.pool, order)
    ensures Faithful(v, Rollback(m, order))
  {
    UndoBackSound(TableAt(v, m.latest), m.pool, m.cash, order);
    ReplayFaithful(v, Rollback(m, order));
  }

  // ----- Undoing and redoing single blocks, with the pool rolled back

  function UndoBlock(m: Machine, blk: Blk, undone: set<Hash>): Machine {
    m.(cash := UndoTxs(m.cash, blk.txs, blk.proposer, undone), latest := blk.pre)
  }

  lemma {:induction false} UndoCoherent(c: Cash, t: Table, txs: seq<Tx>, proposer: Addr)
    requires BlockFits(t, txs, proposer) && c.table == BlockTable(t, txs, proposer) && Coherent(c.table, c.balances)
    ensures Coherent(UndoTxs(c, txs, proposer, {}).table, UndoTxs(c, txs, proposer, {}).balances)
    decreases |txs|
  {
    if txs != [] {
      var n := |txs| - 1;
      var tx, before := txs[n], BlockTable(t, txs[..n], proposer);
      NewBefore(t, txs[..n], proposer, tx);
      SettledTagged(tx, proposer);
      UndoTxCoherent(c, tx);
      UndoTxTable(c, tx, proposer);
      UndoFeeCoherent(UndoTx(c, tx), tx, proposer);
      RevertApply(before, Settled(tx, proposer));
      UndoCoherent(UndoFee(UndoTx(c, tx), tx, proposer), t, txs[..n], proposer);
    }
  }

  /** Undoing the applied block leaves a valid machine valid. */
  lemma UndoBlockValid(v: View, m: Machine)
    requires Faithful(v, m) && m.pool == map[] && m.latest != Empty
    ensures Faithful(v, UndoBlock(m, v[m.latest], {}))
  {
    var blk := v[m.latest];
    ParentAt(v, m.latest);
    ReplayAlone(v, m);
    var t := TableAt(v, blk.pre);
    UndoInvertsPlay(m.cash, t, blk.txs, blk.proposer);
    UndoCoherent(m.cash, t, blk.txs, blk.proposer);
    ReplayFaithful(v, UndoBlock(m, blk, {}));
  }

  function DoBlock(m: Machine, id: Hash, blk: Blk, irreversible: nat): Machine {
    m.(cash := PlayTxs(m.cash, blk.txs, blk.proposer, {}), latest := id, irreversible := irreversible)
  }

  lemma {:induction false} PlayCoherent(c: Cash, txs: seq<Tx>, proposer: Addr)
    requires BlockFits(c.table, txs, proposer) && Coherent(c.table, c.balances)
    ensures Coherent(PlayTxs(c, txs, proposer, {}).table, PlayTxs(c, txs, proposer, {}).balances)
  {
    if txs != [] {
      var n := |txs| - 1;
      var tx, d := txs[n], PlayTxs(c, txs[..n], proposer, {});
      PlayCoherent(c, txs[..n], proposer);
      PlayTable(c, txs[..n], proposer);
      NewBefore(c.table, txs[..n], proposer, tx);
      SettledTagged(tx, proposer);
      DoTxCoherent(d, tx);
      DoTxTable(d, tx, proposer);
      PayFeeCoherent(DoTx(d, tx), tx, proposer);
    }
  }

  /** Doing a child block leaves a valid machine valid exactly when the block is valid on its parent. */
  lemma {:induction false} DoValidIff(v: View, m: Machine, id: Hash, irreversible: nat)
    requires Faithful(v, m) && m.pool == map[] && id in v && v[id].pre == m.latest
    ensures Faithful(v, DoBlock(m, id, v[id], irreversible)) <==>
            BlockFits(TableAt(v, m.latest), v[id].txs, v[id].proposer)
  {
    ParentAt(v, id);
    if BlockFits(TableAt(v, m.latest), v[id].txs, v[id].proposer) {
      ReplayAlone(v, m);
      PlayTable(m.cash, v[id].txs, v[id].proposer);
      PlayCoherent(m.cash, v[id].txs, v[id].proposer);
      ReplayFaithful(v, DoBlock(m, id, v[id], irreversible));
    }
  }
}
