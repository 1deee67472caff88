/** The state machine itself: fields updated in place, table writes collected in a batch and stored at the end. */
module State {
  import opened Tree
  import opened Transactions
  import opened Effects
  import opened Utxo
  import opened Worth
  import opened Chain
  import opened Machine
  import opened Play
  import opened Walk
  import opened Runs
  import opened Check
  import opened Checked
  import opened Passing
  import Mempool
  import opened LedgerSpec
  import opened LedgerView
  import opened StateSteps
  import Ledger

  class State {
    var table: Table
    var total: int
    var balances: map<Addr, int>
    var hot: Table
    var latest: Hash
    var pool: map<Hash, Tx>
    var irreversible: nat
    var window: int
    const ledger: Ledger.Ledger

    constructor (ledger: Ledger.Ledger, window: int)
      ensures Now() == Machine(Cash(map[], 0, map[]), Empty, map[], 0) && hot == map[]
      ensures this.ledger == ledger && this.window == window
    {
      table, total, balances, hot, latest, pool, irreversible := map[], 0, map[], map[], Empty, map[], 0;
      this.ledger, this.window := ledger, window;
    }

    function Now(): Machine
      reads this
    {
      Machine(Cash(table, total, balances), latest, pool, irreversible)
    }

    /** What a failure leaves as it was, while total and cached balances may drift. */
    function Stored(): Disk
      reads this
    {
      OnDisk(Now())
    }

    function View(): View
      requires BodiesStored(ledger.db)
      reads this, ledger
    {
      ViewOf(ledger.db)
    }

    /** The slide window, where a negative one lets nothing through anyway. */
    function Slide(): nat
      reads this
    {
      if window < 0 then 0 else window
    }

    // ----- Single transactions

    /** The cache of recent entries may drop any of them at any time. */
    method Evict()
      modifies this`hot
      ensures Within(hot, old(hot))
    {
      var gone: set<Key> := *;
      hot := hot - gone;
    }

    method SpendInputs(tx: Tx, batch: Batch) returns (after: Batch)
      modifies this`balances, this`hot
      ensures Cash(after.table, total, balances) == DoInputs(Cash(batch.table, total, old(balances)), tx, |tx.inputs|)
      ensures old(Within(hot, batch.table)) ==> Within(hot, after.table)
      ensures after.made == batch.made - Spent(tx).Keys
    {
      after := batch;
      for n := 0 to |tx.inputs|
        invariant Cash(after.table, total, balances) == DoInputs(Cash(batch.table, total, old(balances)), tx, n)
        invariant old(Within(hot, batch.table)) ==> Within(hot, after.table)
        invariant after.made == batch.made - SpentTo(tx, n).Keys
      {
        var i := tx.inputs[n];
        after := Batch(after.table - {KeyOf(i)}, after.made - {KeyOf(i)});
        hot := hot - {KeyOf(i)};
        balances := Debit(balances, i.addr, i.amount);
      }
    }

    method MakeOutputs(tx: Tx, batch: Batch) returns (after: Batch)
      modifies this`total, this`balances, this`hot
      ensures Cash(after.table, total, balances) ==
              DoOutputs(Cash(batch.table, old(total), old(balances)), tx, |tx.outputs|)
      ensures old(Within(hot, batch.table)) ==> Within(hot, after.table)
      ensures after.made == batch.made + Outs(tx)
    {
      after := batch;
      for n := 0 to |tx.outputs|
        invariant Cash(after.table, total, balances) == DoOutputs(Cash(batch.table, old(total), old(balances)), tx, n)
        invariant old(Within(hot, batch.table)) ==> Within(hot, after.table)
        invariant after.made == batch.made + OutsTo(tx, n)
      {
        var o := tx.outputs[n];
        if o.addr == FEE_PLACEHOLDER || o.amount == 0 { continue; }
        var k, item := Key(o.addr, tx.txid, n), Item(o.amount, o.frozen);
        after := Batch(after.table[k := item], after.made[k := item]);
        hot := hot[k := item];
        balances := Credit(balances, o.addr, o.amount);
        if tx.coinbase {
          total := total + o.amount;
        }
      }
    }

    method DoTxInternal(tx: Tx, batch: Batch) returns (verdict: Verdict, after: Batch)
      modifies this`total, this`balances, this`hot
      ensures verdict == TxVerdict(Sight(old(hot), batch.made, table), tx, ledger.db.meta.trunkHeight)
      ensures verdict == Passed ==>
                Cash(after.table, total, balances) == Utxo.DoTx(Cash(batch.table, old(total), old(balances)), tx)
      ensures verdict != Passed ==>
              after == batch && total == old(total) && balances == old(balances) && hot == old(hot)
      ensures old(Within(hot, batch.table)) ==> Within(hot, after.table)
      ensures verdict == Passed ==> after.made == Apply(batch.made, Pending(tx))
    {
      after := batch;
      verdict := CheckInputEqualOutput(Sight(hot, batch.made, table), tx, ledger.db.meta.trunkHeight);
      if verdict != Passed { return; }
      after := SpendInputs(tx, after);
      after := MakeOutputs(tx, after);
      Evict();
    }

    method UndoTxInternal(tx: Tx, batch: Table) returns (after: Table)
      modifies this`total, this`balances, this`hot
      ensures Cash(after, total, balances) == UndoTx(Cash(batch, old(total), old(balances)), tx)
      ensures old(Within(hot, batch)) ==> Within(hot, after)
    {
      after := batch;
      ghost var c := Cash(batch, total, balances);
      for n := 0 to |tx.inputs|
        invariant total == old(total) && Cash(after, total, balances) == UndoInputs(c, tx, n)
        invariant old(Within(hot, batch)) ==> Within(hot, after)
      {
        var i := tx.inputs[n];
        hot := hot[KeyOf(i) := Item(i.amount, i.frozen)];
        after := after[KeyOf(i) := Item(i.amount, i.frozen)];
        balances := Credit(balances, i.addr, i.amount);
      }
      ghost var d := Cash(after, total, balances);
      for n := 0 to |tx.outputs|
        invariant Cash(after, total, balances) == UndoOutputs(d, tx, n)
        invariant old(Within(hot, batch)) ==> Within(hot, after)
      {
        var o := tx.outputs[n];
        if o.addr == FEE_PLACEHOLDER || o.amount == 0 { continue; }
        var k := Key(o.addr, tx.txid, n);
        after, hot := after - {k}, hot - {k};
        balances := Debit(balances, o.addr, o.amount);
        if tx.coinbase {
          total := total - o.amount;
        }
      }
      Evict();
    }

    method PayFee(tx: Tx, proposer: Addr, batch: Batch) returns (after: Batch)
      modifies this`balances, this`hot
      ensures Cash(after.table, total, balances) == Utxo.PayFee(Cash(batch.table, total, old(balances)), tx, proposer)
      ensures after.made == batch.made
      ensures old(Within(hot, batch.table)) ==> Within(hot, after.table)
    {
      after := batch;
      for n := 0 to |tx.outputs|
        invariant Cash(after.table, total, balances) ==
            PayFeeTo(Cash(batch.table, total, old(balances)), tx, proposer, n)
        invariant after.made == batch.made
        invariant old(Within(hot, batch.table)) ==> Within(hot, after.table)
      {
        var o := tx.outputs[n];
        if o.addr != FEE_PLACEHOLDER { continue; }
        var k := Key(proposer, tx.txid, n);
        after := Batch(after.table[k := Item(o.amount, 0)], after.made);
        balances := Credit(balances, proposer, o.amount);
        hot := hot[k := Item(o.amount, 0)];
      }
      Evict();
    }

    method UndoPayFee(tx: Tx, proposer: Addr, batch: Table) returns (after: Table)
      modifies this`balances, this`hot
      ensures Cash(after, total, balances) == UndoFee(Cash(batch, total, old(balances)), tx, proposer)
      ensures old(Within(hot, batch)) ==> Within(hot, after)
    {
      after := batch;
      for n := 0 to |tx.outputs|
        invariant Cash(after, total, balances) == UndoFeeTo(Cash(batch, total, old(balances)), tx, proposer, n)
        invariant old(Within(hot, batch)) ==> Within(hot, after)
      {
        var o := tx.outputs[n];
        if o.addr != FEE_PLACEHOLDER { continue; }
        var k := Key(proposer, tx.txid, n);
        after, hot := after - {k}, hot - {k};
        balances := Debit(balances, proposer, o.amount);
      }
    }

    // ----- The transactions of a block

    /** Do a transaction unless it is applied already, and pay its fees. */
    method PlayTx(tx: Tx, proposer: Addr, applied: set<Hash>, invalid: set<Hash>, batch: Batch)
      returns (error: PlayError, after: Batch)
      modifies this`total, this`balances, this`hot
      ensures error == TxError(Sight(old(hot), batch.made, table), tx, applied, invalid, ledger.db.meta.trunkHeight)
      ensures
        var c := Cash(batch.table, old(total), old(balances));
        error == None ==>
          && Cash(after.table, total, balances) ==
             Utxo.PayFee(if tx.txid in applied then c else Utxo.DoTx(c, tx), tx, proposer)
          && after.made == if tx.txid in applied then batch.made else Apply(batch.made, Pending(tx))
      ensures old(Within(hot, batch.table)) ==> Within(hot, after.table)
    {
      error, after := None, batch;
      if tx.txid !in applied {
        if Refused(tx, invalid) { return Invalid, after; }
        var verdict;
        verdict, after := DoTxInternal(tx, after);
        if verdict != Passed { return Rejected(verdict), after; }
      }
      after := PayFee(tx, proposer, after);
    }

    /** Do what is not applied yet and pay the fees of all, unless a transaction is refused or fails its check. The
        block goes through, or stops for a reason, exactly as the checks say with the caches there were. */
    method PlayBlockTxs(start: Table, txs: seq<Tx>, proposer: Addr, applied: set<Hash>, invalid: set<Hash>)
      returns (error: PlayError, after: Batch, ghost hots: seq<Table>)
      modifies this`total, this`balances, this`hot
      ensures |hots| == |txs|
      ensures error == BlockError(table, txs, applied, invalid, hots, ledger.db.meta.trunkHeight)
      ensures old(Within(hot, start)) ==> Caches(start, txs, proposer, applied, hots)
      ensures error == None ==>
                Cash(after.table, total, balances) ==
                    PlayTxs(Cash(start, old(total), old(balances)), txs, proposer, applied)
      ensures error == None && old(Within(hot, start)) ==> Within(hot, after.table)
      ensures error == None && old(Within(hot, start)) && DistinctIds(txs) ==>
                SeenOver(table, Cash(start, old(total), old(balances)), txs, proposer, applied)
    {
      after, error, hots := Batch(start, map[]), None, [];
      ghost var height, clean, c := ledger.db.meta.trunkHeight, Within(hot, start), Cash(start, total, balances);
      for n := 0 to |txs|
        invariant Cash(after.table, total, balances) == PlayTxs(c, txs[..n], proposer, applied)
        invariant after.made == MadeOver(txs[..n], applied) && (clean ==> Within(hot, after.table))
        invariant error == None && Midway(table, start, txs, n, proposer, applied, invalid, height, hots, clean)
        invariant clean && DistinctIds(txs) ==> SeenTo(table, c, txs, n, proposer, applied, after)
      {
        ghost var d, before, seen := Cash(after.table, total, balances), after, hot;
        TurnTables(c, txs, n, proposer, applied, d);
        Turn(table, start, txs, n, proposer, applied, invalid, height, hots, clean, seen);
        hots := hots + [seen];
        error, after := PlayTx(txs[n], proposer, applied, invalid, after);
        if error != None { return error, after, Padded(hots, |txs|); }
        MadeStep(txs, applied, n);
        if clean && DistinctIds(txs) {
          SeenTurn(table, c, txs, n, proposer, applied, before, seen, height, d, after);
        }
      }
      assert txs[..|txs|] == txs;
    }

    /** The irreversible height to store with a block, unless the window is negative. */
    method UpdateNextIrreversibleBlockHeight(height: nat) returns (ok: bool, next: nat)
      ensures ok <==> window >= 0
      ensures ok ==> next == NextIrreversible(height, irreversible, window)
    {
      ok, next := window >= 0, irreversible;
      if window <= 0 { return; }
      var raised := height - window;
      if raised <= irreversible { return; }
      next := raised;
    }

    // ----- The pool

    /** A transaction from outside enters the pool; blockid is the block it claims to be in, if any. */
    method DoTx(tx: Tx, blockid: Hash, full: bool) returns (error: PlayError)
      modifies this
      ensures error == None <==>
                && !tx.coinbase && blockid == Empty && tx.txid !in old(pool) && !full
                && TxVerdict(Sight(old(hot), map[], old(table)), tx, ledger.db.meta.trunkHeight) == Passed
      ensures Now() == if error == None then Submit(old(Now()), tx) else old(Now())
      ensures window == old(window) && (old(Within(hot, table)) ==> Within(hot, table))
      ensures error == None && old(Within(hot, table)) ==> Seen(old(table), old(table), tx)
    {
      if tx.coinbase || blockid != Empty || tx.txid in pool || full { return Invalid; }
      if Within(hot, table) && TxVerdict(Sight(hot, map[], table), tx, ledger.db.meta.trunkHeight) == Passed {
        PassedIsSeen(Sight(hot, map[], table), table, tx, ledger.db.meta.trunkHeight);
      }
      var verdict, batch := DoTxInternal(tx, Batch(table, map[]));
      if verdict != Passed { return Rejected(verdict); }
      pool := pool[tx.txid := tx];
      table := batch.table;
      return None;
    }

    /** Undo the listed transactions from the last to the first. */
    method UndoBackward(order: seq<Tx>) returns (after: Table)
      modifies this`total, this`balances, this`hot
      ensures Cash(after, total, balances) == UndoBack(Cash(table, old(total), old(balances)), order)
      ensures old(Within(hot, table)) ==> Within(hot, after)
    {
      after := table;
      ghost var whole := UndoBack(Cash(table, total, balances), order);
      var n := |order|;
      assert order[..n] == order;
      while n > 0
        invariant 0 <= n <= |order| && UndoBack(Cash(after, total, balances), order[..n]) == whole
        invariant old(Within(hot, table)) ==> Within(hot, after)
      {
        n := n - 1;
        assert order[..n + 1][..n] == order[..n];
        after := UndoTxInternal(order[n], after);
      }
    }

    /** Undo the whole pool, in reverse of the dependency order the pool gives. */
    method RollBackUnconfirmedTx(order: seq<Tx>) returns (undone: set<Hash>)
      requires DependencyOrder(pool, order)
      modifies this
      ensures Now() == Rollback(old(Now()), order) && undone == old(pool).Keys
      ensures window == old(window) && (old(Within(hot, table)) ==> Within(hot, table))
    {
      var batch := UndoBackward(order);
      OrderListsPool(pool, order);
      undone := IdSet(order);
      table, pool := batch, map[];
    }

    // ----- Playing

    /** Add the inputs of a transaction to a set of keys, unless one of them is there already. */
    method AddInputs(tx: Tx, before: set<Key>) returns (twice: bool, keys: set<Key>)
      ensures twice <==> !DistinctInputs(tx) || exists k :: k in Spent(tx) && k in before
      ensures !twice ==> keys == before + Spent(tx).Keys
    {
      twice, keys := false, before;
      for i := 0 to |tx.inputs|
        invariant !twice && keys == before + SpentTo(tx, i).Keys
        invariant forall k :: k in SpentTo(tx, i) ==> k !in before
        invariant forall a, b :: 0 <= a < b < i ==> KeyOf(tx.inputs[a]) != KeyOf(tx.inputs[b])
      {
        var k := KeyOf(tx.inputs[i]);
        SpentKeysTo(tx, i, k);
        SpentKeysTo(tx, |tx.inputs|, k);
        if k in keys { return true, keys; }
        keys := keys + {k};
      }
    }

    method SpendsTwice(txs: seq<Tx>) returns (twice: bool)
      ensures twice <==> Passing.SpendsTwice(txs)
    {
      var keys: set<Key> := {};
      for n := 0 to |txs|
        invariant forall k :: k in keys <==> exists a :: 0 <= a < n && k in Spent(txs[a])
        invariant NoDoubleSpend(txs[..n]) && forall a :: 0 <= a < n ==> DistinctInputs(txs[a])
      {
        ghost var before := keys;
        twice, keys := AddInputs(txs[n], keys);
        if twice {
          if k :| k in Spent(txs[n]) && k in before {
            ghost var a :| 0 <= a < n && k in Spent(txs[a]);
            assert Clash(txs[a], txs[n]);
          }
          return;
        }
        NoDoubleSpendStep(txs[..n + 1]);
        assert txs[..n + 1][..n] == txs[..n];
      }
      assert txs[..|txs|] == txs;
      return false;
    }

    /** Undo each listed conflict once. */
    method UndoConflicts(conflicts: seq<Tx>) returns (after: Table)
      modifies this`total, this`balances, this`hot
      ensures Cash(after, total, balances) == UndoEach(Cash(table, old(total), old(balances)), conflicts)
      ensures old(Within(hot, table)) ==> Within(hot, after)
    {
      after := table;
      ghost var c := Cash(table, total, balances);
      var undone := {};
      for n := 0 to |conflicts|
        invariant undone == IdSet(conflicts[..n])
        invariant Cash(after, total, balances) == UndoEach(c, conflicts[..n])
        invariant old(Within(hot, table)) ==> Within(hot, after)
      {
        assert conflicts[..n + 1][..n] == conflicts[..n];
        IdSetMore(conflicts[..n + 1]);
        if conflicts[n].txid !in undone {
          after := UndoTxInternal(conflicts[n], after);
          undone := undone + {conflicts[n].txid};
        }
      }
      assert conflicts[..|conflicts|] == conflicts;
    }

    /** Verify the transactions of a received block that are not in the pool. */
    method VerifyBlockTxs(txs: seq<Tx>, applied: set<Hash>, invalid: set<Hash>) returns (ok: bool)
      ensures ok <==> forall n :: 0 <= n < |txs| ==> !Unverified(txs[n], applied, invalid)
    {
      for n := 0 to |txs|
        invariant forall a :: 0 <= a < n ==> !Unverified(txs[a], applied, invalid)
      {
        if Unverified(txs[n], applied, invalid) { return false; }
      }
      return true;
    }

    /** Play the transactions of a block that are not applied from the given table on, and store the result; those of
        the block and those undone leave the pool. */
    method ApplyBlock(id: Hash, blk: Blk, start: Table, applied: set<Hash>, gone: set<Hash>)
      returns (error: PlayError, ghost hots: seq<Table>)
      modifies this
      ensures |hots| == |blk.txs|
      ensures error == PlayResult(old(table), blk.txs, applied, {}, hots, ledger.db.meta.trunkHeight, window)
      ensures old(Within(hot, start)) ==> Caches(start, blk.txs, blk.proposer, applied, hots)
      ensures error == None ==>
                && window >= 0
                && Now() == Machine(PlayTxs(Cash(start, old(total), old(balances)), blk.txs, blk.proposer, applied), id,
                                    old(pool) - gone - IdSet(blk.txs),
                                    NextIrreversible(blk.height, old(irreversible), window))
      ensures error == None && old(Within(hot, start)) ==> Within(hot, table)
      ensures error == None && old(Within(hot, start)) && DistinctIds(blk.txs) ==>
                SeenOver(old(table), Cash(start, old(total), old(balances)), blk.txs, blk.proposer, applied)
      ensures error != None ==> Stored() == old(Stored())
      ensures window == old(window)
    {
      var batch, ok, next;
      error, batch, hots := PlayBlockTxs(start, blk.txs, blk.proposer, applied, {});
      if error != None { return; }
      ok, next := UpdateNextIrreversibleBlockHeight(blk.height);
      if !ok { return BadWindow, hots; }
      table, latest, irreversible := batch.table, id, next;
      pool := pool - gone - IdSet(blk.txs);
    }

    /** Play a block on top of the pool and store the result. */
    method PlayBlock(id: Hash, blk: Blk, conflicts: seq<Tx>, invalid: set<Hash>)
      returns (error: PlayError, ghost hots: seq<Table>)
      modifies this
      ensures |hots| == |blk.txs|
      ensures error ==
              PlayResult(old(table), blk.txs, old(pool).Keys, invalid, hots, ledger.db.meta.trunkHeight, window)
      ensures old(Within(hot, table)) ==>
                Caches(UndoEach(old(Now()).cash, conflicts).table, blk.txs, blk.proposer, old(pool).Keys, hots)
      ensures error == None ==>
                && window >= 0
                && Now() == PlayOver(old(Now()), id, blk, conflicts,
                                     NextIrreversible(blk.height, old(irreversible), window))
      ensures error == None && old(Within(hot, table)) ==> Within(hot, table)
      ensures error == None && old(Within(hot, table)) && DistinctIds(blk.txs) ==>
                SeenOver(old(table), UndoEach(old(Now()).cash, conflicts), blk.txs, blk.proposer, old(pool).Keys)
      ensures error != None ==> Stored() == old(Stored())
      ensures window == old(window)
    {
      var start := UndoConflicts(conflicts);
      hots := NoCache(blk.txs);
      var verified := VerifyBlockTxs(blk.txs, pool.Keys, invalid);
      if !verified { return Invalid, hots; }
      assert conflicts[..|conflicts|] == conflicts;
      error, hots := ApplyBlock(id, blk, start, pool.Keys, IdSet(conflicts));
    }

    /** Play a received block: what conflicts with it in the pool is undone first. */
    method PlayAndRepost(id: Hash, spender: map<Key, Hash>, invalid: set<Hash>, ghost rank: map<Hash, nat>,
          ghost bound: nat)
      returns (error: PlayError, ghost conflicts: seq<Tx>, ghost hots: seq<Table>)
      requires BodiesStored(ledger.db)
      requires Mempool.SpendersKnown(pool, spender) && Mempool.Fed(pool) && Mempool.Ranked(pool, rank, bound)
      modifies this
      ensures id in View() ==> |hots| == |View()[id].txs|
      ensures error ==
              if id !in View() then NoBlock
              else if View()[id].pre != old(latest) then PreMismatch
              else if Passing.SpendsTwice(View()[id].txs) then Duplicate
              else PlayResult(old(table), View()[id].txs, old(pool).Keys, invalid, hots, ledger.db.meta.trunkHeight,
                              window)
      ensures id in View() && error !in {NoBlock, PreMismatch, Duplicate} ==>
                && ConflictList(old(pool), View()[id].txs, conflicts)
                && (old(Within(hot, table)) ==>
                      Caches(UndoEach(old(Now()).cash, conflicts).table, View()[id].txs, View()[id].proposer,
                             old(pool).Keys, hots))
      ensures error == None ==>
                && id in View() && View()[id].pre == old(latest) && NoDoubleSpend(View()[id].txs) && window >= 0
                && ConflictList(old(pool), View()[id].txs, conflicts)
                && (old(Within(hot, table)) ==> Within(hot, table))
                && Now() == PlayOver(old(Now()), id, View()[id], conflicts,
                                     NextIrreversible(View()[id].height, old(irreversible), window))
      ensures error == None && old(Within(hot, table)) && DistinctIds(View()[id].txs)
                && SameTxs(old(pool), View()[id].txs) ==>
                PassedOver(old(pool), old(Now()).cash, View()[id].txs, View()[id].proposer, conflicts)
      ensures error != None ==> Stored() == old(Stored())
      ensures window == old(window)
    {
      conflicts, hots := [], [];
      if id !in ledger.db.blocks { return NoBlock, [], []; }
      var blk := View()[id];
      hots := NoCache(blk.txs);
      if blk.pre != latest { return PreMismatch, [], hots; }
      var twice := SpendsTwice(blk.txs);
      if twice { return Duplicate, [], hots; }
      var list := Mempool.FindConflicts(pool, spender, blk.txs, rank, bound);
      error, hots := PlayBlock(id, blk, list, invalid);
      conflicts := list;
    }

    /** Play a block this node has made; transactions that fail drop the cached balances. */
    method PlayMinedBlock(id: Hash, blk: Blk) returns (error: PlayError, ghost hots: seq<Table>)
      modifies this
      ensures |hots| == |blk.txs|
      ensures error == PlayResult(old(table), blk.txs, Ordinary(blk.txs), {}, hots, ledger.db.meta.trunkHeight, window)
      ensures old(Within(hot, table)) ==> Caches(old(table), blk.txs, blk.proposer, Ordinary(blk.txs), hots)
      ensures error == None ==>
                && window >= 0
                && Now() == PlayMined(old(Now()), id, blk, NextIrreversible(blk.height, old(irreversible), window))
      ensures error == None && old(Within(hot, table)) ==> Within(hot, table)
      ensures error == None && old(Within(hot, table)) && DistinctIds(blk.txs) ==>
                SeenOver(old(table), old(Now()).cash, blk.txs, blk.proposer, Ordinary(blk.txs))
      ensures error != None ==> Stored() == old(Stored())
      ensures error.Rejected? ==> balances == map[]
      ensures window == old(window)
    {
      error, hots := ApplyBlock(id, blk, table, Ordinary(blk.txs), {});
      if error.Rejected? {
        balances := map[];
      }
    }

    method PlayForMiner(id: Hash) returns (error: PlayError, ghost hots: seq<Table>)
      requires BodiesStored(ledger.db)
      modifies this
      ensures id in View() ==> |hots| == |View()[id].txs|
      ensures error ==
              if id !in View() then NoBlock
              else if View()[id].pre != old(latest) then PreMismatch
              else PlayResult(old(table), View()[id].txs, Ordinary(View()[id].txs), {}, hots,
                              ledger.db.meta.trunkHeight, window)
      ensures id in View() && old(Within(hot, table)) ==>
                Caches(old(table), View()[id].txs, View()[id].proposer, Ordinary(View()[id].txs), hots)
      ensures error == None ==>
                && id in View() && View()[id].pre == old(latest) && window >= 0
                && Now() == PlayMined(old(Now()), id, View()[id],
                                      NextIrreversible(View()[id].height, old(irreversible), window))
                && (old(Within(hot, table)) ==> Within(hot, table))
      ensures error == None && old(Within(hot, table)) && DistinctIds(View()[id].txs) ==>
                SeenOver(old(table), old(Now()).cash, View()[id].txs, View()[id].proposer, Ordinary(View()[id].txs))
      ensures error == None && old(Within(hot, table)) && DistinctIds(View()[id].txs)
                && SameTxs(old(pool), View()[id].txs) && PooledByFlags(old(pool), View()[id].txs) ==>
                PassedHere(old(pool), old(Now()).cash, View()[id].txs, View()[id].proposer)
      ensures error != None ==> Stored() == old(Stored())
      ensures window == old(window)
    {
      hots := [];
      if id !in ledger.db.blocks { return NoBlock, []; }
      var blk := View()[id];
      if blk.pre != latest { return PreMismatch, NoCache(blk.txs); }
      error, hots := PlayMinedBlock(id, blk);
      if SameTxs(old(pool), blk.txs) && PooledByFlags(old(pool), blk.txs) {
        MinedPassed(old(pool), old(Now()).cash, blk.txs, blk.proposer);
      }
    }

    // ----- Walking

    method UndoBlockTxs(blk: Blk, skip: set<Hash>) returns (after: Table)
      modifies this`total, this`balances, this`hot
      ensures Cash(after, total, balances) ==
              UndoTxs(Cash(table, old(total), old(balances)), blk.txs, blk.proposer, skip)
      ensures old(Within(hot, table)) ==> Within(hot, after)
    {
      after := table;
      var txs, n := blk.txs, |blk.txs|;
      ghost var whole := UndoTxs(Cash(table, total, balances), txs, blk.proposer, skip);
      assert txs[..n] == txs;
      while n > 0
        invariant 0 <= n <= |txs| && UndoTxs(Cash(after, total, balances), txs[..n], blk.proposer, skip) == whole
        invariant old(Within(hot, table)) ==> Within(hot, after)
      {
        n := n - 1;
        assert txs[..n + 1][..n] == txs[..n];
        if txs[n].txid !in skip {
          after := UndoTxInternal(txs[n], after);
        }
        after := UndoPayFee(txs[n], blk.proposer, after);
      }
    }

    /** Undo the latest block, unless it is irreversible or has no parent to go back to. */
    method UndoBlockForWalk(blk: Blk, skip: set<Hash>) returns (ok: bool)
      modifies this
      ensures ok <==> blk.height > old(irreversible) && blk.pre in ledger.db.blocks
      ensures ok ==> Now() == UndoBlock(old(Now()), blk, skip) && (old(Within(hot, table)) ==> Within(hot, table))
      ensures !ok ==> Stored() == old(Stored())
      ensures window == old(window)
    {
      if blk.height <= irreversible { return false; }
      var batch := UndoBlockTxs(blk, skip);
      if blk.pre !in ledger.db.blocks { return false; }
      table, latest := batch, blk.pre;
      return true;
    }

    /** Do a child of the latest block. Passing its check is worth what the check says. */
    method DoBlockForWalk(id: Hash, blk: Blk, invalid: set<Hash>) returns (ok: bool, ghost hots: seq<Table>)
      modifies this
      ensures |hots| == |blk.txs|
      ensures ok <==>
                && BlockError(old(table), blk.txs, {}, invalid, hots, ledger.db.meta.trunkHeight) == None
                && window >= 0
      ensures old(Within(hot, table)) ==> Caches(old(table), blk.txs, blk.proposer, {}, hots)
      ensures ok ==>
                && window >= 0
                && Now() == DoBlock(old(Now()), id, blk, NextIrreversible(blk.height, old(irreversible), window))
      ensures ok && old(Within(hot, table)) ==>
                Within(hot, table) && (DistinctIds(blk.txs) ==> AllSeen(old(table), blk.txs, blk.proposer))
      ensures !ok ==> Stored() == old(Stored())
      ensures window == old(window)
    {
      var error, batch, next;
      error, batch, hots := PlayBlockTxs(table, blk.txs, blk.proposer, {}, invalid);
      if error != None { return false, hots; }
      ok, next := UpdateNextIrreversibleBlockHeight(blk.height);
      if !ok { return; }
      if old(Within(hot, table)) && DistinctIds(blk.txs) {
        SeenOverIsAllSeen(old(Now()).cash, blk.txs, blk.proposer);
      }
      table, latest, irreversible := batch.table, id, next;
    }

    /** Undo the listed blocks, from the latest down, until one is irreversible. */
    method ProcUndoBlkForWalk(v: View, undo: seq<Hash>, skip: set<Hash>, ghost f: nat) returns (ok: bool,
          ghost run: Trace)
      requires UndoneTo(v, Now(), undo, skip, f, 0, Stay(World(v, Now())), Now()) && v.Keys == ledger.db.blocks.Keys
      modifies this
      ensures Traced(v, old(Now()), run, Now(), ok) && window == old(window)
      ensures ok <==> UndoableAll(v, undo, old(irreversible))
      ensures ok ==>
                && UndoneTo(v, old(Now()), undo, skip, f, |undo|, run, Now())
                && (old(Within(hot, table)) ==> Within(hot, table))
    {
      ghost var m := Now();
      run := Stay(World(v, m));
      for n := 0 to |undo|
        invariant UndoneTo(v, m, undo, skip, f, n, run, Now()) && window == old(window)
        invariant irreversible == old(irreversible)
        invariant forall i :: 0 <= i < n ==> undo[i] in v && v[undo[i]].height > irreversible
        invariant old(Within(hot, table)) ==> Within(hot, table)
      {
        UndoneStep(v, m, undo, skip, f, n, run, Now());
        ghost var next := if v[undo[n]].height > irreversible then Then(run, Undone(skip)) else run;
        var more := UndoBlockForWalk(v[undo[n]], skip);
        if !more {
          return false, run;
        }
        run := next;
      }
      return true, run;
    }

    /** Do the next block of the list. */
    method DoNext(v: View, todo: seq<Hash>, n: nat, ghost left: nat, invalid: set<Hash>, ghost w: Way, ghost run: Trace,
          ghost hots: seq<seq<Table>>)
      returns (more: bool, ghost longer: Trace, ghost wider: seq<seq<Table>>)
      requires n + 1 == left <= |todo| && OnTheWay(v, todo, left, w, run, Now(), hots)
      requires w.window == Slide() && w.invalid == invalid && w.height == ledger.db.meta.trunkHeight
      requires w.seen ==> Within(hot, table)
      modifies this
      ensures window == old(window)
      ensures more ==> window >= 0 && (w.seen ==> Within(hot, table)) && OnTheWay(v, todo, n, w, longer, Now(), wider)
      ensures !more ==>
                && Traced(v, w.origin, longer, Now(), false)
                && Recorded(v, w.start, todo, w.window, wider, w.seen)
                && (window < 0 || !AllGo(v, w.start, todo, w.window, invalid, w.height, wider))
    {
      ghost var now := Now();
      NextOnTheWay(v, todo, n, left, w, run, now, hots);
      var b := todo[n];
      ghost var hot;
      more, hot := DoBlockForWalk(b, v[b], invalid);
      longer, wider := run, hots[n := hot];
      StepOnTheWay(v, todo, n, left, w, run, now, hots, b, hot);
      if more {
        longer := Then(run, Done(b, w.window));
      }
    }

    /** Do the listed blocks, from the last one up. */
    method ProcTodoBlkForWalk(v: View, dest: Hash, todo: seq<Hash>, invalid: set<Hash>, ghost m: Machine,
          ghost f: nat, ghost before: Trace)
      returns (ok: bool, ghost run: Trace, ghost hots: seq<seq<Table>>)
      requires DoneTo(v, m, Now(), dest, todo, f, |todo|, before, Now(), Slide(), true)
      requires forall i :: 0 <= i < |todo| ==> todo[i] in v
      modifies this
      ensures Traced(v, m, run, Now(), ok) && window == old(window)
      ensures Recorded(v, old(Now()), todo, Slide(), hots, old(Within(hot, table)))
      ensures ok <==>
                && (todo != [] ==> window >= 0)
                && AllGo(v, old(Now()), todo, Slide(), invalid, ledger.db.meta.trunkHeight, hots)
      ensures ok ==> DoneTo(v, m, old(Now()), dest, todo, f, 0, run, Now(), Slide(), old(Within(hot, table)))
      ensures ok && old(Within(hot, table)) ==> Within(hot, table)
    {
      ghost var w := Way(m, Now(), dest, f, Slide(), invalid, ledger.db.meta.trunkHeight, Within(hot, table));
      run, hots, ok := before, Blank(v, todo), true;
      StartOnTheWay(v, todo, w, before);
      var n := |todo|;
      while n > 0
        invariant 0 <= n <= |todo| && OnTheWay(v, todo, n, w, run, Now(), hots)
        invariant window == old(window) && (n < |todo| ==> window >= 0)
        invariant w.seen ==> Within(hot, table)
      {
        var i := n - 1;
        ok, run, hots := DoNext(v, todo, i, n, invalid, w, run, hots);
        if !ok { return; }
        n := i;
      }
      EndOnTheWay(v, todo, w, run, Now(), hots);
      return true, run, hots;
    }

    /** Undo to the common ancestor, then redo to the destination. */
    method WalkBlocks(v: View, dest: Hash, undo: seq<Hash>, todo: seq<Hash>, skip: set<Hash>, invalid: set<Hash>,
                      ghost m: Machine, ghost f: nat, ghost before: Trace)
      returns (ok: bool, ghost run: Trace, ghost hots: seq<seq<Table>>)
      requires UndoneTo(v, Now(), undo, skip, f, 0, Stay(World(v, Now())), Now()) && v.Keys == ledger.db.blocks.Keys
      requires dest in v && f <= v[dest].height && todo == ChainDown(Nodes(v), dest, f)
      requires Anc(Nodes(v), latest, f) == Anc(Nodes(v), dest, f) && Traced(v, m, before, Now(), true)
      requires (forall i :: 0 <= i < |undo| ==> undo[i] in v) && (forall i :: 0 <= i < |todo| ==> todo[i] in v)
      modifies this
      ensures Traced(v, m, run, Now(), ok) && window == old(window)
      ensures ok <==>
              BlocksGo(v, old(Now()), undo, todo, skip, window, invalid, ledger.db.meta.trunkHeight, hots)
      ensures Walked(v, old(Now()), undo, todo, skip, Slide(), hots, old(Within(hot, table)), ok, Now(),
                     Within(hot, table))
    {
      hots := Blank(v, todo);
      BlankRecorded(v, UndoAll(v, Now(), undo, skip), todo, Slide(), Within(hot, table));
      ghost var r, down := Now(), Stay(World(v, Now()));
      ok, down := ProcUndoBlkForWalk(v, undo, skip, f);
      TracedThen(v, m, before, r, down, Now(), ok);
      run := Spliced(before, down);
      if !ok { return; }
      UndoneEnd(v, r, undo, skip, f, down, Now());
      ghost var u, seen := Now(), Within(hot, table);
      DoneStart(v, m, u, dest, todo, f, run, Slide());
      ok, run, hots := ProcTodoBlkForWalk(v, dest, todo, invalid, m, f, run);
      if ok {
        DoneEnd(v, m, u, dest, todo, f, run, Now(), Slide(), seen);
      }
    }

    /** The blocks to undo and to redo on the way to another block, if both are stored. */
    method FindRoute(v: View, dest: Hash) returns (ok: bool, undo: seq<Hash>, todo: seq<Hash>)
      requires TrunkInv(ledger.db) && Nodes(v) == ShapeOf(ledger.db.blocks) && dest != latest
      ensures ok <==> latest in v && dest in v
      ensures ok ==> Route(v, ledger.db.meta.root, Now(), dest, undo, todo)
    {
      ok, undo, todo := ledger.FindUndoAndTodoBlocks(latest, dest);
    }

    /** Undo and redo along a route, once the pool is rolled back. */
    method WalkRoute(v: View, ghost root: Hash, dest: Hash, undo: seq<Hash>, todo: seq<Hash>, skip: set<Hash>,
          invalid: set<Hash>, ghost m: Machine, ghost before: Trace)
      returns (ok: bool, ghost run: Trace, ghost hots: seq<seq<Table>>)
      requires Route(v, root, Now(), dest, undo, todo) && v.Keys == ledger.db.blocks.Keys
      requires Traced(v, m, before, Now(), true)
      modifies this
      ensures Traced(v, m, run, Now(), ok) && window == old(window)
      ensures ok <==>
              BlocksGo(v, old(Now()), undo, todo, skip, window, invalid, ledger.db.meta.trunkHeight, hots)
      ensures Walked(v, old(Now()), undo, todo, skip, Slide(), hots, old(Within(hot, table)), ok, Now(),
                     Within(hot, table))
    {
      ghost var f := Fork(Nodes(v), root, latest, dest);
      RouteReady(v, root, Now(), dest, undo, todo, skip, f);
      ok, run, hots := WalkBlocks(v, dest, undo, todo, skip, invalid, m, f, before);
    }

    /** Walk to a block that is not the latest, on the tree v. */
    method WalkAway(v: View, dest: Hash, order: seq<Tx>, invalid: set<Hash>)
      returns (ok: bool, ghost run: Trace, undo: seq<Hash>, todo: seq<Hash>, ghost hots: seq<seq<Table>>)
      requires TrunkInv(ledger.db) && Nodes(v) == ShapeOf(ledger.db.blocks) && DependencyOrder(pool, order)
      requires dest != latest
      modifies this
      ensures Traced(v, old(Now()), run, Now(), ok) && window == old(window)
      ensures old(latest) in v && dest in v ==>
                && Route(v, ledger.db.meta.root, old(Now()), dest, undo, todo)
                && RecordedWalk(v, old(Now()), order, undo, todo, Slide(), hots, old(Within(hot, table)))
      ensures ok <==>
                && old(latest) in v && dest in v
                && WalkGoes(v, ledger.db.meta.root, old(Now()), order, dest, undo, todo, window, invalid,
                            ledger.db.meta.trunkHeight, hots)
      ensures ok ==> WalkedTo(v, ledger.db.meta.root, old(Now()), order, dest, Slide(), undo, todo, Now())
      ensures ok && old(Within(hot, table)) ==>
                Within(hot, table) && CheckedTo(v, ledger.db.meta.root, old(Now()), order, dest, Slide(), undo, todo)
    {
      ghost var m := Now();
      var undone := RollBackUnconfirmedTx(order);
      balances := map[];
      RollbackTraced(v, m, order);
      run, hots := RollbackRun(v, m, order), [];
      ok, undo, todo := FindRoute(v, dest);
      if !ok { return; }
      SameRoute(v, ledger.db.meta.root, Now(), m, dest, undo, todo);
      ok, run, hots := WalkRoute(v, ledger.db.meta.root, dest, undo, todo, undone, invalid, m, run);
    }

    /** Move to another block of the tree. */
    method Walk(dest: Hash, order: seq<Tx>, invalid: set<Hash>)
      returns (ok: bool, ghost run: Trace, ghost undo: seq<Hash>, ghost todo: seq<Hash>, ghost hots: seq<seq<Table>>)
      requires TrunkInv(ledger.db) && BodiesStored(ledger.db) && DependencyOrder(pool, order)
      modifies this
      ensures Traced(View(), old(Now()), run, Now(), ok) && window == old(window)
      ensures dest == old(latest) ==> ok && Now() == old(Now())
      ensures dest != old(latest) && old(latest) in View() && dest in View() ==>
                && Route(View(), ledger.db.meta.root, old(Now()), dest, undo, todo)
                && RecordedWalk(View(), old(Now()), order, undo, todo, Slide(), hots, old(Within(hot, table)))
      ensures dest != old(latest) ==>
                (ok <==>
                   && old(latest) in View() && dest in View()
                   && WalkGoes(View(), ledger.db.meta.root, old(Now()), order, dest, undo, todo, window, invalid,
                               ledger.db.meta.trunkHeight, hots))
      ensures ok && dest != old(latest) ==>
                WalkedTo(View(), ledger.db.meta.root, old(Now()), order, dest, Slide(), undo, todo, Now())
      ensures ok && old(Within(hot, table)) ==>
                && Within(hot, table)
                && (dest != old(latest) ==>
                      CheckedTo(View(), ledger.db.meta.root, old(Now()), order, dest, Slide(), undo, todo))
    {
      run, undo, todo, hots := Stay(World(View(), Now())), [], [], [];
      if dest == latest { return true, run, [], [], []; }
      ViewShape(ledger.db);
      ok, run, undo, todo, hots := WalkAway(View(), dest, order, invalid);
    }

    // ----- Balances

    /** The cached balance if there is one, or else the sum of the address's entries, which is then cached. */
    method GetBalance(addr: Addr) returns (balance: int)
      modifies this`balances
      ensures balance == if addr in old(balances) then old(balances)[addr] else BalanceOf(table, addr)
      ensures balances == old(balances)[addr := balance]
      ensures old(Coherent(table, balances)) ==> balance == BalanceOf(table, addr) && Coherent(table, balances)
    {
      if addr in balances {
        balance := balances[addr];
        assert balances == balances[addr := balance];
        return;
      }
      var left := set k | k in table && k.addr == addr;
      balance := 0;
      assert Among(table, left) == Owned(table, addr);
      while left != {}
        invariant forall k :: k in left ==> k in table && k.addr == addr
        invariant balance + Sum(Among(table, left)) == BalanceOf(table, addr)
        invariant balances == old(balances)
      {
        var k :| k in left;
        SumRemove(Among(table, left), k);
        assert Among(table, left) - {k} == Among(table, left - {k});
        balance, left := balance + table[k].amount, left - {k};
      }
      balances := balances[addr := balance];
    }
  }
}
