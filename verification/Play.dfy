/** Playing a block over a state that already has pool transactions applied. */
module Play {
  import opened Tree
  import opened Transactions
  import opened Effects
  import opened Utxo
  import opened Worth
  import opened Chain
  import opened Machine

  ghost predicate Clash(a: Tx, b: Tx) {
    exists k :: k in Spent(a) && k in Spent(b)
  }

  /** The transactions of the block as settled, the others of the pool as pending. */
  ghost function Mixed(keep: map<Hash, Tx>, txs: seq<Tx>, proposer: Addr): Web {
    PoolWeb(keep) + BlockWeb(txs, proposer)
  }

  /** A pool transaction and a block transaction with the same txid are the same. */
  ghost predicate SameTxs(pool: map<Hash, Tx>, txs: seq<Tx>) {
    forall i :: 0 <= i < |txs| && txs[i].txid in pool ==> pool[txs[i].txid] == txs[i]
  }

  /** Each block transaction can be done in turn: it is in the pool already, or no pool transaction spends what it
      spends, or its inputs are in the table as declared. */
  ghost predicate Doable(keep: map<Hash, Tx>, c: Cash, txs: seq<Tx>, proposer: Addr) {
    txs == [] ||
    var init, tx := txs[..|txs| - 1], txs[|txs| - 1];
    Doable(keep, c, init, proposer) && CanDo(keep, PlayTxs(c, init, proposer, keep.Keys), tx)
  }

  ghost predicate CanDo(keep: map<Hash, Tx>, c: Cash, tx: Tx) {
    || tx.txid in keep
    || (forall id :: id in keep ==> !Clash(tx, keep[id]))
    || Within(Spent(tx), c.table)
  }

  lemma MixedStep(keep: map<Hash, Tx>, txs: seq<Tx>, proposer: Addr)
    requires txs != []
    ensures
      var n := |txs| - 1;
      Mixed(keep, txs, proposer) == Mixed(keep, txs[..n], proposer)[txs[n].txid := Settled(txs[n], proposer)]
  {
  }

  /** Inputs that are there in the plain replay are there on top of the pool too, unless a pool transaction clashes. */
  lemma InputsThere(t: Table, keep: map<Hash, Tx>, c: Cash, txs: seq<Tx>, proposer: Addr, tx: Tx)
    requires BlockFits(t, txs, proposer) && IsNet(t, Mixed(keep, txs, proposer), c.table) && SameTxs(keep, txs)
    requires Within(Spent(tx), BlockTable(t, txs, proposer))
    requires forall id :: id in keep ==> !Clash(tx, keep[id])
    ensures Within(Spent(tx), c.table)
  {
    var f, g := BlockWeb(txs, proposer), Mixed(keep, txs, proposer);
    BlockNet(t, txs, proposer);
    forall k | k in Spent(tx) ensures k in c.table && c.table[k] == Spent(tx)[k] {
      assert NetAt(t, f, BlockTable(t, txs, proposer), k) && NetAt(t, g, c.table, k);
      forall id | id in g ensures k !in g[id].spent {
        if id in f {
          assert g[id] == f[id];
        } else {
          assert g[id].spent == Spent(keep[id]);
        }
      }
      if k !in t {
        assert g[k.txid] == f[k.txid];
      }
    }
  }

  /** After the block, the state is the settled block with the rest of the pool pending. */
  lemma {:induction false} PlayPrefix(t: Table, keep: map<Hash, Tx>, c: Cash, txs: seq<Tx>, proposer: Addr)
    requires Sound(t, PoolWeb(keep), c) && BlockFits(t, txs, proposer) && SameTxs(keep, txs)
    requires Doable(keep, c, txs, proposer)
    ensures Sound(t, Mixed(keep, txs, proposer), PlayTxs(c, txs, proposer, keep.Keys))
  {
    if txs == [] {
      assert Mixed(keep, txs, proposer) == PoolWeb(keep);
    } else {
      var n := |txs| - 1;
      var init, tx := txs[..n], txs[n];
      PlayPrefix(t, keep, c, init, proposer);
      PlayOne(t, keep, PlayTxs(c, init, proposer, keep.Keys), init, proposer, tx);
      MixedStep(keep, txs, proposer);
    }
  }

  lemma UpdateTwice(f: Web, id: Hash, e: Effect, g: Effect)
    ensures f[id := e][id := g] == f[id := g]
  {
  }

  /** Doing a transaction and paying its fees at once. */
  lemma SettleStep(t: Table, f: Web, d: Cash, tx: Tx, proposer: Addr)
    requires Sound(t, f, d) && tx.txid !in f && DistinctInputs(tx)
    requires Within(Spent(tx), d.table) && Settled(tx, proposer).made.Keys !! t.Keys
    ensures Sound(t, f[tx.txid := Settled(tx, proposer)], PayFee(DoTx(d, tx), tx, proposer))
  {
    DoStep(t, f, d, tx);
    PayStep(t, f[tx.txid := Pending(tx)], DoTx(d, tx), tx, proposer);
    UpdateTwice(f, tx.txid, Pending(tx), Settled(tx, proposer));
  }

  lemma MixedAt(keep: map<Hash, Tx>, txs: seq<Tx>, proposer: Addr, id: Hash)
    requires id !in Txids(txs)
    ensures id in Mixed(keep, txs, proposer) <==> id in keep
    ensures id in keep ==> Mixed(keep, txs, proposer)[id] == Pending(keep[id])
  {
    WebKeys(txs, proposer);
  }

  lemma PlayOne(t: Table, keep: map<Hash, Tx>, d: Cash, init: seq<Tx>, proposer: Addr, tx: Tx)
    requires Sound(t, Mixed(keep, init, proposer), d) && BlockFits(t, init, proposer) && SameTxs(keep, init)
    requires tx.txid !in Txids(init) && TxFits(t, BlockTable(t, init, proposer), tx, proposer)
    requires tx.txid in keep ==> keep[tx.txid] == tx
    requires CanDo(keep, d, tx)
    ensures Sound(t, Mixed(keep, init, proposer)[tx.txid := Settled(tx, proposer)],
                  PayFee(if tx.txid in keep then d else DoTx(d, tx), tx, proposer))
  {
    var f := Mixed(keep, init, proposer);
    MixedAt(keep, init, proposer, tx.txid);
    if tx.txid in keep {
      PayStep(t, f, d, tx, proposer);
    } else {
      if forall id :: id in keep ==> !Clash(tx, keep[id]) {
        InputsThere(t, keep, d, init, proposer, tx);
      }
      SettleStep(t, f, d, tx, proposer);
    }
  }

  // ----- Conflicts

  /** What the search for conflicts promises: pool transactions only; every one that clashes with a block transaction
      from outside the pool; children before parents; and nothing else than conflicts and their descendants. */
  ghost predicate ConflictList(pool: map<Hash, Tx>, txs: seq<Tx>, list: seq<Tx>) {
    && (forall i :: 0 <= i < |list| ==> list[i].txid in pool && pool[list[i].txid] == list[i])
    && (forall a, id :: 0 <= a < |txs| && txs[a].txid !in pool && id in pool && Clash(txs[a], pool[id]) ==>
        id in Txids(list))
    && (forall i, id :: 0 <= i < |list| && id in pool && DependsOn(pool[id], list[i]) ==> id in Txids(list[..i]))
    && (forall i :: 0 <= i < |list| ==> Conflicting(pool, txs, list, i))
  }

  ghost predicate Conflicting(pool: map<Hash, Tx>, txs: seq<Tx>, list: seq<Tx>, i: nat)
    requires i < |list|
  {
    || (exists a :: 0 <= a < |txs| && txs[a].txid !in pool && Clash(txs[a], list[i]))
    || (exists j :: i < j < |list| && DependsOn(list[i], list[j]))
  }

  /** Undo each listed transaction once, in list order. */
  function UndoEach(c: Cash, list: seq<Tx>): Cash {
    if list == [] then c else
    var tx, d := list[|list| - 1], UndoEach(c, list[..|list| - 1]);
    if tx.txid in Txids(list[..|list| - 1]) then d else UndoTx(d, tx)
  }

  function IdSet(txs: seq<Tx>): set<Hash> {
    set id | id in Txids(txs)
  }

  lemma IdSetMore(txs: seq<Tx>)
    requires txs != []
    ensures IdSet(txs) == IdSet(txs[..|txs| - 1]) + {txs[|txs| - 1].txid}
  {
    var n := |txs| - 1;
    assert Txids(txs) == Txids(txs[..n]) + [txs[n].txid];
  }

  /** The pool once the first n of a list are gone. */
  function Left(pool: map<Hash, Tx>, list: seq<Tx>, n: nat): map<Hash, Tx>
    requires n <= |list|
  {
    pool - IdSet(list[..n])
  }

  lemma LeftStep(pool: map<Hash, Tx>, c: Cash, list: seq<Tx>, n: nat)
    requires 0 < n <= |list| && list[n - 1].txid in pool
    ensures Left(pool, list, n) == Left(pool, list, n - 1) - {list[n - 1].txid}
    ensures
      var d := UndoEach(c, list[..n - 1]);
      UndoEach(c, list[..n]) == if list[n - 1].txid in Left(pool, list, n - 1) then UndoTx(d, list[n - 1]) else d
  {
    assert list[..n][..n - 1] == list[..n - 1];
    IdSetMore(list[..n]);
  }

  /** Undoing conflicts children first removes exactly them from the web. */
  lemma {:induction false} UndoEachSound(t: Table, pool: map<Hash, Tx>, c: Cash, txs: seq<Tx>, list: seq<Tx>, n: nat)
    requires Sound(t, PoolWeb(pool), c) && ConflictList(pool, txs, list) && n <= |list|
    requires forall id :: id in pool ==> PoolTx(id, pool[id])
    ensures Sound(t, PoolWeb(Left(pool, list, n)), UndoEach(c, list[..n]))
    ensures UndoEach(c, list[..n]).total == c.total
  {
    if n == 0 {
      assert Left(pool, list, 0) == pool;
    } else {
      UndoEachSound(t, pool, c, txs, list, n - 1);
      ChildrenGone(pool, txs, list, n - 1);
      LeftStep(pool, c, list, n);
      UndoPending(t, Left(pool, list, n - 1), UndoEach(c, list[..n - 1]), list[n - 1]);
    }
  }

  lemma ChildrenGone(pool: map<Hash, Tx>, txs: seq<Tx>, list: seq<Tx>, n: nat)
    requires ConflictList(pool, txs, list) && n < |list|
    ensures list[n].txid in pool && pool[list[n].txid] == list[n]
    ensures
      var keep, tx := Left(pool, list, n), list[n];
      && (tx.txid in keep ==> keep[tx.txid] == tx)
      && forall id :: id in keep ==> !DependsOn(keep[id], tx)
  {
  }

  lemma UndoPending(t: Table, keep: map<Hash, Tx>, c: Cash, tx: Tx)
    requires Sound(t, PoolWeb(keep), c) && PoolTx(tx.txid, tx) && (tx.txid in keep ==> keep[tx.txid] == tx)
    requires forall id :: id in keep ==> !DependsOn(keep[id], tx)
    ensures
      var d := if tx.txid in keep then UndoTx(c, tx) else c;
      Sound(t, PoolWeb(keep - {tx.txid}), d) && d.total == c.total
  {
    if tx.txid in keep {
      NobodyDepends(keep, tx);
      UndoStep(t, PoolWeb(keep), c, tx);
      PoolWebLess(keep, tx.txid);
      TxTotal(c, tx, "");
    } else {
      assert keep - {tx.txid} == keep;
    }
  }

  lemma {:induction false} BlockWebAt(t: Table, txs: seq<Tx>, proposer: Addr, a: nat)
    requires BlockFits(t, txs, proposer) && a < |txs|
    ensures txs[a].txid in BlockWeb(txs, proposer) && BlockWeb(txs, proposer)[txs[a].txid] == Settled(txs[a], proposer)
    ensures forall b :: 0 <= b < |txs| && txs[b].txid == txs[a].txid ==> b == a
  {
    var n := |txs| - 1;
    assert forall b :: 0 <= b < n ==> txs[b].txid == Txids(txs[..n])[b];
    if a < n {
      BlockWebAt(t, txs[..n], proposer, a);
    }
  }

  /** Two transactions of one block never spend the same key. */
  lemma BlockNoClash(t: Table, txs: seq<Tx>, proposer: Addr, a: nat, b: nat)
    requires BlockFits(t, txs, proposer) && a < |txs| && b < |txs| && txs[a].txid != txs[b].txid
    ensures !Clash(txs[a], txs[b])
  {
    var f := BlockWeb(txs, proposer);
    BlockNet(t, txs, proposer);
    BlockWebAt(t, txs, proposer, a);
    BlockWebAt(t, txs, proposer, b);
    assert Placed(t, f, txs[a].txid);
    forall k | k in Spent(txs[a]) ensures k !in Spent(txs[b]) {
      assert Supplied(t, f, txs[a].txid, k);
    }
  }

  /** A block transaction that spends an output of a pool transaction has that transaction in the block. */
  lemma ParentInBlock(t: Table, pool: map<Hash, Tx>, c: Cash, txs: seq<Tx>, proposer: Addr, a: nat, on: Tx)
    requires Sound(t, PoolWeb(pool), c) && BlockFits(t, txs, proposer) && a < |txs|
    requires on.txid in pool && pool[on.txid] == on && DependsOn(txs[a], on)
    ensures on.txid in Txids(txs)
  {
    var k :| k in Spent(txs[a]) && k in Outs(on);
    var f := BlockWeb(txs, proposer);
    BlockNet(t, txs, proposer);
    BlockWebAt(t, txs, proposer, a);
    WebKeys(txs, proposer);
    assert Placed(t, f, txs[a].txid);
    assert Supplied(t, f, txs[a].txid, k);
    assert Placed(t, PoolWeb(pool), on.txid);
  }

  /** No transaction of the block is among the conflicts. */
  lemma {:induction false} ConflictsOutside(t: Table, pool: map<Hash, Tx>, c: Cash, txs: seq<Tx>, proposer: Addr,
        list: seq<Tx>, i: nat)
    requires Sound(t, PoolWeb(pool), c) && BlockFits(t, txs, proposer) && SameTxs(pool, txs)
    requires ConflictList(pool, txs, list) && i < |list|
    ensures list[i].txid !in Txids(txs)
    decreases |list| - i
  {
    if list[i].txid in Txids(txs) {
      var a :| 0 <= a < |txs| && txs[a].txid == list[i].txid;
      assert txs[a] == list[i] && Conflicting(pool, txs, list, i);
      if b :| 0 <= b < |txs| && txs[b].txid !in pool && Clash(txs[b], list[i]) {
        BlockNoClash(t, txs, proposer, b, a);
      } else {
        var j :| i < j < |list| && DependsOn(list[i], list[j]);
        ParentInBlock(t, pool, c, txs, proposer, a, list[j]);
        ConflictsOutside(t, pool, c, txs, proposer, list, j);
      }
    }
  }

  // ----- Playing

  /** A block over a state with pool transactions applied: undo the conflicts, do what is not applied yet, pay fees. */
  function PlayOver(m: Machine, id: Hash, blk: Blk, conflicts: seq<Tx>, irreversible: nat): Machine {
    Machine(PlayTxs(UndoEach(m.cash, conflicts), blk.txs, blk.proposer, m.pool.Keys), id,
            Left(m.pool, conflicts, |conflicts|) - IdSet(blk.txs), irreversible)
  }

  /** The block this node made itself: coinbase and generated transactions are done, all others count as applied. */
  function PlayMined(m: Machine, id: Hash, blk: Blk, irreversible: nat): Machine {
    Machine(PlayTxs(m.cash, blk.txs, blk.proposer, Ordinary(blk.txs)), id, m.pool - IdSet(blk.txs), irreversible)
  }

  function Ordinary(txs: seq<Tx>): set<Hash> {
    set i | 0 <= i < |txs| && !txs[i].coinbase && !txs[i].autogen :: txs[i].txid
  }

  /** In a block made here the transactions from the pool are those that are neither coinbase nor generated. */
  ghost predicate PooledByFlags(pool: map<Hash, Tx>, txs: seq<Tx>) {
    forall i :: 0 <= i < |txs| ==> (txs[i].txid in pool <==> !txs[i].coinbase && !txs[i].autogen)
  }

  lemma {:induction false} OrdinaryIsPooled(pool: map<Hash, Tx>, txs: seq<Tx>)
    requires PooledByFlags(pool, txs)
    ensures forall i :: 0 <= i < |txs| ==> (txs[i].txid in pool <==> txs[i].txid in Ordinary(txs))
  {
  }

  /** Only what is applied among the block's own transactions matters. */
  lemma {:induction false} SameApplied(c: Cash, txs: seq<Tx>, proposer: Addr, a: set<Hash>, b: set<Hash>)
    requires forall i :: 0 <= i < |txs| ==> (txs[i].txid in a <==> txs[i].txid in b)
    ensures PlayTxs(c, txs, proposer, a) == PlayTxs(c, txs, proposer, b)
  {
    if txs != [] {
      SameApplied(c, txs[..|txs| - 1], proposer, a, b);
    }
  }

  /** Skipping transactions that issue nothing does not change the total. */
  lemma {:induction false} PlayTotal(c: Cash, txs: seq<Tx>, proposer: Addr, applied: set<Hash>)
    requires forall i :: 0 <= i < |txs| && txs[i].txid in applied ==> !txs[i].coinbase
    ensures PlayTxs(c, txs, proposer, applied).total == c.total + CoinbaseSum(txs)
  {
    if txs != [] {
      var n := |txs| - 1;
      PlayTotal(c, txs[..n], proposer, applied);
      var d := PlayTxs(c, txs[..n], proposer, applied);
      TxTotal(d, txs[n], proposer);
      TxTotal(DoTx(d, txs[n]), txs[n], proposer);
    }
  }

  lemma {:induction false} MixedSplits(keep: map<Hash, Tx>, txs: seq<Tx>, proposer: Addr)
    ensures Mixed(keep, txs, proposer) == BlockWeb(txs, proposer) + PoolWeb(keep - IdSet(txs))
    ensures BlockWeb(txs, proposer).Keys !! PoolWeb(keep - IdSet(txs)).Keys
  {
    WebKeys(txs, proposer);
  }

  /** The settled block with the pool pending is the replayed block with the rest of the pool on top. */
  lemma PlaySound(t: Table, keep: map<Hash, Tx>, c: Cash, txs: seq<Tx>, proposer: Addr)
    requires Sound(t, PoolWeb(keep), c) && BlockFits(t, txs, proposer) && SameTxs(keep, txs)
    requires Doable(keep, c, txs, proposer)
    ensures Sound(BlockTable(t, txs, proposer), PoolWeb(keep - IdSet(txs)), PlayTxs(c, txs, proposer, keep.Keys))
  {
    PlayPrefix(t, keep, c, txs, proposer);
    MixedSplits(keep, txs, proposer);
    BlockNet(t, txs, proposer);
    NetAfterNet(t, BlockWeb(txs, proposer), BlockTable(t, txs, proposer), PoolWeb(keep - IdSet(txs)),
                PlayTxs(c, txs, proposer, keep.Keys).table);
  }

  /** Once the conflicts are gone, no transaction of the pool clashes with one from outside. */
  lemma {:induction false} NoClashLeft(pool: map<Hash, Tx>, txs: seq<Tx>, list: seq<Tx>, keep: map<Hash, Tx>, c: Cash,
        proposer: Addr, n: nat)
    requires ConflictList(pool, txs, list) && keep == Left(pool, list, |list|) && n <= |txs|
    requires forall i :: 0 <= i < |txs| && txs[i].txid in pool ==> txs[i].txid in keep
    ensures Doable(keep, c, txs[..n], proposer)
  {
    if n > 0 {
      NoClashLeft(pool, txs, list, keep, c, proposer, n - 1);
      assert txs[..n][..n - 1] == txs[..n - 1] && list[..|list|] == list;
      var tx := txs[n - 1];
      if tx.txid !in keep {
        forall id | id in keep ensures !Clash(tx, keep[id]) {
          assert id !in Txids(list);
        }
      }
    }
  }

  /** What remains of the pool is off the longer chain. */
  lemma PoolAfter(v: View, m: Machine, id: Hash, keep: map<Hash, Tx>)
    requires At(v, m.latest) && At(v, id) && id != Empty && v[id].pre == m.latest
    requires forall x :: x in keep ==> PoolTx(x, keep[x]) && x !in PathTxids(v, m.latest)
    ensures forall x :: x in keep - IdSet(v[id].txs) ==> PoolTx(x, keep[x]) && x !in PathTxids(v, id)
  {
  }

  lemma PlayOverSound(t: Table, m: Machine, blk: Blk, conflicts: seq<Tx>)
    requires Sound(t, PoolWeb(m.pool), m.cash) && BlockFits(t, blk.txs, blk.proposer)
    requires forall x :: x in m.pool ==> PoolTx(x, m.pool[x])
    requires SameTxs(m.pool, blk.txs) && ConflictList(m.pool, blk.txs, conflicts)
    ensures
      var played := PlayOver(m, m.latest, blk, conflicts, 0);
      && Sound(BlockTable(t, blk.txs, blk.proposer), PoolWeb(played.pool), played.cash)
      && played.cash.total == m.cash.total + CoinbaseSum(blk.txs)
  {
    var txs, proposer, n := blk.txs, blk.proposer, |conflicts|;
    var keep, c := Left(m.pool, conflicts, n), UndoEach(m.cash, conflicts);
    assert conflicts[..n] == conflicts && txs[..|txs|] == txs;
    UndoEachSound(t, m.pool, m.cash, txs, conflicts, n);
    KeepsBlock(t, m, txs, proposer, conflicts);
    NoClashLeft(m.pool, txs, conflicts, keep, c, proposer, |txs|);
    PlaySound(t, keep, c, txs, proposer);
    SameApplied(c, txs, proposer, m.pool.Keys, keep.Keys);
    PlayTotal(c, txs, proposer, m.pool.Keys);
  }

  lemma {:induction false} PlayReplays(v: View, m: Machine, id: Hash, conflicts: seq<Tx>, irreversible: nat)
    requires Faithful(v, m) && id in v && v[id].pre == m.latest && id != Empty
    requires BlockFits(TableAt(v, m.latest), v[id].txs, v[id].proposer)
    requires SameTxs(m.pool, v[id].txs) && ConflictList(m.pool, v[id].txs, conflicts)
    ensures Faithful(v, PlayOver(m, id, v[id], conflicts, irreversible))
  {
    ParentAt(v, id);
    PlayOverSound(TableAt(v, m.latest), m, v[id], conflicts);
    PoolAfter(v, m, id, Left(m.pool, conflicts, |conflicts|));
    assert ChainFits(v, id);
  }

  /** Playing a block over an applied pool leaves a valid machine valid exactly when the block is valid on its parent.
      */
  lemma {:induction false} PlayValidIff(v: View, m: Machine, id: Hash, conflicts: seq<Tx>, irreversible: nat)
    requires Faithful(v, m) && id in v && v[id].pre == m.latest
    requires SameTxs(m.pool, v[id].txs) && ConflictList(m.pool, v[id].txs, conflicts)
    ensures Faithful(v, PlayOver(m, id, v[id], conflicts, irreversible)) <==>
            BlockFits(TableAt(v, m.latest), v[id].txs, v[id].proposer)
  {
    ParentAt(v, id);
    if BlockFits(TableAt(v, m.latest), v[id].txs, v[id].proposer) {
      PlayReplays(v, m, id, conflicts, irreversible);
    }
  }

  lemma PlayMinedSound(t: Table, m: Machine, blk: Blk)
    requires Sound(t, PoolWeb(m.pool), m.cash) && BlockFits(t, blk.txs, blk.proposer) && SameTxs(m.pool, blk.txs)
    requires forall x :: x in m.pool ==> PoolTx(x, m.pool[x])
    requires PooledByFlags(m.pool, blk.txs)
    requires Doable(m.pool, m.cash, blk.txs, blk.proposer)
    ensures
      var played := PlayMined(m, m.latest, blk, 0);
      && Sound(BlockTable(t, blk.txs, blk.proposer), PoolWeb(played.pool), played.cash)
      && played.cash.total == m.cash.total + CoinbaseSum(blk.txs)
  {
    PlaySound(t, m.pool, m.cash, blk.txs, blk.proposer);
    OrdinaryIsPooled(m.pool, blk.txs);
    SameApplied(m.cash, blk.txs, blk.proposer, Ordinary(blk.txs), m.pool.Keys);
    PlayTotal(m.cash, blk.txs, blk.proposer, Ordinary(blk.txs));
  }

  /** Likewise for a block this node made, when exactly its ordinary transactions come from the pool and the others
      found their inputs. */
  lemma {:induction false} MineValidIff(v: View, m: Machine, id: Hash, irreversible: nat)
    requires Faithful(v, m) && id in v && v[id].pre == m.latest && SameTxs(m.pool, v[id].txs)
    requires PooledByFlags(m.pool, v[id].txs)
    requires Doable(m.pool, m.cash, v[id].txs, v[id].proposer)
    ensures Faithful(v, PlayMined(m, id, v[id], irreversible)) <==>
            BlockFits(TableAt(v, m.latest), v[id].txs, v[id].proposer)
  {
    ParentAt(v, id);
    if BlockFits(TableAt(v, m.latest), v[id].txs, v[id].proposer) {
      PlayMinedSound(TableAt(v, m.latest), m, v[id]);
      PoolAfter(v, m, id, m.pool);
      assert ChainFits(v, id);
    }
  }

  lemma KeepsBlock(t: Table, m: Machine, txs: seq<Tx>, proposer: Addr, list: seq<Tx>)
    requires Sound(t, PoolWeb(m.pool), m.cash) && BlockFits(t, txs, proposer) && SameTxs(m.pool, txs)
    requires ConflictList(m.pool, txs, list)
    ensures forall i :: 0 <= i < |txs| ==> (txs[i].txid in m.pool <==> txs[i].txid in Left(m.pool, list, |list|))
    ensures SameTxs(Left(m.pool, list, |list|), txs)
  {
    assert list[..|list|] == list;
    forall i | 0 <= i < |txs| ensures txs[i].txid !in Txids(list) {
      assert Txids(txs)[i] == txs[i].txid;
      if txs[i].txid in Txids(list) {
        var j :| 0 <= j < |list| && list[j].txid == txs[i].txid;
        ConflictsOutside(t, m.pool, m.cash, txs, proposer, list, j);
      }
    }
  }
}
