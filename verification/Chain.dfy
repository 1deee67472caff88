/** Blocks on the UTXO table: playing and undoing them, and the plain replay of a chain from its root. */
module Chain {
  import opened Tree
  import opened Transactions
  import opened Effects
  import opened Utxo
  import opened Worth

  /** The part of a stored block that never changes. */
  datatype Blk = Blk(pre: Hash, height: nat, proposer: Addr, txs: seq<Tx>)

  type View = map<Hash, Blk>

  ghost function Nodes(v: View): (t: Shape)
    ensures t.Keys == v.Keys
  {
    map b | b in v :: Node(v[b].pre, v[b].height)
  }

  // ----- Playing and undoing the transactions of a block

  /** Do each transaction that is not applied yet, and pay the fees of every one. */
  function PlayTxs(c: Cash, txs: seq<Tx>, proposer: Addr, applied: set<Hash>): Cash {
    if txs == [] then c else
    var tx := txs[|txs| - 1];
    var d := PlayTxs(c, txs[..|txs| - 1], proposer, applied);
    PayFee(if tx.txid in applied then d else DoTx(d, tx), tx, proposer)
  }

  /** From the last to the first, undo each transaction that is not undone yet, then its fees. */
  function UndoTxs(c: Cash, txs: seq<Tx>, proposer: Addr, undone: set<Hash>): Cash
    decreases |txs|
  {
    if txs == [] then c else
    var tx := txs[|txs| - 1];
    UndoTxs(UndoFee(if tx.txid in undone then c else UndoTx(c, tx), tx, proposer), txs[..|txs| - 1], proposer, undone)
  }

  // ----- Plain replay, as effects

  ghost function BlockTable(t: Table, txs: seq<Tx>, proposer: Addr): Table {
    if txs == [] then t else Apply(BlockTable(t, txs[..|txs| - 1], proposer), Settled(txs[|txs| - 1], proposer))
  }

  ghost function BlockWeb(txs: seq<Tx>, proposer: Addr): Web {
    if txs == [] then map[]
    else BlockWeb(txs[..|txs| - 1], proposer)[txs[|txs| - 1].txid := Settled(txs[|txs| - 1], proposer)]
  }

  ghost function CoinbaseSum(txs: seq<Tx>): nat {
    if txs == [] then 0
    else CoinbaseSum(txs[..|txs| - 1]) + if txs[|txs| - 1].coinbase then OutSum(txs[|txs| - 1]) else 0
  }

  /** The transaction spends, as recorded, what is there after the ones before it, and makes only new entries. */
  ghost predicate TxFits(t: Table, u: Table, tx: Tx, proposer: Addr) {
    && DistinctInputs(tx) && Balanced(tx)
    && Within(Spent(tx), u) && Settled(tx, proposer).made.Keys !! t.Keys
  }

  /** Playing the transactions one after the other from table t succeeds. */
  ghost predicate BlockFits(t: Table, txs: seq<Tx>, proposer: Addr) {
    txs == [] ||
    var init, tx := txs[..|txs| - 1], txs[|txs| - 1];
    BlockFits(t, init, proposer) && tx.txid !in Txids(init) && TxFits(t, BlockTable(t, init, proposer), tx, proposer)
  }

  lemma {:induction false} WebKeys(txs: seq<Tx>, proposer: Addr)
    ensures forall id :: id in BlockWeb(txs, proposer) <==> id in Txids(txs)
  {
    if txs != [] {
      var n := |txs| - 1;
      WebKeys(txs[..n], proposer);
      assert Txids(txs) == Txids(txs[..n]) + [txs[n].txid];
    }
  }

  /** A block that fits is its web of settled effects, whatever its order. */
  lemma {:induction false} BlockNet(t: Table, txs: seq<Tx>, proposer: Addr)
    requires BlockFits(t, txs, proposer)
    ensures IsNet(t, BlockWeb(txs, proposer), BlockTable(t, txs, proposer))
  {
    if txs == [] {
      EmptyNet(t);
    } else {
      var n := |txs| - 1;
      BlockNet(t, txs[..n], proposer);
      WebKeys(txs[..n], proposer);
      SettledTagged(txs[n], proposer);
      AddEffect(t, BlockWeb(txs[..n], proposer), BlockTable(t, txs[..n], proposer), txs[n].txid,
                Settled(txs[n], proposer));
    }
  }

  /** What a transaction of a block makes was not there just before it. */
  lemma NewBefore(t: Table, txs: seq<Tx>, proposer: Addr, tx: Tx)
    requires BlockFits(t, txs, proposer) && tx.txid !in Txids(txs) && Settled(tx, proposer).made.Keys !! t.Keys
    ensures Settled(tx, proposer).made.Keys !! BlockTable(t, txs, proposer).Keys
  {
    BlockNet(t, txs, proposer);
    WebKeys(txs, proposer);
    SettledTagged(tx, proposer);
    forall k | k in Settled(tx, proposer).made ensures k !in BlockTable(t, txs, proposer) {
      assert NetAt(t, BlockWeb(txs, proposer), BlockTable(t, txs, proposer), k);
    }
  }

  lemma {:induction false} PlayTable(c: Cash, txs: seq<Tx>, proposer: Addr)
    ensures PlayTxs(c, txs, proposer, {}).table == BlockTable(c.table, txs, proposer)
    ensures PlayTxs(c, txs, proposer, {}).total == c.total + CoinbaseSum(txs)
  {
    if txs != [] {
      var n := |txs| - 1;
      var d := PlayTxs(c, txs[..n], proposer, {});
      PlayTable(c, txs[..n], proposer);
      DoTxTable(d, txs[n], proposer);
      TxTotal(d, txs[n], proposer);
      TxTotal(DoTx(d, txs[n]), txs[n], proposer);
    }
  }

  /** Undoing a block inverts playing it, though each fee is undone after its transaction and
      transactions may spend each other's outputs. */
  lemma {:induction false} UndoInvertsPlay(c: Cash, t: Table, txs: seq<Tx>, proposer: Addr)
    requires BlockFits(t, txs, proposer) && c.table == BlockTable(t, txs, proposer)
    ensures UndoTxs(c, txs, proposer, {}).table == t
    ensures UndoTxs(c, txs, proposer, {}).total == c.total - CoinbaseSum(txs)
    decreases |txs|
  {
    if txs != [] {
      var n := |txs| - 1;
      var tx, before := txs[n], BlockTable(t, txs[..n], proposer);
      var d := UndoFee(UndoTx(c, tx), tx, proposer);
      UndoTxTable(c, tx, proposer);
      TxTotal(c, tx, proposer);
      TxTotal(UndoTx(c, tx), tx, proposer);
      NewBefore(t, txs[..n], proposer, tx);
      RevertApply(before, Settled(tx, proposer));
      UndoInvertsPlay(d, t, txs[..n], proposer);
    }
  }

  // ----- Chains

  ghost predicate At(v: View, b: Hash) {
    Forest(Nodes(v)) && (b == Empty || b in v)
  }

  lemma ParentAt(v: View, b: Hash)
    requires At(v, b) && b != Empty
    ensures At(v, v[b].pre) && (v[b].pre != Empty ==> v[v[b].pre].height < v[b].height)
  {
    assert Linked(Nodes(v), b);
  }

  ghost function Depth(v: View, b: Hash): nat
    requires At(v, b)
  {
    if b == Empty then 0 else v[b].height + 1
  }

  /** The table from replaying the chain that ends in b, from nothing. */
  ghost function TableAt(v: View, b: Hash): Table
    requires At(v, b)
    decreases Depth(v, b)
  {
    if b == Empty then map[] else
    ParentAt(v, b);
    BlockTable(TableAt(v, v[b].pre), v[b].txs, v[b].proposer)
  }

  ghost function TotalAt(v: View, b: Hash): int
    requires At(v, b)
    decreases Depth(v, b)
  {
    if b == Empty then 0 else
    ParentAt(v, b);
    TotalAt(v, v[b].pre) + CoinbaseSum(v[b].txs)
  }

  ghost predicate ChainFits(v: View, b: Hash)
    requires At(v, b)
    decreases Depth(v, b)
  {
    b == Empty || (
      ParentAt(v, b);
      ChainFits(v, v[b].pre) && BlockFits(TableAt(v, v[b].pre), v[b].txs, v[b].proposer))
  }

  /** The txids of the chain that ends in b. */
  ghost function PathTxids(v: View, b: Hash): set<Hash>
    requires At(v, b)
    decreases Depth(v, b)
  {
    if b == Empty then {} else
    ParentAt(v, b);
    PathTxids(v, v[b].pre) + set id | id in Txids(v[b].txs)
  }

  lemma {:induction false} BlockTagged(t: Table, txs: seq<Tx>, proposer: Addr, k: Key)
    requires k in BlockTable(t, txs, proposer)
    ensures k in t || k.txid in Txids(txs)
  {
    if txs != [] {
      var n := |txs| - 1;
      SettledTagged(txs[n], proposer);
      assert Txids(txs)[n] == txs[n].txid;
      if k in BlockTable(t, txs[..n], proposer) {
        BlockTagged(t, txs[..n], proposer, k);
        assert Txids(txs)[..n] == Txids(txs[..n]);
      }
    }
  }

  /** Every entry of the replayed table comes from a transaction of the chain. */
  lemma {:induction false} TableTagged(v: View, b: Hash, k: Key)
    requires At(v, b) && k in TableAt(v, b)
    ensures k.txid in PathTxids(v, b)
    decreases Depth(v, b)
  {
    ParentAt(v, b);
    BlockTagged(TableAt(v, v[b].pre), v[b].txs, v[b].proposer, k);
    if k.txid !in Txids(v[b].txs) {
      TableTagged(v, v[b].pre, k);
    }
  }

  /** Adding blocks to the tree changes nothing about the chains already there. */
  lemma {:induction false} ChainExtends(v: View, w: View, b: Hash)
    requires At(v, b) && Forest(Nodes(w)) && forall x :: x in v ==> x in w && w[x] == v[x]
    ensures TableAt(w, b) == TableAt(v, b) && TotalAt(w, b) == TotalAt(v, b)
    ensures ChainFits(w, b) <==> ChainFits(v, b)
    ensures PathTxids(w, b) == PathTxids(v, b)
    decreases Depth(v, b)
  {
    if b != Empty {
      ParentAt(v, b);
      ChainExtends(v, w, v[b].pre);
    }
  }
}
