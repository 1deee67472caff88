/** Transactions that come again: once on the chain, one with inputs no longer passes its check. */
module Repeats {
  import opened Tree
  import opened Transactions
  import opened Effects
  import opened Utxo
  import opened Worth
  import opened Chain
  import opened Touch
  import opened Reversal
  import opened Machine
  import opened Check
  import opened Checked

  /** Every block of the chain has new txids and names, in its inputs, entries of its parent's table or its own. */
  ghost predicate ChainKnown(v: View, b: Hash)
    requires At(v, b)
    decreases Depth(v, b)
  {
    b == Empty || (
      ParentAt(v, b);
      && ChainKnown(v, v[b].pre) && NewOnPath(v, b)
      && AllKnown(TableAt(v, v[b].pre), v[b].txs, v[b].proposer))
  }

  /** The transaction is in a block of the chain. */
  ghost predicate OnChain(v: View, b: Hash, tx: Tx)
    requires At(v, b)
    decreases Depth(v, b)
  {
    b != Empty && (
      ParentAt(v, b);
      tx in v[b].txs || OnChain(v, v[b].pre, tx))
  }

  /** The block neither makes nor brings back what the chain below it has spent. */
  lemma {:induction false} StaysGone(t: Table, txs: seq<Tx>, proposer: Addr, k: Key)
    requires NewIds(t, txs) && k !in t && k.txid !in Txids(txs)
    ensures k !in BlockTable(t, txs, proposer)
  {
    assert txs[..|txs|] == txs;
    assert forall a :: 0 <= a < |txs| ==> txs[a].txid == Txids(txs)[a];
    if k in BlockTable(t, txs, proposer) {
      var a := NewEntry(t, txs, proposer, |txs|, k);
    }
  }

  /** What a transaction of the block spends is gone after it. */
  lemma {:induction false} SpentIsGone(t: Table, txs: seq<Tx>, proposer: Addr, n: nat, k: Key)
    requires NewIds(t, txs) && n < |txs| && k in Spent(txs[n]) && KnownKey(t, txs, proposer, n, k)
    ensures k !in BlockTable(t, txs, proposer) && (k in t || k.txid in Txids(txs))
  {
    assert txs[..|txs|] == txs;
    if k in t {
      OldEntry(t, txs, proposer, |txs|, k);
      assert SpentBefore(txs, |txs|, k);
    } else {
      var a :| 0 <= a < n && k in Settled(txs[a], proposer).made;
      OneMaker(t, txs, proposer, |txs|, k, a);
      assert Txids(txs)[a] == txs[a].txid;
      if k in BlockTable(t, txs, proposer) {
        var c := NewEntry(t, txs, proposer, |txs|, k);
      }
    }
  }

  lemma {:induction false} SpentOnChain(v: View, b: Hash, tx: Tx, k: Key)
    requires At(v, b) && ChainKnown(v, b) && OnChain(v, b, tx) && k in Spent(tx)
    ensures k !in TableAt(v, b) && k.txid in PathTxids(v, b)
    decreases Depth(v, b)
  {
    ParentAt(v, b);
    var t, txs, proposer := TableAt(v, v[b].pre), v[b].txs, v[b].proposer;
    NewOnPathIds(v, b);
    if tx in txs {
      var n :| 0 <= n < |txs| && txs[n] == tx;
      assert KnownInputs(t, txs, proposer, n);
      SpentKeysTo(tx, |tx.inputs|, k);
      SpentIsGone(t, txs, proposer, n, k);
      if k in t {
        TableTagged(v, v[b].pre, k);
      }
    } else {
      SpentOnChain(v, v[b].pre, tx, k);
      StaysGone(t, txs, proposer, k);
    }
  }

  /** A transaction with inputs that is on the applied chain already does not pass its check again. */
  lemma {:induction false} RepeatRefused(v: View, m: Machine, tx: Tx)
    requires Replayed(v, m) && ChainKnown(v, m.latest) && OnChain(v, m.latest, tx) && tx.inputs != []
    ensures !Seen(m.cash.table, m.cash.table, tx)
  {
    var k := KeyOf(tx.inputs[0]);
    SpentKeysTo(tx, |tx.inputs|, k);
    SpentOnChain(v, m.latest, tx, k);
    assert NetAt(TableAt(v, m.latest), PoolWeb(m.pool), m.cash.table, k);
    assert !SeenInput(m.cash.table, m.cash.table, tx.inputs[0]);
  }

  /** What has to be taken for granted of a block: a txid stands for one transaction and is not twice in the block, and
      transactions without inputs are new. */
  ghost predicate Named(v: View, id: Hash)
    requires id in v && At(v, v[id].pre)
  {
    && DistinctIds(v[id].txs)
    && forall i :: 0 <= i < |v[id].txs| && v[id].txs[i].txid in PathTxids(v, v[id].pre) ==>
         OnChain(v, v[id].pre, v[id].txs[i]) && v[id].txs[i].inputs != []
  }

  lemma {:induction false} CheckedIsNewTo(v: View, id: Hash, t: Table, n: nat)
    requires id in v && At(v, v[id].pre) && ChainKnown(v, v[id].pre) && Named(v, id) && t == TableAt(v, v[id].pre)
    requires AllSeen(t, v[id].txs, v[id].proposer) && n <= |v[id].txs|
    ensures forall i :: 0 <= i < n ==> v[id].txs[i].txid !in PathTxids(v, v[id].pre)
  {
    if n > 0 {
      var pre, txs, proposer := v[id].pre, v[id].txs, v[id].proposer;
      var m := n - 1;
      CheckedIsNewTo(v, id, t, m);
      if txs[m].txid in PathTxids(v, pre) {
        var k := KeyOf(txs[m].inputs[0]);
        SpentKeysTo(txs[m], |txs[m].inputs|, k);
        SpentOnChain(v, pre, txs[m], k);
        AllSeenAt(t, txs, proposer, m);
        assert SeenInput(t, BlockTable(t, txs[..m], proposer), txs[m].inputs[0]);
        var a := MakerOf(t, txs, proposer, m, k);
      }
    }
  }

  lemma {:induction false} MakerOf(t: Table, txs: seq<Tx>, proposer: Addr, m: nat, k: Key) returns (a: nat)
    requires m <= |txs| && k !in t && k in BlockTable(t, txs[..m], proposer)
    ensures a < m && txs[a].txid == k.txid && k in Settled(txs[a], proposer).made
  {
    BlockThrough(t, txs[..m], proposer);
    a := MadeIfThere(t, SettledAll(txs[..m], proposer), k);
    SettledTagged(txs[a], proposer);
  }

  /** What passed its check names entries of the table or the block. */
  lemma {:induction false} SeenIsKnown(t: Table, txs: seq<Tx>, proposer: Addr)
    requires AllSeen(t, txs, proposer)
    ensures AllKnown(t, txs, proposer)
  {
    forall n, i | 0 <= n < |txs| && 0 <= i < |txs[n].inputs|
      ensures KnownKey(t, txs, proposer, n, KeyOf(txs[n].inputs[i]))
    {
      AllSeenAt(t, txs, proposer, n);
      assert SeenInput(t, BlockTable(t, txs[..n], proposer), txs[n].inputs[i]);
      if KeyOf(txs[n].inputs[i]) !in t {
        var a := MakerOf(t, txs, proposer, n, KeyOf(txs[n].inputs[i]));
      }
    }
  }

  /** The txids of a block that passed its check are new to its chain, and the longer chain is such a chain again: only
      transactions without inputs have to be taken on trust. */
  lemma {:induction false} CheckedIsNew(v: View, id: Hash)
    requires id in v && At(v, v[id].pre) && ChainKnown(v, v[id].pre) && Named(v, id)
    requires AllSeen(TableAt(v, v[id].pre), v[id].txs, v[id].proposer)
    ensures NewOnPath(v, id) && ChainKnown(v, id)
  {
    var txs := v[id].txs;
    CheckedIsNewTo(v, id, TableAt(v, v[id].pre), |txs|);
    forall x | x in Txids(txs) ensures x !in PathTxids(v, v[id].pre) {
      var i :| 0 <= i < |txs| && Txids(txs)[i] == x;
    }
    SeenIsKnown(TableAt(v, v[id].pre), txs, v[id].proposer);
  }
}
