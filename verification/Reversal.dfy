/** Blocks as sequences of effects: exactly when undoing one, or a chain of them, restores the table. */
module Reversal {
  import opened Tree
  import opened Transactions
  import opened Effects
  import opened Utxo
  import opened Worth
  import opened Chain
  import opened Touch

  // ----- One block

  /** The settled effects of the transactions, in order. */
  function SettledAll(txs: seq<Tx>, proposer: Addr): (es: seq<Effect>)
    ensures |es| == |txs| && forall i :: 0 <= i < |txs| ==> es[i] == Settled(txs[i], proposer)
  {
    if txs == [] then [] else SettledAll(txs[..|txs| - 1], proposer) + [Settled(txs[|txs| - 1], proposer)]
  }

  lemma {:induction false} BlockThrough(t: Table, txs: seq<Tx>, proposer: Addr)
    ensures BlockTable(t, txs, proposer) == Through(t, SettledAll(txs, proposer))
  {
    if txs != [] {
      BlockThrough(t, txs[..|txs| - 1], proposer);
    }
  }

  /** Undoing a block goes back over its effects, and takes back what it has issued. */
  lemma {:induction false} UndoGoesBack(c: Cash, txs: seq<Tx>, proposer: Addr)
    ensures UndoTxs(c, txs, proposer, {}).table == Back(c.table, SettledAll(txs, proposer))
    ensures UndoTxs(c, txs, proposer, {}).total == c.total - CoinbaseSum(txs)
    decreases |txs|
  {
    if txs != [] {
      var n := |txs| - 1;
      UndoTxTable(c, txs[n], proposer);
      TxTotal(c, txs[n], proposer);
      TxTotal(UndoTx(c, txs[n]), txs[n], proposer);
      UndoGoesBack(UndoFee(UndoTx(c, txs[n]), txs[n], proposer), txs[..n], proposer);
    }
  }

  /** Of every key of the block, the first transaction that touches it makes it and it was not there, or spends it as
      the table has it. */
  ghost predicate Restores(t: Table, txs: seq<Tx>, proposer: Addr) {
    forall k :: RestoredAt(t, SettledAll(txs, proposer), k)
  }

  /** Undoing a played block restores the table if and only if the first transaction that touches a key makes it anew or
      declares it as recorded. It always restores the total. */
  lemma {:induction false} UndoRestoresIff(c: Cash, t: Table, txs: seq<Tx>, proposer: Addr)
    requires c.table == BlockTable(t, txs, proposer)
    ensures UndoTxs(c, txs, proposer, {}).table == t <==> Restores(t, txs, proposer)
    ensures UndoTxs(c, txs, proposer, {}).total == c.total - CoinbaseSum(txs)
  {
    BlockThrough(t, txs, proposer);
    UndoGoesBack(c, txs, proposer);
    BackInvertsIff(t, SettledAll(txs, proposer));
  }

  /** A block that replays is restored. */
  lemma {:induction false} FitsRestores(t: Table, txs: seq<Tx>, proposer: Addr)
    requires BlockFits(t, txs, proposer)
    ensures Restores(t, txs, proposer)
  {
    var c := Cash(BlockTable(t, txs, proposer), 0, map[]);
    UndoInvertsPlay(c, t, txs, proposer);
    UndoRestoresIff(c, t, txs, proposer);
  }

  /** Undoing a block whose transactions are all skipped, being undone already, takes back its fees and nothing else. */
  lemma {:induction false} SkippedLosesFees(c: Cash, txs: seq<Tx>, proposer: Addr, undone: set<Hash>, k: Key)
    requires forall i :: 0 <= i < |txs| ==> txs[i].txid in undone
    ensures
      var d := UndoTxs(c, txs, proposer, undone);
      && d.total == c.total
      && (k in d.table <==> k in c.table && forall i :: 0 <= i < |txs| ==> k !in Fees(txs[i], proposer))
      && (k in d.table ==> d.table[k] == c.table[k])
    decreases |txs|
  {
    if txs != [] {
      var n := |txs| - 1;
      UndoTxTable(c, txs[n], proposer);
      TxTotal(c, txs[n], proposer);
      SkippedLosesFees(UndoFee(c, txs[n], proposer), txs[..n], proposer, undone, k);
      assert forall i :: 0 <= i < n ==> txs[..n][i] == txs[i];
    }
  }

  // ----- A chain of blocks

  /** The effects of the listed blocks, which lead from the top down, in the order of the chain. */
  ghost function EffectsDown(v: View, list: seq<Hash>): seq<Effect>
    requires forall i :: 0 <= i < |list| ==> list[i] in v
  {
    if list == [] then [] else
    var b := list[|list| - 1];
    SettledAll(v[b].txs, v[b].proposer) + EffectsDown(v, list[..|list| - 1])
  }

  lemma {:induction false} EffectsStep(v: View, t: Table, list: seq<Hash>)
    requires list != [] && forall i :: 0 <= i < |list| ==> list[i] in v
    ensures
      var b, rest := list[|list| - 1], list[..|list| - 1];
      && Through(t, EffectsDown(v, list)) == Through(BlockTable(t, v[b].txs, v[b].proposer), EffectsDown(v, rest))
      && Back(t, EffectsDown(v, list)) == Back(Back(t, EffectsDown(v, rest)), SettledAll(v[b].txs, v[b].proposer))
  {
    var b, rest := list[|list| - 1], list[..|list| - 1];
    ThroughConcat(t, SettledAll(v[b].txs, v[b].proposer), EffectsDown(v, rest));
    BackConcat(t, SettledAll(v[b].txs, v[b].proposer), EffectsDown(v, rest));
    BlockThrough(t, v[b].txs, v[b].proposer);
  }

  /** What the listed blocks have issued. */
  ghost function Issued(v: View, list: seq<Hash>): int
    requires forall i :: 0 <= i < |list| ==> list[i] in v
  {
    if list == [] then 0 else CoinbaseSum(v[list[|list| - 1]].txs) + Issued(v, list[..|list| - 1])
  }

  /** Blocks of one chain, from the top down. */
  ghost predicate Falling(v: View, list: seq<Hash>) {
    && Forest(Nodes(v)) && (forall i :: 0 <= i < |list| ==> list[i] in v)
    && forall i :: 0 < i < |list| ==> v[list[i - 1]].pre == list[i]
  }

  /** The block the lowest listed one stands on. */
  ghost function Foot(v: View, list: seq<Hash>): (b: Hash)
    requires Falling(v, list) && list != []
    ensures At(v, b)
  {
    ParentAt(v, list[|list| - 1]);
    v[list[|list| - 1]].pre
  }

  /** The replay of a chain is the replay of a lower part of it, and then the effects above. */
  lemma {:induction false} ReplayAbove(v: View, list: seq<Hash>)
    requires Falling(v, list) && list != []
    ensures TableAt(v, list[0]) == Through(TableAt(v, Foot(v, list)), EffectsDown(v, list))
    ensures TotalAt(v, list[0]) == TotalAt(v, Foot(v, list)) + Issued(v, list)
  {
    var n := |list| - 1;
    var b, rest := list[n], list[..n];
    EffectsStep(v, TableAt(v, Foot(v, list)), list);
    if n > 0 {
      assert Foot(v, rest) == b;
      ReplayAbove(v, rest);
    }
  }
}
