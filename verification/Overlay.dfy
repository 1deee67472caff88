/** Playing a block over an applied pool, told key by key: exactly when the table is that of replaying the block with
    what remains of the pool on top. Whether the block is valid does not matter. */
module Overlay {
  import opened Tree
  import opened Transactions
  import opened Effects
  import opened Utxo
  import opened Worth
  import opened Chain
  import opened Touch
  import opened Reversal
  import opened Machine
  import opened Play
  import opened Check
  import opened Checked

  // ----- What playing does to the table

  /** What is done of a transaction: only its fees if it counts as applied. */
  function Played(tx: Tx, proposer: Addr, applied: set<Hash>): Effect {
    if tx.txid in applied then Effect(map[], Fees(tx, proposer)) else Settled(tx, proposer)
  }

  function PlayedAll(txs: seq<Tx>, proposer: Addr, applied: set<Hash>): (es: seq<Effect>)
    ensures |es| == |txs| && forall i :: 0 <= i < |txs| ==> es[i] == Played(txs[i], proposer, applied)
  {
    if txs == [] then []
    else PlayedAll(txs[..|txs| - 1], proposer, applied) + [Played(txs[|txs| - 1], proposer, applied)]
  }

  lemma {:induction false} FeesAlone(t: Table, fees: Table)
    ensures Apply(t, Effect(map[], fees)) == t + fees
  {
    assert t - {} == t;
  }

  lemma {:induction false} PlayThrough(c: Cash, txs: seq<Tx>, proposer: Addr, applied: set<Hash>)
    ensures PlayTxs(c, txs, proposer, applied).table == Through(c.table, PlayedAll(txs, proposer, applied))
  {
    if txs != [] {
      var n := |txs| - 1;
      var d := PlayTxs(c, txs[..n], proposer, applied);
      PlayThrough(c, txs[..n], proposer, applied);
      DoTxTable(d, txs[n], proposer);
      FeesAlone(d.table, Fees(txs[n], proposer));
    }
  }

  // ----- Who spends and who makes a key

  /** A transaction of the pool pays to the key. */
  ghost predicate PaidBy(pool: map<Hash, Tx>, k: Key) {
    k.txid in pool && k in Outs(pool[k.txid])
  }

  ghost predicate SpendsAny(txs: seq<Tx>, k: Key) {
    exists n :: 0 <= n < |txs| && k in Spent(txs[n])
  }

  /** A transaction from outside the pool spends the key. */
  ghost predicate SpendsOutside(pool: map<Hash, Tx>, txs: seq<Tx>, k: Key) {
    exists n :: 0 <= n < |txs| && txs[n].txid !in pool && k in Spent(txs[n])
  }

  /** A transaction that is kept in the pool spends the key. */
  ghost predicate SpendsKept(keep: map<Hash, Tx>, txs: seq<Tx>, k: Key) {
    exists n :: 0 <= n < |txs| && txs[n].txid in keep && k in Spent(txs[n])
  }

  /** A transaction that was undone, and yet counts as applied, spends the key. */
  ghost predicate SpendsGone(pool: map<Hash, Tx>, keep: map<Hash, Tx>, txs: seq<Tx>, k: Key) {
    exists n :: 0 <= n < |txs| && Gone(pool, keep, txs[n]) && k in Spent(txs[n])
  }

  ghost predicate Gone(pool: map<Hash, Tx>, keep: map<Hash, Tx>, tx: Tx) {
    tx.txid in pool && tx.txid !in keep
  }

  /** One transaction of the block pays to the key and a later one spends it. */
  ghost predicate SpentAfter(txs: seq<Tx>, k: Key) {
    exists a, b :: 0 <= a < b < |txs| && k in Outs(txs[a]) && k in Spent(txs[b])
  }

  /** The pool over the table t: what is kept of it is applied in r, and nothing kept stands against the block or rests
      on what was undone. */
  ghost predicate Layered(t: Table, pool: map<Hash, Tx>, keep: map<Hash, Tx>, r: Table, txs: seq<Tx>) {
    && IsNet(t, PoolWeb(keep), r) && NewIds(t, txs) && SameTxs(pool, txs)
    && (forall id :: id in keep ==> id in pool && keep[id] == pool[id])
    && (forall id :: id in pool ==> pool[id].txid == id && Outs(pool[id]).Keys !! t.Keys)
    && (forall id, k :: id in pool && k in Spent(pool[id]) ==> k in t || PaidBy(pool, k))
    && (forall i, j, k :: i in pool && j in pool && k in Spent(pool[i]) && k in Spent(pool[j]) ==> i == j)
    && (forall n, id :: 0 <= n < |txs| && txs[n].txid !in pool && id in keep ==> !Clash(txs[n], keep[id]))
    && (forall i, id :: i in pool && i !in keep && id in keep ==> !DependsOn(keep[id], pool[i]))
    && (forall m, n :: 0 <= m < |txs| && 0 <= n < |txs| && Gone(pool, keep, txs[m]) && txs[n].txid !in pool ==>
          !Clash(txs[m], txs[n]))
  }

  lemma {:induction false} MadeTagged(txs: seq<Tx>, proposer: Addr, applied: set<Hash>, a: nat, k: Key)
    requires a < |txs|
    ensures k in Settled(txs[a], proposer).made ==> k.txid == txs[a].txid && k.txid in Txids(txs)
    ensures k in Played(txs[a], proposer, applied).made ==> k in Settled(txs[a], proposer).made
  {
    SettledTagged(txs[a], proposer);
    assert Txids(txs)[a] == txs[a].txid;
  }

  // ----- Keys of the table

  lemma {:induction false} BlockNeverMakes(t: Table, txs: seq<Tx>, proposer: Addr, k: Key)
    requires forall i :: 0 <= i < |txs| ==> k !in Settled(txs[i], proposer).made
    ensures
      var b := Through(t, SettledAll(txs, proposer));
      (k in b <==> k in t && !SpendsAny(txs, k)) && (k in b ==> b[k] == t[k])
  {
    var es := SettledAll(txs, proposer);
    NeverMade(t, es, k);
    assert forall i :: 0 <= i < |txs| ==> es[i].spent == Spent(txs[i]);
  }

  lemma {:induction false} PlayNeverMakes(r: Table, pool: map<Hash, Tx>, txs: seq<Tx>, proposer: Addr, k: Key)
    requires forall i :: 0 <= i < |txs| ==> k !in Played(txs[i], proposer, pool.Keys).made
    ensures
      var f := Through(r, PlayedAll(txs, proposer, pool.Keys));
      (k in f <==> k in r && !SpendsOutside(pool, txs, k)) && (k in f ==> f[k] == r[k])
  {
    var fs := PlayedAll(txs, proposer, pool.Keys);
    NeverMade(r, fs, k);
    assert forall i :: 0 <= i < |txs| ==> (k in fs[i].spent <==> txs[i].txid !in pool && k in Spent(txs[i]));
  }

  /** A key of the table: it is in the replayed block's table if the block does not spend it. */
  lemma {:induction false} OldKey(t: Table, r: Table, pool: map<Hash, Tx>, txs: seq<Tx>, proposer: Addr, k: Key)
    requires NewIds(t, txs) && k in t
    ensures
      var b, f := Through(t, SettledAll(txs, proposer)), Through(r, PlayedAll(txs, proposer, pool.Keys));
      && (k in b <==> !SpendsAny(txs, k)) && (k in b ==> b[k] == t[k])
      && (k in f <==> k in r && !SpendsOutside(pool, txs, k)) && (k in f ==> f[k] == r[k])
  {
    forall i | 0 <= i < |txs|
      ensures k !in Settled(txs[i], proposer).made && k !in Played(txs[i], proposer, pool.Keys).made
    {
      MadeTagged(txs, proposer, pool.Keys, i, k);
    }
    BlockNeverMakes(t, txs, proposer, k);
    PlayNeverMakes(r, pool, txs, proposer, k);
  }

  /** What is kept of the pool is what remains and what the block holds of it. */
  lemma {:induction false} KeptSplits(keep: map<Hash, Tx>, txs: seq<Tx>, k: Key)
    requires SameTxs(keep, txs)
    ensures SpentIn(PoolWeb(keep), k) <==> SpentIn(PoolWeb(keep - IdSet(txs)), k) || SpendsKept(keep, txs, k)
  {
    var f, g := PoolWeb(keep), PoolWeb(keep - IdSet(txs));
    if SpentIn(f, k) {
      var id :| id in f && k in f[id].spent;
      if id in Txids(txs) {
        var n :| 0 <= n < |txs| && Txids(txs)[n] == id;
        assert txs[n].txid in keep && k in Spent(txs[n]);
      } else {
        assert id in g && k in g[id].spent;
      }
    }
    if SpentIn(g, k) {
      var id :| id in g && k in g[id].spent;
      assert id in f && k in f[id].spent;
    }
    if SpendsKept(keep, txs, k) {
      var n :| 0 <= n < |txs| && txs[n].txid in keep && k in Spent(txs[n]);
      assert txs[n].txid in f && k in f[txs[n].txid].spent;
    }
  }

  /** Whoever spends a key in the block is from outside, kept, or gone. */
  lemma {:induction false} SpenderKinds(pool: map<Hash, Tx>, keep: map<Hash, Tx>, txs: seq<Tx>, k: Key)
    requires forall id :: id in keep ==> id in pool
    ensures SpendsAny(txs, k) <==>
            SpendsOutside(pool, txs, k) || SpendsKept(keep, txs, k) || SpendsGone(pool, keep, txs, k)
  {
    if SpendsAny(txs, k) {
      var n :| 0 <= n < |txs| && k in Spent(txs[n]);
      assert txs[n].txid !in pool || txs[n].txid in keep || Gone(pool, keep, txs[n]);
    }
  }

  /** A transaction that is gone is the only one to spend its keys. */
  lemma {:induction false} GoneAlone(t: Table, pool: map<Hash, Tx>, keep: map<Hash, Tx>, r: Table, txs: seq<Tx>, k: Key)
    requires Layered(t, pool, keep, r, txs) && SpendsGone(pool, keep, txs, k)
    ensures !SpendsOutside(pool, txs, k) && !SpentIn(PoolWeb(keep), k)
  {
    var m :| 0 <= m < |txs| && Gone(pool, keep, txs[m]) && k in Spent(txs[m]);
    forall n | 0 <= n < |txs| && txs[n].txid !in pool ensures k !in Spent(txs[n]) {
      assert !Clash(txs[m], txs[n]);
    }
    assert pool[txs[m].txid] == txs[m];
    forall id | id in keep ensures k !in Spent(keep[id]) {
    }
  }

  /** No kept transaction spends what one from outside spends. */
  lemma {:induction false} OutsideAlone(t: Table, pool: map<Hash, Tx>, keep: map<Hash, Tx>, r: Table, txs: seq<Tx>,
        k: Key)
    requires Layered(t, pool, keep, r, txs) && SpendsOutside(pool, txs, k)
    ensures !SpentIn(PoolWeb(keep), k)
  {
    var n :| 0 <= n < |txs| && txs[n].txid !in pool && k in Spent(txs[n]);
    forall id | id in keep ensures k !in Spent(keep[id]) {
      assert !Clash(txs[n], keep[id]);
    }
  }

  /** The replayed block with the rest of the pool on top agrees with the played table under a key of the table exactly
      when no transaction that was undone spends it. */
  lemma {:induction false} OldKeyIff(t: Table, pool: map<Hash, Tx>, keep: map<Hash, Tx>, r: Table, txs: seq<Tx>,
        proposer: Addr, k: Key)
    requires Layered(t, pool, keep, r, txs) && k in t
    ensures
      var b, f := Through(t, SettledAll(txs, proposer)), Through(r, PlayedAll(txs, proposer, pool.Keys));
      NetAt(b, PoolWeb(keep - IdSet(txs)), f, k) <==> !SpendsGone(pool, keep, txs, k)
  {
    OldKey(t, r, pool, txs, proposer, k);
    KeptSplits(keep, txs, k);
    SpenderKinds(pool, keep, txs, k);
    assert NetAt(t, PoolWeb(keep), r, k);
    assert !MadeIn(PoolWeb(keep - IdSet(txs)), k);
    if SpendsGone(pool, keep, txs, k) {
      GoneAlone(t, pool, keep, r, txs, k);
    }
  }

  // ----- Keys made in the block

  /** No transaction of the pool spends a key that is neither in the table nor paid to by the pool. */
  lemma {:induction false} NotPoolSpent(t: Table, pool: map<Hash, Tx>, keep: map<Hash, Tx>, r: Table, txs: seq<Tx>,
        k: Key)
    requires Layered(t, pool, keep, r, txs) && k !in t && !PaidBy(pool, k)
    ensures !SpentIn(PoolWeb(keep), k) && !SpentIn(PoolWeb(keep - IdSet(txs)), k)
    ensures forall n :: 0 <= n < |txs| && txs[n].txid in pool ==> k !in Spent(txs[n])
  {
    forall n | 0 <= n < |txs| && txs[n].txid in pool ensures k !in Spent(txs[n]) {
      assert pool[txs[n].txid] == txs[n];
    }
  }

  /** What playing makes, replaying makes too, and the pool does not. */
  lemma {:induction false} PlayedOnce(t: Table, pool: map<Hash, Tx>, txs: seq<Tx>, proposer: Addr, k: Key, a: nat)
    requires NewIds(t, txs) && SameTxs(pool, txs) && a < |txs| && k in Played(txs[a], proposer, pool.Keys).made
    ensures k !in t && !PaidBy(pool, k) && k.txid == txs[a].txid && k.txid in Txids(txs)
    ensures k in Settled(txs[a], proposer).made
    ensures Settled(txs[a], proposer).made[k] == Played(txs[a], proposer, pool.Keys).made[k]
    ensures forall i :: 0 <= i < |txs| && i != a ==> k !in Settled(txs[i], proposer).made
  {
    MadeTagged(txs, proposer, pool.Keys, a, k);
    SettledTagged(txs[a], proposer);
    forall i | 0 <= i < |txs| && i != a ensures k !in Settled(txs[i], proposer).made {
      MadeTagged(txs, proposer, pool.Keys, i, k);
      assert txs[i].txid != txs[a].txid;
    }
  }

  lemma {:induction false} MadeAlike(t: Table, r: Table, pool: map<Hash, Tx>, txs: seq<Tx>, proposer: Addr, k: Key,
        a: nat)
    requires NewIds(t, txs) && SameTxs(pool, txs) && a < |txs| && k in Played(txs[a], proposer, pool.Keys).made
    requires forall n :: 0 <= n < |txs| && txs[n].txid in pool ==> k !in Spent(txs[n])
    ensures Same(Through(t, SettledAll(txs, proposer)), Through(r, PlayedAll(txs, proposer, pool.Keys)), k)
  {
    var es, fs := SettledAll(txs, proposer), PlayedAll(txs, proposer, pool.Keys);
    PlayedOnce(t, pool, txs, proposer, k, a);
    forall i | 0 <= i < |es| && i != a ensures k !in es[i].made && k !in fs[i].made {
      MadeTagged(txs, proposer, pool.Keys, i, k);
    }
    forall i | 0 <= i < |es| ensures k in es[i].spent <==> k in fs[i].spent {
    }
    MadeOnceAlike(t, r, es, fs, k, a);
  }

  /** Under a key that playing makes, the tables always agree. */
  lemma {:induction false} MadeKey(t: Table, pool: map<Hash, Tx>, keep: map<Hash, Tx>, r: Table, txs: seq<Tx>,
        proposer: Addr, k: Key, a: nat)
    requires Layered(t, pool, keep, r, txs) && a < |txs| && k in Played(txs[a], proposer, pool.Keys).made
    ensures
      var b, f := Through(t, SettledAll(txs, proposer)), Through(r, PlayedAll(txs, proposer, pool.Keys));
      NetAt(b, PoolWeb(keep - IdSet(txs)), f, k)
  {
    PlayedOnce(t, pool, txs, proposer, k, a);
    NotPoolSpent(t, pool, keep, r, txs, k);
    MadeAlike(t, r, pool, txs, proposer, k, a);
  }

  // ----- Keys the pool pays to

  lemma {:induction false} PaidInBlock(t: Table, pool: map<Hash, Tx>, txs: seq<Tx>, proposer: Addr, k: Key, a: nat)
    requires NewIds(t, txs) && SameTxs(pool, txs) && a < |txs| && txs[a].txid == k.txid && PaidBy(pool, k)
    ensures
      var b := Through(t, SettledAll(txs, proposer));
      (k in b <==> !SpentAfter(txs, k)) && (k in b ==> b[k] == Outs(pool[k.txid])[k])
  {
    var es := SettledAll(txs, proposer);
    SettledTagged(txs[a], proposer);
    forall i | 0 <= i < |txs| && i != a ensures k !in es[i].made && k !in Outs(txs[i]) {
      MadeTagged(txs, proposer, pool.Keys, i, k);
      SettledTagged(txs[i], proposer);
      assert txs[i].txid != txs[a].txid;
    }
    MadeOnce(t, es, k, a);
    assert forall i :: 0 <= i < |txs| ==> es[i].spent == Spent(txs[i]);
  }

  /** A key the pool pays to: what the replayed block and the played one have of it. */
  lemma {:induction false} PaidKey(t: Table, pool: map<Hash, Tx>, keep: map<Hash, Tx>, r: Table, txs: seq<Tx>,
        proposer: Addr, k: Key)
    requires Layered(t, pool, keep, r, txs) && k !in t && PaidBy(pool, k)
    ensures
      var b, f := Through(t, SettledAll(txs, proposer)), Through(r, PlayedAll(txs, proposer, pool.Keys));
      && (k in b <==> k.txid in Txids(txs) && !SpentAfter(txs, k)) && (k in b ==> b[k] == Outs(pool[k.txid])[k])
      && (k in f <==> k in r && !SpendsOutside(pool, txs, k)) && (k in f ==> f[k] == r[k])
  {
    forall i | 0 <= i < |txs| ensures k !in Played(txs[i], proposer, pool.Keys).made {
      MadeTagged(txs, proposer, pool.Keys, i, k);
      SettledTagged(txs[i], proposer);
    }
    PlayNeverMakes(r, pool, txs, proposer, k);
    if k.txid in Txids(txs) {
      var a :| 0 <= a < |txs| && Txids(txs)[a] == k.txid;
      PaidInBlock(t, pool, txs, proposer, k, a);
    } else {
      forall i | 0 <= i < |txs| ensures k !in Settled(txs[i], proposer).made {
        MadeTagged(txs, proposer, pool.Keys, i, k);
      }
      BlockNeverMakes(t, txs, proposer, k);
    }
  }

  /** What has to hold of a key for the tables to agree under it. */
  ghost predicate KeyFine(t: Table, pool: map<Hash, Tx>, keep: map<Hash, Tx>, txs: seq<Tx>, k: Key) {
    if k in t then !SpendsGone(pool, keep, txs, k)
    else if !PaidBy(pool, k) then true
    else if k.txid in Txids(txs) then
      if k.txid in keep then
        || SpentIn(PoolWeb(keep - IdSet(txs)), k)
        || (SpendsKept(keep, txs, k) || SpendsOutside(pool, txs, k) <==> SpentAfter(txs, k))
      else SpentAfter(txs, k)
    else k.txid in keep ==> !SpendsKept(keep, txs, k) && !SpendsOutside(pool, txs, k)
  }

  /** What remains of the pool spends nothing the block spends, and nothing that rests on what was undone. */
  lemma {:induction false} RestAlone(t: Table, pool: map<Hash, Tx>, keep: map<Hash, Tx>, r: Table, txs: seq<Tx>, k: Key)
    requires Layered(t, pool, keep, r, txs) && SpentIn(PoolWeb(keep - IdSet(txs)), k)
    ensures !SpendsKept(keep, txs, k) && !SpendsOutside(pool, txs, k) && !SpendsGone(pool, keep, txs, k)
    ensures PaidBy(pool, k) ==> k.txid in keep
  {
    var rest := keep - IdSet(txs);
    var id :| id in PoolWeb(rest) && k in PoolWeb(rest)[id].spent;
    assert k in Spent(keep[id]) && k in Spent(pool[id]);
    KeptSplits(keep, txs, k);
    if SpendsOutside(pool, txs, k) {
      OutsideAlone(t, pool, keep, r, txs, k);
    }
    if SpendsGone(pool, keep, txs, k) {
      GoneAlone(t, pool, keep, r, txs, k);
    }
    forall n | 0 <= n < |txs| && txs[n].txid in keep ensures k !in Spent(txs[n]) {
      assert pool[txs[n].txid] == txs[n];
      assert Txids(txs)[n] == txs[n].txid && txs[n].txid in IdSet(txs);
    }
    if PaidBy(pool, k) && k.txid !in keep {
      assert DependsOn(keep[id], pool[k.txid]);
    }
  }

  lemma {:induction false} PaidDecides(t: Table, pool: map<Hash, Tx>, keep: map<Hash, Tx>, txs: seq<Tx>, k: Key,
        b: Table,
        f: Table, g: Web, spentByKept: bool)
    requires k !in t && PaidBy(pool, k) && g == PoolWeb(keep - IdSet(txs))
    requires k.txid in keep ==> keep[k.txid] == pool[k.txid]
    requires (k in b <==> k.txid in Txids(txs) && !SpentAfter(txs, k)) && (k in b ==> b[k] == Outs(pool[k.txid])[k])
    requires k in f <==> k.txid in keep && !spentByKept && !SpendsOutside(pool, txs, k)
    requires k in f ==> f[k] == Outs(pool[k.txid])[k]
    requires spentByKept <==> SpentIn(g, k) || SpendsKept(keep, txs, k)
    requires SpentIn(g, k) ==> !SpendsKept(keep, txs, k) && !SpendsOutside(pool, txs, k) && k.txid in keep
    ensures NetAt(b, g, f, k) <==> KeyFine(t, pool, keep, txs, k)
  {
    assert MadeIn(g, k) <==> k.txid in keep && k.txid !in Txids(txs);
    assert MadeIn(g, k) ==> g[k.txid].made[k] == Outs(pool[k.txid])[k];
  }

  lemma {:induction false} PaidKeyIff(t: Table, pool: map<Hash, Tx>, keep: map<Hash, Tx>, r: Table, txs: seq<Tx>,
        proposer: Addr, k: Key)
    requires Layered(t, pool, keep, r, txs) && k !in t && PaidBy(pool, k)
    ensures
      var b, f := Through(t, SettledAll(txs, proposer)), Through(r, PlayedAll(txs, proposer, pool.Keys));
      NetAt(b, PoolWeb(keep - IdSet(txs)), f, k) <==> KeyFine(t, pool, keep, txs, k)
  {
    var b, f := Through(t, SettledAll(txs, proposer)), Through(r, PlayedAll(txs, proposer, pool.Keys));
    PaidKey(t, pool, keep, r, txs, proposer, k);
    KeptSplits(keep, txs, k);
    assert NetAt(t, PoolWeb(keep), r, k);
    assert MadeIn(PoolWeb(keep), k) <==> k.txid in keep;
    if SpentIn(PoolWeb(keep - IdSet(txs)), k) {
      RestAlone(t, pool, keep, r, txs, k);
    }
    PaidDecides(t, pool, keep, txs, k, b, f, PoolWeb(keep - IdSet(txs)), SpentIn(PoolWeb(keep), k));
  }

  // ----- All keys

  lemma {:induction false} OtherKey(t: Table, pool: map<Hash, Tx>, keep: map<Hash, Tx>, r: Table, txs: seq<Tx>,
        proposer: Addr, k: Key)
    requires Layered(t, pool, keep, r, txs) && k !in t && !PaidBy(pool, k)
    requires forall i :: 0 <= i < |txs| ==> k !in Played(txs[i], proposer, pool.Keys).made
    ensures
      var b, f := Through(t, SettledAll(txs, proposer)), Through(r, PlayedAll(txs, proposer, pool.Keys));
      NetAt(b, PoolWeb(keep - IdSet(txs)), f, k)
  {
    forall i | 0 <= i < |txs| ensures k !in Settled(txs[i], proposer).made {
      MadeTagged(txs, proposer, pool.Keys, i, k);
    }
    BlockNeverMakes(t, txs, proposer, k);
    PlayNeverMakes(r, pool, txs, proposer, k);
    NotPoolSpent(t, pool, keep, r, txs, k);
    assert NetAt(t, PoolWeb(keep), r, k);
  }

  lemma {:induction false} KeyIff(t: Table, pool: map<Hash, Tx>, keep: map<Hash, Tx>, r: Table, txs: seq<Tx>,
        proposer: Addr, k: Key)
    requires Layered(t, pool, keep, r, txs)
    ensures
      var b, f := Through(t, SettledAll(txs, proposer)), Through(r, PlayedAll(txs, proposer, pool.Keys));
      NetAt(b, PoolWeb(keep - IdSet(txs)), f, k) <==> KeyFine(t, pool, keep, txs, k)
  {
    if k in t {
      OldKeyIff(t, pool, keep, r, txs, proposer, k);
    } else if PaidBy(pool, k) {
      PaidKeyIff(t, pool, keep, r, txs, proposer, k);
    } else if a :| 0 <= a < |txs| && k in Played(txs[a], proposer, pool.Keys).made {
      MadeKey(t, pool, keep, r, txs, proposer, k, a);
    } else {
      OtherKey(t, pool, keep, r, txs, proposer, k);
    }
  }

  /** What remains of the pool still finds its inputs in the replayed block's table. */
  lemma {:induction false} RestSupplied(t: Table, pool: map<Hash, Tx>, keep: map<Hash, Tx>, r: Table, txs: seq<Tx>,
        proposer: Addr, id: Hash, k: Key)
    requires Layered(t, pool, keep, r, txs) && id in keep - IdSet(txs) && k in Spent(keep[id])
    ensures Supplied(Through(t, SettledAll(txs, proposer)), PoolWeb(keep - IdSet(txs)), id, k)
  {
    var b, g := Through(t, SettledAll(txs, proposer)), PoolWeb(keep - IdSet(txs));
    assert k in g[id].spent;
    RestAlone(t, pool, keep, r, txs, k);
    SpenderKinds(pool, keep, txs, k);
    assert Placed(t, PoolWeb(keep), id);
    assert Supplied(t, PoolWeb(keep), id, k);
    if k in t {
      OldKey(t, r, pool, txs, proposer, k);
    } else {
      PaidKey(t, pool, keep, r, txs, proposer, k);
    }
  }

  lemma {:induction false} RestConsistent(t: Table, pool: map<Hash, Tx>, keep: map<Hash, Tx>, r: Table, txs: seq<Tx>,
        proposer: Addr)
    requires Layered(t, pool, keep, r, txs)
    ensures Consistent(Through(t, SettledAll(txs, proposer)), PoolWeb(keep - IdSet(txs)))
  {
    var b, g := Through(t, SettledAll(txs, proposer)), PoolWeb(keep - IdSet(txs));
    forall id | id in g ensures Placed(b, g, id) {
      SettledTagged(keep[id], proposer);
      forall k | k in g[id].made ensures k !in b {
        RestMakesNew(t, pool, keep, r, txs, proposer, id, k);
      }
      forall k | k in g[id].spent ensures Supplied(b, g, id, k) {
        RestSupplied(t, pool, keep, r, txs, proposer, id, k);
      }
    }
  }

  lemma {:induction false} RestMakesNew(t: Table, pool: map<Hash, Tx>, keep: map<Hash, Tx>, r: Table, txs: seq<Tx>,
        proposer: Addr, id: Hash, k: Key)
    requires Layered(t, pool, keep, r, txs) && id in keep - IdSet(txs) && k in Outs(keep[id])
    ensures k !in Through(t, SettledAll(txs, proposer))
  {
    SettledTagged(keep[id], proposer);
    forall i | 0 <= i < |txs| ensures k !in Settled(txs[i], proposer).made {
      MadeTagged(txs, proposer, pool.Keys, i, k);
    }
    BlockNeverMakes(t, txs, proposer, k);
  }

  /** The played table is that of the replayed block with the rest of the pool on top if and only if every key is
      fine. */
  lemma {:induction false} OverlayIff(t: Table, pool: map<Hash, Tx>, keep: map<Hash, Tx>, r: Table, txs: seq<Tx>,
        proposer: Addr)
    requires Layered(t, pool, keep, r, txs)
    ensures IsNet(Through(t, SettledAll(txs, proposer)), PoolWeb(keep - IdSet(txs)),
                  Through(r, PlayedAll(txs, proposer, pool.Keys)))
            <==> forall k :: KeyFine(t, pool, keep, txs, k)
  {
    var b, f := Through(t, SettledAll(txs, proposer)), Through(r, PlayedAll(txs, proposer, pool.Keys));
    var g := PoolWeb(keep - IdSet(txs));
    RestConsistent(t, pool, keep, r, txs, proposer);
    forall k ensures NetAt(b, g, f, k) <==> KeyFine(t, pool, keep, txs, k) {
      KeyIff(t, pool, keep, r, txs, proposer, k);
    }
  }

  // ----- The condition, transaction by transaction

  /** The transaction spends what is in the table, or what a transaction that is kept in the pool does not pay, or what
      the block itself pays before spending it. */
  ghost predicate Grounded(t: Table, keep: map<Hash, Tx>, txs: seq<Tx>, n: nat)
    requires n < |txs|
  {
    forall k :: k in Spent(txs[n]) ==> k in t || !PaidBy(keep, k) || SpentAfter(txs, k)
  }

  /** The transaction was undone with the conflicts and yet counts as applied: that does no harm if it spends nothing of
      the table and nothing paid by a kept transaction earlier in the block, and if what it pays is spent later in the
      block. */
  ghost predicate Harmless(t: Table, keep: map<Hash, Tx>, txs: seq<Tx>, n: nat)
    requires n < |txs|
  {
    && (forall k :: k in Spent(txs[n]) ==>
          k !in t && !(PaidBy(keep, k) && exists a :: 0 <= a < n && k in Outs(txs[a])))
    && (forall k :: k in Outs(txs[n]) ==> SpentAfter(txs, k))
  }

  ghost predicate GroundedAt(t: Table, pool: map<Hash, Tx>, keep: map<Hash, Tx>, txs: seq<Tx>, n: nat)
    requires n < |txs|
  {
    if Gone(pool, keep, txs[n]) then Harmless(t, keep, txs, n) else Grounded(t, keep, txs, n)
  }

  ghost predicate AllGrounded(t: Table, pool: map<Hash, Tx>, keep: map<Hash, Tx>, txs: seq<Tx>) {
    forall n :: 0 <= n < |txs| ==> GroundedAt(t, pool, keep, txs, n)
  }

  /** Who pays to a key in the block is the transaction the key names. */
  lemma {:induction false} PayerNamed(txs: seq<Tx>, k: Key, a: nat)
    requires a < |txs| && k in Outs(txs[a])
    ensures k.txid == txs[a].txid && k.txid in Txids(txs)
  {
    SettledTagged(txs[a], "");
    assert Txids(txs)[a] == txs[a].txid;
  }

  lemma {:induction false} FineIsGrounded(t: Table, pool: map<Hash, Tx>, keep: map<Hash, Tx>, r: Table, txs: seq<Tx>,
        n: nat,
        k: Key)
    requires Layered(t, pool, keep, r, txs) && n < |txs| && !Gone(pool, keep, txs[n])
    requires k in Spent(txs[n]) && k !in t && PaidBy(keep, k) && KeyFine(t, pool, keep, txs, k)
    ensures SpentAfter(txs, k)
  {
    assert SpendsKept(keep, txs, k) || SpendsOutside(pool, txs, k);
    if SpentIn(PoolWeb(keep - IdSet(txs)), k) {
      RestAlone(t, pool, keep, r, txs, k);
    }
  }

  lemma {:induction false} FineIsHarmless(t: Table, pool: map<Hash, Tx>, keep: map<Hash, Tx>, r: Table, txs: seq<Tx>,
        n: nat,
        k: Key)
    requires Layered(t, pool, keep, r, txs) && n < |txs| && Gone(pool, keep, txs[n]) && KeyFine(t, pool, keep, txs, k)
    ensures k in Spent(txs[n]) ==> k !in t && !(PaidBy(keep, k) && exists a :: 0 <= a < n && k in Outs(txs[a]))
    ensures k in Outs(txs[n]) ==> SpentAfter(txs, k)
  {
    assert pool[txs[n].txid] == txs[n];
    if k in Spent(txs[n]) {
      assert SpendsGone(pool, keep, txs, k);
      GoneAlone(t, pool, keep, r, txs, k);
      KeptSplits(keep, txs, k);
      if a :| 0 <= a < n && k in Outs(txs[a]) {
        PayerNamed(txs, k, a);
        assert SpentAfter(txs, k);
      }
    }
    if k in Outs(txs[n]) {
      PayerNamed(txs, k, n);
    }
  }

  lemma {:induction false} GroundedIsFine(t: Table, pool: map<Hash, Tx>, keep: map<Hash, Tx>, r: Table, txs: seq<Tx>,
        k: Key)
    requires Layered(t, pool, keep, r, txs) && AllGrounded(t, pool, keep, txs)
    ensures KeyFine(t, pool, keep, txs, k)
  {
    if k in t {
      forall n | 0 <= n < |txs| && Gone(pool, keep, txs[n]) ensures k !in Spent(txs[n]) {
        assert GroundedAt(t, pool, keep, txs, n);
      }
    }
    if k !in t && PaidBy(pool, k) && k.txid in keep {
      StayingSpenders(t, pool, keep, txs, k);
    }
    if k !in t && PaidBy(pool, k) && k.txid in Txids(txs) && k.txid !in keep {
      var a :| 0 <= a < |txs| && Txids(txs)[a] == k.txid;
      assert GroundedAt(t, pool, keep, txs, a) && Gone(pool, keep, txs[a]) && k in Outs(txs[a]);
    }
  }

  /** Of a key a kept transaction pays to: it is spent by a transaction that stays exactly when the block spends it
      after paying to it. */
  lemma {:induction false} StayingSpenders(t: Table, pool: map<Hash, Tx>, keep: map<Hash, Tx>, txs: seq<Tx>, k: Key)
    requires AllGrounded(t, pool, keep, txs) && k !in t && PaidBy(keep, k) && (forall id :: id in keep ==> id in pool)
    ensures SpendsKept(keep, txs, k) || SpendsOutside(pool, txs, k) <==> SpentAfter(txs, k)
    ensures SpentAfter(txs, k) ==> k.txid in Txids(txs)
  {
    if n :| 0 <= n < |txs| && (txs[n].txid in keep || txs[n].txid !in pool) && k in Spent(txs[n]) {
      assert GroundedAt(t, pool, keep, txs, n) && !Gone(pool, keep, txs[n]);
    }
    if SpentAfter(txs, k) {
      var a, b :| 0 <= a < b < |txs| && k in Outs(txs[a]) && k in Spent(txs[b]);
      PayerNamed(txs, k, a);
      assert GroundedAt(t, pool, keep, txs, b);
      assert txs[b].txid in keep || txs[b].txid !in pool || Gone(pool, keep, txs[b]);
    }
  }

  lemma {:induction false} GroundedIff(t: Table, pool: map<Hash, Tx>, keep: map<Hash, Tx>, r: Table, txs: seq<Tx>)
    requires Layered(t, pool, keep, r, txs)
    ensures (forall k :: KeyFine(t, pool, keep, txs, k)) <==> AllGrounded(t, pool, keep, txs)
  {
    if AllGrounded(t, pool, keep, txs) {
      forall k ensures KeyFine(t, pool, keep, txs, k) {
        GroundedIsFine(t, pool, keep, r, txs, k);
      }
    }
    if forall k :: KeyFine(t, pool, keep, txs, k) {
      forall n | 0 <= n < |txs| ensures GroundedAt(t, pool, keep, txs, n) {
        forall k | k in Spent(txs[n]) || k in Outs(txs[n])
          ensures if Gone(pool, keep, txs[n]) then
                    && (k in Spent(txs[n]) ==>
                          k !in t && !(PaidBy(keep, k) && exists a :: 0 <= a < n && k in Outs(txs[a])))
                    && (k in Outs(txs[n]) ==> SpentAfter(txs, k))
                  else k in Spent(txs[n]) && k !in t && PaidBy(keep, k) ==> SpentAfter(txs, k)
        {
          assert KeyFine(t, pool, keep, txs, k);
          if Gone(pool, keep, txs[n]) {
            FineIsHarmless(t, pool, keep, r, txs, n, k);
          } else if k in Spent(txs[n]) && k !in t && PaidBy(keep, k) {
            FineIsGrounded(t, pool, keep, r, txs, n, k);
          }
        }
      }
    }
  }

  // ----- Playing a received block

  /** Balances play no part in what becomes of the table. */
  lemma {:induction false} UndoEachAlike(c: Cash, d: Cash, list: seq<Tx>, proposer: Addr)
    requires c.table == d.table && c.total == d.total
    ensures UndoEach(c, list).table == UndoEach(d, list).table && UndoEach(c, list).total == UndoEach(d, list).total
  {
    if list == [] {
      assert UndoEach(c, list) == c && UndoEach(d, list) == d;
    } else {
      var n := |list| - 1;
      var x, y := UndoEach(c, list[..n]), UndoEach(d, list[..n]);
      UndoEachAlike(c, d, list[..n], proposer);
      UndoTxTable(x, list[n], proposer);
      UndoTxTable(y, list[n], proposer);
      TxTotal(x, list[n], proposer);
      TxTotal(y, list[n], proposer);
    }
  }

  lemma {:induction false} PoolSpender(t: Table, pool: map<Hash, Tx>, id: Hash, k: Key)
    requires Consistent(t, PoolWeb(pool)) && id in pool && k in Spent(pool[id])
    ensures k in t || PaidBy(pool, k)
    ensures forall j :: j in pool && k in Spent(pool[j]) ==> j == id
  {
    var f := PoolWeb(pool);
    assert Placed(t, f, id) && Supplied(t, f, id, k);
    forall j | j in pool && k in Spent(pool[j]) ensures j == id {
      assert f[j].spent == Spent(pool[j]);
    }
  }

  /** What a pool over a table is like, apart from any block. */
  lemma {:induction false} PoolOver(t: Table, pool: map<Hash, Tx>)
    requires Consistent(t, PoolWeb(pool)) && forall id :: id in pool ==> PoolTx(id, pool[id])
    ensures forall id :: id in pool ==> pool[id].txid == id && Outs(pool[id]).Keys !! t.Keys
    ensures forall id, k :: id in pool && k in Spent(pool[id]) ==> k in t || PaidBy(pool, k)
    ensures forall i, j, k :: i in pool && j in pool && k in Spent(pool[i]) && k in Spent(pool[j]) ==> i == j
  {
    forall id | id in pool ensures Outs(pool[id]).Keys !! t.Keys {
      assert Placed(t, PoolWeb(pool), id);
    }
    forall i, k | i in pool && k in Spent(pool[i]) ensures k in t || PaidBy(pool, k) {
      PoolSpender(t, pool, i, k);
    }
    forall i, j, k | i in pool && j in pool && k in Spent(pool[i]) && k in Spent(pool[j]) ensures i == j {
      PoolSpender(t, pool, i, k);
    }
  }

  /** Once the conflicts are undone, what is kept stands against nothing in the block and rests on nothing undone. */
  lemma {:induction false} KeptStands(pool: map<Hash, Tx>, txs: seq<Tx>, list: seq<Tx>, keep: map<Hash, Tx>)
    requires ConflictList(pool, txs, list) && NoDoubleSpend(txs) && keep == Left(pool, list, |list|)
    ensures forall n, id :: 0 <= n < |txs| && txs[n].txid !in pool && id in keep ==> !Clash(txs[n], keep[id])
    ensures forall i, id :: i in pool && i !in keep && id in keep ==> !DependsOn(keep[id], pool[i])
    ensures forall m, n :: 0 <= m < |txs| && 0 <= n < |txs| && Gone(pool, keep, txs[m]) && txs[n].txid !in pool ==>
              !Clash(txs[m], txs[n])
  {
    assert list[..|list|] == list;
    forall n, id | 0 <= n < |txs| && txs[n].txid !in pool && id in keep ensures !Clash(txs[n], keep[id]) {
      assert id !in Txids(list);
    }
    forall i, id | i in pool && i !in keep && id in keep ensures !DependsOn(keep[id], pool[i]) {
      var j :| 0 <= j < |list| && Txids(list)[j] == i;
      assert pool[i] == list[j];
      assert forall x :: x in Txids(list[..j]) ==> x in Txids(list);
    }
    forall m, n | 0 <= m < |txs| && 0 <= n < |txs| && Gone(pool, keep, txs[m]) && txs[n].txid !in pool
      ensures !Clash(txs[m], txs[n])
    {
      assert m < n ==> !Clash(txs[m], txs[n]);
      assert n < m ==> !Clash(txs[n], txs[m]);
    }
  }

  lemma {:induction false} PlayLayered(t: Table, pool: map<Hash, Tx>, c: Cash, txs: seq<Tx>, proposer: Addr,
        list: seq<Tx>, keep: map<Hash, Tx>)
    requires IsNet(t, PoolWeb(pool), c.table) && (forall id :: id in pool ==> PoolTx(id, pool[id])) && NewIds(t, txs)
    requires SameTxs(pool, txs) && ConflictList(pool, txs, list) && NoDoubleSpend(txs)
    requires keep == Left(pool, list, |list|)
    ensures Layered(t, pool, keep, UndoEach(c, list).table, txs) && UndoEach(c, list).total == c.total
  {
    assert list[..|list|] == list;
    UndoEachSound(t, pool, Unbanked(c), txs, list, |list|);
    UndoEachAlike(Unbanked(c), c, list, proposer);
    PoolOver(t, pool);
    KeptStands(pool, txs, list, keep);
  }

  lemma {:induction false} LayeredIff(t: Table, pool: map<Hash, Tx>, keep: map<Hash, Tx>, c: Cash, txs: seq<Tx>,
        proposer: Addr)
    requires Layered(t, pool, keep, c.table, txs)
    ensures IsNet(BlockTable(t, txs, proposer), PoolWeb(keep - IdSet(txs)), PlayTxs(c, txs, proposer, pool.Keys).table)
            <==> AllGrounded(t, pool, keep, txs)
  {
    OverlayIff(t, pool, keep, c.table, txs, proposer);
    GroundedIff(t, pool, keep, c.table, txs);
    BlockThrough(t, txs, proposer);
    PlayThrough(c, txs, proposer, pool.Keys);
  }

  /** The next machine holds what is kept of the pool and the longer chain's total: only the table is in question. */
  lemma {:induction false} ReplayedNext(v: View, m: Machine, id: Hash, keep: map<Hash, Tx>, next: Machine)
    requires Replayed(v, m) && id in v && v[id].pre == m.latest
    requires forall x :: x in keep ==> x in m.pool && keep[x] == m.pool[x]
    requires next.latest == id && next.pool == keep - IdSet(v[id].txs)
    requires next.cash.total == m.cash.total + CoinbaseSum(v[id].txs)
    ensures Replayed(v, next) <==>
            IsNet(BlockTable(TableAt(v, m.latest), v[id].txs, v[id].proposer), PoolWeb(next.pool), next.cash.table)
  {
    ParentAt(v, id);
    PoolAfter(v, m, id, keep);
  }

  /** Playing a received block over the pool leaves the total of the longer chain, and its table with what remains of
      the pool on top if and only if the block rests on no transaction that stays in the pool. */
  lemma {:induction false} PlayedReplaysIff(v: View, m: Machine, id: Hash, list: seq<Tx>, irreversible: nat)
    requires Replayed(v, m) && id in v && v[id].pre == m.latest && NewOnPath(v, id) && NoDoubleSpend(v[id].txs)
    requires SameTxs(m.pool, v[id].txs) && ConflictList(m.pool, v[id].txs, list)
    ensures Replayed(v, PlayOver(m, id, v[id], list, irreversible)) <==>
            AllGrounded(TableAt(v, m.latest), m.pool, Left(m.pool, list, |list|), v[id].txs)
  {
    var t, txs, proposer, keep := TableAt(v, m.latest), v[id].txs, v[id].proposer, Left(m.pool, list, |list|);
    ParentAt(v, id);
    NewOnPathIds(v, id);
    PlayLayered(t, m.pool, m.cash, txs, proposer, list, keep);
    LayeredIff(t, m.pool, keep, UndoEach(m.cash, list), txs, proposer);
    PlayTotal(UndoEach(m.cash, list), txs, proposer, m.pool.Keys);
    ReplayedNext(v, m, id, keep, PlayOver(m, id, v[id], list, irreversible));
  }

  // ----- Playing a block made here

  /** A transaction seen in the stored table or the batch spends nothing the pool spends. */
  lemma {:induction false} SeenStands(t: Table, pool: map<Hash, Tx>, c: Cash, txs: seq<Tx>, proposer: Addr, n: nat,
        id: Hash)
    requires IsNet(t, PoolWeb(pool), c.table) && (forall x :: x in pool ==> PoolTx(x, pool[x])) && NewIds(t, txs)
    requires SameTxs(pool, txs) && SeenOver(c.table, c, txs, proposer, pool.Keys)
    requires n < |txs| && txs[n].txid !in pool && id in pool
    ensures !Clash(txs[n], pool[id])
  {
    SeenOverAt(c.table, c, txs, proposer, pool.Keys, n);
    forall k | k in Spent(pool[id]) ensures k !in Spent(txs[n]) {
      PoolSpentUnseen(t, pool, c, txs, proposer, n, id, k);
      SpentKeysTo(txs[n], |txs[n].inputs|, k);
      assert forall i :: 0 <= i < |txs[n].inputs| ==>
          SeenInput(c.table, PlayTxs(c, txs[..n], proposer, pool.Keys).table, txs[n].inputs[i]);
    }
  }

  /** The block's own part brings back nothing the pool has spent. */
  lemma {:induction false} PoolSpentUnmade(t: Table, pool: map<Hash, Tx>, r: Table, txs: seq<Tx>, proposer: Addr,
        n: nat,
        k: Key)
    requires NewIds(t, txs) && SameTxs(pool, txs) && n <= |txs| && k !in r && (k in t || PaidBy(pool, k))
    ensures k !in Through(r, PlayedAll(txs[..n], proposer, pool.Keys))
  {
    forall i | 0 <= i < n ensures k !in Played(txs[..n][i], proposer, pool.Keys).made {
      if k in Played(txs[i], proposer, pool.Keys).made {
        PlayedOnce(t, pool, txs, proposer, k, i);
      }
    }
    PlayNeverMakes(r, pool, txs[..n], proposer, k);
  }

  lemma {:induction false} PoolSpentGone(t: Table, pool: map<Hash, Tx>, r: Table, id: Hash, k: Key)
    requires IsNet(t, PoolWeb(pool), r) && id in pool && k in Spent(pool[id])
    ensures k !in r
  {
    assert PoolWeb(pool)[id].spent == Spent(pool[id]);
    assert NetAt(t, PoolWeb(pool), r, k);
  }

  lemma {:induction false} PoolSpentUnseen(t: Table, pool: map<Hash, Tx>, c: Cash, txs: seq<Tx>, proposer: Addr, n: nat,
        id: Hash, k: Key)
    requires IsNet(t, PoolWeb(pool), c.table) && (forall x :: x in pool ==> PoolTx(x, pool[x])) && NewIds(t, txs)
    requires SameTxs(pool, txs) && n <= |txs| && id in pool && k in Spent(pool[id])
    ensures k !in c.table && k !in PlayTxs(c, txs[..n], proposer, pool.Keys).table
  {
    PoolOver(t, pool);
    PoolSpentGone(t, pool, c.table, id, k);
    PoolSpentUnmade(t, pool, c.table, txs, proposer, n, k);
    PlayThrough(c, txs[..n], proposer, pool.Keys);
  }

  lemma {:induction false} MinedLayered(t: Table, pool: map<Hash, Tx>, c: Cash, txs: seq<Tx>, proposer: Addr)
    requires IsNet(t, PoolWeb(pool), c.table) && (forall id :: id in pool ==> PoolTx(id, pool[id])) && NewIds(t, txs)
    requires SameTxs(pool, txs) && SeenOver(c.table, c, txs, proposer, pool.Keys)
    ensures Layered(t, pool, pool, c.table, txs)
  {
    PoolOver(t, pool);
    forall n, id | 0 <= n < |txs| && txs[n].txid !in pool && id in pool ensures !Clash(txs[n], pool[id]) {
      SeenStands(t, pool, c, txs, proposer, n, id);
    }
  }

  /** The same for a block made here, which may spend twice. */
  lemma {:induction false} MinedReplaysIff(v: View, m: Machine, id: Hash, irreversible: nat)
    requires Replayed(v, m) && id in v && v[id].pre == m.latest && NewOnPath(v, id)
    requires PassedHere(m.pool, m.cash, v[id].txs, v[id].proposer)
    ensures Replayed(v, PlayMined(m, id, v[id], irreversible)) <==>
            AllGrounded(TableAt(v, m.latest), m.pool, m.pool, v[id].txs)
    ensures PlayMined(m, id, v[id], irreversible).cash.total == m.cash.total + CoinbaseSum(v[id].txs)
  {
    var t, txs, proposer := TableAt(v, m.latest), v[id].txs, v[id].proposer;
    ParentAt(v, id);
    NewOnPathIds(v, id);
    OrdinaryIsPooled(m.pool, txs);
    MinedLayered(t, m.pool, m.cash, txs, proposer);
    LayeredIff(t, m.pool, m.pool, m.cash, txs, proposer);
    SameApplied(m.cash, txs, proposer, Ordinary(txs), m.pool.Keys);
    PlayTotal(m.cash, txs, proposer, m.pool.Keys);
    ReplayedNext(v, m, id, m.pool, PlayMined(m, id, v[id], irreversible));
  }
}
