/** What the passed checks are worth: exactly when a submitted transaction leaves the replay with the pool on top, when
    undoing a block restores the table, and when a block that is redone, played or mined is valid. */
module Checked {
  import opened Tree
  import opened Transactions
  import opened Effects
  import opened Utxo
  import opened Worth
  import opened Chain
  import opened Touch
  import opened Reversal
  import opened Machine
  import opened Play
  import opened Walk
  import opened Check

  // ----- Submitting

  /** Every input declares the frozen height the table has for it. */
  ghost predicate AsRecorded(t: Table, tx: Tx) {
    forall i :: 0 <= i < |tx.inputs| && KeyOf(tx.inputs[i]) in t ==>
        tx.inputs[i].frozen == t[KeyOf(tx.inputs[i])].frozen
  }

  lemma {:induction false} SpentThereIff(t: Table, tx: Tx)
    requires Seen(t, t, tx)
    ensures Within(Spent(tx), t) <==> AsRecorded(t, tx)
  {
    forall i | 0 <= i < |tx.inputs|
      ensures var k := KeyOf(tx.inputs[i]);
        k in Spent(tx) && k in t && Spent(tx)[k] == Item(t[k].amount, tx.inputs[i].frozen)
    {
      SpentAt(tx, |tx.inputs|, i);
      assert SeenInput(t, t, tx.inputs[i]);
    }
    forall k | k in Spent(tx) ensures exists i :: 0 <= i < |tx.inputs| && KeyOf(tx.inputs[i]) == k {
      SpentKeysTo(tx, |tx.inputs|, k);
    }
  }

  /** What a web supplies is in its table before the spender comes. */
  lemma {:induction false} SuppliedThere(t: Table, f: Web, r: Table, id: Hash, e: Effect, k: Key)
    requires IsNet(t, f, r) && id !in f && Consistent(t, f[id := e]) && k in e.spent && k in r
    ensures r[k] == e.spent[k]
  {
    var g := f[id := e];
    assert NetAt(t, f, r, k);
    assert Placed(t, g, id);
    assert Supplied(t, g, id, k);
  }

  lemma {:induction false} SubmittedIsThere(t: Table, pool: map<Hash, Tx>, r: Table, tx: Tx)
    requires IsNet(t, PoolWeb(pool), r) && tx.txid !in pool && Consistent(t, PoolWeb(pool[tx.txid := tx]))
    requires Seen(r, r, tx)
    ensures Within(Spent(tx), r)
  {
    PoolWebMore(pool, tx);
    forall k | k in Spent(tx) ensures k in r && r[k] == Spent(tx)[k] {
      SpentKeysTo(tx, |tx.inputs|, k);
      var i :| 0 <= i < |tx.inputs| && KeyOf(tx.inputs[i]) == k;
      assert SeenInput(r, r, tx.inputs[i]);
      SuppliedThere(t, PoolWeb(pool), r, tx.txid, Pending(tx), k);
    }
  }

  lemma {:induction false} SubmitNeeds(v: View, m: Machine, tx: Tx)
    requires Replayed(v, m) && tx.txid !in m.pool && Seen(m.cash.table, m.cash.table, tx) && Replayed(v, Submit(m, tx))
    ensures tx.txid !in PathTxids(v, m.latest) && Within(Spent(tx), m.cash.table)
  {
    var t, n := TableAt(v, m.latest), Submit(m, tx);
    assert tx.txid in n.pool && n.latest == m.latest;
    assert Consistent(t, PoolWeb(n.pool));
    SubmittedIsThere(t, m.pool, m.cash.table, tx);
  }

  /** A transaction that passed its check leaves the replay with the longer pool on top if and only if its txid is not
      on the applied chain and it declares the frozen heights of its inputs as recorded. */
  lemma {:induction false} SubmitReplaysIff(v: View, m: Machine, tx: Tx)
    requires Replayed(v, m) && !tx.coinbase && tx.txid !in m.pool && Seen(m.cash.table, m.cash.table, tx)
    ensures Replayed(v, Submit(m, tx)) <==> tx.txid !in PathTxids(v, m.latest) && AsRecorded(m.cash.table, tx)
  {
    SpentThereIff(m.cash.table, tx);
    if Replayed(v, Submit(m, tx)) {
      SubmitNeeds(v, m, tx);
    }
    if tx.txid !in PathTxids(v, m.latest) && AsRecorded(m.cash.table, tx) {
      SubmitReplayed(v, m, tx);
    }
  }

  /** The same of a valid machine, whose cached balances stay right too. */
  lemma {:induction false} SubmitValidIff(v: View, m: Machine, tx: Tx)
    requires Faithful(v, m) && !tx.coinbase && tx.txid !in m.pool && Seen(m.cash.table, m.cash.table, tx)
    ensures Faithful(v, Submit(m, tx)) <==> tx.txid !in PathTxids(v, m.latest) && AsRecorded(m.cash.table, tx)
  {
    SubmitReplaysIff(v, m, tx);
    SpentThereIff(m.cash.table, tx);
    if tx.txid !in PathTxids(v, m.latest) && AsRecorded(m.cash.table, tx) {
      SubmitFaithful(v, m, tx);
    }
  }

  // ----- Blocks that passed their check: when undoing them restores the table

  lemma {:induction false} AllSeenAt(t: Table, txs: seq<Tx>, proposer: Addr, n: nat)
    requires AllSeen(t, txs, proposer) && n < |txs|
    ensures Seen(t, BlockTable(t, txs[..n], proposer), txs[n])
    decreases |txs|
  {
    var last := |txs| - 1;
    if n < last {
      AllSeenAt(t, txs[..last], proposer, n);
      assert txs[..last][..n] == txs[..n];
    }
  }

  /** A transaction before the given one spends the key too. */
  ghost predicate SpentBefore(txs: seq<Tx>, n: nat, k: Key)
    requires n <= |txs|
  {
    exists a :: 0 <= a < n && k in Spent(txs[a])
  }

  /** An entry of the table is there after the first n transactions unless one of them spends it. */
  lemma {:induction false} OldEntry(t: Table, txs: seq<Tx>, proposer: Addr, n: nat, k: Key)
    requires NewIds(t, txs) && n <= |txs| && k in t
    ensures
      var now := BlockTable(t, txs[..n], proposer);
      (k in now <==> !SpentBefore(txs, n, k)) && (k in now ==> now[k] == t[k])
  {
    var es := SettledAll(txs[..n], proposer);
    BlockThrough(t, txs[..n], proposer);
    forall i | 0 <= i < n ensures k !in es[i].made && es[i].spent == Spent(txs[i]) {
      SettledTagged(txs[i], proposer);
      assert Txids(txs)[i] == txs[i].txid;
    }
    NeverMade(t, es, k);
  }

  lemma {:induction false} OneMaker(t: Table, txs: seq<Tx>, proposer: Addr, n: nat, k: Key, a: nat)
    requires NewIds(t, txs) && a < n <= |txs| && k in Settled(txs[a], proposer).made
    ensures k.txid == txs[a].txid
    ensures forall i :: 0 <= i < n && i != a ==> k !in Settled(txs[i], proposer).made
  {
    SettledTagged(txs[a], proposer);
    forall i | 0 <= i < n && i != a ensures k !in Settled(txs[i], proposer).made {
      SettledTagged(txs[i], proposer);
      assert txs[i].txid != txs[a].txid;
    }
  }

  /** Any other entry that is there was made by the transaction it names, and not spent since. */
  lemma {:induction false} NewEntry(t: Table, txs: seq<Tx>, proposer: Addr, n: nat, k: Key) returns (a: nat)
    requires NewIds(t, txs) && n <= |txs| && k !in t && k in BlockTable(t, txs[..n], proposer)
    ensures a < n && txs[a].txid == k.txid && k in Settled(txs[a], proposer).made
    ensures forall b :: a < b < n ==> k !in Spent(txs[b])
  {
    var es := SettledAll(txs[..n], proposer);
    BlockThrough(t, txs[..n], proposer);
    a := MadeIfThere(t, es, k);
    assert es[a] == Settled(txs[a], proposer);
    OneMaker(t, txs, proposer, n, k, a);
    forall i | 0 <= i < |es| && i != a ensures k !in es[i].made {
      assert es[i] == Settled(txs[i], proposer);
    }
    MadeOnce(t, es, k, a);
    forall b | a < b < n ensures k !in Spent(txs[b]) {
      assert es[b].spent == Spent(txs[b]);
    }
  }

  /** The input is the first of the block to spend its key. */
  ghost predicate FirstSpender(txs: seq<Tx>, n: nat, i: nat) {
    n < |txs| && i < |txs[n].inputs| && forall a :: 0 <= a < n ==> KeyOf(txs[n].inputs[i]) !in Spent(txs[a])
  }

  /** Of every entry of the table that the block spends, the first input to spend it declares its frozen height. */
  ghost predicate FirstAsRecorded(t: Table, txs: seq<Tx>) {
    forall n: nat, i: nat :: FirstSpender(txs, n, i) && KeyOf(txs[n].inputs[i]) in t ==>
        txs[n].inputs[i].frozen == t[KeyOf(txs[n].inputs[i])].frozen
  }

  lemma {:induction false} UntouchedBefore(t: Table, txs: seq<Tx>, proposer: Addr, n: nat, k: Key)
    requires n <= |txs| && forall a :: 0 <= a < n ==> !Touches(Settled(txs[a], proposer), k)
    ensures Same(BlockTable(t, txs[..n], proposer), t, k)
  {
    BlockThrough(t, txs[..n], proposer);
    ThroughSame(t, t, SettledAll(txs[..n], proposer), k);
  }

  lemma {:induction false} FirstIsRecorded(t: Table, txs: seq<Tx>, proposer: Addr, n: nat, i: nat)
    requires NewIds(t, txs) && AllSeen(t, txs, proposer) && Restores(t, txs, proposer)
    requires FirstSpender(txs, n, i) && KeyOf(txs[n].inputs[i]) in t
    ensures txs[n].inputs[i].frozen == t[KeyOf(txs[n].inputs[i])].frozen
  {
    var k, es := KeyOf(txs[n].inputs[i]), SettledAll(txs, proposer);
    AllSeenAt(t, txs, proposer, n);
    SpentAt(txs[n], |txs[n].inputs|, i);
    forall a | 0 <= a <= n ensures k !in Settled(txs[a], proposer).made {
      SettledTagged(txs[a], proposer);
      assert Txids(txs)[a] == txs[a].txid;
    }
    assert FirstTouch(es, k, n);
    assert RestoredAt(t, es, k);
  }

  lemma {:induction false} RecordedRestores(t: Table, txs: seq<Tx>, proposer: Addr, k: Key, n: nat)
    requires NewIds(t, txs) && AllSeen(t, txs, proposer) && FirstAsRecorded(t, txs)
    requires FirstTouch(SettledAll(txs, proposer), k, n)
    ensures if k in Settled(txs[n], proposer).made then k !in t else k in t && t[k] == Spent(txs[n])[k]
  {
    SettledTagged(txs[n], proposer);
    assert Txids(txs)[n] == txs[n].txid;
    if k !in Settled(txs[n], proposer).made {
      SpentKeysTo(txs[n], |txs[n].inputs|, k);
      var i: nat :| i < |txs[n].inputs| && KeyOf(txs[n].inputs[i]) == k;
      AllSeenAt(t, txs, proposer, n);
      assert SeenInput(t, BlockTable(t, txs[..n], proposer), txs[n].inputs[i]);
      UntouchedBefore(t, txs, proposer, n, k);
      SpentAt(txs[n], |txs[n].inputs|, i);
      assert FirstSpender(txs, n, i);
    }
  }

  /** Undoing a block that passed its check restores the table if and only if the first to spend an entry declares its
      frozen height as recorded. Keys spent twice, or declared wrongly later or within the block, do not matter. */
  lemma {:induction false} CheckedRestoresIff(t: Table, txs: seq<Tx>, proposer: Addr)
    requires AllSeen(t, txs, proposer) && NewIds(t, txs)
    ensures Restores(t, txs, proposer) <==> FirstAsRecorded(t, txs)
  {
    if Restores(t, txs, proposer) {
      forall n: nat, i: nat | FirstSpender(txs, n, i) && KeyOf(txs[n].inputs[i]) in t
        ensures txs[n].inputs[i].frozen == t[KeyOf(txs[n].inputs[i])].frozen
      {
        FirstIsRecorded(t, txs, proposer, n, i);
      }
    }
    if FirstAsRecorded(t, txs) {
      forall k, n: nat | FirstTouch(SettledAll(txs, proposer), k, n)
        ensures if k in Settled(txs[n], proposer).made then k !in t else k in t && t[k] == Spent(txs[n])[k]
      {
        RecordedRestores(t, txs, proposer, k, n);
      }
    }
  }

  // ----- Blocks: where their inputs come from

  /** The key is in the table, or an earlier transaction of the block makes it. */
  ghost predicate KnownKey(t: Table, txs: seq<Tx>, proposer: Addr, n: nat, k: Key)
    requires n <= |txs|
  {
    k in t || exists a :: 0 <= a < n && k in Settled(txs[a], proposer).made
  }

  ghost predicate KnownInputs(t: Table, txs: seq<Tx>, proposer: Addr, n: nat)
    requires n < |txs|
  {
    forall i :: 0 <= i < |txs[n].inputs| ==> KnownKey(t, txs, proposer, n, KeyOf(txs[n].inputs[i]))
  }

  /** Every input of the block names an entry of the table or of an earlier transaction of the block. */
  ghost predicate AllKnown(t: Table, txs: seq<Tx>, proposer: Addr) {
    forall n {:trigger KnownInputs(t, txs, proposer, n)} :: 0 <= n < |txs| ==> KnownInputs(t, txs, proposer, n)
  }

  /** Every input of transaction n declares the frozen height of the entry it names. */
  ghost predicate HonestAt(t: Table, txs: seq<Tx>, proposer: Addr, n: nat)
    requires n < |txs|
  {
    forall i :: 0 <= i < |txs[n].inputs| ==> HonestInput(t, BlockWeb(txs[..n], proposer), txs[n].inputs[i])
  }

  lemma {:induction false} HonestIs(t: Table, txs: seq<Tx>, proposer: Addr, n: nat)
    requires n < |txs| && Honest(t, txs, proposer)
    ensures HonestAt(t, txs, proposer, n)
    decreases |txs|
  {
    var last := |txs| - 1;
    if n < last {
      HonestIs(t, txs[..last], proposer, n);
      assert txs[..last][..n] == txs[..n];
    }
  }

  /** A sourced input is known and declared as recorded. */
  lemma {:induction false} SourcedIsHonest(t: Table, init: seq<Tx>, proposer: Addr, i: TxInput)
    requires BlockFits(t, init, proposer) && Sourced(t, init, proposer, |init|, i)
    ensures HonestInput(t, BlockWeb(init, proposer), i)
  {
    MadeInBlock(t, init, proposer, KeyOf(i));
  }

  /** A block that replays names only known entries, as recorded, and spends nothing twice. */
  lemma {:induction false} FitsIsHonest(t: Table, txs: seq<Tx>, proposer: Addr)
    requires BlockFits(t, txs, proposer)
    ensures NoDoubleSpend(txs) && Honest(t, txs, proposer)
  {
    ReplaysIff(t, txs, proposer);
    if txs != [] {
      var n := |txs| - 1;
      FitsIsHonest(t, txs[..n], proposer);
      AllSourcedStep(t, txs, proposer);
      forall i | 0 <= i < |txs[n].inputs| ensures HonestInput(t, BlockWeb(txs[..n], proposer), txs[n].inputs[i]) {
        SourcedIsHonest(t, txs[..n], proposer, txs[n].inputs[i]);
      }
    }
  }

  lemma {:induction false} FitsIsKnown(t: Table, txs: seq<Tx>, proposer: Addr)
    requires BlockFits(t, txs, proposer)
    ensures AllKnown(t, txs, proposer)
  {
    ReplaysIff(t, txs, proposer);
    forall n | 0 <= n < |txs| ensures KnownInputs(t, txs, proposer, n) {
      assert TxSourced(t, txs, proposer, n, txs[n]);
      forall i | 0 <= i < |txs[n].inputs| ensures KnownKey(t, txs, proposer, n, KeyOf(txs[n].inputs[i])) {
        assert Sourced(t, txs, proposer, n, txs[n].inputs[i]);
      }
    }
  }

  // ----- Blocks over a pool

  /** Every transaction that was not applied yet passed the check in its turn, against the table stored before the
      block and the batch so far. */
  ghost predicate SeenOver(stored: Table, c: Cash, txs: seq<Tx>, proposer: Addr, applied: set<Hash>) {
    txs == [] ||
    var init, tx := txs[..|txs| - 1], txs[|txs| - 1];
    && SeenOver(stored, c, init, proposer, applied)
    && (tx.txid in applied || Seen(stored, PlayTxs(c, init, proposer, applied).table, tx))
  }

  lemma {:induction false} SeenOverAt(stored: Table, c: Cash, txs: seq<Tx>, proposer: Addr, applied: set<Hash>, n: nat)
    requires SeenOver(stored, c, txs, proposer, applied) && n < |txs| && txs[n].txid !in applied
    ensures Seen(stored, PlayTxs(c, txs[..n], proposer, applied).table, txs[n])
    decreases |txs|
  {
    var last := |txs| - 1;
    if n < last {
      SeenOverAt(stored, c, txs[..last], proposer, applied, n);
      assert txs[..last][..n] == txs[..n];
    }
  }

  /** With nothing applied before, on the stored table itself, this is the check of a redone block. */
  lemma {:induction false} SeenOverIsAllSeen(c: Cash, txs: seq<Tx>, proposer: Addr)
    requires SeenOver(c.table, c, txs, proposer, {})
    ensures AllSeen(c.table, txs, proposer)
  {
    if txs != [] {
      var n := |txs| - 1;
      SeenOverIsAllSeen(c, txs[..n], proposer);
      PlayTable(c, txs[..n], proposer);
    }
  }

  /** What the pool declares about a key is what the table, or the block, has. */
  lemma {:induction false} PoolDeclares(t: Table, pool: map<Hash, Tx>, r: Table, tx: Tx, k: Key)
    requires IsNet(t, PoolWeb(pool), r) && tx.txid in pool && pool[tx.txid] == tx && k in Spent(tx)
    ensures if k in t then t[k] == Spent(tx)[k]
            else k.txid in pool && k in Outs(pool[k.txid]) && Outs(pool[k.txid])[k] == Spent(tx)[k]
  {
    assert Placed(t, PoolWeb(pool), tx.txid);
    assert Supplied(t, PoolWeb(pool), tx.txid, k);
  }

  /** An entry seen in the stored table is what the chain, or the pool, put there. */
  lemma {:induction false} StoredDeclares(t: Table, pool: map<Hash, Tx>, stored: Table, k: Key)
    requires IsNet(t, PoolWeb(pool), stored) && k in stored
    ensures if k in t then stored[k] == t[k]
            else k.txid in pool && k in Outs(pool[k.txid]) && stored[k] == Outs(pool[k.txid])[k]
  {
    assert NetAt(t, PoolWeb(pool), stored, k);
  }

  /** A key an earlier block transaction makes: what the pool has under it is the same. */
  lemma {:induction false} MadeAlike(pool: map<Hash, Tx>, txs: seq<Tx>, proposer: Addr, a: nat, k: Key)
    requires SameTxs(pool, txs) && a < |txs| && k in Settled(txs[a], proposer).made
    ensures k.txid == txs[a].txid
    ensures k.txid in pool && k in Outs(pool[k.txid]) ==> Settled(txs[a], proposer).made[k] == Outs(pool[k.txid])[k]
  {
    SettledTagged(txs[a], proposer);
  }

  /** An entry seen in the batch is what the table has, or what the earlier block transaction made. */
  lemma {:induction false} BatchDeclares(t: Table, keep: map<Hash, Tx>, init: seq<Tx>, proposer: Addr, now: Table,
        k: Key)
    requires IsNet(t, Mixed(keep, init, proposer), now) && k in now && BlockFits(t, init, proposer)
    ensures k in t ==> now[k] == t[k]
    ensures k !in t ==> forall a :: 0 <= a < |init| && k in Settled(init[a], proposer).made ==>
            now[k] == Settled(init[a], proposer).made[k]
  {
    assert NetAt(t, Mixed(keep, init, proposer), now, k);
    MadeInBlock(t, init, proposer, k);
  }

  /** What an input of a block transaction was compared with: the transaction is in the pool, or the input was seen. */
  ghost predicate Vouched(pool: map<Hash, Tx>, stored: Table, now: Table, tx: Tx) {
    if tx.txid in pool then pool[tx.txid] == tx && PoolTx(tx.txid, tx) else Seen(stored, now, tx)
  }

  /** A known input that was seen, or that a pool transaction declares, has the amount of the entry it names. */
  lemma {:induction false} KnownIsSourced(t: Table, pool: map<Hash, Tx>, stored: Table, keep: map<Hash, Tx>,
        init: seq<Tx>, proposer: Addr, now: Table, tx: Tx, i: nat)
    requires IsNet(t, PoolWeb(pool), stored) && IsNet(t, Mixed(keep, init, proposer), now)
    requires BlockFits(t, init, proposer)
    requires SameTxs(pool, init) && Vouched(pool, stored, now, tx) && i < |tx.inputs|
    requires KnownKey(t, init, proposer, |init|, KeyOf(tx.inputs[i]))
    requires HonestInput(t, BlockWeb(init, proposer), tx.inputs[i])
    ensures Sourced(t, init, proposer, |init|, tx.inputs[i])
  {
    var input := tx.inputs[i];
    var k := KeyOf(input);
    SpentAt(tx, |tx.inputs|, i);
    if tx.txid in pool {
      PoolDeclares(t, pool, stored, tx, k);
    } else {
      assert SeenInput(stored, now, input);
      if k in stored { StoredDeclares(t, pool, stored, k); }
      if k in now { BatchDeclares(t, keep, init, proposer, now, k); }
    }
    if k !in t {
      var a :| 0 <= a < |init| && k in Settled(init[a], proposer).made;
      MadeAlike(pool, init, proposer, a, k);
      MadeInBlock(t, init, proposer, k);
    }
  }

  /** The transactions of the block are new to the table and to each other. */
  lemma {:induction false} NewMade(t: Table, txs: seq<Tx>, proposer: Addr, n: nat)
    requires NewIds(t, txs) && n < |txs|
    ensures Settled(txs[n], proposer).made.Keys !! t.Keys && txs[n].txid !in Txids(txs[..n])
  {
    SettledTagged(txs[n], proposer);
    assert Txids(txs)[n] == txs[n].txid;
    assert forall i :: 0 <= i < n ==> Txids(txs[..n])[i] == txs[i].txid;
  }

  lemma {:induction false} KnownPrefix(t: Table, txs: seq<Tx>, proposer: Addr, n: nat, k: Key)
    requires n < |txs| && KnownKey(t, txs, proposer, n, k)
    ensures KnownKey(t, txs[..n], proposer, n, k)
  {
    if k !in t {
      var a :| 0 <= a < n && k in Settled(txs[a], proposer).made;
      assert txs[..n][a] == txs[a];
    }
  }

  /** One more transaction of the block fits. */
  lemma {:induction false} VouchedFits(t: Table, pool: map<Hash, Tx>, stored: Table, keep: map<Hash, Tx>, txs: seq<Tx>,
        proposer: Addr, now: Table, n: nat)
    requires n < |txs| && BlockFits(t, txs[..n], proposer) && SameTxs(pool, txs) && Vouched(pool, stored, now, txs[n])
    requires IsNet(t, PoolWeb(pool), stored) && IsNet(t, Mixed(keep, txs[..n], proposer), now)
    requires NewIds(t, txs) && NoDoubleSpend(txs) && KnownInputs(t, txs, proposer, n) && HonestAt(t, txs, proposer, n)
    ensures TxFits(t, BlockTable(t, txs[..n], proposer), txs[n], proposer)
  {
    var init, tx := txs[..n], txs[n];
    NewMade(t, txs, proposer, n);
    assert SameTxs(pool, init) by { assert forall a :: 0 <= a < n ==> init[a] == txs[a]; }
    forall i | 0 <= i < |tx.inputs| ensures Sourced(t, init, proposer, n, tx.inputs[i]) {
      KnownPrefix(t, txs, proposer, n, KeyOf(tx.inputs[i]));
      KnownIsSourced(t, pool, stored, keep, init, proposer, now, tx, i);
    }
    assert forall a :: 0 <= a < n ==> !Clash(init[a], tx);
    ReplayStepIff(t, init, proposer, tx);
  }

  /** A transaction seen in the stored table or the batch spends nothing the pool spends. */
  lemma {:induction false} SeenClear(t: Table, pool: map<Hash, Tx>, stored: Table, init: seq<Tx>, proposer: Addr,
        now: Table, tx: Tx, id: Hash)
    requires IsNet(t, PoolWeb(pool), stored) && IsNet(t, Mixed(pool, init, proposer), now)
    requires BlockFits(t, init, proposer)
    requires SameTxs(pool, init) && Seen(stored, now, tx) && id in pool
    ensures !Clash(tx, pool[id])
  {
    forall k | k in Spent(tx) && k in Spent(pool[id]) ensures false {
      SpentKeysTo(tx, |tx.inputs|, k);
      var i :| 0 <= i < |tx.inputs| && KeyOf(tx.inputs[i]) == k;
      assert SeenInput(stored, now, tx.inputs[i]);
      SpentByPool(t, pool, stored, init, proposer, now, k, id);
    }
  }

  lemma {:induction false} SpentByPool(t: Table, pool: map<Hash, Tx>, stored: Table, init: seq<Tx>, proposer: Addr,
        now: Table, k: Key, id: Hash)
    requires IsNet(t, PoolWeb(pool), stored) && IsNet(t, Mixed(pool, init, proposer), now)
    requires BlockFits(t, init, proposer)
    requires SameTxs(pool, init) && id in pool && k in Spent(pool[id])
    ensures k !in stored && k !in now
  {
    var f, g := PoolWeb(pool), Mixed(pool, init, proposer);
    assert NetAt(t, f, stored, k) && NetAt(t, g, now, k);
    assert k in f[id].spent;
    WebKeys(init, proposer);
    if id in Txids(init) {
      var a :| 0 <= a < |init| && Txids(init)[a] == id;
      BlockWebAt(t, init, proposer, a);
      assert k in g[id].spent;
    } else {
      MixedAt(pool, init, proposer, id);
      assert k in g[id].spent;
    }
  }

  /** A block about to be played: the pool as it was when the table was stored, what is kept of it, and what the checks
      and the conditions say. */
  ghost predicate Setting(t: Table, pool: map<Hash, Tx>, stored: Table, keep: map<Hash, Tx>, c: Cash, txs: seq<Tx>,
        proposer: Addr) {
    && IsNet(t, PoolWeb(pool), stored) && Sound(t, PoolWeb(keep), c) && SameTxs(pool, txs) && SameTxs(keep, txs)
    && (forall id :: id in pool ==> PoolTx(id, pool[id]))
    && (forall i :: 0 <= i < |txs| ==> (txs[i].txid in pool <==> txs[i].txid in keep))
    && SeenOver(stored, c, txs, proposer, keep.Keys) && NewIds(t, txs) && NoDoubleSpend(txs)
    && AllKnown(t, txs, proposer) && Honest(t, txs, proposer)
  }

  /** No transaction from outside spends what a kept pool transaction spends. */
  ghost predicate Clear(keep: map<Hash, Tx>, txs: seq<Tx>) {
    forall i, id :: 0 <= i < |txs| && txs[i].txid !in keep && id in keep ==> !Clash(txs[i], keep[id])
  }

  lemma {:induction false} SettingCanDo(t: Table, pool: map<Hash, Tx>, stored: Table, keep: map<Hash, Tx>, c: Cash,
        txs: seq<Tx>, proposer: Addr, n: nat, d: Cash)
    requires Setting(t, pool, stored, keep, c, txs, proposer) && (keep == pool || Clear(keep, txs)) && n < |txs|
    requires BlockFits(t, txs[..n], proposer) && IsNet(t, Mixed(keep, txs[..n], proposer), d.table)
    requires d == PlayTxs(c, txs[..n], proposer, keep.Keys)
    ensures CanDo(keep, d, txs[n])
  {
    var tx := txs[n];
    if tx.txid !in keep {
      forall id | id in keep ensures !Clash(tx, keep[id]) {
        if keep == pool {
          SeenOverAt(stored, c, txs, proposer, keep.Keys, n);
          assert SameTxs(pool, txs[..n]) by { assert forall a :: 0 <= a < n ==> txs[..n][a] == txs[a]; }
          SeenClear(t, pool, stored, txs[..n], proposer, d.table, tx, id);
        }
      }
    }
  }

  lemma {:induction false} SettingFits(t: Table, pool: map<Hash, Tx>, stored: Table, keep: map<Hash, Tx>, c: Cash,
        txs: seq<Tx>, proposer: Addr, n: nat, d: Cash)
    requires Setting(t, pool, stored, keep, c, txs, proposer) && n < |txs|
    requires BlockFits(t, txs[..n], proposer) && IsNet(t, Mixed(keep, txs[..n], proposer), d.table)
    requires d == PlayTxs(c, txs[..n], proposer, keep.Keys)
    ensures TxFits(t, BlockTable(t, txs[..n], proposer), txs[n], proposer)
  {
    var tx := txs[n];
    if tx.txid !in pool {
      SeenOverAt(stored, c, txs, proposer, keep.Keys, n);
    }
    HonestIs(t, txs, proposer, n);
    assert KnownInputs(t, txs, proposer, n);
    VouchedFits(t, pool, stored, keep, txs, proposer, d.table, n);
  }

  lemma {:induction false} PrefixNet(t: Table, keep: map<Hash, Tx>, c: Cash, txs: seq<Tx>, proposer: Addr, n: nat)
    requires Sound(t, PoolWeb(keep), c) && SameTxs(keep, txs) && n <= |txs|
    requires BlockFits(t, txs[..n], proposer) && Doable(keep, c, txs[..n], proposer)
    ensures IsNet(t, Mixed(keep, txs[..n], proposer), PlayTxs(c, txs[..n], proposer, keep.Keys).table)
  {
    assert SameTxs(keep, txs[..n]) by { assert forall a :: 0 <= a < n ==> txs[..n][a] == txs[a]; }
    PlayPrefix(t, keep, c, txs[..n], proposer);
  }

  lemma {:induction false} PrefixMore(t: Table, keep: map<Hash, Tx>, c: Cash, txs: seq<Tx>, proposer: Addr, m: nat)
    requires m < |txs| && BlockFits(t, txs[..m], proposer) && Doable(keep, c, txs[..m], proposer)
    requires txs[m].txid !in Txids(txs[..m]) && TxFits(t, BlockTable(t, txs[..m], proposer), txs[m], proposer)
    requires CanDo(keep, PlayTxs(c, txs[..m], proposer, keep.Keys), txs[m])
    ensures BlockFits(t, txs[..m + 1], proposer) && Doable(keep, c, txs[..m + 1], proposer)
  {
    assert txs[..m + 1][..m] == txs[..m];
  }

  /** Every prefix of the block replays, and can be done over what is kept of the pool. */
  lemma {:induction false} PrefixFits(t: Table, pool: map<Hash, Tx>, stored: Table, keep: map<Hash, Tx>, c: Cash,
        txs: seq<Tx>, proposer: Addr, n: nat)
    requires Setting(t, pool, stored, keep, c, txs, proposer) && (keep == pool || Clear(keep, txs)) && n <= |txs|
    ensures BlockFits(t, txs[..n], proposer) && Doable(keep, c, txs[..n], proposer)
  {
    if n > 0 {
      var m := n - 1;
      PrefixFits(t, pool, stored, keep, c, txs, proposer, m);
      PrefixNet(t, keep, c, txs, proposer, m);
      var d := PlayTxs(c, txs[..m], proposer, keep.Keys);
      SettingFits(t, pool, stored, keep, c, txs, proposer, m, d);
      SettingCanDo(t, pool, stored, keep, c, txs, proposer, m, d);
      NewMade(t, txs, proposer, m);
      PrefixMore(t, keep, c, txs, proposer, m);
    }
  }

  // ----- Playing a received block

  /** A block transaction whose inputs are known, and that spends an output of a pool transaction, has that one in the
      block. */
  lemma {:induction false} KnownParent(t: Table, pool: map<Hash, Tx>, r: Table, txs: seq<Tx>, proposer: Addr, a: nat,
        on: Tx)
    requires IsNet(t, PoolWeb(pool), r) && AllKnown(t, txs, proposer) && a < |txs|
    requires on.txid in pool && pool[on.txid] == on && DependsOn(txs[a], on)
    ensures on.txid in Txids(txs)
  {
    var k :| k in Spent(txs[a]) && k in Outs(on);
    SpentKeysTo(txs[a], |txs[a].inputs|, k);
    var i :| 0 <= i < |txs[a].inputs| && KeyOf(txs[a].inputs[i]) == k;
    assert Placed(t, PoolWeb(pool), on.txid);
    assert KnownInputs(t, txs, proposer, a) && KnownKey(t, txs, proposer, a, k);
    var b :| 0 <= b < a && k in Settled(txs[b], proposer).made;
    SettledTagged(txs[b], proposer);
    SettledTagged(on, proposer);
    assert Txids(txs)[b] == txs[b].txid;
  }

  /** No transaction of a block with known inputs is among the conflicts. */
  lemma {:induction false} KnownOutside(t: Table, pool: map<Hash, Tx>, r: Table, txs: seq<Tx>, proposer: Addr,
        list: seq<Tx>, i: nat)
    requires IsNet(t, PoolWeb(pool), r) && SameTxs(pool, txs) && AllKnown(t, txs, proposer) && NoDoubleSpend(txs)
    requires ConflictList(pool, txs, list) && i < |list|
    ensures list[i].txid !in Txids(txs)
    decreases |list| - i
  {
    if list[i].txid in Txids(txs) {
      var a :| 0 <= a < |txs| && txs[a].txid == list[i].txid;
      assert txs[a] == list[i] && Conflicting(pool, txs, list, i);
      forall b | 0 <= b < |txs| && b != a ensures !Clash(txs[b], list[i]) {
        assert b < a ==> !Clash(txs[b], txs[a]);
        assert a < b ==> !Clash(txs[a], txs[b]);
      }
      var j :| i < j < |list| && DependsOn(list[i], list[j]);
      KnownParent(t, pool, r, txs, proposer, a, list[j]);
      KnownOutside(t, pool, r, txs, proposer, list, j);
    }
  }

  /** What a received block has passed when it is played: no key is spent twice, the conflicts were found, and its
      transactions from outside the pool were checked over what is left of the pool. */
  ghost predicate PassedOver(pool: map<Hash, Tx>, c: Cash, txs: seq<Tx>, proposer: Addr, list: seq<Tx>) {
    && SameTxs(pool, txs) && ConflictList(pool, txs, list) && NoDoubleSpend(txs)
    && SeenOver(c.table, UndoEach(c, list), txs, proposer, pool.Keys)
  }

  /** Transactions of the block stay in the pool, and clash with nothing that is kept. */
  lemma {:induction false} KnownKeeps(t: Table, pool: map<Hash, Tx>, c: Cash, txs: seq<Tx>, proposer: Addr,
        list: seq<Tx>, keep: map<Hash, Tx>)
    requires IsNet(t, PoolWeb(pool), c.table) && PassedOver(pool, c, txs, proposer, list) && AllKnown(t, txs, proposer)
    requires keep == Left(pool, list, |list|)
    ensures forall i :: 0 <= i < |txs| ==> (txs[i].txid in pool <==> txs[i].txid in keep)
    ensures SameTxs(keep, txs) && Clear(keep, txs)
  {
    assert list[..|list|] == list;
    forall i | 0 <= i < |txs| ensures txs[i].txid !in Txids(list) {
      assert Txids(txs)[i] == txs[i].txid;
      if txs[i].txid in Txids(list) {
        var j :| 0 <= j < |list| && Txids(list)[j] == txs[i].txid;
        KnownOutside(t, pool, c.table, txs, proposer, list, j);
      }
    }
    forall i, id | 0 <= i < |txs| && txs[i].txid !in keep && id in keep ensures !Clash(txs[i], keep[id]) {
      assert id !in Txids(list);
    }
  }

  lemma {:induction false} SeenOverSame(stored: Table, c: Cash, txs: seq<Tx>, proposer: Addr, a: set<Hash>,
        b: set<Hash>)
    requires SeenOver(stored, c, txs, proposer, a) && forall i :: 0 <= i < |txs| ==>
            (txs[i].txid in a <==> txs[i].txid in b)
    ensures SeenOver(stored, c, txs, proposer, b)
  {
    if txs != [] {
      SeenOverSame(stored, c, txs[..|txs| - 1], proposer, a, b);
      SameApplied(c, txs[..|txs| - 1], proposer, a, b);
    }
  }

  lemma {:induction false} KnownFits(t: Table, pool: map<Hash, Tx>, c: Cash, txs: seq<Tx>, proposer: Addr,
        list: seq<Tx>)
    requires Sound(t, PoolWeb(pool), c) && (forall id :: id in pool ==> PoolTx(id, pool[id])) && NewIds(t, txs)
    requires PassedOver(pool, c, txs, proposer, list) && AllKnown(t, txs, proposer) && Honest(t, txs, proposer)
    ensures BlockFits(t, txs, proposer)
  {
    var n := |list|;
    var keep, d := Left(pool, list, n), UndoEach(c, list);
    assert list[..n] == list && txs[..|txs|] == txs;
    UndoEachSound(t, pool, c, txs, list, n);
    KnownKeeps(t, pool, c, txs, proposer, list, keep);
    SeenOverSame(c.table, d, txs, proposer, pool.Keys, keep.Keys);
    PrefixFits(t, pool, c.table, keep, d, txs, proposer, |txs|);
  }

  /** A played block that passed, with new txids, replays if and only if its inputs come from the table of its parent or
      from earlier transactions of the block, with frozen heights as recorded. */
  lemma {:induction false} PlayedFitsIff(t: Table, pool: map<Hash, Tx>, c: Cash, txs: seq<Tx>, proposer: Addr,
        list: seq<Tx>)
    requires Sound(t, PoolWeb(pool), c) && (forall id :: id in pool ==> PoolTx(id, pool[id])) && NewIds(t, txs)
    requires PassedOver(pool, c, txs, proposer, list)
    ensures BlockFits(t, txs, proposer) <==> AllKnown(t, txs, proposer) && Honest(t, txs, proposer)
  {
    if BlockFits(t, txs, proposer) {
      FitsIsKnown(t, txs, proposer);
      FitsIsHonest(t, txs, proposer);
    } else if AllKnown(t, txs, proposer) && Honest(t, txs, proposer) {
      KnownFits(t, pool, c, txs, proposer, list);
    }
  }

  /** Its txids are on no block below it, nor twice in it. */
  ghost predicate NewOnPath(v: View, id: Hash)
    requires id in v && At(v, v[id].pre)
  {
    DistinctIds(v[id].txs) && forall x :: x in Txids(v[id].txs) ==> x !in PathTxids(v, v[id].pre)
  }

  lemma {:induction false} NewOnPathIds(v: View, id: Hash)
    requires id in v && At(v, v[id].pre) && NewOnPath(v, id)
    ensures NewIds(TableAt(v, v[id].pre), v[id].txs)
  {
    forall k | k in TableAt(v, v[id].pre) ensures k.txid !in Txids(v[id].txs) {
      TableTagged(v, v[id].pre, k);
    }
  }

  /** Playing a received block over the pool leaves a valid machine valid if and only if the block's inputs come from
      its parent's table or from the block itself, as recorded. */
  lemma {:induction false} PlayedValidIff(v: View, m: Machine, id: Hash, list: seq<Tx>, irreversible: nat)
    requires Faithful(v, m) && id in v && v[id].pre == m.latest && NewOnPath(v, id)
    requires PassedOver(m.pool, m.cash, v[id].txs, v[id].proposer, list)
    ensures Faithful(v, PlayOver(m, id, v[id], list, irreversible)) <==>
            && AllKnown(TableAt(v, m.latest), v[id].txs, v[id].proposer)
            && Honest(TableAt(v, m.latest), v[id].txs, v[id].proposer)
  {
    PlayValidIff(v, m, id, list, irreversible);
    NewOnPathIds(v, id);
    PlayedFitsIff(TableAt(v, m.latest), m.pool, m.cash, v[id].txs, v[id].proposer, list);
  }

  // ----- Playing a block made here

  /** What a block made here has passed: the transactions that are neither coinbase nor generated are those of the pool,
      the others were checked. */
  ghost predicate PassedHere(pool: map<Hash, Tx>, c: Cash, txs: seq<Tx>, proposer: Addr) {
    SameTxs(pool, txs) && PooledByFlags(pool, txs) && SeenOver(c.table, c, txs, proposer, pool.Keys)
  }

  /** A block made here raises the total by what its coinbases pay, whatever the pool holds. */
  lemma {:induction false} MinedTotal(m: Machine, id: Hash, blk: Blk, irreversible: nat)
    requires DistinctIds(blk.txs)
    ensures PlayMined(m, id, blk, irreversible).cash.total == m.cash.total + CoinbaseSum(blk.txs)
  {
    forall i | 0 <= i < |blk.txs| && blk.txs[i].txid in Ordinary(blk.txs) ensures !blk.txs[i].coinbase {
      var j :| 0 <= j < |blk.txs| && !blk.txs[j].coinbase && blk.txs[j].txid == blk.txs[i].txid;
      assert i == j;
    }
    PlayTotal(m.cash, blk.txs, blk.proposer, Ordinary(blk.txs));
  }

  lemma {:induction false} MinedFits(t: Table, pool: map<Hash, Tx>, c: Cash, txs: seq<Tx>, proposer: Addr)
    requires Sound(t, PoolWeb(pool), c) && (forall id :: id in pool ==> PoolTx(id, pool[id])) && NewIds(t, txs)
    requires PassedHere(pool, c, txs, proposer) && NoDoubleSpend(txs)
    requires AllKnown(t, txs, proposer) && Honest(t, txs, proposer)
    ensures BlockFits(t, txs, proposer) && Doable(pool, c, txs, proposer)
  {
    assert txs[..|txs|] == txs;
    PrefixFits(t, pool, c.table, pool, c, txs, proposer, |txs|);
  }

  lemma {:induction false} ChainFitsLast(v: View, id: Hash)
    requires At(v, id) && id in v && ChainFits(v, id)
    ensures At(v, v[id].pre) && BlockFits(TableAt(v, v[id].pre), v[id].txs, v[id].proposer)
  {
    ParentAt(v, id);
  }

  /** Playing a block made here leaves a valid machine valid if and only if it spends nothing twice and its inputs come
      from its parent's table or from the block itself, as recorded. */
  lemma {:induction false} MinedValidIff(v: View, m: Machine, id: Hash, irreversible: nat)
    requires Faithful(v, m) && id in v && v[id].pre == m.latest && NewOnPath(v, id)
    requires PassedHere(m.pool, m.cash, v[id].txs, v[id].proposer)
    ensures Faithful(v, PlayMined(m, id, v[id], irreversible)) <==>
              && NoDoubleSpend(v[id].txs) && AllKnown(TableAt(v, m.latest), v[id].txs, v[id].proposer)
              && Honest(TableAt(v, m.latest), v[id].txs, v[id].proposer)
  {
    var t, txs, proposer := TableAt(v, m.latest), v[id].txs, v[id].proposer;
    NewOnPathIds(v, id);
    if Faithful(v, PlayMined(m, id, v[id], irreversible)) {
      ChainFitsLast(v, id);
      FitsIsKnown(t, txs, proposer);
      FitsIsHonest(t, txs, proposer);
    } else if NoDoubleSpend(txs) && AllKnown(t, txs, proposer) && Honest(t, txs, proposer) {
      MinedFits(t, m.pool, m.cash, txs, proposer);
      MineValidIff(v, m, id, irreversible);
    }
  }

  // ----- Redoing blocks in a walk

  /** The block spends nothing twice and declares frozen heights as its parent's table and the block itself have
      them. */
  ghost predicate Clean(v: View, id: Hash)
    requires id in v && At(v, v[id].pre)
  {
    NoDoubleSpend(v[id].txs) && Honest(TableAt(v, v[id].pre), v[id].txs, v[id].proposer)
  }

  /** A redone block that passed its check leaves a valid machine valid if and only if it spends nothing twice and
      declares frozen heights as recorded. */
  lemma {:induction false} DoneValidIff(v: View, m: Machine, id: Hash, irreversible: nat)
    requires Faithful(v, m) && m.pool == map[] && id in v && v[id].pre == m.latest && NewOnPath(v, id)
    requires AllSeen(m.cash.table, v[id].txs, v[id].proposer)
    ensures Faithful(v, DoBlock(m, id, v[id], irreversible)) <==> Clean(v, id)
  {
    ReplayAlone(v, m);
    NewOnPathIds(v, id);
    CheckedBlockFitsIff(m.cash.table, v[id].txs, v[id].proposer);
    DoValidIff(v, m, id, irreversible);
  }

  /** Every listed block passes its check when its turn comes, last to first. */
  ghost predicate TodoSeen(v: View, m: Machine, list: seq<Hash>, window: nat)
    requires forall i :: 0 <= i < |list| ==> list[i] in v
    decreases |list|
  {
    list == [] ||
    var b := list[|list| - 1];
    && (DistinctIds(v[b].txs) ==> AllSeen(m.cash.table, v[b].txs, v[b].proposer))
    && TodoSeen(v, DoBlock(m, b, v[b], NextIrreversible(v[b].height, m.irreversible, window)), list[..|list| - 1],
                window)
  }

  /** Blocks of one chain, from the top down, with new txids. */
  ghost predicate Descending(v: View, list: seq<Hash>) {
    Falling(v, list) && forall i :: 0 <= i < |list| ==> At(v, v[list[i]].pre) && NewOnPath(v, list[i])
  }

  ghost predicate AllClean(v: View, list: seq<Hash>)
    requires Descending(v, list)
  {
    forall i :: 0 <= i < |list| ==> Clean(v, list[i])
  }

  /** Redoing one checked, clean block. */
  lemma {:induction false} CleanOne(v: View, m: Machine, b: Hash, irreversible: nat)
    requires b in v && Standing(v, m, v[b].pre, {}) && NewOnPath(v, b) && Clean(v, b)
    requires AllSeen(m.cash.table, v[b].txs, v[b].proposer)
    ensures Standing(v, DoBlock(m, b, v[b], irreversible), b, {})
  {
    DoneValidIff(v, m, b, irreversible);
  }

  /** Redoing a chain of blocks, all of them checked and clean, ends at its top. */
  lemma {:induction false} CleanStanding(v: View, m: Machine, list: seq<Hash>, window: nat)
    requires list != [] && Descending(v, list) && AllClean(v, list) && TodoSeen(v, m, list, window)
    requires Standing(v, m, v[list[|list| - 1]].pre, {})
    ensures Standing(v, TodoAll(v, m, list, window), list[0], {})
    decreases |list|
  {
    var n := |list| - 1;
    var b := list[n];
    var next := DoBlock(m, b, v[b], NextIrreversible(v[b].height, m.irreversible, window));
    assert Clean(v, list[n]);
    CleanOne(v, m, b, NextIrreversible(v[b].height, m.irreversible, window));
    if n > 0 {
      assert forall i :: 0 <= i < n ==> Clean(v, list[i]);
      CleanStanding(v, next, list[..n], window);
    }
  }

  lemma {:induction false} FitsIsClean(v: View, list: seq<Hash>, i: nat)
    requires Descending(v, list) && i < |list| && At(v, list[0]) && ChainFits(v, list[0])
    ensures At(v, list[i]) && ChainFits(v, list[i]) && Clean(v, list[i])
  {
    if i > 0 {
      FitsIsClean(v, list, i - 1);
      ParentAt(v, list[i - 1]);
    }
    ChainFitsLast(v, list[i]);
    FitsIsHonest(TableAt(v, v[list[i]].pre), v[list[i]].txs, v[list[i]].proposer);
  }

  /** A chain of checked blocks, redone from its foot, leaves a valid machine valid if and only if all of them are
      clean. */
  lemma {:induction false} RedoneIff(v: View, m: Machine, list: seq<Hash>, window: nat)
    requires list != [] && Descending(v, list) && TodoSeen(v, m, list, window)
    requires Standing(v, m, v[list[|list| - 1]].pre, {})
    ensures Faithful(v, TodoAll(v, m, list, window)) <==> AllClean(v, list)
  {
    TodoAllThrough(v, m, list, window);
    if AllClean(v, list) {
      CleanStanding(v, m, list, window);
    } else if Faithful(v, TodoAll(v, m, list, window)) {
      forall i | 0 <= i < |list| ensures Clean(v, list[i]) {
        FitsIsClean(v, list, i);
      }
    }
  }

  /** The pool rolled back and the blocks down to the common ancestor undone. */
  ghost function Descended(v: View, m: Machine, order: seq<Tx>, undo: seq<Hash>): Machine
    requires forall i :: 0 <= i < |undo| ==> undo[i] in v
  {
    UndoAll(v, Forget(Rollback(m, order)), undo, m.pool.Keys)
  }

  lemma {:induction false} DescendedStanding(v: View, root: Hash, m: Machine, order: seq<Tx>, dest: Hash,
        undo: seq<Hash>,
        todo: seq<Hash>)
    requires Faithful(v, m) && DependencyOrder(m.pool, order) && Route(v, root, m, dest, undo, todo)
    ensures Standing(v, Descended(v, m, order, undo), Meet(v, root, m, dest), {})
  {
    RouteFalls(v, root, m, dest, undo, todo);
    RollbackStanding(v, m, order);
    if undo != [] {
      UndoAllStanding(v, Forget(Rollback(m, order)), undo, m.pool.Keys);
    }
  }

  ghost predicate NewBlock(v: View, b: Hash) {
    b in v && At(v, v[b].pre) && NewOnPath(v, b)
  }

  ghost predicate CleanBlock(v: View, b: Hash) {
    b in v && At(v, v[b].pre) && Clean(v, b)
  }

  lemma {:induction false} AllCleanIs(v: View, list: seq<Hash>)
    requires Descending(v, list)
    ensures AllClean(v, list) <==> forall b :: b in list ==> CleanBlock(v, b)
  {
    if forall b :: b in list ==> CleanBlock(v, b) {
      forall i | 0 <= i < |list| ensures Clean(v, list[i]) {
        assert CleanBlock(v, list[i]);
      }
    }
  }

  /** From the common ancestor up to dest. */
  lemma {:induction false} AscentIff(v: View, u: Machine, dest: Hash, base: Hash, todo: seq<Hash>, window: nat)
    requires Falling(v, todo) && (if todo == [] then dest == base else todo[0] == dest && Foot(v, todo) == base)
    requires Standing(v, u, base, {}) && TodoSeen(v, u, todo, window) && forall b :: b in todo ==> NewBlock(v, b)
    ensures Faithful(v, TodoAll(v, u, todo, window)) <==> forall b :: b in todo ==> CleanBlock(v, b)
  {
    forall i | 0 <= i < |todo| ensures At(v, v[todo[i]].pre) && NewOnPath(v, todo[i]) {
      assert NewBlock(v, todo[i]);
    }
    AllCleanIs(v, todo);
    if todo != [] {
      RedoneIff(v, u, todo, window);
    }
  }

  /** A successful walk of a valid machine leaves a valid machine if and only if every redone block is clean: it spends
      nothing twice and declares frozen heights as recorded. */
  lemma {:induction false} WalkValidIff(v: View, root: Hash, m: Machine, order: seq<Tx>, dest: Hash, undo: seq<Hash>,
        todo: seq<Hash>, window: nat)
    requires Faithful(v, m) && DependencyOrder(m.pool, order) && Route(v, root, m, dest, undo, todo)
    requires TodoSeen(v, Descended(v, m, order, undo), todo, window) && forall b :: b in todo ==> NewBlock(v, b)
    ensures Faithful(v, WalkTo(v, m, order, undo, todo, window)) <==> forall b :: b in todo ==> CleanBlock(v, b)
  {
    RouteFalls(v, root, m, dest, undo, todo);
    DescendedStanding(v, root, m, order, dest, undo, todo);
    AscentIff(v, Descended(v, m, order, undo), dest, Meet(v, root, m, dest), todo, window);
  }
}
