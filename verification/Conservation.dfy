/** Money is conserved over the whole history: what the table holds and the fees still pending add up to what was
    issued. */
module Conservation {
  import opened Tree
  import opened Transactions
  import opened Effects
  import opened Utxo
  import opened Worth
  import opened Chain
  import opened Machine
  import opened Check
  import opened Checked
  import opened Runs

  // ----- Webs, summed along a list of their txids

  ghost predicate Lists(ids: seq<Hash>, s: set<Hash>) {
    && (forall i :: 0 <= i < |ids| ==> ids[i] in s)
    && (forall id :: id in s ==> id in ids)
    && (forall i, j :: 0 <= i < j < |ids| ==> ids[i] != ids[j])
  }

  ghost function MadeBy(f: Web, ids: seq<Hash>, n: nat): Table
    requires n <= |ids|
  {
    if n == 0 then map[] else MadeBy(f, ids, n - 1) + (if ids[n - 1] in f then f[ids[n - 1]].made else map[])
  }

  ghost function SpentBy(f: Web, ids: seq<Hash>, n: nat): Table
    requires n <= |ids|
  {
    if n == 0 then map[] else SpentBy(f, ids, n - 1) + (if ids[n - 1] in f then f[ids[n - 1]].spent else map[])
  }

  /** The worth of what the web makes less the worth of what it spends. */
  ghost function Gain(f: Web, ids: seq<Hash>, n: nat): int
    requires n <= |ids|
  {
    if n == 0 then 0 else
    Gain(f, ids, n - 1) + if ids[n - 1] in f then Sum(f[ids[n - 1]].made) - Sum(f[ids[n - 1]].spent) else 0
  }

  lemma {:induction false} MadeByAt(t: Table, f: Web, ids: seq<Hash>, n: nat, k: Key)
    requires Consistent(t, f) && Lists(ids, f.Keys) && n <= |ids|
    ensures k in MadeBy(f, ids, n) <==> k.txid in ids[..n] && MadeIn(f, k)
    ensures k in MadeBy(f, ids, n) ==> MadeBy(f, ids, n)[k] == f[k.txid].made[k]
  {
    if n > 0 {
      MadeByAt(t, f, ids, n - 1, k);
      assert Placed(t, f, ids[n - 1]);
      assert ids[..n] == ids[..n - 1] + [ids[n - 1]];
    }
  }

  lemma {:induction false} SpentByAt(t: Table, f: Web, ids: seq<Hash>, n: nat, k: Key)
    requires Consistent(t, f) && Lists(ids, f.Keys) && n <= |ids|
    ensures k in SpentBy(f, ids, n) <==> exists i :: 0 <= i < n && k in f[ids[i]].spent
    ensures k in SpentBy(f, ids, n) ==>
            (k in t || MadeIn(f, k)) && SpentBy(f, ids, n)[k] == if k in t then t[k] else f[k.txid].made[k]
  {
    if n > 0 {
      SpentByAt(t, f, ids, n - 1, k);
      assert Placed(t, f, ids[n - 1]);
      if k in f[ids[n - 1]].spent {
        assert Supplied(t, f, ids[n - 1], k);
      }
    }
  }

  /** An effect makes and spends nothing that others of the web make or spend. */
  lemma {:induction false} SeparateAt(t: Table, f: Web, ids: seq<Hash>, n: nat)
    requires Consistent(t, f) && Lists(ids, f.Keys) && 0 < n <= |ids|
    ensures MadeBy(f, ids, n - 1).Keys !! f[ids[n - 1]].made.Keys
    ensures SpentBy(f, ids, n - 1).Keys !! f[ids[n - 1]].spent.Keys
  {
    var id := ids[n - 1];
    assert Placed(t, f, id) && id !in ids[..n - 1];
    forall k | k in f[id].made ensures k !in MadeBy(f, ids, n - 1) {
      MadeByAt(t, f, ids, n - 1, k);
    }
    forall k | k in f[id].spent ensures k !in SpentBy(f, ids, n - 1) {
      SpentByAt(t, f, ids, n - 1, k);
      assert Supplied(t, f, id, k);
    }
  }

  lemma {:induction false} GainSplits(t: Table, f: Web, ids: seq<Hash>, n: nat)
    requires Consistent(t, f) && Lists(ids, f.Keys) && n <= |ids|
    ensures Gain(f, ids, n) == Sum(MadeBy(f, ids, n)) - Sum(SpentBy(f, ids, n))
  {
    if n > 0 {
      GainSplits(t, f, ids, n - 1);
      SeparateAt(t, f, ids, n);
      SumUnion(MadeBy(f, ids, n - 1), f[ids[n - 1]].made);
      SumUnion(SpentBy(f, ids, n - 1), f[ids[n - 1]].spent);
    }
  }

  /** Key by key, what is left and what is spent are what there was and what is made. */
  ghost predicate NetKey(t: Table, r: Table, made: Table, spent: Table, k: Key) {
    && !(k in made && k in t) && !(k in spent && k in r)
    && (k in r || k in spent <==> k in t || k in made)
    && (k in r || k in spent ==> (if k in r then r[k] else spent[k]) == (if k in t then t[k] else made[k]))
  }

  lemma NetKeyAt(t: Table, f: Web, r: Table, ids: seq<Hash>, k: Key)
    requires IsNet(t, f, r) && Lists(ids, f.Keys)
    ensures NetKey(t, r, MadeBy(f, ids, |ids|), SpentBy(f, ids, |ids|), k)
  {
    assert ids[..|ids|] == ids;
    MadeByAt(t, f, ids, |ids|, k);
    SpentByAt(t, f, ids, |ids|, k);
    assert NetAt(t, f, r, k);
    if MadeIn(f, k) {
      assert Placed(t, f, k.txid);
    }
    if SpentIn(f, k) {
      var id :| id in f && k in f[id].spent;
      var i :| 0 <= i < |ids| && ids[i] == id;
    }
  }

  lemma {:induction false} SameWorth(t: Table, r: Table, made: Table, spent: Table)
    requires forall k {:trigger NetKey(t, r, made, spent, k)} :: NetKey(t, r, made, spent, k)
    ensures Sum(r) + Sum(spent) == Sum(t) + Sum(made)
  {
    forall k ensures !(k in made && k in t) && !(k in spent && k in r) {
      assert NetKey(t, r, made, spent, k);
    }
    assert r + spent == t + made by {
      forall k ensures k in r + spent <==> k in t + made { assert NetKey(t, r, made, spent, k); }
      forall k | k in r + spent ensures (r + spent)[k] == (t + made)[k] { assert NetKey(t, r, made, spent, k); }
    }
    SumUnion(r, spent);
    SumUnion(t, made);
  }

  /** What a web leaves is worth what there was plus its gain. */
  lemma {:induction false} NetWorth(t: Table, f: Web, r: Table, ids: seq<Hash>)
    requires IsNet(t, f, r) && Lists(ids, f.Keys)
    ensures Sum(r) == Sum(t) + Gain(f, ids, |ids|)
  {
    forall k ensures NetKey(t, r, MadeBy(f, ids, |ids|), SpentBy(f, ids, |ids|), k) {
      NetKeyAt(t, f, r, ids, k);
    }
    SameWorth(t, r, MadeBy(f, ids, |ids|), SpentBy(f, ids, |ids|));
    GainSplits(t, f, ids, |ids|);
  }

  // ----- Pools and chains

  /** The fees of pool transactions, already taken from the table but paid to nobody yet. */
  ghost function PendingFees(pool: map<Hash, Tx>, ids: seq<Hash>, n: nat): nat
    requires n <= |ids|
  {
    if n == 0 then 0 else PendingFees(pool, ids, n - 1) + if ids[n - 1] in pool then FeeSum(pool[ids[n - 1]]) else 0
  }

  lemma {:induction false} PoolGain(pool: map<Hash, Tx>, ids: seq<Hash>, n: nat)
    requires n <= |ids| && forall id :: id in pool ==> PoolTx(id, pool[id])
    ensures Gain(PoolWeb(pool), ids, n) == 0 - PendingFees(pool, ids, n)
  {
    if n > 0 {
      PoolGain(pool, ids, n - 1);
      if ids[n - 1] in pool {
        EffectWorth(pool[ids[n - 1]], "");
      }
    }
  }

  // ----- Blocks

  /** What of the spent entries is not there. */
  ghost function Absent(now: Table, spent: Table): Table {
    map k | k in spent && k !in now :: spent[k]
  }

  /** What of the spent entries is there. */
  ghost function Present(now: Table, spent: Table): Table {
    map k | k in spent && k in now :: spent[k]
  }

  lemma {:induction false} SameAmounts(a: Table, b: Table)
    requires a.Keys == b.Keys && forall k :: k in a ==> a[k].amount == b[k].amount
    ensures Sum(a) == Sum(b)
    decreases |a|
  {
    if a == map[] {
      assert b == map[];
    } else {
      var k :| k in a;
      SumRemove(a, k);
      SumRemove(b, k);
      SameAmounts(a - {k}, b - {k});
    }
  }

  /** An effect changes the worth of the table by what it makes less what of it is there to be spent. */
  lemma {:induction false} AbsentWorth(t: Table, e: Effect)
    requires e.made.Keys !! t.Keys && forall k :: k in e.spent && k in t ==> t[k].amount == e.spent[k].amount
    ensures Sum(Apply(t, e)) == Sum(t) + Sum(e.made) - Sum(e.spent) + Sum(Absent(t, e.spent))
  {
    var there := map k | k in t && k in e.spent :: t[k];
    SumTake(t, there);
    assert t - there.Keys == t - e.spent.Keys;
    SumUnion(t - e.spent.Keys, e.made);
    SameAmounts(there, Present(t, e.spent));
    assert Present(t, e.spent) + Absent(t, e.spent) == e.spent;
    SumUnion(Present(t, e.spent), Absent(t, e.spent));
  }

  /** In its turn the transaction balances, makes new entries, and is right about the amounts of those it finds. */
  ghost predicate Priced(now: Table, tx: Tx, proposer: Addr) {
    && DistinctInputs(tx) && Balanced(tx) && Settled(tx, proposer).made.Keys !! now.Keys
    && forall k :: k in Spent(tx) && k in now ==> now[k].amount == Spent(tx)[k].amount
  }

  ghost predicate BlockPriced(t: Table, txs: seq<Tx>, proposer: Addr) {
    txs == [] ||
    var init, tx := txs[..|txs| - 1], txs[|txs| - 1];
    BlockPriced(t, init, proposer) && Priced(BlockTable(t, init, proposer), tx, proposer)
  }

  /** What coinbase transactions promise in fees, less what they spend: neither is counted in the total. */
  ghost function CoinGain(txs: seq<Tx>): int {
    if txs == [] then 0 else
    var tx := txs[|txs| - 1];
    CoinGain(txs[..|txs| - 1]) + if tx.coinbase then FeeSum(tx) - InSum(tx) else 0
  }

  /** The amounts of inputs that are not there in their turn. */
  ghost function Missing(t: Table, txs: seq<Tx>, proposer: Addr): nat {
    if txs == [] then 0 else
    var init, tx := txs[..|txs| - 1], txs[|txs| - 1];
    Missing(t, init, proposer) + Sum(Absent(BlockTable(t, init, proposer), Spent(tx)))
  }

  lemma {:induction false} BlockWorth(t: Table, txs: seq<Tx>, proposer: Addr)
    requires BlockPriced(t, txs, proposer)
    ensures Sum(BlockTable(t, txs, proposer))
            == Sum(t) + CoinbaseSum(txs) + CoinGain(txs) + Missing(t, txs, proposer)
  {
    if txs != [] {
      var n := |txs| - 1;
      BlockWorth(t, txs[..n], proposer);
      AbsentWorth(BlockTable(t, txs[..n], proposer), Settled(txs[n], proposer));
      EffectWorth(txs[n], proposer);
    }
  }

  /** A valid block finds everything it spends. */
  lemma {:induction false} FitsPriced(t: Table, txs: seq<Tx>, proposer: Addr)
    requires BlockFits(t, txs, proposer)
    ensures BlockPriced(t, txs, proposer) && Missing(t, txs, proposer) == 0
  {
    if txs != [] {
      var n := |txs| - 1;
      FitsPriced(t, txs[..n], proposer);
      NewBefore(t, txs[..n], proposer, txs[n]);
      assert Absent(BlockTable(t, txs[..n], proposer), Spent(txs[n])) == map[];
    }
  }

  // ----- Blocks that passed their check

  /** What the last transaction spends again. */
  ghost function Again(txs: seq<Tx>): Table
    requires txs != []
  {
    var n := |txs| - 1;
    map k | k in Spent(txs[n]) && SpentBefore(txs, n, k) :: Spent(txs[n])[k]
  }

  /** The amounts of what is spent again within the block. */
  ghost function Respent(txs: seq<Tx>): nat {
    if txs == [] then 0 else Respent(txs[..|txs| - 1]) + Sum(Again(txs))
  }

  /** Only entries of the table can be spent again, and then they are not there. */
  lemma {:induction false} AgainIsAbsent(t: Table, txs: seq<Tx>, proposer: Addr, n: nat, k: Key)
    requires AllSeen(t, txs, proposer) && NewIds(t, txs) && n < |txs| && k in Spent(txs[n])
    ensures
      var now := BlockTable(t, txs[..n], proposer);
      (k !in now <==> SpentBefore(txs, n, k)) && (k in now ==> now[k].amount == Spent(txs[n])[k].amount)
  {
    SeenAmount(t, txs, proposer, n, k);
    if k in t {
      OldEntry(t, txs, proposer, n, k);
    } else {
      var a := NewEntry(t, txs, proposer, n, k);
      forall b | 0 <= b < n ensures k !in Spent(txs[b]) {
        if k in Spent(txs[b]) {
          SeenAmount(t, txs, proposer, b, k);
          var c := NewEntry(t, txs, proposer, b, k);
        }
      }
    }
  }

  lemma {:induction false} SeenAmount(t: Table, txs: seq<Tx>, proposer: Addr, n: nat, k: Key)
    requires AllSeen(t, txs, proposer) && n < |txs| && k in Spent(txs[n])
    ensures
      var now, amount := BlockTable(t, txs[..n], proposer), Spent(txs[n])[k].amount;
      (k in now && now[k].amount == amount) || (k in t && t[k].amount == amount)
  {
    AllSeenAt(t, txs, proposer, n);
    SpentKeysTo(txs[n], |txs[n].inputs|, k);
    var i :| 0 <= i < |txs[n].inputs| && KeyOf(txs[n].inputs[i]) == k;
    SpentAt(txs[n], |txs[n].inputs|, i);
    assert SeenInput(t, BlockTable(t, txs[..n], proposer), txs[n].inputs[i]);
  }

  lemma {:induction false} MadeIsNew(t: Table, txs: seq<Tx>, proposer: Addr, n: nat)
    requires NewIds(t, txs) && n < |txs|
    ensures Settled(txs[n], proposer).made.Keys !! BlockTable(t, txs[..n], proposer).Keys
  {
    SettledTagged(txs[n], proposer);
    assert Txids(txs)[n] == txs[n].txid;
    forall k | k in Settled(txs[n], proposer).made ensures k !in BlockTable(t, txs[..n], proposer) {
      if k in BlockTable(t, txs[..n], proposer) {
        var a := NewEntry(t, txs, proposer, n, k);
      }
    }
  }

  lemma {:induction false} CheckedPriced(t: Table, txs: seq<Tx>, proposer: Addr)
    requires AllSeen(t, txs, proposer) && NewIds(t, txs)
    ensures BlockPriced(t, txs, proposer) && Missing(t, txs, proposer) == Respent(txs)
  {
    if txs != [] {
      var n := |txs| - 1;
      assert NewIds(t, txs[..n]) by {
        assert Txids(txs) == Txids(txs[..n]) + [txs[n].txid];
      }
      CheckedPriced(t, txs[..n], proposer);
      MadeIsNew(t, txs, proposer, n);
      forall k | k in Spent(txs[n])
        ensures var now := BlockTable(t, txs[..n], proposer);
          (k !in now <==> SpentBefore(txs, n, k)) && (k in now ==> now[k].amount == Spent(txs[n])[k].amount)
      {
        AgainIsAbsent(t, txs, proposer, n, k);
      }
      assert Absent(BlockTable(t, txs[..n], proposer), Spent(txs[n])) == Again(txs);
    }
  }

  /** A block that passed its check makes the table worth what it issues, what its coinbases promise beyond what they
      spend, and whatever it spends again. */
  lemma {:induction false} CheckedWorth(t: Table, txs: seq<Tx>, proposer: Addr)
    requires AllSeen(t, txs, proposer) && NewIds(t, txs)
    ensures Sum(BlockTable(t, txs, proposer)) == Sum(t) + CoinbaseSum(txs) + CoinGain(txs) + Respent(txs)
  {
    CheckedPriced(t, txs, proposer);
    BlockWorth(t, txs, proposer);
  }

  lemma {:induction false} SumZeroIff(t: Table)
    ensures Sum(t) == 0 <==> forall k :: k in t ==> t[k].amount == 0
    decreases |t|
  {
    if t == map[] {
      assert Sum(t) == 0;
    } else {
      var k :| k in t;
      var rest := t - {k};
      SumRemove(t, k);
      SumZeroIff(rest);
      assert forall j :: j in t <==> j == k || j in rest;
      assert forall j :: j in rest ==> rest[j] == t[j];
    }
  }

  /** What the transaction spends of earlier spent keys has no amount. */
  ghost predicate NothingAgain(txs: seq<Tx>, n: nat)
    requires n < |txs|
  {
    forall k :: k in Spent(txs[n]) && SpentBefore(txs, n, k) ==> Spent(txs[n])[k].amount == 0
  }

  lemma {:induction false} PrefixAgain(txs: seq<Tx>, m: nat, n: nat)
    requires n < m <= |txs|
    ensures NothingAgain(txs[..m], n) <==> NothingAgain(txs, n)
  {
    forall k ensures SpentBefore(txs[..m], n, k) <==> SpentBefore(txs, n, k) {
      assert forall a :: 0 <= a < n ==> txs[..m][a] == txs[a];
    }
  }

  lemma {:induction false} AgainZeroIff(txs: seq<Tx>, m: nat)
    requires m + 1 == |txs|
    ensures Sum(Again(txs)) == 0 <==> NothingAgain(txs, m)
  {
    var again := Again(txs);
    SumZeroIff(again);
    forall k ensures k in again <==> k in Spent(txs[m]) && SpentBefore(txs, m, k) {
    }
    assert forall k :: k in again ==> again[k] == Spent(txs[m])[k];
  }

  lemma {:induction false} RespentZeroIff(txs: seq<Tx>)
    ensures Respent(txs) == 0 <==> forall n :: 0 <= n < |txs| ==> NothingAgain(txs, n)
  {
    if txs != [] {
      var m := |txs| - 1;
      RespentZeroIff(txs[..m]);
      AgainZeroIff(txs, m);
      forall n | 0 <= n < m ensures NothingAgain(txs[..m], n) <==> NothingAgain(txs, n) {
        PrefixAgain(txs, m, n);
      }
    }
  }

  /** A block that passed its check, in which coinbases promise in fees what they spend, adds to the table exactly what
      it issues if and only if nothing of any amount is spent twice in it. */
  lemma {:induction false} CheckedConservesIff(t: Table, txs: seq<Tx>, proposer: Addr)
    requires AllSeen(t, txs, proposer) && NewIds(t, txs) && CoinGain(txs) == 0
    ensures Sum(BlockTable(t, txs, proposer)) == Sum(t) + CoinbaseSum(txs) <==>
            forall n :: 0 <= n < |txs| ==> NothingAgain(txs, n)
  {
    CheckedWorth(t, txs, proposer);
    RespentZeroIff(txs);
  }

  // ----- Chains and runs

  /** What the coinbases of the chain promise beyond what they spend. */
  ghost function ChainGain(v: View, b: Hash): int
    requires At(v, b)
    decreases Depth(v, b)
  {
    if b == Empty then 0 else ParentAt(v, b); ChainGain(v, v[b].pre) + CoinGain(v[b].txs)
  }

  lemma {:induction false} ChainWorth(v: View, b: Hash)
    requires At(v, b) && ChainFits(v, b)
    ensures Sum(TableAt(v, b)) == TotalAt(v, b) + ChainGain(v, b)
    decreases Depth(v, b)
  {
    if b != Empty {
      ParentAt(v, b);
      ChainWorth(v, v[b].pre);
      FitsPriced(TableAt(v, v[b].pre), v[b].txs, v[b].proposer);
      BlockWorth(TableAt(v, v[b].pre), v[b].txs, v[b].proposer);
    }
  }

  /** Of a valid machine, table and pending fees together are worth what was issued and what coinbases gained. */
  lemma {:induction false} Conserved(v: View, m: Machine, ids: seq<Hash>)
    requires Faithful(v, m) && Lists(ids, m.pool.Keys)
    ensures Sum(m.cash.table) + PendingFees(m.pool, ids, |ids|) == m.cash.total + ChainGain(v, m.latest)
  {
    ChainWorth(v, m.latest);
    assert PoolWeb(m.pool).Keys == m.pool.Keys;
    NetWorth(TableAt(v, m.latest), PoolWeb(m.pool), m.cash.table, ids);
    PoolGain(m.pool, ids, |ids|);
  }

  /** Conservation and balances over every run of submits, plays, rollbacks, undone and redone blocks. */
  lemma {:induction false} RunConserves(t: Trace, n: nat, ids: seq<Hash>)
    requires AcceptedRun(t) && NewBlocks(t) && ProperRun(t) && FaithfulAt(t, 0) && n < |t.worlds|
    requires Lists(ids, t.worlds[n].machine.pool.Keys)
    ensures
      var v, m := t.worlds[n].view, t.worlds[n].machine;
      && At(v, m.latest)
      && Sum(m.cash.table) + PendingFees(m.pool, ids, |ids|) == m.cash.total + ChainGain(v, m.latest)
      && forall a :: a in m.cash.balances ==> m.cash.balances[a] == BalanceOf(m.cash.table, a)
  {
    RunValid(t, n);
    Conserved(t.worlds[n].view, t.worlds[n].machine, ids);
  }
}
