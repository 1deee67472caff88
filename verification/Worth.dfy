/** What tables are worth, cached balances, and conservation of money by single transactions. */
module Worth {
  import opened Transactions
  import opened Effects
  import opened Utxo

  ghost function Sum(t: Table): nat
    decreases |t|
  {
    if t == map[] then 0 else
    var k :| k in t;
    t[k].amount + Sum(t - {k})
  }

  lemma {:induction false} SumRemove(t: Table, k: Key)
    requires k in t
    ensures Sum(t) == t[k].amount + Sum(t - {k})
    decreases |t|
  {
    var j :| j in t && Sum(t) == t[j].amount + Sum(t - {j});
    if j != k {
      SumRemove(t - {j}, k);
      SumRemove(t - {k}, j);
      assert t - {j} - {k} == t - {k} - {j};
    }
  }

  lemma SumPut(t: Table, k: Key, v: Item)
    requires k !in t
    ensures Sum(t[k := v]) == Sum(t) + v.amount
  {
    SumRemove(t[k := v], k);
    assert t[k := v] - {k} == t;
  }

  lemma UnionMinus(a: Table, b: Table, k: Key)
    requires k !in a
    ensures (a + b) - {k} == a + (b - {k})
  {
  }

  lemma {:induction false} SumUnion(a: Table, b: Table)
    requires a.Keys !! b.Keys
    ensures Sum(a + b) == Sum(a) + Sum(b)
    decreases |b|
  {
    if b == map[] {
      assert a + b == a;
    } else {
      var k :| k in b;
      SumUnion(a, b - {k});
      SumRemove(b, k);
      UnionMinus(a, b, k);
      SumRemove(a + b, k);
    }
  }

  lemma SumTake(t: Table, a: Table)
    requires Within(a, t)
    ensures Sum(t - a.Keys) == Sum(t) - Sum(a)
  {
    assert (t - a.Keys) + a == t;
    SumUnion(t - a.Keys, a);
  }

  /** An effect that fits changes the worth of the table by what it makes less what it spends. */
  lemma ApplyWorth(t: Table, e: Effect)
    requires Fits(t, e)
    ensures Sum(Apply(t, e)) == Sum(t) - Sum(e.spent) + Sum(e.made)
  {
    SumTake(t, e.spent);
    SumUnion(t - e.spent.Keys, e.made);
  }

  // ----- Amounts of a transaction

  function InTotal(tx: Tx, n: nat): nat
    requires n <= |tx.inputs|
  {
    if n == 0 then 0 else InTotal(tx, n - 1) + tx.inputs[n - 1].amount
  }

  function OutTotal(tx: Tx, n: nat): nat
    requires n <= |tx.outputs|
  {
    if n == 0 then 0
    else OutTotal(tx, n - 1) + (if tx.outputs[n - 1].addr == FEE_PLACEHOLDER then 0 else tx.outputs[n - 1].amount)
  }

  function FeeTotal(tx: Tx, n: nat): nat
    requires n <= |tx.outputs|
  {
    if n == 0 then 0
    else FeeTotal(tx, n - 1) + (if tx.outputs[n - 1].addr == FEE_PLACEHOLDER then tx.outputs[n - 1].amount else 0)
  }

  function InSum(tx: Tx): nat { InTotal(tx, |tx.inputs|) }

  function OutSum(tx: Tx): nat { OutTotal(tx, |tx.outputs|) }

  function FeeSum(tx: Tx): nat { FeeTotal(tx, |tx.outputs|) }

  ghost predicate DistinctInputs(tx: Tx) {
    forall i, j :: 0 <= i < j < |tx.inputs| ==> KeyOf(tx.inputs[i]) != KeyOf(tx.inputs[j])
  }

  lemma {:induction false} SpentKeysTo(tx: Tx, n: nat, k: Key)
    requires n <= |tx.inputs|
    ensures k in SpentTo(tx, n) <==> exists i :: 0 <= i < n && KeyOf(tx.inputs[i]) == k
  {
    if n > 0 {
      SpentKeysTo(tx, n - 1, k);
    }
  }

  lemma {:induction false} SpentWorth(tx: Tx, n: nat)
    requires n <= |tx.inputs| && DistinctInputs(tx)
    ensures Sum(SpentTo(tx, n)) == InTotal(tx, n)
  {
    if n > 0 {
      SpentWorth(tx, n - 1);
      var i := tx.inputs[n - 1];
      SpentKeysTo(tx, n - 1, KeyOf(i));
      SumPut(SpentTo(tx, n - 1), KeyOf(i), Item(i.amount, i.frozen));
    }
  }

  lemma {:induction false} OutsWorth(tx: Tx, proposer: Addr, n: nat)
    requires n <= |tx.outputs|
    ensures Sum(OutsTo(tx, n)) == OutTotal(tx, n) && Sum(FeesTo(tx, proposer, n)) == FeeTotal(tx, n)
  {
    if n > 0 {
      OutsWorth(tx, proposer, n - 1);
      OutsKeys(tx, proposer, n - 1);
      var o := tx.outputs[n - 1];
      if Lasting(o) {
        SumPut(OutsTo(tx, n - 1), Key(o.addr, tx.txid, n - 1), Item(o.amount, o.frozen));
      } else if o.addr == FEE_PLACEHOLDER {
        SumPut(FeesTo(tx, proposer, n - 1), Key(proposer, tx.txid, n - 1), Item(o.amount, 0));
      }
    }
  }

  lemma EffectWorth(tx: Tx, proposer: Addr)
    requires DistinctInputs(tx)
    ensures Sum(Spent(tx)) == InSum(tx)
    ensures Sum(Pending(tx).made) == OutSum(tx)
    ensures Sum(Settled(tx, proposer).made) == OutSum(tx) + FeeSum(tx)
  {
    SpentWorth(tx, |tx.inputs|);
    OutsWorth(tx, proposer, |tx.outputs|);
    SettledTagged(tx, proposer);
    SumUnion(Outs(tx), Fees(tx, proposer));
  }

  lemma {:induction false} DoOutputsTotal(c: Cash, tx: Tx, n: nat)
    requires n <= |tx.outputs|
    ensures DoOutputs(c, tx, n).total == c.total + if tx.coinbase then OutTotal(tx, n) else 0
    ensures UndoOutputs(c, tx, n).total == c.total - if tx.coinbase then OutTotal(tx, n) else 0
  {
    if n > 0 {
      DoOutputsTotal(c, tx, n - 1);
    }
  }

  /** The system total moves with the outputs of coinbase transactions only. */
  lemma TxTotal(c: Cash, tx: Tx, proposer: Addr)
    ensures DoTx(c, tx).total == c.total + if tx.coinbase then OutSum(tx) else 0
    ensures UndoTx(c, tx).total == c.total - if tx.coinbase then OutSum(tx) else 0
    ensures PayFee(c, tx, proposer).total == c.total == UndoFee(c, tx, proposer).total
  {
    DoInputsTable(c, tx, |tx.inputs|);
    DoOutputsTotal(DoInputs(c, tx, |tx.inputs|), tx, |tx.outputs|);
    DoOutputsTotal(UndoInputs(c, tx, |tx.inputs|), tx, |tx.outputs|);
    FeeTable(c, tx, proposer, |tx.outputs|);
  }

  /** The balance test of the input check. */
  predicate Balanced(tx: Tx) {
    InSum(tx) == OutSum(tx) + FeeSum(tx) || (tx.coinbase && InSum(tx) == 0)
  }

  /** Doing a balanced transaction and paying its fees keeps worth and total in step if and only if it is not
      coinbase, or its fees equal its inputs: the check lets a coinbase through that carries fees, or that spends. */
  lemma SettleConservesIff(c: Cash, tx: Tx, proposer: Addr)
    requires Fits(c.table, Settled(tx, proposer)) && DistinctInputs(tx) && Balanced(tx)
    ensures
      var d := PayFee(DoTx(c, tx), tx, proposer);
      Sum(d.table) - d.total == Sum(c.table) - c.total <==> !tx.coinbase || FeeSum(tx) == InSum(tx)
    ensures
      var d := PayFee(DoTx(c, tx), tx, proposer);
      (Sum(d.table) - d.total) - (Sum(c.table) - c.total) ==
        if !tx.coinbase then 0 else if InSum(tx) == 0 then FeeSum(tx) else 0 - OutSum(tx)
  {
    DoTxTable(c, tx, proposer);
    ApplyWorth(c.table, Settled(tx, proposer));
    EffectWorth(tx, proposer);
    TxTotal(c, tx, proposer);
    TxTotal(DoTx(c, tx), tx, proposer);
  }

  // ----- Cached balances

  ghost function Owned(t: Table, a: Addr): Table {
    map k | k in t && k.addr == a :: t[k]
  }

  ghost function BalanceOf(t: Table, a: Addr): nat {
    Sum(Owned(t, a))
  }

  /** Every cached balance is what the address owns in the table. */
  ghost predicate Coherent(t: Table, balances: map<Addr, int>) {
    forall a :: a in balances ==> balances[a] == BalanceOf(t, a)
  }

  lemma OwnedPut(t: Table, k: Key, v: Item, a: Addr)
    ensures Owned(t[k := v], a) == if a == k.addr then Owned(t, a)[k := v] else Owned(t, a)
  {
  }

  lemma OwnedTake(t: Table, k: Key, a: Addr)
    ensures Owned(t - {k}, a) == if a == k.addr then Owned(t, a) - {k} else Owned(t, a)
  {
  }

  lemma PutCoherent(t: Table, balances: map<Addr, int>, k: Key, v: Item)
    requires Coherent(t, balances) && k !in t
    ensures Coherent(t[k := v], Credit(balances, k.addr, v.amount))
  {
    forall a | a in balances ensures Credit(balances, k.addr, v.amount)[a] == BalanceOf(t[k := v], a) {
      if a == k.addr {
        SumPut(Owned(t, a), k, v);
      }
      OwnedPut(t, k, v, a);
    }
  }

  lemma TakeCoherent(t: Table, balances: map<Addr, int>, k: Key)
    requires Coherent(t, balances) && k in t
    ensures Coherent(t - {k}, Debit(balances, k.addr, t[k].amount))
  {
    forall a | a in balances ensures Debit(balances, k.addr, t[k].amount)[a] == BalanceOf(t - {k}, a) {
      if a == k.addr {
        SumRemove(Owned(t, a), k);
      }
      OwnedTake(t, k, a);
    }
  }

  lemma {:induction false} InputsCoherent(c: Cash, tx: Tx, n: nat)
    requires n <= |tx.inputs| && DistinctInputs(tx) && Coherent(c.table, c.balances) && Within(SpentTo(tx, n), c.table)
    ensures Coherent(DoInputs(c, tx, n).table, DoInputs(c, tx, n).balances)
  {
    if n > 0 {
      var i := tx.inputs[n - 1];
      SpentKeysTo(tx, n - 1, KeyOf(i));
      forall k | k in SpentTo(tx, n - 1) ensures k in c.table && c.table[k] == SpentTo(tx, n - 1)[k] {
        assert k in SpentTo(tx, n);
      }
      InputsCoherent(c, tx, n - 1);
      DoInputsTable(c, tx, n - 1);
      assert KeyOf(i) in SpentTo(tx, n);
      TakeCoherent(DoInputs(c, tx, n - 1).table, DoInputs(c, tx, n - 1).balances, KeyOf(i));
    }
  }

  lemma {:induction false} OutputsCoherent(c: Cash, tx: Tx, n: nat)
    requires n <= |tx.outputs| && Coherent(c.table, c.balances) && OutsTo(tx, n).Keys !! c.table.Keys
    ensures Coherent(DoOutputs(c, tx, n).table, DoOutputs(c, tx, n).balances)
  {
    if n > 0 {
      OutsKeys(tx, "", n - 1);
      OutputsCoherent(c, tx, n - 1);
      DoOutputsTable(c, tx, n - 1);
      var o := tx.outputs[n - 1];
      if Lasting(o) {
        var k := Key(o.addr, tx.txid, n - 1);
        assert k in OutsTo(tx, n);
        PutCoherent(DoOutputs(c, tx, n - 1).table, DoOutputs(c, tx, n - 1).balances, k, Item(o.amount, o.frozen));
      }
    }
  }

  lemma {:induction false} FeesCoherent(c: Cash, tx: Tx, proposer: Addr, n: nat)
    requires n <= |tx.outputs| && Coherent(c.table, c.balances) && FeesTo(tx, proposer, n).Keys !! c.table.Keys
    ensures Coherent(PayFeeTo(c, tx, proposer, n).table, PayFeeTo(c, tx, proposer, n).balances)
  {
    if n > 0 {
      OutsKeys(tx, proposer, n - 1);
      FeesCoherent(c, tx, proposer, n - 1);
      FeeTable(c, tx, proposer, n - 1);
      var o := tx.outputs[n - 1];
      if o.addr == FEE_PLACEHOLDER {
        var k := Key(proposer, tx.txid, n - 1);
        assert k in FeesTo(tx, proposer, n);
        PutCoherent(PayFeeTo(c, tx, proposer, n - 1).table, PayFeeTo(c, tx, proposer, n - 1).balances, k,
                    Item(o.amount, 0));
      }
    }
  }

  lemma {:induction false} UndoInputsCoherent(c: Cash, tx: Tx, n: nat)
    requires n <= |tx.inputs| && DistinctInputs(tx) && Coherent(c.table, c.balances)
    requires SpentTo(tx, n).Keys !! c.table.Keys
    ensures Coherent(UndoInputs(c, tx, n).table, UndoInputs(c, tx, n).balances)
  {
    if n > 0 {
      var i := tx.inputs[n - 1];
      SpentKeysTo(tx, n - 1, KeyOf(i));
      UndoInputsCoherent(c, tx, n - 1);
      DoInputsTable(c, tx, n - 1);
      assert KeyOf(i) in SpentTo(tx, n);
      PutCoherent(UndoInputs(c, tx, n - 1).table, UndoInputs(c, tx, n - 1).balances, KeyOf(i),
                  Item(i.amount, i.frozen));
    }
  }

  lemma {:induction false} UndoOutputsCoherent(c: Cash, tx: Tx, n: nat)
    requires n <= |tx.outputs| && Coherent(c.table, c.balances) && Within(OutsTo(tx, n), c.table)
    ensures Coherent(UndoOutputs(c, tx, n).table, UndoOutputs(c, tx, n).balances)
  {
    if n > 0 {
      OutsKeys(tx, "", n - 1);
      forall k | k in OutsTo(tx, n - 1) ensures k in c.table && c.table[k] == OutsTo(tx, n - 1)[k] {
        assert k in OutsTo(tx, n);
      }
      UndoOutputsCoherent(c, tx, n - 1);
      DoOutputsTable(c, tx, n - 1);
      var o := tx.outputs[n - 1];
      if Lasting(o) {
        var k := Key(o.addr, tx.txid, n - 1);
        assert k in OutsTo(tx, n);
        TakeCoherent(UndoOutputs(c, tx, n - 1).table, UndoOutputs(c, tx, n - 1).balances, k);
      }
    }
  }

  lemma {:induction false} UndoFeesCoherent(c: Cash, tx: Tx, proposer: Addr, n: nat)
    requires n <= |tx.outputs| && Coherent(c.table, c.balances) && Within(FeesTo(tx, proposer, n), c.table)
    ensures Coherent(UndoFeeTo(c, tx, proposer, n).table, UndoFeeTo(c, tx, proposer, n).balances)
  {
    if n > 0 {
      OutsKeys(tx, proposer, n - 1);
      forall k | k in FeesTo(tx, proposer, n - 1) ensures k in c.table && c.table[k] == FeesTo(tx, proposer, n - 1)[k] {
        assert k in FeesTo(tx, proposer, n);
      }
      UndoFeesCoherent(c, tx, proposer, n - 1);
      FeeTable(c, tx, proposer, n - 1);
      var o := tx.outputs[n - 1];
      if o.addr == FEE_PLACEHOLDER {
        var k := Key(proposer, tx.txid, n - 1);
        assert k in FeesTo(tx, proposer, n);
        TakeCoherent(UndoFeeTo(c, tx, proposer, n - 1).table, UndoFeeTo(c, tx, proposer, n - 1).balances, k);
      }
    }
  }

  /** Balances stay in step with the table through a transaction that fits. */
  lemma DoTxCoherent(c: Cash, tx: Tx)
    requires Coherent(c.table, c.balances) && Fits(c.table, Pending(tx)) && DistinctInputs(tx)
    ensures Coherent(DoTx(c, tx).table, DoTx(c, tx).balances)
  {
    InputsCoherent(c, tx, |tx.inputs|);
    DoInputsTable(c, tx, |tx.inputs|);
    OutputsCoherent(DoInputs(c, tx, |tx.inputs|), tx, |tx.outputs|);
  }

  lemma PayFeeCoherent(c: Cash, tx: Tx, proposer: Addr)
    requires Coherent(c.table, c.balances) && Fees(tx, proposer).Keys !! c.table.Keys
    ensures Coherent(PayFee(c, tx, proposer).table, PayFee(c, tx, proposer).balances)
  {
    FeesCoherent(c, tx, proposer, |tx.outputs|);
  }

  lemma UndoTxCoherent(c: Cash, tx: Tx)
    requires Coherent(c.table, c.balances) && DistinctInputs(tx)
    requires Spent(tx).Keys !! c.table.Keys && Within(Outs(tx), c.table)
    ensures Coherent(UndoTx(c, tx).table, UndoTx(c, tx).balances)
  {
    UndoInputsCoherent(c, tx, |tx.inputs|);
    DoInputsTable(c, tx, |tx.inputs|);
    UndoOutputsCoherent(UndoInputs(c, tx, |tx.inputs|), tx, |tx.outputs|);
  }

  lemma UndoFeeCoherent(c: Cash, tx: Tx, proposer: Addr)
    requires Coherent(c.table, c.balances) && Within(Fees(tx, proposer), c.table)
    ensures Coherent(UndoFee(c, tx, proposer).table, UndoFee(c, tx, proposer).balances)
  {
    UndoFeesCoherent(c, tx, proposer, |tx.outputs|);
  }
}
