/** Transactions against the UTXO table: doing and undoing them, paying and undoing fees, and what that is worth. */
module Utxo {
  import opened Transactions
  import opened Effects

  const FEE_PLACEHOLDER: Addr := "$"

  /** What the state machine keeps about money: the table, the system total, and the balances it has cached. */
  datatype Cash = Cash(table: Table, total: int, balances: map<Addr, int>)

  function KeyOf(i: TxInput): Key {
    Key(i.addr, i.refTxid, i.refOffset)
  }

  /** Adjust a cached balance; an address that is not cached is left alone. */
  function Credit(balances: map<Addr, int>, a: Addr, x: nat): map<Addr, int> {
    if a in balances then balances[a := balances[a] + x] else balances
  }

  function Debit(balances: map<Addr, int>, a: Addr, x: nat): map<Addr, int> {
    if a in balances then balances[a := balances[a] - x] else balances
  }

  /** Outputs that become entries: neither a fee nor worthless. */
  predicate Lasting(o: TxOutput) {
    o.addr != FEE_PLACEHOLDER && o.amount != 0
  }

  // ----- Steps, output by output

  function DoInputs(c: Cash, tx: Tx, n: nat): Cash
    requires n <= |tx.inputs|
  {
    if n == 0 then c else
    var d, i := DoInputs(c, tx, n - 1), tx.inputs[n - 1];
    Cash(d.table - {KeyOf(i)}, d.total, Debit(d.balances, i.addr, i.amount))
  }

  function DoOutputs(c: Cash, tx: Tx, n: nat): Cash
    requires n <= |tx.outputs|
  {
    if n == 0 then c else
    var d, o := DoOutputs(c, tx, n - 1), tx.outputs[n - 1];
    if !Lasting(o) then d else
    Cash(d.table[Key(o.addr, tx.txid, n - 1) := Item(o.amount, o.frozen)],
         if tx.coinbase then d.total + o.amount else d.total,
         Credit(d.balances, o.addr, o.amount))
  }

  function DoTx(c: Cash, tx: Tx): Cash {
    DoOutputs(DoInputs(c, tx, |tx.inputs|), tx, |tx.outputs|)
  }

  function UndoInputs(c: Cash, tx: Tx, n: nat): Cash
    requires n <= |tx.inputs|
  {
    if n == 0 then c else
    var d, i := UndoInputs(c, tx, n - 1), tx.inputs[n - 1];
    Cash(d.table[KeyOf(i) := Item(i.amount, i.frozen)], d.total, Credit(d.balances, i.addr, i.amount))
  }

  function UndoOutputs(c: Cash, tx: Tx, n: nat): Cash
    requires n <= |tx.outputs|
  {
    if n == 0 then c else
    var d, o := UndoOutputs(c, tx, n - 1), tx.outputs[n - 1];
    if !Lasting(o) then d else
    Cash(d.table - {Key(o.addr, tx.txid, n - 1)},
         if tx.coinbase then d.total - o.amount else d.total,
         Debit(d.balances, o.addr, o.amount))
  }

  function UndoTx(c: Cash, tx: Tx): Cash {
    UndoOutputs(UndoInputs(c, tx, |tx.inputs|), tx, |tx.outputs|)
  }

  function PayFeeTo(c: Cash, tx: Tx, proposer: Addr, n: nat): Cash
    requires n <= |tx.outputs|
  {
    if n == 0 then c else
    var d, o := PayFeeTo(c, tx, proposer, n - 1), tx.outputs[n - 1];
    if o.addr != FEE_PLACEHOLDER then d else
    Cash(d.table[Key(proposer, tx.txid, n - 1) := Item(o.amount, 0)], d.total, Credit(d.balances, proposer, o.amount))
  }

  function PayFee(c: Cash, tx: Tx, proposer: Addr): Cash {
    PayFeeTo(c, tx, proposer, |tx.outputs|)
  }

  function UndoFeeTo(c: Cash, tx: Tx, proposer: Addr, n: nat): Cash
    requires n <= |tx.outputs|
  {
    if n == 0 then c else
    var d, o := UndoFeeTo(c, tx, proposer, n - 1), tx.outputs[n - 1];
    if o.addr != FEE_PLACEHOLDER then d else
    Cash(d.table - {Key(proposer, tx.txid, n - 1)}, d.total, Debit(d.balances, proposer, o.amount))
  }

  function UndoFee(c: Cash, tx: Tx, proposer: Addr): Cash {
    UndoFeeTo(c, tx, proposer, |tx.outputs|)
  }

  // ----- The same, as effects

  function SpentTo(tx: Tx, n: nat): Table
    requires n <= |tx.inputs|
  {
    if n == 0 then map[] else
    var i := tx.inputs[n - 1];
    SpentTo(tx, n - 1)[KeyOf(i) := Item(i.amount, i.frozen)]
  }

  function OutsTo(tx: Tx, n: nat): Table
    requires n <= |tx.outputs|
  {
    if n == 0 then map[] else
    var o := tx.outputs[n - 1];
    if Lasting(o) then OutsTo(tx, n - 1)[Key(o.addr, tx.txid, n - 1) := Item(o.amount, o.frozen)] else OutsTo(tx, n - 1)
  }

  function FeesTo(tx: Tx, proposer: Addr, n: nat): Table
    requires n <= |tx.outputs|
  {
    if n == 0 then map[] else
    var o := tx.outputs[n - 1];
    if o.addr == FEE_PLACEHOLDER then FeesTo(tx, proposer, n - 1)[Key(proposer, tx.txid, n - 1) := Item(o.amount, 0)]
    else FeesTo(tx, proposer, n - 1)
  }

  function Spent(tx: Tx): Table { SpentTo(tx, |tx.inputs|) }

  function Outs(tx: Tx): Table { OutsTo(tx, |tx.outputs|) }

  function Fees(tx: Tx, proposer: Addr): Table { FeesTo(tx, proposer, |tx.outputs|) }

  /** A transaction in the pool, with its fees not yet paid. */
  function Pending(tx: Tx): Effect {
    Effect(Spent(tx), Outs(tx))
  }

  /** A transaction in a block, with its fees paid to the proposer. */
  function Settled(tx: Tx, proposer: Addr): Effect {
    Effect(Spent(tx), Outs(tx) + Fees(tx, proposer))
  }

  lemma MinusUpdated(a: Table, s: Table, k: Key, v: Item)
    ensures a - s[k := v].Keys == (a - s.Keys) - {k}
    ensures a + s[k := v] == (a + s)[k := v]
  {
  }

  lemma PlusNone(a: Table, none: Table)
    requires none == map[]
    ensures a + none == a && a - none.Keys == a
  {
  }

  lemma PlusBoth(a: Table, s: Table, u: Table)
    ensures a + (s + u) == (a + s) + u
    ensures a - (s + u).Keys == (a - s.Keys) - u.Keys
  {
  }

  lemma {:induction false} OutsKeys(tx: Tx, proposer: Addr, n: nat)
    requires n <= |tx.outputs|
    ensures forall k :: k in OutsTo(tx, n) ==> k.txid == tx.txid && k.offset < n && Lasting(tx.outputs[k.offset])
    ensures forall k :: k in FeesTo(tx, proposer, n) ==>
            k.txid == tx.txid && k.offset < n && tx.outputs[k.offset].addr == FEE_PLACEHOLDER
  {
    if n > 0 {
      OutsKeys(tx, proposer, n - 1);
    }
  }

  /** An output becomes an entry of its address exactly if it is no fee and not worthless, a fee becomes one of the
      proposer, worthless or not and never frozen; each under its offset. */
  lemma {:induction false} EntriesIff(tx: Tx, proposer: Addr, n: nat, k: Key)
    requires n <= |tx.outputs|
    ensures k in OutsTo(tx, n) <==>
            && k.txid == tx.txid && k.offset < n
            && var o := tx.outputs[k.offset]; o.addr == k.addr && o.addr != FEE_PLACEHOLDER && o.amount > 0
    ensures k in FeesTo(tx, proposer, n) <==>
            && k.txid == tx.txid && k.addr == proposer && k.offset < n && tx.outputs[k.offset].addr == FEE_PLACEHOLDER
    ensures k in OutsTo(tx, n) ==>
            OutsTo(tx, n)[k] == Item(tx.outputs[k.offset].amount, tx.outputs[k.offset].frozen)
    ensures k in FeesTo(tx, proposer, n) ==> FeesTo(tx, proposer, n)[k] == Item(tx.outputs[k.offset].amount, 0)
  {
    if n > 0 {
      EntriesIff(tx, proposer, n - 1, k);
      OutsKeys(tx, proposer, n - 1);
    }
  }

  lemma SettledTagged(tx: Tx, proposer: Addr)
    ensures Tagged(tx.txid, Pending(tx)) && Tagged(tx.txid, Settled(tx, proposer))
    ensures Outs(tx).Keys !! Fees(tx, proposer).Keys
    ensures forall k :: k in Fees(tx, proposer) ==> k.txid == tx.txid
  {
    OutsKeys(tx, proposer, |tx.outputs|);
  }

  lemma {:induction false} DoInputsTable(c: Cash, tx: Tx, n: nat)
    requires n <= |tx.inputs|
    ensures DoInputs(c, tx, n).table == c.table - SpentTo(tx, n).Keys
    ensures UndoInputs(c, tx, n).table == c.table + SpentTo(tx, n)
    ensures DoInputs(c, tx, n).total == c.total == UndoInputs(c, tx, n).total
  {
    if n > 0 {
      DoInputsTable(c, tx, n - 1);
      var i := tx.inputs[n - 1];
      MinusUpdated(c.table, SpentTo(tx, n - 1), KeyOf(i), Item(i.amount, i.frozen));
    } else {
      PlusNone(c.table, map[]);
    }
  }

  lemma {:induction false} DoOutputsTable(c: Cash, tx: Tx, n: nat)
    requires n <= |tx.outputs|
    ensures DoOutputs(c, tx, n).table == c.table + OutsTo(tx, n)
    ensures UndoOutputs(c, tx, n).table == c.table - OutsTo(tx, n).Keys
  {
    if n > 0 {
      DoOutputsTable(c, tx, n - 1);
      var o := tx.outputs[n - 1];
      MinusUpdated(c.table, OutsTo(tx, n - 1), Key(o.addr, tx.txid, n - 1), Item(o.amount, o.frozen));
    } else {
      PlusNone(c.table, map[]);
    }
  }

  lemma {:induction false} FeeTable(c: Cash, tx: Tx, proposer: Addr, n: nat)
    requires n <= |tx.outputs|
    ensures PayFeeTo(c, tx, proposer, n).table == c.table + FeesTo(tx, proposer, n)
    ensures UndoFeeTo(c, tx, proposer, n).table == c.table - FeesTo(tx, proposer, n).Keys
    ensures PayFeeTo(c, tx, proposer, n).total == c.total == UndoFeeTo(c, tx, proposer, n).total
  {
    if n > 0 {
      FeeTable(c, tx, proposer, n - 1);
      var o := tx.outputs[n - 1];
      MinusUpdated(c.table, FeesTo(tx, proposer, n - 1), Key(proposer, tx.txid, n - 1), Item(o.amount, 0));
    } else {
      PlusNone(c.table, map[]);
    }
  }

  /** Doing a transaction applies its pending effect; then paying its fees applies the settled one. */
  lemma DoTxTable(c: Cash, tx: Tx, proposer: Addr)
    ensures DoTx(c, tx).table == Apply(c.table, Pending(tx))
    ensures PayFee(c, tx, proposer).table == c.table + Fees(tx, proposer)
    ensures PayFee(DoTx(c, tx), tx, proposer).table == Apply(c.table, Settled(tx, proposer))
  {
    DoInputsTable(c, tx, |tx.inputs|);
    DoOutputsTable(DoInputs(c, tx, |tx.inputs|), tx, |tx.outputs|);
    FeeTable(DoTx(c, tx), tx, proposer, |tx.outputs|);
    PlusBoth(c.table - Spent(tx).Keys, Outs(tx), Fees(tx, proposer));
    FeeTable(c, tx, proposer, |tx.outputs|);
  }

  /** Undoing a transaction reverts its pending effect; undoing its fees after that, not before, reverts the settled
      one. */
  lemma UndoTxTable(c: Cash, tx: Tx, proposer: Addr)
    ensures UndoTx(c, tx).table == Revert(c.table, Pending(tx))
    ensures UndoFee(c, tx, proposer).table == c.table - Fees(tx, proposer).Keys
    ensures UndoFee(UndoTx(c, tx), tx, proposer).table == Revert(c.table, Settled(tx, proposer))
  {
    DoInputsTable(c, tx, |tx.inputs|);
    DoOutputsTable(UndoInputs(c, tx, |tx.inputs|), tx, |tx.outputs|);
    FeeTable(UndoTx(c, tx), tx, proposer, |tx.outputs|);
    PlusBoth(c.table + Spent(tx), Outs(tx), Fees(tx, proposer));
    FeeTable(c, tx, proposer, |tx.outputs|);
  }

  // ----- Which balances are cached

  lemma {:induction false} InputsCache(c: Cash, tx: Tx, n: nat)
    requires n <= |tx.inputs|
    ensures DoInputs(c, tx, n).balances.Keys == c.balances.Keys == UndoInputs(c, tx, n).balances.Keys
  {
    if n > 0 {
      InputsCache(c, tx, n - 1);
    }
  }

  lemma {:induction false} OutputsCache(c: Cash, tx: Tx, proposer: Addr, n: nat)
    requires n <= |tx.outputs|
    ensures DoOutputs(c, tx, n).balances.Keys == c.balances.Keys == UndoOutputs(c, tx, n).balances.Keys
    ensures PayFeeTo(c, tx, proposer, n).balances.Keys == c.balances.Keys == UndoFeeTo(c, tx, proposer, n).balances.Keys
  {
    if n > 0 {
      OutputsCache(c, tx, proposer, n - 1);
    }
  }

  /** Doing, undoing and paying only adjust balances that are cached already. */
  lemma {:induction false} TxCache(c: Cash, tx: Tx, proposer: Addr)
    ensures DoTx(c, tx).balances.Keys == c.balances.Keys == UndoTx(c, tx).balances.Keys
    ensures PayFee(c, tx, proposer).balances.Keys == c.balances.Keys == UndoFee(c, tx, proposer).balances.Keys
  {
    InputsCache(c, tx, |tx.inputs|);
    OutputsCache(DoInputs(c, tx, |tx.inputs|), tx, proposer, |tx.outputs|);
    OutputsCache(UndoInputs(c, tx, |tx.inputs|), tx, proposer, |tx.outputs|);
    OutputsCache(c, tx, proposer, |tx.outputs|);
  }
}
