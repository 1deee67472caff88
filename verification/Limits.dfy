/** Concrete inputs on which the program does less than one would hope for; the exact conditions are proved beside
    the operations concerned. */
module Limits {
  import opened Tree
  import opened Transactions
  import opened Effects
  import opened Utxo
  import opened Worth
  import opened Chain
  import opened Touch
  import opened Reversal
  import opened Machine
  import opened Play
  import opened Check
  import opened Checked
  import opened Overlay
  import opened Passing

  const COIN: Key := Key("a", Digest(1), 0)
  const PAID: Key := Key("b", Digest(2), 0)
  const PASSED_ON: Key := Key("c", Digest(3), 0)

  /** Spend the coin, declaring the given frozen height, and pay it to b. */
  function Spender(code: nat, frozen: int): Tx {
    Tx(Digest(code), [TxInput("a", Digest(1), 0, 5, frozen)], [TxOutput("b", 5, 0)], false, false)
  }

  lemma SpenderEffect(code: nat, frozen: int, proposer: Addr)
    ensures Spent(Spender(code, frozen)) == map[COIN := Item(5, frozen)]
    ensures Outs(Spender(code, frozen)) == map[Key("b", Digest(code), 0) := Item(5, 0)]
    ensures Fees(Spender(code, frozen), proposer) == map[]
    ensures Settled(Spender(code, frozen), proposer) == Pending(Spender(code, frozen))
    ensures DistinctInputs(Spender(code, frozen)) && Balanced(Spender(code, frozen))
  {
    var tx := Spender(code, frozen);
    assert SpentTo(tx, 0) == map[] && OutsTo(tx, 0) == map[] && FeesTo(tx, proposer, 0) == map[];
    assert InTotal(tx, 0) == OutTotal(tx, 0) == FeeTotal(tx, 0) == 0;
  }

  /** The table after one and after both spenders of the coin. */
  lemma {:induction false} BothSpent()
    ensures
      var t, x, y := map[COIN := Item(5, 0)], Spender(2, 0), Spender(3, 0);
      && BlockTable(t, [x], "p") == map[Key("b", Digest(2), 0) := Item(5, 0)]
      && BlockTable(t, [x, y], "p") == BlockTable(t, [x], "p")[Key("b", Digest(3), 0) := Item(5, 0)]
      && Sum(t) == 5 && Sum(BlockTable(t, [x, y], "p")) == 10
  {
    var t, x, y := map[COIN := Item(5, 0)], Spender(2, 0), Spender(3, 0);
    SpenderEffect(2, 0, "p");
    SpenderEffect(3, 0, "p");
    var one := map[Key("b", Digest(2), 0) := Item(5, 0)];
    assert [x, y][..1] == [x] && [x][..0] == [] && BlockTable(t, [], "p") == t;
    assert BlockTable(t, [x], "p") == Apply(t, Settled(x, "p")) == one;
    assert BlockTable(t, [x, y], "p") == Apply(one, Settled(y, "p")) == one[Key("b", Digest(3), 0) := Item(5, 0)];
    SumPut(map[], COIN, Item(5, 0));
    SumPut(map[], Key("b", Digest(2), 0), Item(5, 0));
    SumPut(one, Key("b", Digest(3), 0), Item(5, 0));
  }

  /** A one-input transaction passes when its input is found with its amount and not frozen. */
  lemma {:induction false} PassesWith(s: Sight, tx: Tx, height: nat)
    requires |tx.inputs| == 1 && Balanced(tx) && Lookup(s, KeyOf(tx.inputs[0])) == Just(Item(tx.inputs[0].amount, 0))
    ensures TxVerdict(s, tx, height) == Passed
  {
    PassedIff(s, tx, height);
    assert Shown(s, tx.inputs[0], height);
  }

  /** A block in which two transactions spend the same coin passes the check when a walk redoes it, because the second
      one finds the coin in the stored table, whatever the caches still show; the coin is then worth twice as much.
      Undoing the block restores the table all the same. */
  lemma {:induction false} DoubleSpendPasses(height: nat, hot: Table)
    requires Within(hot, Outs(Spender(2, 0)))
    ensures
      var t, x, y := map[COIN := Item(5, 0)], Spender(2, 0), Spender(3, 0);
      && TxVerdict(Sight(map[], map[], t), x, height) == Passed
      && TxVerdict(Sight(hot, Outs(x), t), y, height) == Passed
      && NewIds(t, [x, y]) && !NoDoubleSpend([x, y]) && !BlockFits(t, [x, y], "p")
      && Sum(t) == 5 && Sum(BlockTable(t, [x, y], "p")) == 10 && Restores(t, [x, y], "p")
  {
    var t, x, y := map[COIN := Item(5, 0)], Spender(2, 0), Spender(3, 0);
    var txs := [x, y];
    BothSpent();
    SpenderEffect(2, 0, "p");
    SpenderEffect(3, 0, "p");
    PassesWith(Sight(map[], map[], t), x, height);
    PassesWith(Sight(hot, Outs(x), t), y, height);
    assert Txids(txs) == [Digest(2), Digest(3)];
    assert COIN in Spent(txs[0]) && COIN in Spent(txs[1]);
    assert Clash(txs[0], txs[1]);
    ReplaysIff(t, txs, "p");
    forall k, i: nat | FirstTouch(SettledAll(txs, "p"), k, i)
      ensures if k in Settled(txs[i], "p").made then k !in t else k in t && t[k] == Spent(txs[i])[k]
    {
      assert i == 1 ==> !Touches(SettledAll(txs, "p")[0], k);
    }
  }

  /** A transaction that declares another frozen height than the recorded one passes, and undoing it does not restore
      the table. */
  lemma {:induction false} WrongFreezeNotRestored(height: nat)
    ensures
      var t, tx := map[COIN := Item(5, 0)], Spender(2, 7);
      && TxVerdict(Sight(map[], map[], t), tx, height) == Passed && !AsRecorded(t, tx)
      && Revert(Apply(t, Pending(tx)), Pending(tx)) != t && !Restores(t, [tx], "p")
  {
    var t, tx := map[COIN := Item(5, 0)], Spender(2, 7);
    SpenderEffect(2, 7, "");
    SpenderEffect(2, 7, "p");
    assert FirstTouch(SettledAll([tx], "p"), COIN, 0);
    assert !RestoredAt(t, SettledAll([tx], "p"), COIN);
    PassesWith(Sight(map[], map[], t), tx, height);
    RevertApplyIff(t, Pending(tx));
    assert COIN in Pending(tx).spent && COIN !in Pending(tx).made;
    assert KeyOf(tx.inputs[0]) == COIN;
  }

  /** A coinbase that promises a fee passes, and once the fee is paid the table is worth more than the total says. */
  lemma {:induction false} CoinbaseFeeNotCounted(height: nat)
    ensures
      var c, tx := Cash(map[], 0, map[]), Tx(Digest(1), [], [TxOutput("$", 5, 0)], true, false);
      && TxVerdict(Sight(map[], map[], c.table), tx, height) == Passed
      && Sum(PayFee(DoTx(c, tx), tx, "p").table) == 5 && PayFee(DoTx(c, tx), tx, "p").total == 0
  {
    var c, tx := Cash(map[], 0, map[]), Tx(Digest(1), [], [TxOutput("$", 5, 0)], true, false);
    assert SpentTo(tx, 0) == map[] && OutsTo(tx, 0) == map[] && FeesTo(tx, "p", 0) == map[];
    assert InTotal(tx, 0) == OutTotal(tx, 0) == FeeTotal(tx, 0) == 0;
    assert Settled(tx, "p") == Effect(map[], map[Key("p", Digest(1), 0) := Item(5, 0)]);
    PassedIff(Sight(map[], map[], c.table), tx, height);
    DoTxTable(c, tx, "p");
    TxTotal(c, tx, "p");
    TxTotal(DoTx(c, tx), tx, "p");
    SumPut(map[], Key("p", Digest(1), 0), Item(5, 0));
    assert PayFee(DoTx(c, tx), tx, "p").table == map[Key("p", Digest(1), 0) := Item(5, 0)];
  }

  // ----- Blocks that rest on the pool

  /** The coin is minted in the first block. */
  function Mint(): Tx {
    Tx(Digest(1), [], [TxOutput("a", 5, 0)], true, false)
  }

  /** Spend what the first spender of the coin paid to b. */
  function Child(): Tx {
    Tx(Digest(3), [TxInput("b", Digest(2), 0, 5, 0)], [TxOutput("c", 5, 0)], false, false)
  }

  /** The block with the mint, and on it a block with the child alone. */
  function TwoBlocks(): View {
    map[Digest(100) := Blk(Empty, 0, "p", [Mint()]), Digest(101) := Blk(Digest(100), 1, "p", [Child()])]
  }

  lemma {:induction false} MintEffect(proposer: Addr)
    ensures Spent(Mint()) == map[] && Outs(Mint()) == map[COIN := Item(5, 0)] && Fees(Mint(), proposer) == map[]
    ensures DistinctInputs(Mint()) && Balanced(Mint()) && OutSum(Mint()) == 5
  {
    var tx := Mint();
    assert SpentTo(tx, 0) == map[] && OutsTo(tx, 0) == map[] && FeesTo(tx, proposer, 0) == map[];
    assert InTotal(tx, 0) == OutTotal(tx, 0) == FeeTotal(tx, 0) == 0;
  }

  lemma {:induction false} ChildEffect(proposer: Addr)
    ensures Spent(Child()) == map[PAID := Item(5, 0)] && Outs(Child()) == map[PASSED_ON := Item(5, 0)]
    ensures Fees(Child(), proposer) == map[] && PoolTx(Digest(3), Child())
  {
    var tx := Child();
    assert SpentTo(tx, 0) == map[] && OutsTo(tx, 0) == map[] && FeesTo(tx, proposer, 0) == map[];
    assert InTotal(tx, 0) == OutTotal(tx, 0) == FeeTotal(tx, 0) == 0;
  }

  lemma {:induction false} MintedTable(t: Table)
    requires t == map[]
    ensures BlockTable(t, [Mint()], "p") == map[COIN := Item(5, 0)] && BlockFits(t, [Mint()], "p")
    ensures CoinbaseSum([Mint()]) == 5
  {
    MintEffect("p");
    assert [Mint()][..0] == [] && BlockTable(t, [], "p") == t && CoinbaseSum([]) == 0 && Txids([]) == [];
    assert Settled(Mint(), "p").made == map[COIN := Item(5, 0)];
  }

  lemma {:induction false} TwoBlocksForest(v: View)
    requires v == TwoBlocks()
    ensures Forest(Nodes(v)) && At(v, Digest(100)) && v[Digest(100)].pre == Empty && v[Digest(101)].pre == Digest(100)
  {
    assert Linked(Nodes(v), Digest(100)) && Linked(Nodes(v), Digest(101));
  }

  lemma {:induction false} FirstBlock(v: View)
    requires v == TwoBlocks()
    ensures At(v, Digest(100)) && TableAt(v, Digest(100)) == map[COIN := Item(5, 0)] && TotalAt(v, Digest(100)) == 5
    ensures ChainFits(v, Digest(100)) && PathTxids(v, Digest(100)) == {Digest(1)}
  {
    TwoBlocksForest(v);
    ParentAt(v, Digest(100));
    MintedTable(map[]);
    assert TableAt(v, Empty) == map[] && TotalAt(v, Empty) == 0 && PathTxids(v, Empty) == {};
    assert Txids(v[Digest(100)].txs) == [Digest(1)];
  }

  /** The machine on the first block, with nothing pending. */
  function Base(): Machine {
    Machine(Cash(map[COIN := Item(5, 0)], 5, map[]), Digest(100), map[], 0)
  }

  lemma {:induction false} BaseFaithful(v: View, m: Machine)
    requires v == TwoBlocks() && m == Base()
    ensures Faithful(v, m) && TableAt(v, m.latest) == map[COIN := Item(5, 0)] && PathTxids(v, m.latest) == {Digest(1)}
  {
    FirstBlock(v);
    ReplayFaithful(v, m);
  }

  /** The machine with the spender of the coin pending. */
  function WithParent(): Machine {
    Submit(Base(), Spender(2, 0))
  }

  lemma {:induction false} ParentPending(v: View, m: Machine)
    requires v == TwoBlocks() && m == WithParent()
    ensures Faithful(v, m) && m.cash.table == map[PAID := Item(5, 0)] && m.latest == Digest(100)
    ensures m.pool == map[Digest(2) := Spender(2, 0)]
  {
    BaseFaithful(v, Base());
    SpenderEffect(2, 0, "");
    DoTxTable(Base().cash, Spender(2, 0), "");
    SubmitFaithful(v, Base(), Spender(2, 0));
  }

  /** The machine with the child pending as well. */
  function WithChild(): Machine {
    Submit(WithParent(), Child())
  }

  lemma {:induction false} ChildPending(v: View, m: Machine)
    requires v == TwoBlocks() && m == WithChild()
    ensures Faithful(v, m) && m.cash.table == map[PASSED_ON := Item(5, 0)] && m.latest == Digest(100)
    ensures m.pool == map[Digest(2) := Spender(2, 0), Digest(3) := Child()]
  {
    BaseFaithful(v, Base());
    ParentPending(v, WithParent());
    ChildEffect("");
    DoTxTable(WithParent().cash, Child(), "");
    SubmitFaithful(v, WithParent(), Child());
  }

  /** Nothing in the pool spends what the child spends, or depends on it from outside. */
  lemma {:induction false} NoConflict(pool: map<Hash, Tx>)
    requires pool == map[Digest(2) := Spender(2, 0)] || pool == map[Digest(2) := Spender(2, 0), Digest(3) := Child()]
    ensures SameTxs(pool, [Child()]) && ConflictList(pool, [Child()], []) && NoDoubleSpend([Child()])
  {
    SpenderEffect(2, 0, "");
    ChildEffect("");
    assert !Clash(Child(), Spender(2, 0));
  }

  lemma {:induction false} ChildIsNew(v: View)
    requires v == TwoBlocks()
    ensures At(v, v[Digest(101)].pre) && NewOnPath(v, Digest(101))
  {
    TwoBlocksForest(v);
    FirstBlock(v);
    assert Txids([Child()]) == [Digest(3)];
  }

  lemma {:induction false} ChildRestsOnPool(t: Table, pool: map<Hash, Tx>)
    requires t == map[COIN := Item(5, 0)]
    requires pool == map[Digest(2) := Spender(2, 0)] || pool == map[Digest(2) := Spender(2, 0), Digest(3) := Child()]
    ensures !AllGrounded(t, pool, Left(pool, [], 0), [Child()])
  {
    SpenderEffect(2, 0, "");
    ChildEffect("");
    assert Left(pool, [], 0) == pool;
    assert PaidBy(pool, PAID) && PAID in Spent([Child()][0]) && PAID !in t && !SpentAfter([Child()], PAID);
    assert !GroundedAt(t, pool, pool, [Child()], 0);
  }

  /** What replaying the block and then the spender, still in the pool, would leave. */
  lemma {:induction false} ReplayedThenParent(t: Table)
    requires t == map[COIN := Item(5, 0)]
    ensures Apply(BlockTable(t, [Child()], "p"), Pending(Spender(2, 0))) ==
            map[PASSED_ON := Item(5, 0), PAID := Item(5, 0)]
  {
    SpenderEffect(2, 0, "p");
    ChildEffect("p");
    assert [Child()][..0] == [] && BlockTable(t, [], "p") == t;
    assert Settled(Child(), "p").made == map[PASSED_ON := Item(5, 0)];
    assert BlockTable(t, [Child()], "p") == map[COIN := Item(5, 0), PASSED_ON := Item(5, 0)];
  }

  /** A block that holds a pool transaction without its parent, which is in the pool too, meets no conflict and is
      played without a check. The parent stays in the pool as if its payment were still to come, though the table has
      lost it. */
  lemma {:induction false} ChildWithoutParent(v: View, m: Machine, played: Machine)
    requires v == TwoBlocks() && m == WithChild() && played == PlayOver(m, Digest(101), v[Digest(101)], [], 0)
    ensures Faithful(v, m) && PassedOver(m.pool, m.cash, [Child()], "p", []) && !Replayed(v, played)
    ensures played.pool == map[Digest(2) := Spender(2, 0)] && played.cash.table == map[PASSED_ON := Item(5, 0)]
    ensures played.cash.table != Apply(BlockTable(TableAt(v, m.latest), [Child()], "p"), Pending(Spender(2, 0)))
  {
    ChildPending(v, m);
    NoConflict(m.pool);
    ChildIsNew(v);
    FirstBlock(v);
    ReplayedThenParent(TableAt(v, Digest(100)));
    ChildSettles(m.cash, m.pool.Keys);
    assert SeenOver(m.cash.table, UndoEach(m.cash, []), [], "p", m.pool.Keys);
    assert [Child()][..0] == [] && Child().txid in m.pool;
    ChildRestsOnPool(TableAt(v, Digest(100)), m.pool);
    PlayedReplaysIff(v, m, Digest(101), [], 0);
    PoolLeft(m.pool);
  }

  lemma {:induction false} ChildSettles(c: Cash, applied: set<Hash>)
    requires Child().txid in applied
    ensures PlayTxs(c, [Child()], "p", applied).table == c.table
  {
    ChildEffect("p");
    assert [Child()][..0] == [] && PlayTxs(c, [], "p", applied) == c;
    DoTxTable(c, Child(), "p");
  }

  lemma {:induction false} PoolLeft(pool: map<Hash, Tx>)
    requires pool == map[Digest(2) := Spender(2, 0)] || pool == map[Digest(2) := Spender(2, 0), Digest(3) := Child()]
    ensures Left(pool, [], 0) - IdSet([Child()]) == map[Digest(2) := Spender(2, 0)]
  {
    assert Txids([Child()]) == [Digest(3)];
    assert Left(pool, [], 0) == pool;
  }

  /** The same with a child that is not in the pool: it is checked, and passes against the stored table, where the
      pending parent has put its payment. */
  lemma {:induction false} OutsideChildPasses(v: View, m: Machine, played: Machine, height: nat)
    requires v == TwoBlocks() && m == WithParent() && played == PlayOver(m, Digest(101), v[Digest(101)], [], 0)
    ensures Faithful(v, m) && TxVerdict(Sight(map[], map[], m.cash.table), Child(), height) == Passed
    ensures PassedOver(m.pool, m.cash, [Child()], "p", []) && !Replayed(v, played)
    ensures played.pool == map[Digest(2) := Spender(2, 0)] && played.cash.table == map[PASSED_ON := Item(5, 0)]
    ensures played.cash.table != Apply(BlockTable(TableAt(v, m.latest), [Child()], "p"), Pending(Spender(2, 0)))
  {
    var c := m.cash;
    ParentPending(v, m);
    NoConflict(m.pool);
    ChildIsNew(v);
    FirstBlock(v);
    ReplayedThenParent(TableAt(v, Digest(100)));
    ChildPasses(c.table, height);
    ChildPlays(c, m.pool.Keys);
    ChildRestsOnPool(TableAt(v, Digest(100)), m.pool);
    PlayedReplaysIff(v, m, Digest(101), [], 0);
    PoolLeft(m.pool);
  }

  lemma {:induction false} ChildPasses(t: Table, height: nat)
    requires t == map[PAID := Item(5, 0)]
    ensures TxVerdict(Sight(map[], map[], t), Child(), height) == Passed && Seen(t, t, Child())
  {
    ChildEffect("p");
    PassesWith(Sight(map[], map[], t), Child(), height);
    PassedIsSeen(Sight(map[], map[], t), t, Child(), height);
  }

  lemma {:induction false} ChildPlays(c: Cash, applied: set<Hash>)
    requires Child().txid !in applied && c.table == map[PAID := Item(5, 0)] && Seen(c.table, c.table, Child())
    ensures PlayTxs(c, [Child()], "p", applied).table == map[PASSED_ON := Item(5, 0)]
    ensures SeenOver(c.table, c, [Child()], "p", applied)
  {
    ChildEffect("p");
    assert [Child()][..0] == [] && PlayTxs(c, [], "p", applied) == c && SeenOver(c.table, c, [], "p", applied);
    DoTxTable(c, Child(), "p");
    assert Settled(Child(), "p") == Effect(map[PAID := Item(5, 0)], map[PASSED_ON := Item(5, 0)]);
  }

  // ----- Blocks that go through only while the cache remembers

  /** What a one-input transaction gets, by what the cache holds, when neither batch nor stored table has its entry. */
  lemma {:induction false} CacheDecides(tx: Tx, hot: Table, stored: Table, applied: set<Hash>, height: nat, k: Key)
    requires |tx.inputs| == 1 && Balanced(tx) && k == KeyOf(tx.inputs[0]) && k !in stored && tx.txid !in applied
    requires k in hot ==> hot[k] == Item(tx.inputs[0].amount, 0)
    ensures TxError(Sight(hot, map[], stored), tx, applied, {}, height) ==
            if k in hot then PlayError.None else Rejected(NotFound)
  {
    var s := Sight(hot, map[], stored);
    if k in hot {
      PassesWith(s, tx, height);
    } else {
      assert InputsVerdict(s, tx, height, 0) == Passed;
      assert InputsVerdict(s, tx, height, 1) == NotFound;
    }
  }

  lemma {:induction false} OneTurn(stored: Table, tx: Tx, applied: set<Hash>, hot: Table, height: nat)
    ensures BlockError(stored, [tx], applied, {}, [hot], height) ==
            TxError(Sight(hot, map[], stored), tx, applied, {}, height)
  {
    assert [tx][..0] == [] && MadeOver([], applied) == map[];
    assert ErrorTo(stored, [tx], applied, {}, [hot], height, 0) == PlayError.None;
  }

  /** A received block spends the coin that a pool transaction has spent. That one is undone, which brings the coin back
      in the batch and in the cache, but not where the check looks besides: the block goes through if the cache still
      has the coin, and is refused if it has dropped it. */
  lemma {:induction false} ConflictNeedsCache(v: View, m: Machine, start: Table, height: nat)
    requires v == TwoBlocks() && m == WithParent() && start == UndoEach(m.cash, [Spender(2, 0)]).table
    ensures Faithful(v, m) && start == map[COIN := Item(5, 0)]
    ensures
      var txs := [Spender(3, 0)];
      && Caches(start, txs, "p", m.pool.Keys, [start]) && Caches(start, txs, "p", m.pool.Keys, [map[]])
      && BlockError(m.cash.table, txs, m.pool.Keys, {}, [start], height) == PlayError.None
      && BlockError(m.cash.table, txs, m.pool.Keys, {}, [map[]], height) == Rejected(NotFound)
  {
    ParentPending(v, m);
    CoinBack(m.cash);
    SpenderEffect(3, 0, "p");
    assert [Spender(3, 0)][..0] == [];
    OneTurn(m.cash.table, Spender(3, 0), m.pool.Keys, start, height);
    OneTurn(m.cash.table, Spender(3, 0), m.pool.Keys, map[], height);
    CacheDecides(Spender(3, 0), start, m.cash.table, m.pool.Keys, height, COIN);
    CacheDecides(Spender(3, 0), map[], m.cash.table, m.pool.Keys, height, COIN);
  }

  lemma {:induction false} CoinBack(c: Cash)
    requires c.table == map[PAID := Item(5, 0)]
    ensures UndoEach(c, [Spender(2, 0)]).table == map[COIN := Item(5, 0)]
  {
    SpenderEffect(2, 0, "");
    UndoTxTable(c, Spender(2, 0), "");
    assert [Spender(2, 0)][..0] == [] && UndoEach(c, []) == c && Txids([]) == [];
  }
}
