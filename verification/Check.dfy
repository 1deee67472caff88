/** The check of a transaction's inputs against what the caches and the stored table show, and what passing it is
    worth when a whole block goes through. */
module Check {
  import opened Transactions
  import opened Effects
  import opened Utxo
  import opened Worth
  import opened Chain
  import opened Play

  datatype Verdict = Passed | Duplicated | NotFound | Unexpected | Frozen | NotEqual

  datatype Found = Nothing | Just(item: Item)

  /** The three places a key is looked up in, in turn: the cache of recent entries, the entries made in this batch,
      and the table as stored before the batch. */
  datatype Sight = Sight(hot: Table, batch: Table, stored: Table)

  function Lookup(s: Sight, k: Key): Found {
    if k in s.hot then Just(s.hot[k])
    else if k in s.batch then Just(s.batch[k])
    else if k in s.stored then Just(s.stored[k])
    else Nothing
  }

  function InputVerdict(s: Sight, i: TxInput, height: nat): Verdict {
    match Lookup(s, KeyOf(i))
    case Nothing => NotFound
    case Just(item) =>
      if item.amount != i.amount then Unexpected
      else if item.frozen > height || item.frozen == -1 then Frozen
      else Passed
  }

  /** The verdict on the first n inputs: the first input that fails decides. */
  function InputsVerdict(s: Sight, tx: Tx, height: nat, n: nat): Verdict
    requires n <= |tx.inputs|
  {
    if n == 0 then Passed else
    var before := InputsVerdict(s, tx, height, n - 1);
    if before != Passed then before
    else if exists j :: 0 <= j < n - 1 && KeyOf(tx.inputs[j]) == KeyOf(tx.inputs[n - 1]) then Duplicated
    else InputVerdict(s, tx.inputs[n - 1], height)
  }

  function TxVerdict(s: Sight, tx: Tx, height: nat): Verdict {
    var inputs := InputsVerdict(s, tx, height, |tx.inputs|);
    if inputs != Passed then inputs else if Balanced(tx) then Passed else NotEqual
  }

  /** The input names the entry by its amount, and the entry is not frozen at this height. */
  ghost predicate Matches(item: Item, i: TxInput, height: nat) {
    item.amount == i.amount && item.frozen <= height && item.frozen != -1
  }

  /** The input matches what the cache has under its key, or else the batch, or else the stored table. */
  ghost predicate Shown(s: Sight, i: TxInput, height: nat) {
    var k := KeyOf(i);
    || (k in s.hot && Matches(s.hot[k], i, height))
    || (k !in s.hot && k in s.batch && Matches(s.batch[k], i, height))
    || (k !in s.hot && k !in s.batch && k in s.stored && Matches(s.stored[k], i, height))
  }

  lemma {:induction false} InputsPassedIff(s: Sight, tx: Tx, height: nat, n: nat)
    requires n <= |tx.inputs|
    ensures InputsVerdict(s, tx, height, n) == Passed <==>
              && (forall i :: 0 <= i < n ==> Shown(s, tx.inputs[i], height))
              && (forall i, j :: 0 <= i < j < n ==> KeyOf(tx.inputs[i]) != KeyOf(tx.inputs[j]))
  {
    if n > 0 {
      InputsPassedIff(s, tx, height, n - 1);
    }
  }

  /** A transaction passes exactly when its inputs are distinct, each is shown, and it balances. The frozen height it
      declares plays no part. */
  lemma {:induction false} PassedIff(s: Sight, tx: Tx, height: nat)
    ensures TxVerdict(s, tx, height) == Passed <==>
              DistinctInputs(tx) && Balanced(tx) && forall i :: 0 <= i < |tx.inputs| ==> Shown(s, tx.inputs[i], height)
  {
    InputsPassedIff(s, tx, height, |tx.inputs|);
  }

  // ----- What passes, whatever the caches hold

  /** What the three places have under a key tells the table as it is now: cache and batch hold nothing else, and what
      is there now and not in the batch is as it was stored. */
  ghost predicate Tells(s: Sight, now: Table, k: Key) {
    && (k in s.hot ==> k in now && s.hot[k] == now[k])
    && (k in s.batch ==> k in now && s.batch[k] == now[k])
    && (k in now && k !in s.batch ==> k in s.stored && s.stored[k] == now[k])
  }

  /** The input matches the entry that is there now; or, if there is none any more, the stored one. */
  ghost predicate Visible(stored: Table, now: Table, i: TxInput, height: nat) {
    var k := KeyOf(i);
    if k in now then Matches(now[k], i, height) else k in stored && Matches(stored[k], i, height)
  }

  /** A transaction balances, its inputs are distinct and each of them is visible. */
  ghost predicate Passable(stored: Table, now: Table, tx: Tx, height: nat) {
    && DistinctInputs(tx) && Balanced(tx)
    && forall i :: 0 <= i < |tx.inputs| ==> Visible(stored, now, tx.inputs[i], height)
  }

  /** A transaction passes exactly when it is passable, whatever the cache has dropped. */
  lemma {:induction false} PassesIff(s: Sight, now: Table, tx: Tx, height: nat)
    requires forall i :: 0 <= i < |tx.inputs| ==> Tells(s, now, KeyOf(tx.inputs[i]))
    ensures TxVerdict(s, tx, height) == Passed <==> Passable(s.stored, now, tx, height)
  {
    PassedIff(s, tx, height);
    forall i | 0 <= i < |tx.inputs|
      ensures Shown(s, tx.inputs[i], height) <==> Visible(s.stored, now, tx.inputs[i], height)
    {
      assert Tells(s, now, KeyOf(tx.inputs[i]));
    }
  }

  /** Nor does the reason for refusing it depend on the cache. */
  lemma {:induction false} VerdictTold(s: Sight, r: Sight, now: Table, tx: Tx, height: nat, n: nat)
    requires n <= |tx.inputs| && s.stored == r.stored
    requires forall i :: 0 <= i < n ==> Tells(s, now, KeyOf(tx.inputs[i])) && Tells(r, now, KeyOf(tx.inputs[i]))
    ensures InputsVerdict(s, tx, height, n) == InputsVerdict(r, tx, height, n)
  {
    if n > 0 {
      VerdictTold(s, r, now, tx, height, n - 1);
      assert Tells(s, now, KeyOf(tx.inputs[n - 1])) && Tells(r, now, KeyOf(tx.inputs[n - 1]));
    }
  }

  /** What is wrong with an input, given what stands under its key in the first of the three places that has it. */
  ghost predicate Faulty(s: Sight, i: TxInput, height: nat, verdict: Verdict) {
    var k := KeyOf(i);
    if k !in s.hot && k !in s.batch && k !in s.stored then verdict == NotFound else
    var item := if k in s.hot then s.hot[k] else if k in s.batch then s.batch[k] else s.stored[k];
    if item.amount != i.amount then verdict == Unexpected
    else verdict == Frozen && (item.frozen > height || item.frozen == -1)
  }

  /** A verdict against the inputs is about the first that repeats a key or does not match, and says which of the two it
      is and what is wrong. */
  lemma {:induction false} InputsVerdictSays(s: Sight, tx: Tx, height: nat, n: nat)
    requires n <= |tx.inputs| && InputsVerdict(s, tx, height, n) != Passed
    ensures exists m :: 0 <= m < n && BlamedAt(s, tx, height, m, InputsVerdict(s, tx, height, n))
  {
    var m := n - 1;
    if InputsVerdict(s, tx, height, m) != Passed {
      InputsVerdictSays(s, tx, height, m);
    } else {
      InputsPassedIff(s, tx, height, m);
      assert BlamedAt(s, tx, height, m, InputsVerdict(s, tx, height, n));
    }
  }

  /** Input m is the first that is not as it should be. */
  ghost predicate BlamedAt(s: Sight, tx: Tx, height: nat, m: nat, verdict: Verdict)
    requires m < |tx.inputs|
  {
    && (forall i :: 0 <= i < m ==> Shown(s, tx.inputs[i], height))
    && (forall i, j :: 0 <= i < j < m ==> KeyOf(tx.inputs[i]) != KeyOf(tx.inputs[j]))
    && if exists j :: 0 <= j < m && KeyOf(tx.inputs[j]) == KeyOf(tx.inputs[m]) then verdict == Duplicated
       else Faulty(s, tx.inputs[m], height, verdict)
  }

  /** What each verdict says: one about an input names the first that is wrong; otherwise the sums do not agree, and the
      transaction is no coinbase that spends nothing. */
  lemma {:induction false} VerdictSays(s: Sight, tx: Tx, height: nat)
    requires TxVerdict(s, tx, height) != Passed
    ensures
      var verdict := TxVerdict(s, tx, height);
      if verdict == NotEqual then
        && DistinctInputs(tx) && (forall i :: 0 <= i < |tx.inputs| ==> Shown(s, tx.inputs[i], height))
        && InSum(tx) != OutSum(tx) + FeeSum(tx) && !(tx.coinbase && InSum(tx) == 0)
      else exists m :: 0 <= m < |tx.inputs| && BlamedAt(s, tx, height, m, verdict)
  {
    InputsPassedIff(s, tx, height, |tx.inputs|);
    if InputsVerdict(s, tx, height, |tx.inputs|) != Passed {
      InputsVerdictSays(s, tx, height, |tx.inputs|);
    }
  }

  // ----- The loops that compute it

  method SumOutputs(tx: Tx) returns (sum: nat)
    ensures sum == OutSum(tx) + FeeSum(tx)
  {
    sum := 0;
    for n := 0 to |tx.outputs|
      invariant sum == OutTotal(tx, n) + FeeTotal(tx, n)
    {
      sum := sum + tx.outputs[n].amount;
    }
  }

  method CheckInputEqualOutput(s: Sight, tx: Tx, height: nat) returns (verdict: Verdict)
    ensures verdict == TxVerdict(s, tx, height)
  {
    var outputSum := SumOutputs(tx);
    var inputSum, seen := 0, {};
    for n := 0 to |tx.inputs|
      invariant inputSum == InTotal(tx, n) && InputsVerdict(s, tx, height, n) == Passed
      invariant forall k :: k in seen <==> exists j :: 0 <= j < n && KeyOf(tx.inputs[j]) == k
    {
      var i := tx.inputs[n];
      VerdictStays(s, tx, height, n + 1);
      if KeyOf(i) in seen { return Duplicated; }
      seen := seen + {KeyOf(i)};
      var found := Lookup(s, KeyOf(i));
      if found.Nothing? { return NotFound; }
      if found.item.amount != i.amount { return Unexpected; }
      if found.item.frozen > height || found.item.frozen == -1 { return Frozen; }
      inputSum := inputSum + found.item.amount;
    }
    if inputSum == outputSum { return Passed; }
    if inputSum == 0 && tx.coinbase { return Passed; }
    return NotEqual;
  }

  /** Once an input has failed, the rest does not matter. */
  lemma {:induction false} VerdictStays(s: Sight, tx: Tx, height: nat, n: nat)
    requires n <= |tx.inputs|
    ensures InputsVerdict(s, tx, height, n) != Passed ==> TxVerdict(s, tx, height) == InputsVerdict(s, tx, height, n)
    decreases |tx.inputs| - n
  {
    if n < |tx.inputs| {
      VerdictStays(s, tx, height, n + 1);
    }
  }

  // ----- What passing is worth for a block

  /** The caches show only what is in the table as it is now. */
  ghost predicate TrueSight(s: Sight, now: Table) {
    Within(s.hot, now) && Within(s.batch, now)
  }

  /** The transaction balances and each of its inputs agrees by amount with the table now, or with the stored one. */
  ghost predicate Seen(stored: Table, now: Table, tx: Tx) {
    && DistinctInputs(tx) && Balanced(tx)
    && forall i :: 0 <= i < |tx.inputs| ==> SeenInput(stored, now, tx.inputs[i])
  }

  ghost predicate SeenInput(stored: Table, now: Table, i: TxInput) {
    var k := KeyOf(i);
    (k in now && now[k].amount == i.amount) || (k in stored && stored[k].amount == i.amount)
  }

  lemma {:induction false} PassedIsSeen(s: Sight, now: Table, tx: Tx, height: nat)
    requires TrueSight(s, now) && TxVerdict(s, tx, height) == Passed
    ensures Seen(s.stored, now, tx)
  {
    PassedIff(s, tx, height);
    assert forall i :: 0 <= i < |tx.inputs| ==> Shown(s, tx.inputs[i], height);
  }

  /** Every transaction of the block passed the check in its turn. */
  ghost predicate AllSeen(t: Table, txs: seq<Tx>, proposer: Addr) {
    txs == [] ||
    var init, tx := txs[..|txs| - 1], txs[|txs| - 1];
    AllSeen(t, init, proposer) && Seen(t, BlockTable(t, init, proposer), tx)
  }

  /** The block's txids are new to the table and to each other. */
  ghost predicate NewIds(t: Table, txs: seq<Tx>) {
    && (forall k :: k in t ==> k.txid !in Txids(txs))
    && forall i, j :: 0 <= i < j < |txs| ==> txs[i].txid != txs[j].txid
  }

  /** No key is spent twice in the block. */
  ghost predicate NoDoubleSpend(txs: seq<Tx>) {
    forall i, j :: 0 <= i < j < |txs| ==> !Clash(txs[i], txs[j])
  }

  /** Every input declares the frozen height of the entry it names. */
  ghost predicate Honest(t: Table, txs: seq<Tx>, proposer: Addr) {
    txs == [] ||
    var init, tx := txs[..|txs| - 1], txs[|txs| - 1];
    && Honest(t, init, proposer)
    && forall i :: 0 <= i < |tx.inputs| ==> HonestInput(t, BlockWeb(init, proposer), tx.inputs[i])
  }

  ghost predicate HonestInput(t: Table, f: Web, i: TxInput) {
    var k := KeyOf(i);
    && (k in t ==> i.frozen == t[k].frozen)
    && (k !in t && MadeIn(f, k) ==> i.frozen == f[k.txid].made[k].frozen)
  }

  lemma {:induction false} SpentAt(tx: Tx, n: nat, i: nat)
    requires DistinctInputs(tx) && i < n <= |tx.inputs|
    ensures KeyOf(tx.inputs[i]) in SpentTo(tx, n)
    ensures SpentTo(tx, n)[KeyOf(tx.inputs[i])] == Item(tx.inputs[i].amount, tx.inputs[i].frozen)
  {
    if i < n - 1 {
      SpentAt(tx, n - 1, i);
    }
  }

  /** On a table that is the web of a block run on t, a seen transaction has its inputs there as declared exactly when
      nothing of the block spends them before and it declares their frozen heights. */
  lemma {:induction false} InputThereIff(t: Table, f: Web, now: Table, i: TxInput)
    requires IsNet(t, f, now) && SeenInput(t, now, i)
    ensures (KeyOf(i) in now && now[KeyOf(i)] == Item(i.amount, i.frozen)) <==>
            !SpentIn(f, KeyOf(i)) && HonestInput(t, f, i)
  {
    assert NetAt(t, f, now, KeyOf(i));
  }

  lemma {:induction false} SpentInBlockAt(t: Table, txs: seq<Tx>, proposer: Addr, k: Key)
    requires BlockFits(t, txs, proposer)
    ensures SpentIn(BlockWeb(txs, proposer), k) <==> exists a :: 0 <= a < |txs| && k in Spent(txs[a])
  {
    var f := BlockWeb(txs, proposer);
    if a :| 0 <= a < |txs| && k in Spent(txs[a]) {
      BlockWebAt(t, txs, proposer, a);
      assert k in f[txs[a].txid].spent;
    }
    if SpentIn(f, k) {
      var id :| id in f && k in f[id].spent;
      WebKeys(txs, proposer);
      var a :| 0 <= a < |txs| && Txids(txs)[a] == id;
      BlockWebAt(t, txs, proposer, a);
    }
  }

  lemma {:induction false} SpentInBlock(t: Table, txs: seq<Tx>, proposer: Addr, tx: Tx)
    requires BlockFits(t, txs, proposer)
    ensures (forall k :: k in Spent(tx) ==> !SpentIn(BlockWeb(txs, proposer), k)) <==>
            (forall a :: 0 <= a < |txs| ==> !Clash(txs[a], tx))
  {
    forall k | k in Spent(tx)
      ensures SpentIn(BlockWeb(txs, proposer), k) <==> exists a :: 0 <= a < |txs| && k in Spent(txs[a])
    {
      SpentInBlockAt(t, txs, proposer, k);
    }
  }

  lemma {:induction false} TxFitsIff(t: Table, init: seq<Tx>, proposer: Addr, tx: Tx)
    requires BlockFits(t, init, proposer) && Seen(t, BlockTable(t, init, proposer), tx)
    requires forall k :: k in t ==> k.txid != tx.txid
    ensures TxFits(t, BlockTable(t, init, proposer), tx, proposer) <==>
              && (forall a :: 0 <= a < |init| ==> !Clash(init[a], tx))
              && (forall i :: 0 <= i < |tx.inputs| ==> HonestInput(t, BlockWeb(init, proposer), tx.inputs[i]))
  {
    var f, now := BlockWeb(init, proposer), BlockTable(t, init, proposer);
    BlockNet(t, init, proposer);
    SpentInBlock(t, init, proposer, tx);
    SettledTagged(tx, proposer);
    forall i | 0 <= i < |tx.inputs|
      ensures var k := KeyOf(tx.inputs[i]);
        k in Spent(tx) && ((k in now && now[k] == Spent(tx)[k]) <==> !SpentIn(f, k) && HonestInput(t, f, tx.inputs[i]))
    {
      SpentAt(tx, |tx.inputs|, i);
      InputThereIff(t, f, now, tx.inputs[i]);
    }
    forall k | k in Spent(tx) ensures exists i :: 0 <= i < |tx.inputs| && KeyOf(tx.inputs[i]) == k {
      SpentKeysTo(tx, |tx.inputs|, k);
    }
  }

  /** A block whose transactions all passed, with new txids, replays exactly when it spends no key twice and declares
      frozen heights as recorded. Neither is checked when a walk redoes blocks. */
  lemma {:induction false} CheckedBlockFitsIff(t: Table, txs: seq<Tx>, proposer: Addr)
    requires AllSeen(t, txs, proposer) && NewIds(t, txs)
    ensures BlockFits(t, txs, proposer) <==> NoDoubleSpend(txs) && Honest(t, txs, proposer)
  {
    if txs != [] {
      var n := |txs| - 1;
      var init, tx := txs[..n], txs[n];
      assert forall i :: 0 <= i < n ==> Txids(txs)[i] == Txids(init)[i];
      assert Txids(txs)[n] == tx.txid;
      CheckedBlockFitsIff(t, init, proposer);
      if BlockFits(t, init, proposer) {
        TxFitsIff(t, init, proposer, tx);
      }
      NoDoubleSpendStep(txs);
    }
  }

  lemma NoDoubleSpendStep(txs: seq<Tx>)
    requires txs != []
    ensures
      var n := |txs| - 1;
      NoDoubleSpend(txs) <==> NoDoubleSpend(txs[..n]) && forall a :: 0 <= a < n ==> !Clash(txs[..n][a], txs[n])
  {
  }

  // ----- What it means for a block to replay, without replaying it

  /** The input names, with amount and frozen height, an entry of the table or of an earlier transaction of the
      block. */
  ghost predicate Sourced(t: Table, txs: seq<Tx>, proposer: Addr, n: nat, i: TxInput)
    requires n <= |txs|
  {
    var k := KeyOf(i);
    if k in t then t[k] == Item(i.amount, i.frozen)
    else exists a :: (0 <= a < n && k in Settled(txs[a], proposer).made
                      && Settled(txs[a], proposer).made[k] == Item(i.amount, i.frozen))
  }

  /** The transaction is well formed, makes nothing over the table, and every input has a source before position n. */
  ghost predicate TxSourced(t: Table, txs: seq<Tx>, proposer: Addr, n: nat, tx: Tx)
    requires n <= |txs|
  {
    && DistinctInputs(tx) && Balanced(tx) && Settled(tx, proposer).made.Keys !! t.Keys
    && forall i :: 0 <= i < |tx.inputs| ==> Sourced(t, txs, proposer, n, tx.inputs[i])
  }

  ghost predicate AllSourced(t: Table, txs: seq<Tx>, proposer: Addr) {
    forall n {:trigger TxSourced(t, txs, proposer, n, txs[n])} :: 0 <= n < |txs| ==>
        TxSourced(t, txs, proposer, n, txs[n])
  }

  ghost predicate DistinctIds(txs: seq<Tx>) {
    forall i, j :: 0 <= i < j < |txs| ==> txs[i].txid != txs[j].txid
  }

  lemma {:induction false} MadeInBlock(t: Table, txs: seq<Tx>, proposer: Addr, k: Key)
    requires BlockFits(t, txs, proposer)
    ensures MadeIn(BlockWeb(txs, proposer), k) <==> exists a :: 0 <= a < |txs| && k in Settled(txs[a], proposer).made
    ensures forall a :: 0 <= a < |txs| && k in Settled(txs[a], proposer).made ==>
              && MadeIn(BlockWeb(txs, proposer), k)
              && BlockWeb(txs, proposer)[k.txid].made[k] == Settled(txs[a], proposer).made[k]
  {
    forall a | 0 <= a < |txs| && k in Settled(txs[a], proposer).made
      ensures MadeIn(BlockWeb(txs, proposer), k)
      ensures BlockWeb(txs, proposer)[k.txid].made[k] == Settled(txs[a], proposer).made[k]
    {
      BlockWebAt(t, txs, proposer, a);
      SettledTagged(txs[a], proposer);
    }
    if MadeIn(BlockWeb(txs, proposer), k) {
      WebKeys(txs, proposer);
      var a :| 0 <= a < |txs| && Txids(txs)[a] == k.txid;
      BlockWebAt(t, txs, proposer, a);
    }
  }

  /** An input is there as declared exactly when nothing before it in the block spends it and it has a source. */
  lemma {:induction false} SourcedIff(t: Table, init: seq<Tx>, proposer: Addr, i: TxInput)
    requires BlockFits(t, init, proposer)
    ensures
      var k, now := KeyOf(i), BlockTable(t, init, proposer);
      (k in now && now[k] == Item(i.amount, i.frozen)) <==>
        !SpentIn(BlockWeb(init, proposer), k) && Sourced(t, init, proposer, |init|, i)
  {
    var k := KeyOf(i);
    BlockNet(t, init, proposer);
    assert NetAt(t, BlockWeb(init, proposer), BlockTable(t, init, proposer), k);
    MadeInBlock(t, init, proposer, k);
  }

  lemma {:induction false} TxReplaysIff(t: Table, init: seq<Tx>, proposer: Addr, tx: Tx)
    requires BlockFits(t, init, proposer) && DistinctInputs(tx)
    ensures Within(Spent(tx), BlockTable(t, init, proposer)) <==>
              && (forall a :: 0 <= a < |init| ==> !Clash(init[a], tx))
              && (forall i :: 0 <= i < |tx.inputs| ==> Sourced(t, init, proposer, |init|, tx.inputs[i]))
  {
    var f, now := BlockWeb(init, proposer), BlockTable(t, init, proposer);
    SpentInBlock(t, init, proposer, tx);
    forall i | 0 <= i < |tx.inputs|
      ensures var k := KeyOf(tx.inputs[i]);
        && k in Spent(tx)
        && ((k in now && now[k] == Spent(tx)[k]) <==>
            !SpentIn(f, k) && Sourced(t, init, proposer, |init|, tx.inputs[i]))
    {
      SpentAt(tx, |tx.inputs|, i);
      SourcedIff(t, init, proposer, tx.inputs[i]);
    }
    forall k | k in Spent(tx) ensures exists i :: 0 <= i < |tx.inputs| && KeyOf(tx.inputs[i]) == k {
      SpentKeysTo(tx, |tx.inputs|, k);
    }
  }

  lemma {:induction false} SourcedPrefix(t: Table, txs: seq<Tx>, proposer: Addr, n: nat, tx: Tx)
    requires n < |txs|
    ensures TxSourced(t, txs, proposer, n, tx) <==> TxSourced(t, txs[..|txs| - 1], proposer, n, tx)
  {
    var init := txs[..|txs| - 1];
    assert forall a :: 0 <= a < n ==> init[a] == txs[a];
    assert forall i :: 0 <= i < |tx.inputs| ==>
        (Sourced(t, txs, proposer, n, tx.inputs[i]) <==> Sourced(t, init, proposer, n, tx.inputs[i]));
  }

  lemma {:induction false} AllSourcedStep(t: Table, txs: seq<Tx>, proposer: Addr)
    requires txs != []
    ensures
      var n := |txs| - 1;
      AllSourced(t, txs, proposer) <==> AllSourced(t, txs[..n], proposer) && TxSourced(t, txs[..n], proposer, n, txs[n])
  {
    var last := |txs| - 1;
    var init := txs[..last];
    SourcedPrefix(t, txs, proposer, last, txs[last]);
    if AllSourced(t, txs, proposer) {
      assert TxSourced(t, txs, proposer, last, txs[last]);
      forall n | 0 <= n < last ensures TxSourced(t, init, proposer, n, init[n]) {
        assert TxSourced(t, txs, proposer, n, txs[n]);
        SourcedPrefix(t, txs, proposer, n, txs[n]);
      }
    } else if AllSourced(t, init, proposer) && TxSourced(t, init, proposer, last, txs[last]) {
      forall n | 0 <= n < |txs| ensures TxSourced(t, txs, proposer, n, txs[n]) {
        assert n < last ==> TxSourced(t, init, proposer, n, init[n]);
        SourcedPrefix(t, txs, proposer, n, txs[n]);
      }
    }
  }

  lemma {:induction false} DistinctIdsStep(txs: seq<Tx>)
    requires txs != []
    ensures
      var n := |txs| - 1;
      DistinctIds(txs) <==> DistinctIds(txs[..n]) && txs[n].txid !in Txids(txs[..n])
  {
    var n := |txs| - 1;
    assert forall i :: 0 <= i < n ==> Txids(txs[..n])[i] == txs[i].txid;
  }

  lemma {:induction false} ReplayStepIff(t: Table, init: seq<Tx>, proposer: Addr, tx: Tx)
    requires BlockFits(t, init, proposer)
    ensures TxFits(t, BlockTable(t, init, proposer), tx, proposer) <==>
              (forall a :: 0 <= a < |init| ==> !Clash(init[a], tx)) && TxSourced(t, init, proposer, |init|, tx)
  {
    if DistinctInputs(tx) {
      TxReplaysIff(t, init, proposer, tx);
    }
  }

  /** A block replays on a table exactly when its txids are distinct, no key is spent twice, and every input names an
      entry of the table or of an earlier transaction as recorded. */
  lemma {:induction false} ReplaysIff(t: Table, txs: seq<Tx>, proposer: Addr)
    ensures BlockFits(t, txs, proposer) <==> DistinctIds(txs) && NoDoubleSpend(txs) && AllSourced(t, txs, proposer)
  {
    if txs != [] {
      var n := |txs| - 1;
      ReplaysIff(t, txs[..n], proposer);
      DistinctIdsStep(txs);
      NoDoubleSpendStep(txs);
      AllSourcedStep(t, txs, proposer);
      if BlockFits(t, txs[..n], proposer) {
        ReplayStepIff(t, txs[..n], proposer, txs[n]);
      }
    }
  }
}
