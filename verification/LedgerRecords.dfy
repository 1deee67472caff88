/** The confirmed table, the branch table and block bodies over confirms. */
module LedgerRecords {
  import opened Tree
  import opened Transactions
  import opened LedgerSpec

  // ----- Predicates

  /** Each transaction of a trunk block has a row that points at that block. */
  ghost predicate RecordsOnTrunk(db: Tables) {
    forall b, x :: b in db.blocks && db.blocks[b].inTrunk && x in db.blocks[b].txids ==>
      x in db.confirmed && db.confirmed[x].block == b
  }

  /** Every row points at a stored block that lists the transaction. */
  ghost predicate RecordsBacked(db: Tables) {
    forall x :: x in db.confirmed ==> db.confirmed[x].block in db.blocks && x in db.blocks[db.confirmed[x].block].txids
  }

  /** No two blocks on the path to b share a txid. */
  ghost predicate PathDistinct(db: Tables, b: Hash)
    requires Forest(ShapeOf(db.blocks)) && b in db.blocks
  {
    forall h, k, x :: 0 <= h < k <= db.blocks[b].height && x in TxidsAt(db, b, h) ==> x !in TxidsAt(db, b, k)
  }

  ghost function TxidsAt(db: Tables, b: Hash, h: nat): seq<Hash>
    requires Forest(ShapeOf(db.blocks)) && b in db.blocks && h <= db.blocks[b].height
  {
    db.blocks[Anc(ShapeOf(db.blocks), b, h)].txids
  }

  ghost predicate IsLeaf(t: Shape, b: Hash) {
    forall c :: c in t ==> t[c].pre != b
  }

  /** The branch table holds exactly the leaves, with their heights. */
  ghost predicate LeavesExact(db: Tables) {
    db.branches == LeavesOf(ShapeOf(db.blocks))
  }

  ghost function LeavesOf(t: Shape): map<Hash, nat> {
    map b | b in t && IsLeaf(t, b) :: t[b].height
  }

  /** The tip carries no forward link. */
  ghost predicate TipOpen(db: Tables) {
    db.meta.tip in db.blocks && db.blocks[db.meta.tip].next == Empty
  }

  // ----- Writing rows

  lemma {:induction false} RecordTxsKept(db: Tables, staged: map<Hash, TxRecord>, id: Hash, inTrunk: bool,
        txs: seq<Tx>, x: Hash)
    requires !Rewrites(db, x, inTrunk) || x !in Txids(txs)
    ensures
      var r := RecordTxs(db, staged, id, inTrunk, txs);
      (x in r <==> x in staged) && (x in r ==> r[x] == staged[x])
  {
    if txs != [] {
      var n := |txs| - 1;
      assert Txids(txs) == Txids(txs[..n]) + [txs[n].txid];
      RecordTxsKept(db, staged, id, inTrunk, txs[..n], x);
    }
  }

  lemma {:induction false} RecordTxsPut(db: Tables, staged: map<Hash, TxRecord>, id: Hash, inTrunk: bool,
        txs: seq<Tx>, i: nat)
    requires i < |txs| && Rewrites(db, txs[i].txid, inTrunk)
    requires forall j :: i < j < |txs| && txs[j].txid == txs[i].txid ==> txs[j] == txs[i]
    ensures
      var r := RecordTxs(db, staged, id, inTrunk, txs);
      txs[i].txid in r && r[txs[i].txid] == TxRecord(txs[i], id)
  {
    var n := |txs| - 1;
    if i < n && txs[n].txid != txs[i].txid {
      RecordTxsPut(db, staged, id, inTrunk, txs[..n], i);
    }
  }

  /** The row of x after the transactions of a block are recorded. */
  lemma {:induction false} RecordTxsRow(db: Tables, staged: map<Hash, TxRecord>, id: Hash, inTrunk: bool,
        txs: seq<Tx>, x: Hash)
    requires forall i, j :: 0 <= i < j < |txs| && txs[i].txid == txs[j].txid ==> txs[i] == txs[j]
    ensures
      var r := RecordTxs(db, staged, id, inTrunk, txs);
      if Rewrites(db, x, inTrunk) && exists i :: 0 <= i < |txs| && txs[i].txid == x
      then forall i :: 0 <= i < |txs| && txs[i].txid == x ==> x in r && r[x] == TxRecord(txs[i], id)
      else (x in r <==> x in staged) && (x in r ==> r[x] == staged[x])
  {
    if Rewrites(db, x, inTrunk) && exists i :: 0 <= i < |txs| && txs[i].txid == x {
      forall i | 0 <= i < |txs| && txs[i].txid == x
        ensures x in RecordTxs(db, staged, id, inTrunk, txs)
        ensures RecordTxs(db, staged, id, inTrunk, txs)[x] == TxRecord(txs[i], id)
      {
        RecordTxsPut(db, staged, id, inTrunk, txs, i);
      }
    } else {
      RecordTxsKept(db, staged, id, inTrunk, txs, x);
    }
  }

  /** The row of x after the listed transactions are pointed at block q. */
  lemma {:induction false} RepointBlockRow(stored: map<Hash, TxRecord>, staged: map<Hash, TxRecord>, q: Hash,
        ids: seq<Hash>, x: Hash)
    requires forall i :: 0 <= i < |ids| ==> ids[i] in stored
    requires staged.Keys == stored.Keys && x in stored
    ensures
      var r := RepointBlock(stored, staged, q, ids);
      && r.Keys == stored.Keys
      && (x in ids && staged[x] == stored[x] ==> r[x] == stored[x].(block := q))
      && (x !in ids ==> r[x] == staged[x])
      && (x in ids ==> r[x] == staged[x] || r[x] == stored[x].(block := q))
  {
    if ids != [] {
      var n := |ids| - 1;
      RepointBlockRow(stored, staged, q, ids[..n], x);
      assert ids == ids[..n] + [ids[n]];
    }
  }

  /** Whatever the txids, repointing keeps the transactions, and each moved row names a block that lists it. */
  lemma {:induction false} RepointPathKept(db: Tables, pre: Hash, f: nat, x: Hash)
    requires Forest(ShapeOf(db.blocks)) && BodiesStored(db) && pre in db.blocks && f <= db.blocks[pre].height
    requires x in db.confirmed
    ensures
      var r := RepointPath(db, pre, f);
      && r.Keys == db.confirmed.Keys && r[x].tx == db.confirmed[x].tx
      && (r[x] == db.confirmed[x] || (r[x].block in db.blocks && x in db.blocks[r[x].block].txids))
    decreases db.blocks[pre].height - f
  {
    if f < db.blocks[pre].height {
      RepointPathKept(db, pre, f + 1, x);
      var q := Anc(ShapeOf(db.blocks), pre, f + 1);
      RepointBlockRow(db.confirmed, RepointPath(db, pre, f + 1), q, db.blocks[q].txids, x);
    }
  }

  lemma {:induction false} RepointPathKeys(db: Tables, pre: Hash, f: nat)
    requires Forest(ShapeOf(db.blocks)) && BodiesStored(db) && pre in db.blocks && f <= db.blocks[pre].height
    ensures RepointPath(db, pre, f).Keys == db.confirmed.Keys
    decreases db.blocks[pre].height - f
  {
    if f < db.blocks[pre].height {
      RepointPathKeys(db, pre, f + 1);
      var q := Anc(ShapeOf(db.blocks), pre, f + 1);
      RepointBlockKeys(db.confirmed, RepointPath(db, pre, f + 1), q, db.blocks[q].txids);
    }
  }

  lemma {:induction false} RepointBlockKeys(stored: map<Hash, TxRecord>, staged: map<Hash, TxRecord>, q: Hash,
        ids: seq<Hash>)
    requires forall i :: 0 <= i < |ids| ==> ids[i] in stored
    requires staged.Keys == stored.Keys
    ensures RepointBlock(stored, staged, q, ids).Keys == stored.Keys
  {
    if ids != [] {
      RepointBlockKeys(stored, staged, q, ids[..|ids| - 1]);
    }
  }

  lemma {:induction false} RepointPathSafe(db: Tables, pre: Hash, f: nat)
    requires Forest(ShapeOf(db.blocks)) && BodiesStored(db) && pre in db.blocks && f <= db.blocks[pre].height
    ensures SafeRows(db, RepointPath(db, pre, f))
  {
    RepointPathKeys(db, pre, f);
    forall x | x in db.confirmed
      ensures
        var r := RepointPath(db, pre, f);
        && r[x].tx == db.confirmed[x].tx
        && (r[x] == db.confirmed[x] || (r[x].block in db.blocks && x in db.blocks[r[x].block].txids))
    {
      RepointPathKept(db, pre, f, x);
    }
  }

  /** On a path without repeated txids, a transaction above height f ends up pointing at its own block, and one that is
      not there stays as it is. */
  lemma {:induction false} RepointPathRow(db: Tables, pre: Hash, f: nat, x: Hash)
    requires Forest(ShapeOf(db.blocks)) && BodiesStored(db) && pre in db.blocks && f <= db.blocks[pre].height
    requires PathDistinct(db, pre) && x in db.confirmed
    ensures
      var r := RepointPath(db, pre, f);
      && r.Keys == db.confirmed.Keys
      && (forall k :: f < k <= db.blocks[pre].height && x in TxidsAt(db, pre, k) ==>
            r[x] == db.confirmed[x].(block := Anc(ShapeOf(db.blocks), pre, k)))
      && ((forall k :: f < k <= db.blocks[pre].height ==> x !in TxidsAt(db, pre, k)) ==> r[x] == db.confirmed[x])
    decreases db.blocks[pre].height - f
  {
    if f < db.blocks[pre].height {
      RepointPathRow(db, pre, f + 1, x);
      var q := Anc(ShapeOf(db.blocks), pre, f + 1);
      assert db.blocks[q].txids == TxidsAt(db, pre, f + 1);
      RepointBlockRow(db.confirmed, RepointPath(db, pre, f + 1), q, db.blocks[q].txids, x);
    }
  }

  // ----- Confirming a block

  /** The confirmed table just before the transactions of the block are recorded. */
  ghost function Repointed(db: Tables, block: Block, isRoot: bool): (r: map<Hash, TxRecord>)
    requires Inv(db) && CanPlace(db, block, isRoot)
  {
    if !isRoot && JoinsTrunk(db, block) then RepointPath(db, block.pre, SplitHeight(db, block.pre)) else db.confirmed
  }

  ghost predicate EntersTrunk(db: Tables, block: Block, isRoot: bool)
    requires CanPlace(db, block, isRoot)
  {
    isRoot || JoinsTrunk(db, block)
  }

  /** r has the blocks of db and the new one, and records the transactions of the new one over the rows in staged. */
  ghost predicate Extends(db: Tables, r: Tables, block: Block, staged: map<Hash, TxRecord>, inTrunk: bool) {
    && r.blocks.Keys == db.blocks.Keys + {block.id}
    && (forall b :: b in db.blocks ==>
        r.blocks[b].txids == db.blocks[b].txids && r.blocks[b].proposer == db.blocks[b].proposer)
    && r.blocks[block.id].txids == Txids(block.txs) && r.blocks[block.id].proposer == block.proposer
    && r.confirmed == RecordTxs(db, staged, block.id, inTrunk, block.txs)
  }

  lemma {:induction false} TrunkExtends(db: Tables, block: Block, f: nat)
    requires Forest(ShapeOf(db.blocks)) && BodiesStored(db) && block.id !in db.blocks
    requires db.meta.tip in db.blocks && block.pre in db.blocks && f <= db.blocks[block.pre].height
    ensures Extends(db, AfterTrunk(db, block, f), block, RepointPath(db, block.pre, f), true)
  {
    RelinkBodies(db.blocks, db.meta.tip, block.pre, block.id, f);
    TrunkBlocks(db, block, f);
  }

  lemma {:induction false} RelinkBodies(blocks: map<Hash, Header>, tip: Hash, pre: Hash, id: Hash, f: nat)
    requires Forest(ShapeOf(blocks)) && tip in blocks && pre in blocks
    ensures
      var r := Relink(blocks, tip, pre, id, f, f);
      forall b :: b in blocks ==> r[b].txids == blocks[b].txids && r[b].proposer == blocks[b].proposer
  {
  }

  lemma ConfirmExtends(db: Tables, block: Block, isRoot: bool)
    requires Inv(db) && CanPlace(db, block, isRoot) && block.id !in db.blocks
    ensures Extends(db, AfterConfirm(db, block, isRoot), block, Repointed(db, block, isRoot),
                    EntersTrunk(db, block, isRoot))
  {
    if !isRoot && JoinsTrunk(db, block) {
      TrunkExtends(db, block, SplitHeight(db, block.pre));
    }
  }

  /** The rows in staged hold the stored transactions, and a moved row points at a block that lists it. */
  ghost predicate SafeRows(db: Tables, staged: map<Hash, TxRecord>) {
    && staged.Keys == db.confirmed.Keys
    && forall x :: x in staged ==>
         && staged[x].tx == db.confirmed[x].tx
         && (staged[x] == db.confirmed[x] || (staged[x].block in db.blocks && x in db.blocks[staged[x].block].txids))
  }

  lemma RepointedSafe(db: Tables, block: Block, isRoot: bool)
    requires Inv(db) && CanPlace(db, block, isRoot)
    ensures SafeRows(db, Repointed(db, block, isRoot))
  {
    if !isRoot && JoinsTrunk(db, block) {
      RepointPathSafe(db, block.pre, SplitHeight(db, block.pre));
    }
  }

  /** Confirming keeps every stored transaction, stores those of the block, and backs each row with a block. */
  lemma RowKept(db: Tables, r: Tables, block: Block, staged: map<Hash, TxRecord>, inTrunk: bool, x: Hash)
    requires Extends(db, r, block, staged, inTrunk) && SafeRows(db, staged) && TxidsIdentify(db, block.txs)
    ensures x in db.confirmed ==> x in r.confirmed && r.confirmed[x].tx == db.confirmed[x].tx
    ensures forall i :: 0 <= i < |block.txs| && block.txs[i].txid == x ==>
            x in r.confirmed && r.confirmed[x].tx == block.txs[i]
    ensures x in r.confirmed ==>
              || (r.confirmed[x].block == block.id && x in Txids(block.txs))
              || (x in db.confirmed && r.confirmed[x] == db.confirmed[x])
              || (r.confirmed[x].block in db.blocks && x in db.blocks[r.confirmed[x].block].txids)
  {
    RecordTxsRow(db, staged, block.id, inTrunk, block.txs, x);
    if i :| 0 <= i < |block.txs| && block.txs[i].txid == x {
      assert Txids(block.txs)[i] == x;
    }
  }

  lemma BodiesKept(db: Tables, r: Tables, block: Block, staged: map<Hash, TxRecord>, inTrunk: bool)
    requires Extends(db, r, block, staged, inTrunk) && SafeRows(db, staged) && TxidsIdentify(db, block.txs)
    requires BodiesStored(db) && block.id !in db.blocks
    ensures BodiesStored(r)
    ensures RecordsBacked(db) ==> RecordsBacked(r)
  {
    forall b, i | b in r.blocks && 0 <= i < |r.blocks[b].txids|
      ensures r.blocks[b].txids[i] in r.confirmed && r.confirmed[r.blocks[b].txids[i]].tx.txid == r.blocks[b].txids[i]
    {
      RowKept(db, r, block, staged, inTrunk, r.blocks[b].txids[i]);
      if b == block.id {
        assert r.blocks[b].txids[i] == block.txs[i].txid;
      } else {
        assert db.blocks[b].txids[i] in db.confirmed;
      }
    }
    if RecordsBacked(db) {
      forall x | x in r.confirmed
        ensures r.confirmed[x].block in r.blocks && x in r.blocks[r.confirmed[x].block].txids
      {
        RowKept(db, r, block, staged, inTrunk, x);
      }
    }
  }

  /** Every confirm keeps the ledger invariant, and rows stay backed by blocks that list them. */
  lemma ConfirmKeepsInv(db: Tables, block: Block, isRoot: bool)
    requires Inv(db) && CanPlace(db, block, isRoot) && Fresh(db, block) && TxidsIdentify(db, block.txs)
    ensures TrunkInv(AfterConfirm(db, block, isRoot)) && Inv(AfterConfirm(db, block, isRoot))
    ensures RecordsBacked(db) ==> RecordsBacked(AfterConfirm(db, block, isRoot))
  {
    ConfirmKeepsTrunk(db, block, isRoot);
    ConfirmExtends(db, block, isRoot);
    RepointedSafe(db, block, isRoot);
    BodiesKept(db, AfterConfirm(db, block, isRoot), block, Repointed(db, block, isRoot),
               EntersTrunk(db, block, isRoot));
  }

  // ----- Rows of trunk blocks

  /** After repointing, the rows of a block on the path to pre point at it, whether it was on the old trunk or not. */
  lemma RepointedRow(db: Tables, pre: Hash, f: nat, b: Hash, x: Hash)
    requires TrunkInv(db) && BodiesStored(db) && RecordsOnTrunk(db) && pre in db.blocks && b in db.blocks
    requires IsFork(ShapeOf(db.blocks), db.meta.tip, pre, f) && PathDistinct(db, pre)
    requires OnPath(ShapeOf(db.blocks), pre, b) && x in db.blocks[b].txids
    ensures x in RepointPath(db, pre, f) && RepointPath(db, pre, f)[x].block == b
  {
    var t, h := ShapeOf(db.blocks), db.blocks[b].height;
    RepointPathRow(db, pre, f, x);
    assert x in TxidsAt(db, pre, h);
    if h <= f {
      ForkSplits(t, db.meta.tip, pre, f, h);
      assert Marked(t, db.meta.tip, b, db.blocks[b]);
      forall k | f < k <= db.blocks[pre].height ensures x !in TxidsAt(db, pre, k) {
      }
    }
  }

  /** No block on the path to b lists one of the txids. */
  ghost predicate PathAvoids(db: Tables, b: Hash, ids: seq<Hash>)
    requires Forest(ShapeOf(db.blocks)) && b in db.blocks
  {
    forall h, x :: 0 <= h <= db.blocks[b].height && x in TxidsAt(db, b, h) ==> x !in ids
  }

  /** A path without repeats to the parent, and a block that repeats none of it, make a path without repeats to the
      block. */
  lemma PathDistinctGrows(db: Tables, r: Tables, root: Hash, block: Block)
    requires Rooted(ShapeOf(db.blocks), root) && block.pre in db.blocks && block.id !in db.blocks && block.id != Empty
    requires ShapeOf(r.blocks) == Grown(ShapeOf(db.blocks), block.pre, block.id) && Forest(ShapeOf(r.blocks))
    requires forall b :: b in db.blocks ==> r.blocks[b].txids == db.blocks[b].txids
    requires r.blocks[block.id].txids == Txids(block.txs)
    ensures PathDistinct(r, block.id) <==> PathDistinct(db, block.pre) && PathAvoids(db, block.pre, Txids(block.txs))
  {
    var n := db.blocks[block.pre].height;
    GrowShape(ShapeOf(db.blocks), root, block.pre, block.id);
    assert forall h :: 0 <= h <= n ==> TxidsAt(r, block.id, h) == TxidsAt(db, block.pre, h);
    assert TxidsAt(r, block.id, n + 1) == Txids(block.txs);
    if PathDistinct(r, block.id) {
      forall h, k, x | 0 <= h < k <= n && x in TxidsAt(db, block.pre, h) ensures x !in TxidsAt(db, block.pre, k) {
        assert x in TxidsAt(r, block.id, h);
      }
      forall h, x | 0 <= h <= n && x in TxidsAt(db, block.pre, h) ensures x !in Txids(block.txs) {
        assert x in TxidsAt(r, block.id, h);
      }
    }
  }

  lemma TrunkRecord(db: Tables, r: Tables, block: Block, f: nat, b: Hash, x: Hash)
    requires TrunkInv(db) && BodiesStored(db) && RecordsOnTrunk(db) && TxidsIdentify(db, block.txs)
    requires block.pre in db.blocks && db.blocks[block.pre].height == db.meta.trunkHeight
    requires IsFork(ShapeOf(db.blocks), db.meta.tip, block.pre, f)
    requires PathDistinct(db, block.pre) && PathAvoids(db, block.pre, Txids(block.txs))
    requires Extends(db, r, block, RepointPath(db, block.pre, f), true)
    requires b in r.blocks && x in r.blocks[b].txids
    requires b != block.id ==> OnPath(ShapeOf(db.blocks), block.pre, b)
    ensures x in r.confirmed && r.confirmed[x].block == b
  {
    RecordTxsRow(db, RepointPath(db, block.pre, f), block.id, true, block.txs, x);
    if b == block.id {
      var i :| 0 <= i < |block.txs| && Txids(block.txs)[i] == x;
      assert block.txs[i].txid == x;
    } else {
      RepointedRow(db, block.pre, f, b, x);
      assert x in TxidsAt(db, block.pre, db.blocks[b].height);
      forall i | 0 <= i < |block.txs| ensures block.txs[i].txid != x {
        assert Txids(block.txs)[i] in Txids(block.txs);
      }
    }
  }

  lemma TrunkRecords(db: Tables, block: Block, f: nat)
    requires TrunkInv(db) && BodiesStored(db) && RecordsOnTrunk(db) && Fresh(db, block) && TxidsIdentify(db, block.txs)
    requires block.pre in db.blocks && db.blocks[block.pre].height == db.meta.trunkHeight
    requires IsFork(ShapeOf(db.blocks), db.meta.tip, block.pre, f)
    requires PathDistinct(db, block.pre) && PathAvoids(db, block.pre, Txids(block.txs))
    ensures RecordsOnTrunk(AfterTrunk(db, block, f))
  {
    var t, r := ShapeOf(db.blocks), AfterTrunk(db, block, f);
    TrunkExtends(db, block, f);
    TrunkBlocks(db, block, f);
    forall b, x | b in r.blocks && r.blocks[b].inTrunk && x in r.blocks[b].txids
      ensures x in r.confirmed && r.confirmed[x].block == b
    {
      if b != block.id {
        assert Marked(t, db.meta.tip, b, db.blocks[b]);
        RelinkMarks(t, db.blocks[b], db.meta.tip, block.pre, block.id, f, b);
      }
      TrunkRecord(db, r, block, f, b, x);
    }
  }

  lemma SideRecords(db: Tables, block: Block)
    requires RecordsOnTrunk(db) && block.pre in db.blocks && block.id !in db.blocks && TxidsIdentify(db, block.txs)
    ensures RecordsOnTrunk(AfterSide(db, block))
  {
    var r := AfterSide(db, block);
    forall b, x | b in r.blocks && r.blocks[b].inTrunk && x in r.blocks[b].txids
      ensures x in r.confirmed && r.confirmed[x].block == b
    {
      RecordTxsRow(db, db.confirmed, block.id, false, block.txs, x);
    }
  }

  lemma RootRecords(db: Tables, block: Block)
    requires EmptyLedger(db) && TxidsIdentify(db, block.txs)
    ensures RecordsOnTrunk(AfterRoot(db, block))
  {
    var r := AfterRoot(db, block);
    forall x | x in r.blocks[block.id].txids ensures x in r.confirmed && r.confirmed[x].block == block.id {
      RecordTxsRow(db, db.confirmed, block.id, true, block.txs, x);
      var i :| 0 <= i < |block.txs| && Txids(block.txs)[i] == x;
      assert block.txs[i].txid == x;
    }
  }

  /** If the path to the new block repeats no txid, every trunk block keeps its rows, and after a switch regains
      them. */
  lemma ConfirmKeepsRecords(db: Tables, block: Block, isRoot: bool)
    requires Inv(db) && RecordsOnTrunk(db) && CanPlace(db, block, isRoot) && Fresh(db, block)
    requires TxidsIdentify(db, block.txs)
    requires !isRoot && JoinsTrunk(db, block) ==>
            PathDistinct(db, block.pre) && PathAvoids(db, block.pre, Txids(block.txs))
    ensures RecordsOnTrunk(AfterConfirm(db, block, isRoot))
  {
    if isRoot {
      RootRecords(db, block);
    } else if JoinsTrunk(db, block) {
      TrunkRecords(db, block, SplitHeight(db, block.pre));
    } else {
      SideRecords(db, block);
    }
  }

  // ----- Duplicate transactions

  /** The check of a confirm that enters the trunk: a row that points at a trunk block at or below the split. */
  ghost predicate Duplicated(db: Tables, txs: seq<Tx>, inTrunk: bool, split: nat) {
    exists i :: 0 <= i < |txs| && DuplicatedTx(db, txs[i].txid, inTrunk, split)
  }

  predicate DuplicatedTx(db: Tables, x: Hash, inTrunk: bool, split: nat) {
    && x in db.confirmed
    && db.confirmed[x].block in db.blocks
    && db.blocks[db.confirmed[x].block].inTrunk && inTrunk && db.blocks[db.confirmed[x].block].height <= split
  }

  /** The check finds exactly the repeats at or below the point where the path leaves the old trunk. */
  lemma {:induction false} DuplicatesBelowSplit(db: Tables, pre: Hash, txs: seq<Tx>, f: nat)
    requires TrunkInv(db) && RecordsOnTrunk(db) && RecordsBacked(db) && pre in db.blocks
    requires IsFork(ShapeOf(db.blocks), db.meta.tip, pre, f)
    ensures Duplicated(db, txs, true, f) <==> exists h, x :: 0 <= h <= f && x in TxidsAt(db, pre, h) && x in Txids(txs)
  {
    if Duplicated(db, txs, true, f) {
      var i :| 0 <= i < |txs| && DuplicatedTx(db, txs[i].txid, true, f);
      var h := FoundBelow(db, pre, txs[i].txid, f);
      assert Txids(txs)[i] == txs[i].txid;
      assert txs[i].txid in Txids(txs);
    }
    if h, x :| 0 <= h <= f && x in TxidsAt(db, pre, h) && x in Txids(txs) {
      RepeatFound(db, pre, x, h, f);
      var i :| 0 <= i < |txs| && Txids(txs)[i] == x;
      assert DuplicatedTx(db, txs[i].txid, true, f);
    }
  }

  lemma {:induction false} FoundBelow(db: Tables, pre: Hash, x: Hash, f: nat) returns (h: nat)
    requires TrunkInv(db) && RecordsBacked(db) && pre in db.blocks
    requires IsFork(ShapeOf(db.blocks), db.meta.tip, pre, f) && DuplicatedTx(db, x, true, f)
    ensures h <= f && x in TxidsAt(db, pre, h)
  {
    var t, b := ShapeOf(db.blocks), db.confirmed[x].block;
    assert Marked(t, db.meta.tip, b, db.blocks[b]);
    h := t[b].height;
    ForkSplits(t, db.meta.tip, pre, f, h);
  }

  lemma {:induction false} RepeatFound(db: Tables, pre: Hash, x: Hash, h: nat, f: nat)
    requires TrunkInv(db) && RecordsOnTrunk(db) && pre in db.blocks
    requires IsFork(ShapeOf(db.blocks), db.meta.tip, pre, f) && h <= f && x in TxidsAt(db, pre, h)
    ensures DuplicatedTx(db, x, true, f)
  {
    var t := ShapeOf(db.blocks);
    var b := Anc(t, pre, h);
    ForkSplits(t, db.meta.tip, pre, f, h);
    assert Marked(t, db.meta.tip, b, db.blocks[b]);
  }

  /** A block accepted onto the trunk avoids the txids of its path exactly when it avoids those above the split:
      on a plain extension that is always so, on a switch the adopted side blocks are never compared. */
  lemma AcceptedAvoidsPathIff(db: Tables, block: Block, f: nat)
    requires TrunkInv(db) && RecordsOnTrunk(db) && RecordsBacked(db) && block.pre in db.blocks
    requires IsFork(ShapeOf(db.blocks), db.meta.tip, block.pre, f) && !Duplicated(db, block.txs, true, f)
    ensures PathAvoids(db, block.pre, Txids(block.txs)) <==>
            forall h, x :: f < h <= db.blocks[block.pre].height && x in TxidsAt(db, block.pre, h) ==>
                x !in Txids(block.txs)
    ensures block.pre == db.meta.tip ==> PathAvoids(db, block.pre, Txids(block.txs))
  {
    DuplicatesBelowSplit(db, block.pre, block.txs, f);
    var ids := Txids(block.txs);
    if forall h, x :: f < h <= db.blocks[block.pre].height && x in TxidsAt(db, block.pre, h) ==> x !in ids {
      forall h, x | 0 <= h <= db.blocks[block.pre].height && x in TxidsAt(db, block.pre, h) ensures x !in ids {
      }
    }
  }

  // ----- Leaves

  lemma {:induction false} LeavesGrow(t: Shape, root: Hash, pre: Hash, id: Hash, h: nat)
    requires Rooted(t, root) && pre in t && id !in t && id != Empty && h == t[pre].height + 1
    ensures LeavesOf(Grown(t, pre, id)) == (LeavesOf(t) - {pre})[id := h]
  {
    var u := Grown(t, pre, id);
    var grown, put := LeavesOf(u), (LeavesOf(t) - {pre})[id := h];
    forall b ensures (b in grown <==> b in put) && (b in grown ==> grown[b] == put[b]) {
      if b == id {
        NewLeaf(t, pre, id);
      } else if b in t {
        LeafGrow(t, pre, id, b);
      }
    }
  }

  lemma {:induction false} NewLeaf(t: Shape, pre: Hash, id: Hash)
    requires Forest(t) && pre in t && id !in t && id != Empty
    ensures IsLeaf(Grown(t, pre, id), id)
  {
    var u := Grown(t, pre, id);
    forall c | c in u ensures u[c].pre != id {
      if c != id { assert Linked(t, c); }
    }
  }

  lemma {:induction false} LeafGrow(t: Shape, pre: Hash, id: Hash, b: Hash)
    requires pre in t && id !in t && b in t
    ensures IsLeaf(Grown(t, pre, id), b) <==> IsLeaf(t, b) && b != pre
  {
    var u := Grown(t, pre, id);
    assert u[id].pre == pre;
    if IsLeaf(u, b) {
      forall c | c in t ensures t[c].pre != b { assert u[c] == t[c]; }
    }
  }

  lemma TrunkLeaves(db: Tables, block: Block, f: nat)
    requires TreeInv(db) && BodiesStored(db) && LeavesExact(db) && block.pre in db.blocks && Fresh(db, block)
    requires f <= db.blocks[block.pre].height
    ensures LeavesExact(AfterTrunk(db, block, f))
  {
    TrunkShape(db, block, f);
    LeavesGrow(ShapeOf(db.blocks), db.meta.root, block.pre, block.id, HeightOn(db, block.pre));
  }

  lemma SideLeaves(db: Tables, block: Block)
    requires TreeInv(db) && LeavesExact(db) && block.pre in db.blocks && Fresh(db, block)
    ensures LeavesExact(AfterSide(db, block))
  {
    SideShape(db, block);
    LeavesGrow(ShapeOf(db.blocks), db.meta.root, block.pre, block.id, HeightOn(db, block.pre));
  }

  lemma RootLeaves(db: Tables, block: Block)
    requires EmptyLedger(db) && block.pre == Empty && Fresh(db, block)
    ensures LeavesExact(AfterRoot(db, block))
  {
    var t := ShapeOf(AfterRoot(db, block).blocks);
    assert t == map[block.id := Node(Empty, 0)];
    assert IsLeaf(t, block.id);
  }

  /** Along confirms the branch table holds exactly the leaves, and the tip has no forward link. */
  lemma ConfirmKeepsLeaves(db: Tables, block: Block, isRoot: bool)
    requires Inv(db) && CanPlace(db, block, isRoot) && Fresh(db, block)
    requires !EmptyLedger(db) ==> LeavesExact(db) && TipOpen(db)
    ensures LeavesExact(AfterConfirm(db, block, isRoot)) && TipOpen(AfterConfirm(db, block, isRoot))
  {
    if isRoot {
      RootLeaves(db, block);
    } else if JoinsTrunk(db, block) {
      TrunkLeaves(db, block, SplitHeight(db, block.pre));
    } else {
      SideLeaves(db, block);
    }
  }
}
