/** Whole histories of the ledger, from the empty one: what holds after every successful operation. */
module LedgerRuns {
  import opened Tree
  import opened Transactions
  import opened LedgerSpec
  import opened LedgerRecords
  import opened LedgerPrune
  import opened LedgerView
  import L = Ledger

  datatype Op = Confirm(block: Block, isRoot: bool) | Cut(target: Hash)

  /** A successful operation. Its result is stated for the ledgers the method is specified for. */
  ghost predicate Step(db: Tables, op: Op, r: Tables) {
    match op
    case Confirm(block, isRoot) =>
      && CanPlace(db, block, isRoot) && Fresh(db, block) && TxidsIdentify(db, block.txs)
      && (Inv(db) ==> r == AfterConfirm(db, block, isRoot))
    case Cut(target) =>
      && target in db.blocks && db.blocks[target].inTrunk
      && (Forest(ShapeOf(db.blocks)) && TipsKnown(db) ==> r == CutBack(db, target))
  }

  /** A run of operations from the empty ledger, with the tables between them. */
  ghost predicate History(ops: seq<Op>, dbs: seq<Tables>) {
    && |dbs| == |ops| + 1 && EmptyLedger(dbs[0])
    && forall i :: 0 <= i < |ops| ==> Step(dbs[i], ops[i], dbs[i + 1])
  }

  ghost predicate ConfirmsOnly(ops: seq<Op>) {
    forall i :: 0 <= i < |ops| ==> ops[i].Confirm?
  }

  /** If the operation is a truncate, the branch table covers the blocks above its target. */
  ghost predicate CutCovered(db: Tables, op: Op) {
    op.Cut? ==> op.target in db.blocks && Covered(db, db.blocks[op.target].height)
  }

  /** The ledger of a run: everything but the order of its leaves. */
  ghost predicate Kept(db: Tables) {
    Inv(db) && TipsKnown(db)
  }

  lemma {:induction false} StepKeeps(db: Tables, op: Op, r: Tables)
    requires Step(db, op, r) && Kept(db) && CutCovered(db, op)
    ensures TrunkInv(r) && Kept(r)
  {
    match op
    case Confirm(block, isRoot) =>
      ConfirmKeepsInv(db, block, isRoot);
      ConfirmKeepsTips(db, block, isRoot);
    case Cut(target) =>
      CutKeepsTrunkIff(db, target);
      CutKeepsTips(db, target);
  }

  /** As long as every truncate is covered, the ledger is kept in order. */
  lemma {:induction false} HistoryKeeps(ops: seq<Op>, dbs: seq<Tables>, n: nat)
    requires History(ops, dbs) && n < |dbs| && forall i :: 0 <= i < n ==> CutCovered(dbs[i], ops[i])
    ensures Kept(dbs[n]) && (n > 0 ==> TrunkInv(dbs[n]))
  {
    if n > 0 {
      HistoryKeeps(ops, dbs, n - 1);
      assert Step(dbs[n - 1], ops[n - 1], dbs[n]) && CutCovered(dbs[n - 1], ops[n - 1]);
      StepKeeps(dbs[n - 1], ops[n - 1], dbs[n]);
    }
  }

  /** A run whose ledgers satisfy the trunk invariant has made no uncovered truncate. */
  lemma {:induction false} HistoryCovered(ops: seq<Op>, dbs: seq<Tables>, n: nat)
    requires History(ops, dbs) && n < |dbs| && forall k :: 0 < k <= n ==> TrunkInv(dbs[k])
    ensures forall i :: 0 <= i < n ==> CutCovered(dbs[i], ops[i])
  {
    if n > 0 {
      HistoryCovered(ops, dbs, n - 1);
      HistoryKeeps(ops, dbs, n - 1);
      var db, op := dbs[n - 1], ops[n - 1];
      assert Step(db, op, dbs[n]);
      if op.Cut? {
        CutKeepsTrunkIff(db, op.target);
      }
    }
  }

  /** Along every history of confirms and truncates, trunk switches included: the trunk invariant holds after each
      operation if and only if each truncate found the blocks above its target covered by the branch table. */
  lemma {:induction false} HistoryTrunkIff(ops: seq<Op>, dbs: seq<Tables>)
    requires History(ops, dbs)
    ensures (forall n :: 0 < n < |dbs| ==> TrunkInv(dbs[n])) <==>
            (forall i :: 0 <= i < |ops| ==> CutCovered(dbs[i], ops[i]))
  {
    if forall n :: 0 < n < |dbs| ==> TrunkInv(dbs[n]) {
      HistoryCovered(ops, dbs, |ops|);
    }
    if forall i :: 0 <= i < |ops| ==> CutCovered(dbs[i], ops[i]) {
      forall n | 0 < n < |dbs| ensures TrunkInv(dbs[n]) {
        HistoryKeeps(ops, dbs, n);
      }
    }
  }

  /** The branch table is exactly the leaves, the tip has no forward link, and every row is backed by a block. */
  ghost predicate Tidy(db: Tables) {
    (EmptyLedger(db) || (LeavesExact(db) && TipOpen(db))) && RecordsBacked(db)
  }

  lemma {:induction false} StepKeepsTidy(db: Tables, op: Op, r: Tables)
    requires Step(db, op, r) && op.Confirm? && Inv(db) && Tidy(db)
    ensures LeavesExact(r) && TipOpen(r) && Tidy(r)
  {
    ConfirmKeepsLeaves(db, op.block, op.isRoot);
    ConfirmKeepsInv(db, op.block, op.isRoot);
  }

  /** On confirm-only histories the branch table holds exactly the leaves. */
  lemma {:induction false} HistoryKeepsLeaves(ops: seq<Op>, dbs: seq<Tables>, n: nat)
    requires History(ops, dbs) && ConfirmsOnly(ops) && n < |dbs|
    ensures Tidy(dbs[n]) && Inv(dbs[n]) && (n > 0 ==> TrunkInv(dbs[n]) && LeavesExact(dbs[n]))
  {
    HistoryKeeps(ops, dbs, n);
    if n > 0 {
      HistoryKeepsLeaves(ops, dbs, n - 1);
      assert Step(dbs[n - 1], ops[n - 1], dbs[n]) && ops[n - 1].Confirm?;
      StepKeepsTidy(dbs[n - 1], ops[n - 1], dbs[n]);
    }
  }

  /** The first truncate of a history is always covered. */
  lemma {:induction false} FirstCutCovered(ops: seq<Op>, dbs: seq<Tables>)
    requires History(ops, dbs) && |ops| > 0 && ConfirmsOnly(ops[..|ops| - 1])
    ensures CutCovered(dbs[|ops| - 1], ops[|ops| - 1]) && TrunkInv(dbs[|ops|])
  {
    var n := |ops| - 1;
    var db, op := dbs[n], ops[n];
    assert History(ops[..n], dbs[..n + 1]);
    HistoryKeepsLeaves(ops[..n], dbs[..n + 1], n);
    HistoryKeeps(ops[..n], dbs[..n + 1], n);
    assert Step(db, op, dbs[n + 1]);
    if op.Cut? {
      LeavesCover(db, db.blocks[op.target].height);
    }
    StepKeeps(db, op, dbs[n + 1]);
  }

  // ----- Rows

  /** No path from the root repeats a txid. */
  ghost predicate NoRepeats(db: Tables) {
    Forest(ShapeOf(db.blocks)) && forall b :: b in db.blocks ==> PathDistinct(db, b)
  }

  /** What holds of the paths after a confirm held of them before. */
  lemma {:induction false} NoRepeatsBefore(db: Tables, block: Block, isRoot: bool)
    requires Inv(db) && CanPlace(db, block, isRoot) && Fresh(db, block) && TxidsIdentify(db, block.txs)
    requires NoRepeats(AfterConfirm(db, block, isRoot))
    ensures NoRepeats(db)
    ensures !isRoot ==> PathAvoids(db, block.pre, Txids(block.txs))
  {
    var r := AfterConfirm(db, block, isRoot);
    ConfirmExtends(db, block, isRoot);
    ConfirmShape(db, block, isRoot);
    if EmptyLedger(db) {
      assert ShapeOf(db.blocks) == map[];
    } else {
      forall b | b in db.blocks ensures PathDistinct(db, b) {
        assert PathDistinct(r, b);
        PathStays(db, r, b);
      }
      if !isRoot {
        assert PathDistinct(r, block.id);
        GrownByConfirm(db, block);
        PathDistinctGrows(db, r, db.meta.root, block);
      }
    }
  }

  lemma {:induction false} PathStays(db: Tables, r: Tables, b: Hash)
    requires Forest(ShapeOf(db.blocks)) && Forest(ShapeOf(r.blocks)) && b in db.blocks && b in r.blocks
    requires PathDistinct(r, b)
    requires forall x :: x in ShapeOf(db.blocks) ==>
            x in ShapeOf(r.blocks) && ShapeOf(r.blocks)[x] == ShapeOf(db.blocks)[x]
    requires forall x :: x in db.blocks ==> x in r.blocks && r.blocks[x].txids == db.blocks[x].txids
    ensures PathDistinct(db, b)
  {
    var n := db.blocks[b].height;
    assert ShapeOf(r.blocks)[b] == ShapeOf(db.blocks)[b];
    forall h | 0 <= h <= n ensures TxidsAt(r, b, h) == TxidsAt(db, b, h) {
      AncExtend(ShapeOf(db.blocks), ShapeOf(r.blocks), b, h);
    }
    forall h, k, x | 0 <= h < k <= n && x in TxidsAt(db, b, h) ensures x !in TxidsAt(db, b, k) {
      assert x in TxidsAt(r, b, h);
      assert TxidsAt(r, b, k) == TxidsAt(db, b, k);
    }
  }

  /** If no path from the root repeats a txid, then after every confirm each transaction of a trunk block has a row that
      points at that block. */
  lemma {:induction false} HistoryKeepsRows(ops: seq<Op>, dbs: seq<Tables>, n: nat)
    requires History(ops, dbs) && ConfirmsOnly(ops) && n < |dbs| && NoRepeats(dbs[n])
    ensures RecordsOnTrunk(dbs[n])
  {
    if n > 0 {
      var db, op := dbs[n - 1], ops[n - 1];
      assert Step(db, op, dbs[n]) && op.Confirm?;
      HistoryKeeps(ops, dbs, n - 1);
      NoRepeatsBefore(db, op.block, op.isRoot);
      HistoryKeepsRows(ops, dbs, n - 1);
      ConfirmKeepsRecords(db, op.block, op.isRoot);
    }
  }

  // ----- A repeat the ledger lets through

  /** Root 1, trunk block 2 and side block 3 on top of it; the side block holds the one transaction. */
  function Forked(tx: Tx): Tables {
    Tables(map[Digest(1) := Header(Empty, 0, true, Digest(2), "p", []),
               Digest(2) := Header(Digest(1), 1, true, Empty, "p", []),
               Digest(3) := Header(Digest(1), 1, false, Empty, "p", [tx.txid])],
           map[0 := Digest(1), 1 := Digest(2)], map[Digest(2) := 1, Digest(3) := 1],
           map[tx.txid := TxRecord(tx, Digest(3))], Meta(Digest(1), Digest(2), 1))
  }

  function ForkedShape(): Shape {
    map[Digest(1) := Node(Empty, 0), Digest(2) := Node(Digest(1), 1), Digest(3) := Node(Digest(1), 1)]
  }

  lemma {:induction false} ForkedPaths()
    ensures
      var t := ForkedShape();
      && Rooted(t, Digest(1)) && Anc(t, Digest(1), 0) == Anc(t, Digest(2), 0) == Anc(t, Digest(3), 0) == Digest(1)
      && Anc(t, Digest(2), 1) == Digest(2) && Anc(t, Digest(3), 1) == Digest(3)
      && TrunkIndex(t, Digest(2)) == map[0 := Digest(1), 1 := Digest(2)]
  {
    var t := ForkedShape();
    assert Linked(t, Digest(1)) && Linked(t, Digest(2)) && Linked(t, Digest(3));
    assert Anc(t, Digest(1), 0) == Digest(1) && Anc(t, Digest(2), 1) == Digest(2);
  }

  lemma {:induction false} ForkedShapeOf(tx: Tx)
    ensures ShapeOf(Forked(tx).blocks) == ForkedShape()
  {
  }

  lemma {:induction false} ForkedMarked(tx: Tx, b: Hash)
    requires b in Forked(tx).blocks
    ensures Forest(ForkedShape()) && Marked(ForkedShape(), Digest(2), b, Forked(tx).blocks[b])
  {
    ForkedPaths();
  }

  lemma {:induction false} ForkedInv(tx: Tx)
    ensures TrunkInv(Forked(tx))
  {
    ForkedPaths();
    ForkedShapeOf(tx);
    forall b | b in Forked(tx).blocks ensures Marked(ForkedShape(), Digest(2), b, Forked(tx).blocks[b]) {
      ForkedMarked(tx, b);
    }
  }

  lemma {:induction false} ForkedBodies(tx: Tx)
    ensures BodiesStored(Forked(tx))
  {
  }

  lemma {:induction false} ForkedRows(tx: Tx)
    ensures RecordsOnTrunk(Forked(tx)) && NoRepeats(Forked(tx))
  {
    var db := Forked(tx);
    ForkedShapeOf(tx);
    ForkedPaths();
    forall b | b in db.blocks ensures PathDistinct(db, b) {
      assert TxidsAt(db, b, 0) == [];
    }
  }

  /** A block on the side branch that repeats its parent's transaction makes the branch the trunk: the check compares
      with trunk blocks only, at or below the point where the branch leaves the trunk. */
  lemma {:induction false} RepeatAccepted(tx: Tx)
    ensures
      var db, block := Forked(tx), Block(Digest(4), Digest(3), Empty, "p", [tx]);
      && TrunkInv(db) && BodiesStored(db) && NoRepeats(db) && Fresh(db, block) && TxidsIdentify(db, block.txs)
      && L.Accepts(db, block, false) && JoinsTrunk(db, block) && !PathAvoids(db, block.pre, Txids(block.txs))
  {
    var db, block := Forked(tx), Block(Digest(4), Digest(3), Empty, "p", [tx]);
    ForkedInv(tx);
    ForkedBodies(tx);
    ForkedRows(tx);
    ForkedShapeOf(tx);
    ForkedPaths();
    assert TxidsAt(db, block.pre, 1) == [tx.txid] == Txids(block.txs);
    assert tx.txid in TxidsAt(db, block.pre, 1);
  }

  // ----- A second truncate that leaves a block behind

  /** Trunk 1, 2, 4 and side branch 1, 3, 5. */
  function Twin(): Tables {
    Tables(map[Digest(1) := Header(Empty, 0, true, Digest(2), "p", []),
               Digest(2) := Header(Digest(1), 1, true, Digest(4), "p", []),
               Digest(3) := Header(Digest(1), 1, false, Empty, "p", []),
               Digest(4) := Header(Digest(2), 2, true, Empty, "p", []),
               Digest(5) := Header(Digest(3), 2, false, Empty, "p", [])],
           map[0 := Digest(1), 1 := Digest(2), 2 := Digest(4)], map[Digest(4) := 2, Digest(5) := 2],
           map[], Meta(Digest(1), Digest(4), 2))
  }

  function TwinShape(): Shape {
    map[Digest(1) := Node(Empty, 0), Digest(2) := Node(Digest(1), 1), Digest(3) := Node(Digest(1), 1),
        Digest(4) := Node(Digest(2), 2), Digest(5) := Node(Digest(3), 2)]
  }

  lemma {:induction false} TwinPaths()
    ensures
      var t := TwinShape();
      && Rooted(t, Digest(1)) && Anc(t, Digest(4), 0) == Digest(1)
      && Anc(t, Digest(4), 1) == Digest(2) && Anc(t, Digest(4), 2) == Digest(4)
      && TrunkIndex(t, Digest(4)) == map[0 := Digest(1), 1 := Digest(2), 2 := Digest(4)]
  {
    var t := TwinShape();
    assert Linked(t, Digest(1)) && Linked(t, Digest(2)) && Linked(t, Digest(3)) && Linked(t, Digest(4))
        && Linked(t, Digest(5));
    assert Anc(t, Digest(1), 0) == Anc(t, Digest(2), 0) == Anc(t, Digest(3), 0) == Anc(t, Digest(5), 0) == Digest(1);
    assert Anc(t, Digest(2), 1) == Digest(2) && Anc(t, Digest(4), 1) == Digest(2);
  }

  lemma {:induction false} TwinShapeOf()
    ensures ShapeOf(Twin().blocks) == TwinShape()
  {
  }

  lemma {:induction false} TwinMarked(b: Hash)
    requires b in Twin().blocks
    ensures Forest(TwinShape()) && Marked(TwinShape(), Digest(4), b, Twin().blocks[b])
  {
    TwinPaths();
  }

  lemma {:induction false} TwinInv(db: Tables)
    requires db == Twin()
    ensures TrunkInv(db)
  {
    TwinPaths();
    TwinShapeOf();
    forall b | b in db.blocks ensures Marked(TwinShape(), Digest(4), b, db.blocks[b]) {
      TwinMarked(b);
    }
  }

  lemma {:induction false} TwinLeaves()
    ensures LeavesExact(Twin())
  {
    var t := ShapeOf(Twin().blocks);
    TwinShapeOf();
    assert t[Digest(2)].pre == t[Digest(3)].pre == Digest(1) && t[Digest(4)].pre == Digest(2)
        && t[Digest(5)].pre == Digest(3);
    forall b ensures b in LeavesOf(t) <==> b == Digest(4) || b == Digest(5) {
    }
  }

  /** The same after truncating to block 2: block 3 has lost its child and is in no branch table. */
  function Shorn(): Tables {
    Tables(map[Digest(1) := Header(Empty, 0, true, Digest(2), "p", []),
               Digest(2) := Header(Digest(1), 1, true, Digest(4), "p", []),
               Digest(3) := Header(Digest(1), 1, false, Empty, "p", [])],
           map[0 := Digest(1), 1 := Digest(2)], map[Digest(2) := 1], map[], Meta(Digest(1), Digest(2), 1))
  }

  lemma {:induction false} TwinBlocks(b: Hash)
    ensures b in Shorn().blocks <==> b in Twin().blocks && Twin().blocks[b].height <= 1
    ensures b in Shorn().blocks ==> Shorn().blocks[b] == Twin().blocks[b]
  {
  }

  lemma {:induction false} TwinTables()
    ensures TipsAbove(Twin().branches, 1) == {Digest(4), Digest(5)} && Twin().branches - {Digest(4), Digest(5)} == map[]
    ensures (map k | k in Twin().heights && k <= 1 :: Twin().heights[k]) == Shorn().heights
  {
  }

  lemma {:induction false} TwinCut(db: Tables)
    requires db == Twin()
    ensures AfterTruncate(db, Digest(2)) == Shorn()
  {
    var kept := map b | b in db.blocks && db.blocks[b].height <= 1 :: db.blocks[b];
    forall b ensures (b in kept <==> b in Shorn().blocks) && (b in kept ==> kept[b] == Shorn().blocks[b]) {
      TwinBlocks(b);
    }
    assert kept == Shorn().blocks;
    TwinTables();
  }

  lemma {:induction false} ShornTips(mid: Tables)
    requires mid == Shorn()
    ensures ShapeOf(mid.blocks) == ForkedShape() && TipsKnown(mid) && TipsAbove(mid.branches, 0) == {Digest(2)}
    ensures !LeavesExact(mid)
  {
    var t := ShapeOf(mid.blocks);
    assert IsLeaf(t, Digest(3));
    assert Digest(3) in LeavesOf(t) && Digest(3) !in mid.branches;
  }

  lemma {:induction false} ShornCut(mid: Tables)
    requires mid == Shorn()
    ensures Forest(ShapeOf(mid.blocks)) && TipsKnown(mid)
    ensures Digest(3) in CutBack(mid, Digest(1)).blocks && !Covered(mid, 0)
  {
    ShornTips(mid);
    ForkedPaths();
    assert Digest(3) !in CutBy(ShapeOf(mid.blocks), {Digest(2)}, 0);
    UncoveredStays(mid, Digest(1), Digest(3));
  }

  lemma {:induction false} FirstTruncate(db: Tables)
    requires db == Twin()
    ensures TrunkInv(db) && LeavesExact(db) && TipsKnown(db) && CutBack(db, Digest(2)) == Shorn()
    ensures db.blocks[Digest(2)].inTrunk && TrunkInv(Shorn())
  {
    TwinInv(db);
    TwinLeaves();
    LeavesCut(db, Digest(2));
    TwinCut(db);
  }

  /** From exact leaves, truncating to block 2 leaves block 3 out of the branch table; truncating again, to block 1,
      leaves block 3 above the new tip, and the trunk invariant is gone. */
  lemma {:induction false} SecondTruncateFails(db: Tables, mid: Tables)
    requires db == Twin() && mid == Shorn()
    ensures TrunkInv(db) && LeavesExact(db) && TipsKnown(db) && mid == CutBack(db, Digest(2))
    ensures TrunkInv(mid) && TipsKnown(mid) && !LeavesExact(mid) && Digest(3) in CutBack(mid, Digest(1)).blocks
    ensures !TrunkInv(CutBack(mid, Digest(1)))
  {
    FirstTruncate(db);
    ShornTips(mid);
    ShornCut(mid);
    CutKeepsTrunkIff(mid, Digest(1));
  }
}
