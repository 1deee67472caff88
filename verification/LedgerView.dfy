/** The ledger as the state machine sees it: the tree of blocks with their transactions. */
module LedgerView {
  import opened Tree
  import opened Transactions
  import opened LedgerSpec
  import opened LedgerRecords
  import opened Chain
  import opened Machine
  import opened Runs

  function TxsOf(db: Tables, b: Hash): (txs: seq<Tx>)
    requires BodiesStored(db) && b in db.blocks
    ensures Txids(txs) == db.blocks[b].txids
  {
    seq(|db.blocks[b].txids|, i requires 0 <= i < |db.blocks[b].txids| => db.confirmed[db.blocks[b].txids[i]].tx)
  }

  function ViewOf(db: Tables): (v: View)
    requires BodiesStored(db)
  {
    map b | b in db.blocks :: Blk(db.blocks[b].pre, db.blocks[b].height, db.blocks[b].proposer, TxsOf(db, b))
  }

  lemma ViewShape(db: Tables)
    requires BodiesStored(db)
    ensures Nodes(ViewOf(db)) == ShapeOf(db.blocks) && ViewOf(db).Keys == db.blocks.Keys
  {
  }

  lemma {:induction false} SameBodies(db: Tables, r: Tables, block: Block, staged: map<Hash, TxRecord>, inTrunk: bool,
        b: Hash)
    requires Extends(db, r, block, staged, inTrunk) && SafeRows(db, staged) && TxidsIdentify(db, block.txs)
    requires BodiesStored(db) && BodiesStored(r) && block.id !in db.blocks && b in r.blocks
    ensures TxsOf(r, b) == if b == block.id then block.txs else TxsOf(db, b)
  {
    forall i | 0 <= i < |r.blocks[b].txids|
      ensures TxsOf(r, b)[i] == (if b == block.id then block.txs else TxsOf(db, b))[i]
    {
      RowKept(db, r, block, staged, inTrunk, r.blocks[b].txids[i]);
    }
  }

  lemma {:induction false} GrownByConfirm(db: Tables, block: Block)
    requires Inv(db) && CanPlace(db, block, false) && Fresh(db, block)
    ensures ShapeOf(AfterConfirm(db, block, false).blocks) == Grown(ShapeOf(db.blocks), block.pre, block.id)
  {
    if JoinsTrunk(db, block) {
      TrunkShape(db, block, SplitHeight(db, block.pre));
    } else {
      SideShape(db, block);
    }
  }

  lemma {:induction false} GrownKeeps(t: Shape, pre: Hash, id: Hash)
    requires pre in t && id !in t
    ensures
      var u := Grown(t, pre, id);
      id in u && u[id].pre == pre && forall b :: b in t ==> b in u && u[b] == t[b]
  {
  }

  /** The tree after a confirm is the tree before with the new block added. */
  lemma {:induction false} ConfirmShape(db: Tables, block: Block, isRoot: bool)
    requires Inv(db) && CanPlace(db, block, isRoot) && Fresh(db, block)
    ensures
      var t, u := ShapeOf(db.blocks), ShapeOf(AfterConfirm(db, block, isRoot).blocks);
      && block.id in u && u[block.id].pre == block.pre
      && forall b :: b in t ==> b in u && u[b] == t[b]
  {
    if isRoot {
      assert ShapeOf(db.blocks) == map[];
    } else {
      GrownByConfirm(db, block);
      GrownKeeps(ShapeOf(db.blocks), block.pre, block.id);
    }
  }

  /** Confirming a block, trunk switch or not, only adds that block to what the state machine sees. */
  lemma {:induction false} ConfirmExtendsView(db: Tables, block: Block, isRoot: bool)
    requires Inv(db) && CanPlace(db, block, isRoot) && Fresh(db, block) && TxidsIdentify(db, block.txs)
    ensures
      var r := AfterConfirm(db, block, isRoot);
      && BodiesStored(db) && BodiesStored(r) && block.id in r.blocks && Forest(Nodes(ViewOf(r)))
      && ViewOf(r) == ViewOf(db)[block.id := Blk(block.pre, r.blocks[block.id].height, block.proposer, block.txs)]
  {
    var r := AfterConfirm(db, block, isRoot);
    var staged, inTrunk := Repointed(db, block, isRoot), EntersTrunk(db, block, isRoot);
    ConfirmKeepsInv(db, block, isRoot);
    ConfirmExtends(db, block, isRoot);
    ConfirmShape(db, block, isRoot);
    RepointedSafe(db, block, isRoot);
    ViewShape(r);
    ViewGrows(db, r, block, staged, inTrunk);
  }

  lemma {:induction false} ViewGrows(db: Tables, r: Tables, block: Block, staged: map<Hash, TxRecord>, inTrunk: bool)
    requires Extends(db, r, block, staged, inTrunk) && SafeRows(db, staged) && TxidsIdentify(db, block.txs)
    requires BodiesStored(db) && BodiesStored(r) && block.id !in db.blocks && r.blocks[block.id].pre == block.pre
    requires forall b :: b in ShapeOf(db.blocks) ==>
            b in ShapeOf(r.blocks) && ShapeOf(r.blocks)[b] == ShapeOf(db.blocks)[b]
    ensures ViewOf(r) == ViewOf(db)[block.id := Blk(block.pre, r.blocks[block.id].height, block.proposer, block.txs)]
  {
    forall b | b in r.blocks
      ensures ViewOf(r)[b] ==
              ViewOf(db)[block.id := Blk(block.pre, r.blocks[block.id].height, block.proposer, block.txs)][b]
    {
      SameBodies(db, r, block, staged, inTrunk, b);
      if b != block.id {
        assert ShapeOf(r.blocks)[b] == ShapeOf(db.blocks)[b];
      }
    }
  }

  /** Confirming a block is a step of every run, whatever the state machine is doing. */
  lemma {:induction false} ConfirmIsStep(db: Tables, block: Block, isRoot: bool, m: Machine)
    requires Inv(db) && CanPlace(db, block, isRoot) && Fresh(db, block) && TxidsIdentify(db, block.txs)
    ensures
      var r := AfterConfirm(db, block, isRoot);
      && BodiesStored(db) && BodiesStored(r)
      && Enabled(World(ViewOf(db), m), Extended(ViewOf(r)))
      && After(World(ViewOf(db), m), Extended(ViewOf(r))) == World(ViewOf(r), m)
  {
    ConfirmExtendsView(db, block, isRoot);
    var v, u := ViewOf(db), ViewOf(AfterConfirm(db, block, isRoot));
    assert block.id !in v;
  }
}
