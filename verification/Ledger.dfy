/** The ledger: block confirmation with trunk switches, walks between blocks, and truncation. */
module Ledger {
  import opened Tree
  import opened Transactions
  import opened LedgerSpec
  import opened LedgerRecords
  import opened LedgerPrune
  import opened TreeWalk
  import opened Accesses

  datatype ConfirmError = NoError | RootBlockAlreadyExist | TxDuplicated | GenesisUnreadable

  datatype ConfirmStatus = ConfirmStatus(succ: bool, split: bool, orphan: bool, trunkSwitch: bool, error: ConfirmError)

  function CoinbaseCount(txs: seq<Tx>): nat {
    if txs == [] then 0 else CoinbaseCount(txs[..|txs| - 1]) + (if txs[|txs| - 1].coinbase then 1 else 0)
  }

  lemma {:induction false} CoinbaseMonotone(txs: seq<Tx>, i: nat)
    requires i <= |txs|
    ensures CoinbaseCount(txs[..i]) <= CoinbaseCount(txs)
    decreases |txs| - i
  {
    if i == |txs| {
      assert txs[..i] == txs;
    } else {
      assert txs[..i + 1][..i] == txs[..i];
      CoinbaseMonotone(txs, i + 1);
    }
  }

  /** The height up to which trunk blocks are compared with the new block's transactions. */
  ghost function CompareUpTo(db: Tables, block: Block, isRoot: bool): nat
    requires Inv(db) && CanPlace(db, block, isRoot)
  {
    if !isRoot && JoinsTrunk(db, block) then SplitHeight(db, block.pre) else db.meta.trunkHeight
  }

  ghost predicate Accepts(db: Tables, block: Block, isRoot: bool)
    requires Inv(db)
  {
    && CanPlace(db, block, isRoot)
    && CoinbaseCount(block.txs) <= 1
    && !Duplicated(db, block.txs, EntersTrunk(db, block, isRoot), CompareUpTo(db, block, isRoot))
  }

  /** A duplicated transaction comes before a second coinbase, and so is what the confirm reports. */
  ghost predicate DuplicateFirst(db: Tables, txs: seq<Tx>, inTrunk: bool, upTo: nat) {
    exists i :: 0 <= i < |txs| && FoundDuplicated(db, txs, inTrunk, upTo, i)
  }

  ghost predicate FoundDuplicated(db: Tables, txs: seq<Tx>, inTrunk: bool, upTo: nat, i: nat)
    requires i < |txs|
  {
    DuplicatedTx(db, txs[i].txid, inTrunk, upTo) && CoinbaseCount(txs[..i + 1]) <= 1
  }

  lemma {:induction false} SecondCoinbaseFirst(db: Tables, txs: seq<Tx>, inTrunk: bool, upTo: nat, n: nat)
    requires n < |txs| && CoinbaseCount(txs[..n + 1]) > 1
    requires forall j :: 0 <= j < n ==> !DuplicatedTx(db, txs[j].txid, inTrunk, upTo)
    ensures !DuplicateFirst(db, txs, inTrunk, upTo)
  {
    forall i | n <= i < |txs| ensures !FoundDuplicated(db, txs, inTrunk, upTo, i) {
      assert txs[..i + 1][..n + 1] == txs[..n + 1];
      CoinbaseMonotone(txs[..i + 1], n + 1);
    }
  }

  /** Why a confirm fails, where it says so. */
  ghost predicate ErrorFits(db: Tables, block: Block, isRoot: bool, genesisLoads: bool, error: ConfirmError)
    requires Inv(db)
  {
    && (error == RootBlockAlreadyExist <==> isRoot && block.pre == Empty && db.meta.root != Empty)
    && (error == TxDuplicated <==>
          && CanPlace(db, block, isRoot)
          && DuplicateFirst(db, block.txs, EntersTrunk(db, block, isRoot), CompareUpTo(db, block, isRoot)))
    && (error == GenesisUnreadable <==>
          Accepts(db, block, isRoot) && isRoot && !(genesisLoads && CoinbaseCount(block.txs) > 0))
  }

  /** The flags a confirm reports. */
  ghost predicate FlagsFit(db: Tables, block: Block, isRoot: bool, status: ConfirmStatus)
    requires CanPlace(db, block, isRoot)
  {
    var split := !isRoot && block.pre != db.meta.tip;
    && status.split == split
    && status.orphan == (split && !JoinsTrunk(db, block))
    && status.trunkSwitch == (split && JoinsTrunk(db, block))
  }

  /** Save a header in the batch; a trunk block also goes into the height index. */
  function SaveBlock(batch: Tables, id: Hash, hd: Header): Tables {
    batch.(blocks := batch.blocks[id := hd],
           heights := if hd.inTrunk then batch.heights[hd.height := id] else batch.heights)
  }

  // ----- Loop steps of the fork walk

  lemma UpdatedTwice(was: map<Hash, Header>, now: map<Hash, Header>, p: Hash, v: Header, q: Hash, w: Header)
    requires now.Keys == was.Keys && p in was && q in was
    requires forall k :: k in now ==> now[k] == if k == q then w else if k == p then v else was[k]
    ensures was[p := v][q := w] == now
  {
  }

  lemma UpdatedOnce(was: map<Hash, Header>, now: map<Hash, Header>, q: Hash, w: Header)
    requires now.Keys == was.Keys && q in was
    requires forall k :: k in now ==> now[k] == if k == q then w else was[k]
    ensures was[q := w] == now
  {
  }

  lemma {:induction false} RelinkStepAt(t: Shape, hd: Header, tip: Hash, pre: Hash, next: Hash, f: nat, h: nat,
        below: nat, mark: nat, b: Hash)
    requires Forest(t) && tip in t && pre in t && b in t && t[tip].height == t[pre].height
    requires IsFork(t, tip, pre, f) && f < h <= t[pre].height && below + 1 == h && mark == h + 1
    ensures RelinkOne(t, hd, tip, pre, next, below, h, b) ==
            if b == Anc(t, pre, h) then Joined(hd, if h == t[pre].height then next else Anc(t, pre, mark))
            else if b == Anc(t, tip, h) then Cleared(hd)
            else RelinkOne(t, hd, tip, pre, next, h, mark, b)
  {
  }

  lemma RelinkStep(blocks: map<Hash, Header>, tip: Hash, pre: Hash, next: Hash, f: nat, h: nat, below: nat, mark: nat,
        p: Hash, q: Hash, link: Hash)
    requires Forest(ShapeOf(blocks)) && tip in blocks && pre in blocks && blocks[tip].height == blocks[pre].height
    requires IsFork(ShapeOf(blocks), tip, pre, f) && f < h <= blocks[pre].height && below + 1 == h && mark == h + 1
    requires p == Anc(ShapeOf(blocks), tip, h) && q == Anc(ShapeOf(blocks), pre, h)
    requires link == if h == blocks[pre].height then next else Anc(ShapeOf(blocks), pre, mark)
    ensures Relink(blocks, tip, pre, next, h, mark)[p := Cleared(blocks[p])][q := Joined(blocks[q], link)]
         == Relink(blocks, tip, pre, next, below, h)
  {
    var was, now := Relink(blocks, tip, pre, next, h, mark), Relink(blocks, tip, pre, next, below, h);
    var v, w := Cleared(blocks[p]), Joined(blocks[q], link);
    forall b | b in now ensures now[b] == if b == q then w else if b == p then v else was[b] {
      RelinkStepAt(ShapeOf(blocks), blocks[b], tip, pre, next, f, h, below, mark, b);
    }
    UpdatedTwice(was, now, p, v, q, w);
  }

  lemma {:induction false} RelinkLastAt(t: Shape, hd: Header, tip: Hash, pre: Hash, next: Hash, f: nat, mark: nat,
        b: Hash)
    requires Forest(t) && tip in t && pre in t && b in t && f <= t[pre].height && mark == f + 1
    ensures RelinkOne(t, hd, tip, pre, next, f, f, b) ==
            if b == Anc(t, pre, f) then Joined(hd, if f == t[pre].height then next else Anc(t, pre, mark))
            else RelinkOne(t, hd, tip, pre, next, f, mark, b)
  {
  }

  lemma RelinkLast(blocks: map<Hash, Header>, tip: Hash, pre: Hash, next: Hash, f: nat, mark: nat, q: Hash, link: Hash)
    requires Forest(ShapeOf(blocks)) && tip in blocks && pre in blocks
    requires f <= blocks[pre].height && mark == f + 1
    requires q == Anc(ShapeOf(blocks), pre, f)
    requires link == if f == blocks[pre].height then next else Anc(ShapeOf(blocks), pre, mark)
    ensures Relink(blocks, tip, pre, next, f, mark)[q := Joined(blocks[q], link)]
         == Relink(blocks, tip, pre, next, f, f)
  {
    var was, now := Relink(blocks, tip, pre, next, f, mark), Relink(blocks, tip, pre, next, f, f);
    var w := Joined(blocks[q], link);
    forall b | b in now ensures now[b] == if b == q then w else was[b] {
      RelinkLastAt(ShapeOf(blocks), blocks[b], tip, pre, next, f, mark, b);
    }
    UpdatedOnce(was, now, q, w);
  }

  lemma {:induction false} ReindexStep(t: Shape, heights: map<nat, Hash>, tip: Hash, pre: Hash, h: nat, mark: nat)
    requires Forest(t) && tip in t && pre in t && heights == TrunkIndex(t, tip)
    requires h <= t[pre].height == t[tip].height && mark == h + 1
    ensures Reindex(t, heights, pre, mark)[h := Anc(t, pre, h)] == Reindex(t, heights, pre, h)
  {
  }

  lemma NothingToRelink(blocks: map<Hash, Header>, heights: map<nat, Hash>, tip: Hash, pre: Hash, next: Hash, mark: nat)
    requires Forest(ShapeOf(blocks)) && tip in blocks && pre in blocks && blocks[tip].height == blocks[pre].height
    requires mark == blocks[pre].height + 1
    ensures Relink(blocks, tip, pre, next, blocks[pre].height, mark) == blocks
    ensures Reindex(ShapeOf(blocks), heights, pre, mark) == heights
  {
  }

  /** A block that switches the trunk hangs below a block as high as the tip. */
  ghost predicate SwitchBelow(db: Tables, pre: Hash) {
    TrunkInv(db) && BodiesStored(db) && pre in db.blocks && db.blocks[pre].height == db.meta.trunkHeight
  }

  /** The batch once the lockstep walk has come down to height h: the branches are relinked above h. */
  ghost predicate WalkedDownTo(db: Tables, pre: Hash, id: Hash, h: nat, mark: nat, p: Hash, q: Hash, next: Hash,
        staged: Tables) {
    && SwitchBelow(db, pre)
    && h <= db.meta.trunkHeight && mark == h + 1
    && var t := ShapeOf(db.blocks);
    && p == Anc(t, db.meta.tip, h) && q == Anc(t, pre, h)
    && next == (if h == db.meta.trunkHeight then id else Anc(t, pre, mark))
    && staged.blocks == Relink(db.blocks, db.meta.tip, pre, id, h, mark)
    && staged.heights == Reindex(t, db.heights, pre, mark)
    && staged.confirmed == RepointPath(db, pre, h)
    && staged.branches == db.branches && staged.meta == db.meta
  }

  /** The batch at the end of the walk, when the branches have met at height f. */
  ghost predicate WalkedToFork(db: Tables, pre: Hash, id: Hash, f: nat, split: Hash, staged: Tables) {
    && SwitchBelow(db, pre)
    && var t := ShapeOf(db.blocks);
    && IsFork(t, db.meta.tip, pre, f) && split == Anc(t, pre, f)
    && staged.blocks == Relink(db.blocks, db.meta.tip, pre, id, f, f)
    && staged.heights == Reindex(t, db.heights, pre, f)
    && staged.confirmed == RepointPath(db, pre, f)
    && staged.branches == db.branches && staged.meta == db.meta
  }

  lemma WalkStepBlocks(db: Tables, pre: Hash, id: Hash, f: nat, h: nat, below: nat, mark: nat, p: Hash, q: Hash,
        next: Hash, staged: Tables)
    requires WalkedDownTo(db, pre, id, h, mark, p, q, next, staged) && f < h && below + 1 == h
    requires IsFork(ShapeOf(db.blocks), db.meta.tip, pre, f)
    ensures staged.blocks[p := Cleared(db.blocks[p])][q := Joined(db.blocks[q], next)] ==
            Relink(db.blocks, db.meta.tip, pre, id, below, h)
  {
    RelinkStep(db.blocks, db.meta.tip, pre, id, f, h, below, mark, p, q, next);
  }

  lemma WalkStepHeights(db: Tables, pre: Hash, id: Hash, h: nat, mark: nat, p: Hash, q: Hash, next: Hash,
        staged: Tables)
    requires WalkedDownTo(db, pre, id, h, mark, p, q, next, staged)
    ensures staged.heights[h := q] == Reindex(ShapeOf(db.blocks), db.heights, pre, h)
  {
    ReindexStep(ShapeOf(db.blocks), db.heights, db.meta.tip, pre, h, mark);
  }

  lemma {:induction false} WalkStepLinks(t: Shape, tip: Hash, pre: Hash, h: nat, below: nat)
    requires Forest(t) && tip in t && pre in t && below + 1 == h <= t[tip].height && h <= t[pre].height
    ensures t[Anc(t, tip, h)].pre == Anc(t, tip, below) && t[Anc(t, pre, h)].pre == Anc(t, pre, below)
    ensures t[Anc(t, pre, h)].height == h
  {
    AncStep(t, tip, below);
    AncStep(t, pre, below);
  }

  lemma {:induction false} WalkStep(db: Tables, pre: Hash, id: Hash, f: nat, h: nat, below: nat, mark: nat, p: Hash,
        q: Hash, next: Hash, staged: Tables, r: Tables)
    requires WalkedDownTo(db, pre, id, h, mark, p, q, next, staged) && f < h && below + 1 == h
    requires IsFork(ShapeOf(db.blocks), db.meta.tip, pre, f) && p in db.blocks && q in db.blocks
    requires r.blocks == staged.blocks[p := Cleared(db.blocks[p])][q := Joined(db.blocks[q], next)]
    requires r.heights == staged.heights[db.blocks[q].height := q]
    requires r.confirmed == RepointBlock(db.confirmed, staged.confirmed, q, db.blocks[q].txids)
    requires r.branches == staged.branches && r.meta == staged.meta
    ensures WalkedDownTo(db, pre, id, below, h, db.blocks[p].pre, db.blocks[q].pre, q, r)
  {
    WalkStepBlocks(db, pre, id, f, h, below, mark, p, q, next, staged);
    WalkStepHeights(db, pre, id, h, mark, p, q, next, staged);
    WalkStepLinks(ShapeOf(db.blocks), db.meta.tip, pre, h, below);
    RepointPathStep(db, pre, below, h);
  }

  lemma WalkEnd(db: Tables, pre: Hash, id: Hash, f: nat, mark: nat, q: Hash, next: Hash, staged: Tables)
    requires WalkedDownTo(db, pre, id, f, mark, q, q, next, staged)
    requires IsFork(ShapeOf(db.blocks), db.meta.tip, pre, f)
    ensures WalkedToFork(db, pre, id, f, q, SaveBlock(staged, q, Joined(db.blocks[q], next)))
  {
    RelinkLast(db.blocks, db.meta.tip, pre, id, f, mark, q, next);
    ReindexStep(ShapeOf(db.blocks), db.heights, db.meta.tip, pre, f, mark);
  }

  lemma WalkStart(db: Tables, pre: Hash, id: Hash, h: nat, mark: nat)
    requires SwitchBelow(db, pre) && h == db.meta.trunkHeight && mark == h + 1
    ensures WalkedDownTo(db, pre, id, h, mark, db.meta.tip, pre, id, db)
  {
    NothingToRelink(db.blocks, db.heights, db.meta.tip, pre, id, mark);
  }

  /** The branches have met at height h exactly when h is down to the fork. */
  lemma WalkMeets(db: Tables, pre: Hash, id: Hash, f: nat, h: nat, mark: nat, p: Hash, q: Hash, next: Hash,
        staged: Tables)
    requires WalkedDownTo(db, pre, id, h, mark, p, q, next, staged) && f <= h
    requires IsFork(ShapeOf(db.blocks), db.meta.tip, pre, f)
    ensures p == q <==> h == f
    ensures p in db.blocks && q in db.blocks
  {
    ForkSplits(ShapeOf(db.blocks), db.meta.tip, pre, f, h);
  }

  // ----- The headers touched on the way

  lemma {:induction false} WalkLevel(db: Tables, pre: Hash)
    requires SwitchBelow(db, pre)
    ensures Level(db.blocks, db.meta.tip, pre, db.meta.trunkHeight)
  {
  }

  /** Where the walk has come down to height h, its next turn is the one at h. */
  lemma {:induction false} WalkTraced(blocks: Headers, tip: Hash, pre: Hash, id: Hash, h: nat, mark: nat, p: Hash,
        q: Hash, next: Hash, top: nat)
    requires Level(blocks, tip, pre, top) && h <= top && mark == h + 1
    requires p == Anc(ShapeOf(blocks), tip, h) && q == Anc(ShapeOf(blocks), pre, h)
    requires next == if h == top then id else Anc(ShapeOf(blocks), pre, mark)
    ensures p == At(blocks, tip, h) && q == At(blocks, pre, h) && next == LinkAt(blocks, tip, pre, id, top, h)
  {
  }

  /** The batch and the accesses of a truncate once the chains below the first i tips are removed. */
  ghost predicate CutTo(db: Tables, target: Hash, tips: seq<Hash>, i: nat, batch: Tables, trace: seq<Access>) {
    && Forest(ShapeOf(db.blocks)) && target in db.blocks && i <= |tips|
    && (forall k :: 0 <= k < |tips| ==> tips[k] in db.blocks)
    && TruncatedBelow(db, target, db.blocks[target].height, Elements(tips[..i]), batch)
    && trace == CutAccesses(db.blocks, target, tips[..i])
  }

  lemma {:induction false} CutToStart(db: Tables, target: Hash, tips: seq<Hash>)
    requires Forest(ShapeOf(db.blocks)) && target in db.blocks
    requires forall k :: 0 <= k < |tips| ==> tips[k] in db.blocks
    ensures CutTo(db, target, tips, 0, db, [Fetch(target)])
  {
    assert Elements(tips[..0]) == {};
    TruncateStart(db, target, db.blocks[target].height);
  }

  lemma {:induction false} CutToStep(db: Tables, target: Hash, tips: seq<Hash>, i: nat, batch: Tables,
        trace: seq<Access>, r: Tables, height: nat)
    requires CutTo(db, target, tips, i, batch, trace) && i < |tips| && tips[i] != target
    requires height == db.blocks[target].height
    requires r == WithoutBlocks(db, batch, CutBy(ShapeOf(db.blocks), {tips[i]}, height))
    ensures CutTo(db, target, tips, i + 1, r.(branches := (r.branches - {tips[i]})[target := height]),
                  trace + RemovalAccesses(db.blocks, tips[i], target))
  {
    TruncateStep(db, target, height, Elements(tips[..i]), tips[i], batch);
    Accesses.CutMore(db.blocks, target, tips, i);
    assert tips[..i + 1] == tips[..i] + [tips[i]];
    assert Elements(tips[..i + 1]) == Elements(tips[..i]) + {tips[i]};
  }

  lemma {:induction false} CutToEnd(db: Tables, target: Hash, tips: seq<Hash>, batch: Tables, trace: seq<Access>)
    requires CutTo(db, target, tips, |tips|, batch, trace) && TipsKnown(db)
    requires forall b :: b in tips <==> b in db.branches && b != target && db.branches[b] > db.blocks[target].height
    ensures batch.(meta := Meta(db.meta.root, target, db.blocks[target].height)) == CutBack(db, target)
    ensures trace == CutAccesses(db.blocks, target, tips)
    ensures forall b :: b in tips <==> b in TipsAbove(db.branches, db.blocks[target].height)
  {
    assert tips[..|tips|] == tips;
    TruncateEnd(db, target, db.blocks[target].height, Elements(tips), batch);
  }

  // ----- Putting a confirm together

  /** What the confirm of a block has staged before it saves the block itself. */
  ghost predicate Prepared(db: Tables, block: Block, isRoot: bool, height: nat, inTrunk: bool, splitHeight: nat,
        batch: Tables, newMeta: Meta) {
    && Inv(db) && CanPlace(db, block, isRoot)
    && inTrunk == EntersTrunk(db, block, isRoot) && splitHeight == CompareUpTo(db, block, isRoot)
    && height == (if isRoot then 0 else HeightOn(db, block.pre))
    && batch.branches == db.branches
    && batch.confirmed == Repointed(db, block, isRoot)
    && batch.blocks == (if !isRoot && inTrunk then
                          Relink(db.blocks, db.meta.tip, block.pre, block.id, splitHeight, splitHeight)
                        else db.blocks)
    && batch.heights == (if !isRoot && inTrunk then
                           Reindex(ShapeOf(db.blocks), db.heights, block.pre, splitHeight)
                         else db.heights)
    && newMeta == (if isRoot then Meta(block.id, block.id, 0)
                   else if inTrunk then Meta(db.meta.root, block.id, height) else db.meta)
  }

  lemma PreparedRoot(db: Tables, block: Block)
    requires Inv(db) && CanPlace(db, block, true)
    ensures Prepared(db, block, true, 0, true, db.meta.trunkHeight, db, Meta(block.id, block.id, 0))
  {
  }

  lemma PreparedSide(db: Tables, block: Block, height: nat)
    requires Inv(db) && CanPlace(db, block, false) && !JoinsTrunk(db, block) && height == HeightOn(db, block.pre)
    ensures Prepared(db, block, false, height, false, db.meta.trunkHeight, db, db.meta)
  {
  }

  /** Extending the tip only links the tip forward. */
  lemma PreparedExtend(db: Tables, block: Block, height: nat, batch: Tables)
    requires Inv(db) && CanPlace(db, block, false) && block.pre == db.meta.tip && height == HeightOn(db, block.pre)
    requires batch == SaveBlock(db, block.pre, db.blocks[block.pre].(next := block.id))
    ensures Prepared(db, block, false, height, true, db.meta.trunkHeight, batch, Meta(db.meta.root, block.id, height))
  {
    var t, tip, n := ShapeOf(db.blocks), db.meta.tip, db.meta.trunkHeight;
    assert Marked(t, tip, tip, db.blocks[tip]);
    ForkUnique(t, tip, tip, n, SplitHeight(db, tip));
    var mark := n + 1;
    NothingToRelink(db.blocks, db.heights, tip, tip, block.id, mark);
    RelinkLast(db.blocks, tip, tip, block.id, n, mark, tip, block.id);
    ReindexStep(t, db.heights, tip, tip, n, mark);
  }

  lemma PreparedSwitch(db: Tables, block: Block, height: nat, f: nat, split: Hash, batch: Tables)
    requires CanPlace(db, block, false) && block.pre != db.meta.tip && height == HeightOn(db, block.pre)
    requires WalkedToFork(db, block.pre, block.id, f, split, batch)
    ensures Prepared(db, block, false, height, true, f, batch, Meta(db.meta.root, block.id, height))
  {
    ForkUnique(ShapeOf(db.blocks), db.meta.tip, block.pre, f, SplitHeight(db, block.pre));
  }

  /** Saving the block, moving the branch tip and recording the transactions completes the confirm. */
  lemma ConfirmCompleted(db: Tables, block: Block, isRoot: bool, height: nat, inTrunk: bool, splitHeight: nat,
        batch: Tables, newMeta: Meta, r: Tables)
    requires Prepared(db, block, isRoot, height, inTrunk, splitHeight, batch, newMeta)
    requires r.blocks == batch.blocks[block.id := HeaderOf(block, height, inTrunk)]
    requires r.heights == if inTrunk then batch.heights[height := block.id] else batch.heights
    requires r.branches == (batch.branches - {block.pre})[block.id := height]
    requires r.confirmed == RecordTxs(db, batch.confirmed, block.id, inTrunk, block.txs)
    requires r.meta == newMeta
    ensures r == AfterConfirm(db, block, isRoot)
  {
  }

  class Ledger {
    var db: Tables

    constructor ()
      ensures EmptyLedger(db)
    {
      db := Tables(map[], map[], map[], map[], Meta(Empty, Empty, 0));
    }

    /** Point the transactions of a stored block at it, in the batch. */
    method CorrectTxsBlockid(q: Hash, batch: Tables) returns (ok: bool, staged: Tables)
      requires BodiesStored(db)
      ensures ok <==> q in db.blocks
      ensures ok ==> staged == batch.(confirmed := RepointBlock(db.confirmed, batch.confirmed, q, db.blocks[q].txids))
      ensures !ok ==> staged == batch
    {
      ok, staged := q in db.blocks, batch;
      if !ok { return; }
      var ids := db.blocks[q].txids;
      for i := 0 to |ids|
        invariant staged == batch.(confirmed := RepointBlock(db.confirmed, batch.confirmed, q, ids[..i]))
      {
        assert ids[..i + 1][..i] == ids[..i];
        if db.confirmed[ids[i]].block != q {
          staged := staged.(confirmed := staged.confirmed[ids[i] := db.confirmed[ids[i]].(block := q)]);
        }
      }
      assert ids[..|ids|] == ids;
    }

    /** Walk the old and the new branch down in lockstep until they meet. The walk stops exactly at the lowest common
        ancestor, clears exactly the old branch above it, flags and links exactly the new branch, and touches
        no other block. */
    method HandleFork(oldTip: Hash, newTipPre: Hash, nextHash: Hash, batch: Tables)
      returns (ok: bool, split: Hash, staged: Tables, ghost trace: seq<Access>)
      requires SwitchBelow(db, newTipPre) && oldTip == db.meta.tip && batch == db
      ensures ok && split in db.blocks && WalkedToFork(db, newTipPre, nextHash, db.blocks[split].height, split, staged)
      ensures trace ==
              SwitchAccesses(db.blocks, oldTip, newTipPre, nextHash, db.meta.trunkHeight, db.blocks[split].height)
    {
      ghost var f := SplitHeight(db, newTipPre);
      ghost var h: nat, mark: nat := db.meta.trunkHeight, db.meta.trunkHeight + 1;
      var p, q, next := oldTip, newTipPre, nextHash;
      staged, trace := batch, [];
      ghost var top := db.meta.trunkHeight;
      WalkStart(db, newTipPre, nextHash, h, mark);
      WalkLevel(db, newTipPre);
      while p != q
        invariant f <= h && WalkedDownTo(db, newTipPre, nextHash, h, mark, p, q, next, staged)
        invariant trace == Turns(db.blocks, oldTip, newTipPre, nextHash, top, h)
        decreases h
      {
        WalkMeets(db, newTipPre, nextHash, f, h, mark, p, q, next, staged);
        if p !in db.blocks || q !in db.blocks { return false, q, staged, trace; }
        ghost var before, below := staged, h - 1;
        WalkTraced(db.blocks, oldTip, newTipPre, nextHash, h, mark, p, q, next, top);
        TurnsMore(db.blocks, oldTip, newTipPre, nextHash, top, h, below, p, q, next);
        ok, staged := CorrectTxsBlockid(q, staged);
        if !ok { return false, q, staged, trace; }
        var pBlock, qBlock := Cleared(db.blocks[p]), Joined(db.blocks[q], next);
        staged := SaveBlock(SaveBlock(staged, p, pBlock), q, qBlock);
        trace := trace + Turn(p, q, pBlock, qBlock);
        WalkStep(db, newTipPre, nextHash, f, h, below, mark, p, q, next, before, staged);
        next, p, q := q, pBlock.pre, qBlock.pre;
        h, mark := below, h;
      }
      WalkMeets(db, newTipPre, nextHash, f, h, mark, p, q, next, staged);
      if q !in db.blocks { return false, q, staged, trace; }
      WalkTraced(db.blocks, oldTip, newTipPre, nextHash, h, mark, p, q, next, top);
      WalkEnd(db, newTipPre, nextHash, f, mark, q, next, staged);
      trace := trace + [Fetch(q), Save(q, Joined(db.blocks[q], next))];
      staged := SaveBlock(staged, q, Joined(db.blocks[q], next));
      ok, split := true, q;
    }

    /** Record the transactions of a block in the batch, unless it has a second coinbase or repeats a trunk
        transaction. */
    method RecordBlockTxs(block: Block, inTrunk: bool, splitHeight: nat, batch: Tables) returns (err: ConfirmError,
          ok: bool, staged: Tables)
      ensures ok <==> CoinbaseCount(block.txs) <= 1 && !Duplicated(db, block.txs, inTrunk, splitHeight)
      ensures ok ==> staged == batch.(confirmed := RecordTxs(db, batch.confirmed, block.id, inTrunk, block.txs))
      ensures err == if DuplicateFirst(db, block.txs, inTrunk, splitHeight) then TxDuplicated else NoError
    {
      err, staged := NoError, batch;
      var txs, confirmed := block.txs, batch.confirmed;
      var cbNum := 0;
      for i := 0 to |txs|
        invariant err == NoError && cbNum == CoinbaseCount(txs[..i]) && cbNum <= 1
        invariant forall j :: 0 <= j < i ==> !DuplicatedTx(db, txs[j].txid, inTrunk, splitHeight)
        invariant confirmed == RecordTxs(db, batch.confirmed, block.id, inTrunk, txs[..i])
      {
        var tx := txs[i];
        assert txs[..i + 1][..i] == txs[..i];
        if tx.coinbase { cbNum := cbNum + 1; }
        if cbNum > 1 {
          CoinbaseMonotone(txs, i + 1);
          SecondCoinbaseFirst(db, txs, inTrunk, splitHeight, i);
          return NoError, false, batch;
        }
        if tx.txid !in db.confirmed {
          confirmed := confirmed[tx.txid := TxRecord(tx, block.id)];
        } else {
          var oldTx := db.confirmed[tx.txid];
          if oldTx.block !in db.blocks {
            confirmed := confirmed[tx.txid := TxRecord(tx, block.id)];
          } else {
            var oldBlock := db.blocks[oldTx.block];
            if oldBlock.inTrunk && inTrunk && oldBlock.height <= splitHeight {
              assert FoundDuplicated(db, txs, inTrunk, splitHeight, i);
              return TxDuplicated, false, batch;
            } else if inTrunk {
              confirmed := confirmed[tx.txid := TxRecord(tx, block.id)];
            }
          }
        }
      }
      assert txs[..|txs|] == txs;
      ok, staged := true, batch.(confirmed := confirmed);
    }

    /** Decide where a block goes and stage what that changes in other blocks. */
    method PlaceBlock(block: Block, isRoot: bool)
      returns (placed: bool, status: ConfirmStatus, height: nat, inTrunk: bool, splitHeight: nat, batch: Tables,
               newMeta: Meta, ghost trace: seq<Access>)
      requires Inv(db)
      ensures placed <==> CanPlace(db, block, isRoot)
      ensures placed ==> Prepared(db, block, isRoot, height, inTrunk, splitHeight, batch, newMeta)
      ensures placed ==> FlagsFit(db, block, isRoot, status)
      ensures placed ==> trace == if isRoot then [] else [Fetch(block.pre)] + Relinking(db, block)
      ensures !status.succ
      ensures status.error ==
              if isRoot && block.pre == Empty && db.meta.root != Empty then RootBlockAlreadyExist else NoError
    {
      placed, status := false, ConfirmStatus(false, false, false, false, NoError);
      batch, newMeta, splitHeight, height, inTrunk, trace := db, db.meta, db.meta.trunkHeight, 0, true, [];
      if isRoot {
        if block.pre != Empty { return; }
        if db.meta.root != Empty { status := status.(error := RootBlockAlreadyExist); return; }
        newMeta := Meta(block.id, block.id, 0);
        PreparedRoot(db, block);
      } else {
        if block.pre !in db.blocks { return; }
        var preBlock := db.blocks[block.pre];
        trace := [Fetch(block.pre)];
        height := preBlock.height + 1;
        if block.pre == newMeta.tip {
          batch := SaveBlock(batch, block.pre, preBlock.(next := block.id));
          trace := trace + [Save(block.pre, preBlock.(next := block.id))];
          newMeta := newMeta.(tip := block.id, trunkHeight := newMeta.trunkHeight + 1);
          PreparedExtend(db, block, height, batch);
        } else if preBlock.height + 1 > newMeta.trunkHeight {
          var oldTip := newMeta.tip;
          newMeta := newMeta.(trunkHeight := preBlock.height + 1, tip := block.id);
          var ok, splitBlock;
          ghost var turns;
          ok, splitBlock, batch, turns := HandleFork(oldTip, block.pre, block.id, batch);
          if !ok { return; }
          splitHeight := db.blocks[splitBlock].height;
          trace := trace + turns;
          status := status.(split := true, trunkSwitch := true);
          PreparedSwitch(db, block, height, splitHeight, splitBlock, batch);
        } else {
          inTrunk := false;
          status := status.(split := true, orphan := true);
          PreparedSide(db, block, height);
        }
      }
      placed := true;
    }

    /** Confirm a block: genesis, extension of the tip, side branch, or trunk switch. The tables change exactly as
        AfterConfirm says when the block is accepted, and not at all otherwise. */
    method ConfirmBlock(block: Block, isRoot: bool, genesisLoads: bool)
      returns (status: ConfirmStatus, ghost trace: seq<Access>)
      requires Inv(db) && Fresh(db, block) && TxidsIdentify(db, block.txs)
      modifies this
      ensures Inv(db)
      ensures db == if Accepts(old(db), block, isRoot) then AfterConfirm(old(db), block, isRoot) else old(db)
      ensures status.succ <==>
              Accepts(old(db), block, isRoot) && (isRoot ==> genesisLoads && CoinbaseCount(block.txs) > 0)
      ensures status.succ ==> FlagsFit(old(db), block, isRoot, status)
      ensures ErrorFits(old(db), block, isRoot, genesisLoads, status.error)
      ensures old(CanPlace(db, block, isRoot)) ==> trace == ConfirmAccesses(old(db), block, isRoot)
    {
      var placed, height, inTrunk, splitHeight, batch, newMeta;
      placed, status, height, inTrunk, splitHeight, batch, newMeta, trace := PlaceBlock(block, isRoot);
      if !placed { return; }
      ghost var prepared := batch;
      batch := SaveBlock(batch, block.id, HeaderOf(block, height, inTrunk));
      trace := trace + [Save(block.id, HeaderOf(block, height, inTrunk))];
      batch := batch.(branches := (batch.branches - {block.pre})[block.id := height]);
      var err, ok;
      err, ok, batch := RecordBlockTxs(block, inTrunk, splitHeight, batch);
      if !ok { return status.(error := err), trace; }
      batch := batch.(meta := newMeta);
      ConfirmCompleted(db, block, isRoot, height, inTrunk, splitHeight, prepared, newMeta, batch);
      ConfirmKeepsInv(db, block, isRoot);
      db := batch;
      status := status.(succ := true);
      if isRoot && !(genesisLoads && CoinbaseCount(block.txs) > 0) {
        status := status.(succ := false, error := GenesisUnreadable);
      }
    }

    /** The blocks to undo and to redo between two blocks: the two parent chains down to, but excluding,
        the lowest common ancestor. */
    method FindUndoAndTodoBlocks(cur: Hash, dest: Hash) returns (ok: bool, undo: seq<Hash>, todo: seq<Hash>)
      requires TrunkInv(db)
      ensures ok <==> cur == dest || (cur in db.blocks && dest in db.blocks)
      ensures ok && cur == dest ==> undo == [] && todo == []
      ensures ok && cur != dest ==>
                var t := ShapeOf(db.blocks);
                var f := Fork(t, db.meta.root, cur, dest);
                undo == ChainDown(t, cur, f) && todo == ChainDown(t, dest, f)
    {
      ok, undo, todo := true, [], [];
      if cur == dest { return; }
      if cur !in db.blocks || dest !in db.blocks { return false, [], []; }
      ghost var t := ShapeOf(db.blocks);
      ghost var f := Fork(t, db.meta.root, cur, dest);
      var oldTip, newTip, splitId := cur, dest, Empty;
      undo, todo := [cur], [dest];
      var visited := {cur, dest};
      var met := false;
      WalkApart(t, cur, dest, f);
      while !met
        invariant oldTip in db.blocks && newTip in db.blocks
        invariant !met ==> Apart(t, cur, dest, f, oldTip, newTip, undo, todo, visited)
        invariant met ==> MetAt(t, cur, dest, f, splitId, undo, todo)
        decreases !met, db.blocks[oldTip].height + db.blocks[newTip].height
      {
        var oldPre := db.blocks[oldTip].pre;
        ApartCanStep(t, cur, dest, f, oldTip, newTip, undo, todo, visited);
        if oldPre != Empty && db.blocks[oldTip].height >= db.blocks[newTip].height {
          OldStep(t, cur, dest, f, oldTip, newTip, undo, todo, visited);
          oldTip := oldPre;
          if oldTip in visited {
            splitId, met := oldTip, true;
          } else {
            visited, undo := visited + {oldTip}, undo + [oldTip];
          }
        }
        if !met {
          var newPre := db.blocks[newTip].pre;
          ApartCanStep(t, cur, dest, f, oldTip, newTip, undo, todo, visited);
          if newPre != Empty && db.blocks[newTip].height >= db.blocks[oldTip].height {
            NewStep(t, cur, dest, f, oldTip, newTip, undo, todo, visited);
            newTip := newPre;
            if newTip in visited {
              splitId, met := newTip, true;
            } else {
              visited, todo := visited + {newTip}, todo + [newTip];
            }
          } else if oldPre == Empty && newPre == Empty {
            splitId, met := db.meta.root, true;
          }
        }
      }
      if undo[|undo| - 1] == splitId { undo := undo[..|undo| - 1]; }
      if todo[|todo| - 1] == splitId { todo := todo[..|todo| - 1]; }
    }

    /** The lowest common ancestor of two blocks: level the higher side, then walk down in lockstep. */
    method GetCommonParentBlockid(b1: Hash, b2: Hash) returns (ok: bool, id: Hash)
      requires TrunkInv(db)
      ensures ok <==> b1 in db.blocks && b2 in db.blocks
      ensures ok ==> var t := ShapeOf(db.blocks); id == Anc(t, b1, Fork(t, db.meta.root, b1, b2))
    {
      if b1 !in db.blocks || b2 !in db.blocks { return false, Empty; }
      ghost var t := ShapeOf(db.blocks);
      ghost var f := Fork(t, db.meta.root, b1, b2);
      var x, y := b1, b2;
      while db.blocks[x].height > db.blocks[y].height
        invariant x in t && OnPath(t, b1, x) && f <= t[x].height
        decreases db.blocks[x].height
      {
        DownOne(t, b1, x);
        x := db.blocks[x].pre;
      }
      while db.blocks[y].height > db.blocks[x].height
        invariant y in t && OnPath(t, b2, y) && f <= t[x].height <= t[y].height
        decreases db.blocks[y].height
      {
        DownOne(t, b2, y);
        y := db.blocks[y].pre;
      }
      while x != y
        invariant x in t && y in t && OnPath(t, b1, x) && OnPath(t, b2, y)
        invariant f <= t[x].height == t[y].height
        decreases db.blocks[x].height
      {
        ForkSplits(t, b1, b2, f, t[x].height);
        DownOne(t, b1, x);
        DownOne(t, b2, y);
        x, y := db.blocks[x].pre, db.blocks[y].pre;
      }
      ForkSplits(t, b1, b2, f, t[x].height);
      ok, id := true, x;
    }

    /** The branch tips above a height, other than the target itself. */
    method GetBranchInfo(target: Hash, height: nat) returns (tips: seq<Hash>)
      ensures forall b :: b in tips <==> b in db.branches && b != target && db.branches[b] > height
    {
      tips := [];
      var keys := db.branches.Keys;
      while keys != {}
        invariant keys <= db.branches.Keys
        invariant forall b :: b in tips <==> b in db.branches.Keys - keys && b != target && db.branches[b] > height
      {
        var b :| b in keys;
        if b != target && db.branches[b] > height { tips := tips + [b]; }
        keys := keys - {b};
      }
    }

    /** Delete the blocks from a tip down to the height of another block, with the index entries of those on the
        trunk. */
    method RemoveBlocks(from: Hash, to: Hash, batch: Tables)
      returns (ok: bool, staged: Tables, ghost trace: seq<Access>)
      requires Forest(ShapeOf(db.blocks))
      ensures ok <==> from in db.blocks && to in db.blocks
      ensures ok ==> staged == WithoutBlocks(db, batch, CutBy(ShapeOf(db.blocks), {from}, db.blocks[to].height))
      ensures ok ==> trace == RemovalAccesses(db.blocks, from, to)
    {
      ok, staged, trace := from in db.blocks && to in db.blocks, batch, [Fetch(from), Fetch(to)];
      if !ok { return; }
      var b := from;
      RemoveStart(db, from, to, batch);
      while db.blocks[b].height > db.blocks[to].height
        invariant RemovedDownTo(db, from, to, b, batch, staged)
        invariant trace + Descent(db.blocks, b, db.blocks[to].height) == RemovalAccesses(db.blocks, from, to)
        decreases db.blocks[b].height
      {
        RemoveStep(db, from, to, b, batch, staged);
        DescentStep(db.blocks, trace, b, db.blocks[to].height);
        staged := staged.(blocks := staged.blocks - {b});
        if db.blocks[b].inTrunk {
          staged := staged.(heights := staged.heights - {db.blocks[b].height});
        }
        if db.blocks[b].pre !in db.blocks { return; }
        trace := trace + [Remove(b), Fetch(db.blocks[b].pre)];
        b := db.blocks[b].pre;
      }
      assert trace + [] == trace;
    }

    /** Cut the ledger back to a block: the chains below the listed branch tips go, even where they share ancestors. */
    method Truncate(target: Hash) returns (ok: bool, ghost tips: seq<Hash>, ghost trace: seq<Access>)
      requires Forest(ShapeOf(db.blocks)) && TipsKnown(db)
      modifies this
      ensures ok <==> target in old(db.blocks)
      ensures db == if ok then CutBack(old(db), target) else old(db)
      ensures ok ==>
                && (forall b :: b in tips <==> b in TipsAbove(old(db).branches, old(db).blocks[target].height))
                && (forall i :: 0 <= i < |tips| ==> tips[i] in old(db).blocks)
                && trace == CutAccesses(old(db).blocks, target, tips)
    {
      ok, tips, trace := target in db.blocks, [], [];
      if !ok { return; }
      var height := db.blocks[target].height;
      var batch, newMeta := db, db.meta.(tip := target);
      var list := GetBranchInfo(target, height);
      assert forall k :: 0 <= k < |list| ==> list[k] in list && list[k] in db.blocks;
      tips, trace := list, [Fetch(target)];
      CutToStart(db, target, list);
      for i := 0 to |list|
        invariant db == old(db) && CutTo(db, target, list, i, batch, trace)
      {
        var tip := list[i];
        assert tip in list;
        ghost var before, removal := batch, [];
        ok, batch, removal := RemoveBlocks(tip, target, batch);
        if !ok { return; }
        CutToStep(db, target, list, i, before, trace, batch, height);
        batch := batch.(branches := (batch.branches - {tip})[target := height]);
        trace := trace + removal;
      }
      newMeta := newMeta.(trunkHeight := height);
      CutToEnd(db, target, list, batch, trace);
      batch := batch.(meta := newMeta);
      db := batch;
    }

    /** The trunk block at a height. */
    method QueryHeaderByHeight(height: nat) returns (found: bool, id: Hash)
      requires TrunkInv(db)
      ensures found <==> height <= db.meta.trunkHeight
      ensures found ==> id in db.blocks && db.blocks[id].inTrunk && db.blocks[id].height == height
    {
      found, id := height in db.heights, Empty;
      if found {
        id := db.heights[height];
        assert Marked(ShapeOf(db.blocks), db.meta.tip, id, db.blocks[id]);
      }
    }
  }
}
