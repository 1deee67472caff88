/** Cutting the ledger back to a trunk block. */
module LedgerPrune {
  import opened Tree
  import opened Transactions
  import opened LedgerSpec
  import opened LedgerRecords

  ghost function Pruned(t: Shape, h: nat): Shape {
    map b | b in t && t[b].height <= h :: t[b]
  }

  ghost function Above(t: Shape, h: nat): set<Hash> {
    set b | b in t && t[b].height > h
  }

  /** Branch tips above height h. */
  ghost function TipsAbove(branches: map<Hash, nat>, h: nat): set<Hash> {
    set b | b in branches && branches[b] > h
  }

  /** Exactly the blocks above the target's height go, with their index entries and branch tips. */
  ghost function AfterTruncate(db: Tables, target: Hash): (r: Tables)
    requires target in db.blocks
  {
    var h := db.blocks[target].height;
    var tips := TipsAbove(db.branches, h);
    Tables(map b | b in db.blocks && db.blocks[b].height <= h :: db.blocks[b],
           map k | k in db.heights && k <= h :: db.heights[k],
           if tips == {} then db.branches else (db.branches - tips)[target := h],
           db.confirmed,
           Meta(db.meta.root, target, h))
  }

  lemma PruneShape(t: Shape, root: Hash, h: nat)
    requires Rooted(t, root)
    ensures Rooted(Pruned(t, h), root)
    ensures forall b, k :: b in Pruned(t, h) && 0 <= k <= t[b].height ==> Anc(Pruned(t, h), b, k) == Anc(t, b, k)
  {
    var u := Pruned(t, h);
    AncRoot(t, root, root);
    forall b | b in u ensures Linked(u, b) {
      assert Linked(t, b);
    }
    forall b, k | b in u && 0 <= k <= t[b].height ensures Anc(u, b, k) == Anc(t, b, k) {
      AncExtend(u, t, b, k);
    }
  }

  lemma PruneMarks(t: Shape, root: Hash, tip: Hash, target: Hash, b: Hash, hd: Header)
    requires Rooted(t, root) && tip in t && target in t && OnPath(t, tip, target)
    requires b in t && t[b].height <= t[target].height && Marked(t, tip, b, hd)
    ensures Forest(Pruned(t, t[target].height)) && Marked(Pruned(t, t[target].height), target, b, hd)
  {
    PruneShape(t, root, t[target].height);
    AncTrans(t, tip, t[target].height, t[b].height);
    if t[b].height < t[target].height {
      AncTrans(t, tip, t[target].height, t[b].height + 1);
    }
  }

  lemma PruneIndexes(t: Shape, root: Hash, tip: Hash, target: Hash, h: nat)
    requires Rooted(t, root) && tip in t && target in t && OnPath(t, tip, target) && h == t[target].height
    ensures Forest(Pruned(t, h))
    ensures (map k | k in TrunkIndex(t, tip) && k <= h :: TrunkIndex(t, tip)[k]) == TrunkIndex(Pruned(t, h), target)
  {
    PruneShape(t, root, h);
    forall k: nat | k <= h ensures Anc(t, target, k) == Anc(t, tip, k) {
      AncTrans(t, tip, h, k);
    }
  }

  lemma TruncateShape(db: Tables, target: Hash)
    requires target in db.blocks
    ensures ShapeOf(AfterTruncate(db, target).blocks) == Pruned(ShapeOf(db.blocks), db.blocks[target].height)
  {
  }

  lemma TruncateKeepsTree(db: Tables, target: Hash)
    requires TreeInv(db) && target in db.blocks
    ensures TreeInv(AfterTruncate(db, target))
  {
    TruncateShape(db, target);
    PruneShape(ShapeOf(db.blocks), db.meta.root, db.blocks[target].height);
  }

  /** Truncating to a trunk block re-establishes the trunk invariant with that block as tip. */
  lemma TruncateKeepsTrunk(db: Tables, target: Hash)
    requires TrunkInv(db) && target in db.blocks && db.blocks[target].inTrunk
    ensures TrunkInv(AfterTruncate(db, target))
  {
    var t, r := ShapeOf(db.blocks), AfterTruncate(db, target);
    TruncateShape(db, target);
    TruncateKeepsTree(db, target);
    assert Marked(t, db.meta.tip, target, db.blocks[target]);
    forall b | b in r.blocks ensures Marked(ShapeOf(r.blocks), target, b, r.blocks[b]) {
      assert Marked(t, db.meta.tip, b, db.blocks[b]);
      PruneMarks(t, db.meta.root, db.meta.tip, target, b, db.blocks[b]);
    }
    PruneIndexes(t, db.meta.root, db.meta.tip, target, db.blocks[target].height);
  }

  lemma TruncateKeepsRecords(db: Tables, target: Hash)
    requires target in db.blocks
    ensures BodiesStored(db) ==> BodiesStored(AfterTruncate(db, target))
    ensures RecordsOnTrunk(db) ==> RecordsOnTrunk(AfterTruncate(db, target))
  {
  }

  // ----- Branch tips reach every block above the target

  /** Above every block there is a leaf. */
  lemma {:induction false} LeafAbove(t: Shape, n: nat, b: Hash) returns (leaf: Hash)
    requires Forest(t) && b in t && forall c :: c in t ==> t[c].height <= n
    ensures leaf in t && IsLeaf(t, leaf) && OnPath(t, leaf, b)
    decreases n - t[b].height
  {
    if IsLeaf(t, b) {
      leaf := b;
    } else {
      var c :| c in t && t[c].pre == b;
      assert Linked(t, c);
      leaf := LeafAbove(t, n, c);
      AncTrans(t, leaf, t[c].height, t[b].height);
    }
  }

  /** Every block above height h is on the way down from a branch tip above h. */
  lemma TipsCoverAbove(t: Shape, n: nat, h: nat, b: Hash)
    requires Forest(t) && (forall c :: c in t ==> t[c].height <= n) && b in t && t[b].height > h
    ensures exists tip :: tip in TipsAbove(LeavesOf(t), h) && tip in t && OnPath(t, tip, b)
  {
    var leaf := LeafAbove(t, n, b);
    assert leaf in TipsAbove(LeavesOf(t), h);
  }

  /** The branch table is exact after a truncate if and only if no side block at the target's height had a child:
      the code puts the target in place of the tips it removes, not the side blocks they leave bare. */
  lemma TruncateLeavesIff(db: Tables, target: Hash)
    requires TrunkInv(db) && LeavesExact(db) && target in db.blocks && db.blocks[target].inTrunk
    ensures LeavesExact(AfterTruncate(db, target)) <==> SideBlocksBare(ShapeOf(db.blocks), target)
  {
    var t, h := ShapeOf(db.blocks), db.blocks[target].height;
    TruncateShape(db, target);
    TruncatedBranches(db, target);
    LeavesMatchIff(t, target, h, AfterTruncate(db, target).branches);
  }

  /** No block other than the target at its height has a child. */
  ghost predicate SideBlocksBare(t: Shape, target: Hash)
    requires target in t
  {
    forall b :: b in t && t[b].height == t[target].height && b != target ==> IsLeaf(t, b)
  }

  lemma {:induction false} LeavesMatchIff(t: Shape, target: Hash, h: nat, put: map<Hash, nat>)
    requires Forest(t) && target in t && h == t[target].height
    requires forall b :: b in put <==> b == target || (b in t && t[b].height <= h && IsLeaf(t, b))
    requires forall b :: b in put ==> put[b] == t[b].height
    ensures put == LeavesOf(Pruned(t, h)) <==> SideBlocksBare(t, target)
  {
    var kept := LeavesOf(Pruned(t, h));
    if SideBlocksBare(t, target) {
      forall b ensures (b in put <==> b in kept) && (b in put ==> put[b] == kept[b]) {
        PrunedLeaf(t, h, b);
      }
      assert put == kept;
    } else {
      var b :| b in t && t[b].height == h && b != target && !IsLeaf(t, b);
      PrunedLeaf(t, h, b);
      assert b in kept && b !in put;
    }
  }

  /** Pruning at height h leaves the leaves below h, and bares every block at h. */
  lemma {:induction false} PrunedLeaf(t: Shape, h: nat, b: Hash)
    requires Forest(t)
    ensures b in LeavesOf(Pruned(t, h)) <==> b in t && t[b].height <= h && (t[b].height == h || IsLeaf(t, b))
    ensures b in LeavesOf(Pruned(t, h)) ==> LeavesOf(Pruned(t, h))[b] == t[b].height
  {
    var u := Pruned(t, h);
    if b in u {
      if !IsLeaf(u, b) {
        var c :| c in u && u[c].pre == b;
        assert Linked(t, c);
        assert t[c].pre == b;
      }
      if !IsLeaf(t, b) && t[b].height < h {
        var c :| c in t && t[c].pre == b;
        assert Linked(t, c);
        assert c in u && u[c].pre == b;
      }
    }
  }

  /** The branch table after a truncate: the old leaves up to the target's height, and the target. */
  lemma TruncatedBranches(db: Tables, target: Hash)
    requires TrunkInv(db) && LeavesExact(db) && target in db.blocks && db.blocks[target].inTrunk
    ensures
      var t, h, r := ShapeOf(db.blocks), db.blocks[target].height, AfterTruncate(db, target).branches;
      && (forall b :: b in r <==> b == target || (b in t && t[b].height <= h && IsLeaf(t, b)))
      && (forall b :: b in r ==> r[b] == t[b].height)
  {
    var t, h := ShapeOf(db.blocks), db.blocks[target].height;
    if TipsAbove(db.branches, h) == {} {
      var leaf := LeafAbove(t, db.meta.trunkHeight, db.meta.tip);
      assert t[leaf].height == db.meta.trunkHeight && leaf == db.meta.tip;
      assert leaf !in TipsAbove(db.branches, h);
      assert Marked(t, db.meta.tip, target, db.blocks[target]);
      assert target == db.meta.tip;
    }
  }

  // ----- What the removal loops delete

  /** The blocks above height h on the way down from a tip in the set. */
  ghost function CutBy(t: Shape, tips: set<Hash>, h: nat): set<Hash>
    requires Forest(t) && tips <= t.Keys
  {
    set b | b in t && t[b].height > h && exists tip :: tip in tips && OnPath(t, tip, b)
  }

  /** The tables without the given blocks, and without the index entries of those on the trunk. */
  ghost function WithoutBlocks(db: Tables, batch: Tables, cut: set<Hash>): (r: Tables)
    requires cut <= db.blocks.Keys
  {
    batch.(blocks := batch.blocks - cut,
           heights := batch.heights - TrunkHeightsOf(db, cut))
  }

  ghost function TrunkHeightsOf(db: Tables, cut: set<Hash>): set<nat>
    requires cut <= db.blocks.Keys
  {
    set b | b in cut && db.blocks[b].inTrunk :: db.blocks[b].height
  }

  /** One step of the removal loop. */
  lemma CutStep(db: Tables, batch: Tables, cut: set<Hash>, b: Hash)
    requires cut <= db.blocks.Keys && b in db.blocks
    ensures
      var r := WithoutBlocks(db, batch, cut);
      WithoutBlocks(db, batch, cut + {b}) ==
      r.(blocks := r.blocks - {b},
         heights := if db.blocks[b].inTrunk then r.heights - {db.blocks[b].height} else r.heights)
  {
    var r, s := WithoutBlocks(db, batch, cut), WithoutBlocks(db, batch, cut + {b});
    assert s.blocks == r.blocks - {b};
    var hs := TrunkHeightsOf(db, cut);
    assert TrunkHeightsOf(db, cut + {b}) == if db.blocks[b].inTrunk then hs + {db.blocks[b].height} else hs;
  }

  lemma CutNothing(db: Tables, batch: Tables, none: set<Hash>)
    requires none == {}
    ensures WithoutBlocks(db, batch, none) == batch
  {
    assert batch.heights - TrunkHeightsOf(db, none) == batch.heights;
    assert batch.blocks - none == batch.blocks;
  }

  lemma CutTwice(db: Tables, batch: Tables, one: set<Hash>, two: set<Hash>)
    requires one <= db.blocks.Keys && two <= db.blocks.Keys
    ensures WithoutBlocks(db, WithoutBlocks(db, batch, one), two) == WithoutBlocks(db, batch, one + two)
  {
    var a, b, c := TrunkHeightsOf(db, one), TrunkHeightsOf(db, two), TrunkHeightsOf(db, one + two);
    assert c == a + b;
    assert (batch.heights - a) - b == batch.heights - c;
    assert (batch.blocks - one) - two == batch.blocks - (one + two);
  }

  /** With the leaves as tips, everything above the height goes. */
  lemma CutIsAbove(t: Shape, n: nat, h: nat)
    requires Forest(t) && (forall c :: c in t ==> t[c].height <= n)
    ensures TipsAbove(LeavesOf(t), h) <= t.Keys && CutBy(t, TipsAbove(LeavesOf(t), h), h) == Above(t, h)
  {
    forall b | b in Above(t, h) ensures b in CutBy(t, TipsAbove(LeavesOf(t), h), h) {
      TipsCoverAbove(t, n, h, b);
    }
  }

  lemma CutAboveHeights(db: Tables, h: nat)
    requires TrunkInv(db)
    ensures WithoutBlocks(db, db, Above(ShapeOf(db.blocks), h)).heights ==
            map k | k in db.heights && k <= h :: db.heights[k]
  {
    var t := ShapeOf(db.blocks);
    var r := WithoutBlocks(db, db, Above(t, h)).heights;
    forall k | k in db.heights ensures k in r <==> k <= h {
      var b := db.heights[k];
      assert Marked(t, db.meta.tip, b, db.blocks[b]);
      assert k > h ==> b in Above(t, h);
    }
  }

  lemma CutAboveBlocks(db: Tables, h: nat)
    ensures WithoutBlocks(db, db, Above(ShapeOf(db.blocks), h)).blocks ==
            map b | b in db.blocks && db.blocks[b].height <= h :: db.blocks[b]
  {
  }

  // ----- What truncating does, whatever the branch table holds

  /** Every tip the branch table lists is a block of the tree, listed with its height. */
  ghost predicate TipsKnown(db: Tables) {
    forall b :: b in db.branches ==> b in db.blocks && db.branches[b] == db.blocks[b].height
  }

  /** The chains below the listed tips above the target's height go, down to that height. */
  ghost function CutBack(db: Tables, target: Hash): (r: Tables)
    requires Forest(ShapeOf(db.blocks)) && TipsKnown(db) && target in db.blocks
  {
    var h := db.blocks[target].height;
    var tips := TipsAbove(db.branches, h);
    var cut := WithoutBlocks(db, db, CutBy(ShapeOf(db.blocks), tips, h));
    Tables(cut.blocks, cut.heights, if tips == {} then db.branches else (db.branches - tips)[target := h],
           db.confirmed, Meta(db.meta.root, target, h))
  }

  /** Every block above height h is on the way down from a listed tip above h. */
  ghost predicate Covered(db: Tables, h: nat) {
    && Forest(ShapeOf(db.blocks)) && TipsKnown(db)
    && forall b :: b in db.blocks && db.blocks[b].height > h ==>
        b in CutBy(ShapeOf(db.blocks), TipsAbove(db.branches, h), h)
  }

  lemma CoveredCut(db: Tables, h: nat)
    requires Covered(db, h)
    ensures CutBy(ShapeOf(db.blocks), TipsAbove(db.branches, h), h) == Above(ShapeOf(db.blocks), h)
  {
  }

  /** A block above the target's height that no listed tip covers is still there after the truncate. */
  lemma UncoveredStays(db: Tables, target: Hash, b: Hash)
    requires Forest(ShapeOf(db.blocks)) && TipsKnown(db) && target in db.blocks && b in db.blocks
    requires db.blocks[b].height > db.blocks[target].height
    requires b !in CutBy(ShapeOf(db.blocks), TipsAbove(db.branches, db.blocks[target].height), db.blocks[target].height)
    ensures b in CutBack(db, target).blocks && CutBack(db, target).blocks[b] == db.blocks[b]
  {
  }

  /** Truncating removes exactly the blocks above the target's height if and only if the listed tips cover them. */
  lemma {:induction false} CutExactIff(db: Tables, target: Hash)
    requires TrunkInv(db) && TipsKnown(db) && target in db.blocks
    ensures CutBack(db, target) == AfterTruncate(db, target) <==> Covered(db, db.blocks[target].height)
  {
    var t, h := ShapeOf(db.blocks), db.blocks[target].height;
    if Covered(db, h) {
      CoveredCut(db, h);
      CutAboveBlocks(db, h);
      CutAboveHeights(db, h);
    } else {
      var b :| b in db.blocks && db.blocks[b].height > h && b !in CutBy(t, TipsAbove(db.branches, h), h);
      UncoveredStays(db, target, b);
      assert b !in AfterTruncate(db, target).blocks;
    }
  }

  /** Truncating to a trunk block keeps the trunk invariant if and only if the listed tips cover the blocks above it. */
  lemma {:induction false} CutKeepsTrunkIff(db: Tables, target: Hash)
    requires TrunkInv(db) && TipsKnown(db) && target in db.blocks && db.blocks[target].inTrunk
    ensures TrunkInv(CutBack(db, target)) <==> Covered(db, db.blocks[target].height)
  {
    var t, h := ShapeOf(db.blocks), db.blocks[target].height;
    CutExactIff(db, target);
    if Covered(db, h) {
      TruncateKeepsTrunk(db, target);
    } else {
      var b :| b in db.blocks && db.blocks[b].height > h && b !in CutBy(t, TipsAbove(db.branches, h), h);
      UncoveredStays(db, target, b);
      assert b in ShapeOf(CutBack(db, target).blocks);
    }
  }

  /** Exact leaves cover everything. */
  lemma {:induction false} LeavesCover(db: Tables, h: nat)
    requires TrunkInv(db) && LeavesExact(db)
    ensures TipsKnown(db) && Covered(db, h)
  {
    CutIsAbove(ShapeOf(db.blocks), db.meta.trunkHeight, h);
  }

  /** From exact leaves a truncate removes exactly the blocks above its target and keeps the trunk invariant. */
  lemma {:induction false} LeavesCut(db: Tables, target: Hash)
    requires TrunkInv(db) && LeavesExact(db) && target in db.blocks
    ensures TipsKnown(db) && CutBack(db, target) == AfterTruncate(db, target)
    ensures db.blocks[target].inTrunk ==> TrunkInv(AfterTruncate(db, target))
  {
    LeavesCover(db, db.blocks[target].height);
    CutExactIff(db, target);
    if db.blocks[target].inTrunk {
      TruncateKeepsTrunk(db, target);
    }
  }

  lemma {:induction false} CutKeepsTips(db: Tables, target: Hash)
    requires Forest(ShapeOf(db.blocks)) && TipsKnown(db) && target in db.blocks
    ensures TipsKnown(CutBack(db, target)) && (BodiesStored(db) ==> BodiesStored(CutBack(db, target)))
  {
  }

  lemma {:induction false} TipsGrow(db: Tables, r: Tables, pre: Hash, id: Hash)
    requires TipsKnown(db) && pre in db.blocks && id !in db.blocks
    requires ShapeOf(r.blocks) == Grown(ShapeOf(db.blocks), pre, id)
    requires r.branches == (db.branches - {pre})[id := HeightOn(db, pre)]
    ensures TipsKnown(r)
  {
    var u := ShapeOf(r.blocks);
    forall b | b in r.branches ensures b in r.blocks && r.branches[b] == r.blocks[b].height {
      assert b in u && u[b].height == r.branches[b];
    }
  }

  lemma {:induction false} ConfirmKeepsTips(db: Tables, block: Block, isRoot: bool)
    requires Inv(db) && CanPlace(db, block, isRoot) && Fresh(db, block) && TipsKnown(db)
    ensures TipsKnown(AfterConfirm(db, block, isRoot))
  {
    if isRoot {
      assert EmptyLedger(db);
    } else if JoinsTrunk(db, block) {
      TrunkShape(db, block, SplitHeight(db, block.pre));
      TipsGrow(db, AfterConfirm(db, block, isRoot), block.pre, block.id);
    } else {
      SideShape(db, block);
      TipsGrow(db, AfterConfirm(db, block, isRoot), block.pre, block.id);
    }
  }

  lemma CutNone(t: Shape, h: nat)
    requires Forest(t)
    ensures CutBy(t, {}, h) == {}
  {
  }

  /** The parent of a block on the path down from a tip is on it too. */
  lemma DownOne(t: Shape, tip: Hash, b: Hash)
    requires Forest(t) && tip in t && b in t && OnPath(t, tip, b) && t[b].height > 0
    ensures t[b].pre in t && OnPath(t, tip, t[b].pre) && t[t[b].pre].height + 1 == t[b].height
  {
    assert Linked(t, b);
    AncStep(t, tip, t[t[b].pre].height);
  }

  /** The batch once the removal has come down from a tip to block b, going no lower than block to. */
  ghost predicate RemovedDownTo(db: Tables, from: Hash, to: Hash, b: Hash, batch: Tables, staged: Tables) {
    && Forest(ShapeOf(db.blocks)) && from in db.blocks && to in db.blocks && b in db.blocks
    && var t := ShapeOf(db.blocks);
    && OnPath(t, from, b)
    && staged == WithoutBlocks(db, batch,
                               CutBy(t, {from}, if t[b].height > t[to].height then t[b].height else t[to].height))
  }

  lemma RemoveStart(db: Tables, from: Hash, to: Hash, batch: Tables)
    requires Forest(ShapeOf(db.blocks)) && from in db.blocks && to in db.blocks
    ensures RemovedDownTo(db, from, to, from, batch, batch)
  {
    var t := ShapeOf(db.blocks);
    var level := if t[from].height > t[to].height then t[from].height else t[to].height;
    assert CutBy(t, {from}, level) == {};
    CutNothing(db, batch, CutBy(t, {from}, level));
  }

  lemma RemoveStep(db: Tables, from: Hash, to: Hash, b: Hash, batch: Tables, staged: Tables)
    requires RemovedDownTo(db, from, to, b, batch, staged) && db.blocks[b].height > db.blocks[to].height
    ensures db.blocks[b].pre in db.blocks && db.blocks[db.blocks[b].pre].height < db.blocks[b].height
    ensures RemovedDownTo(db, from, to, db.blocks[b].pre, batch,
              staged.(blocks := staged.blocks - {b},
                      heights := if db.blocks[b].inTrunk then staged.heights - {db.blocks[b].height}
                                 else staged.heights))
  {
    var t := ShapeOf(db.blocks);
    DownOne(t, from, b);
    var cut := CutBy(t, {from}, t[b].height);
    CutStep(db, batch, cut, b);
    assert CutBy(t, {from}, t[t[b].pre].height) == cut + {b};
  }

  /** The batch of a truncate once the chains below some of the tips are removed. */
  ghost predicate TruncatedBelow(db: Tables, target: Hash, h: nat, done: set<Hash>, batch: Tables) {
    && Forest(ShapeOf(db.blocks)) && done <= db.blocks.Keys
    && var cut := CutBy(ShapeOf(db.blocks), done, h);
    && batch.blocks == WithoutBlocks(db, db, cut).blocks
    && batch.heights == WithoutBlocks(db, db, cut).heights
    && batch.branches == (if done == {} then db.branches else (db.branches - done)[target := h])
    && batch.confirmed == db.confirmed && batch.meta == db.meta
  }

  lemma TruncateStart(db: Tables, target: Hash, h: nat)
    requires Forest(ShapeOf(db.blocks))
    ensures TruncatedBelow(db, target, h, {}, db)
  {
    CutNone(ShapeOf(db.blocks), h);
    CutNothing(db, db, CutBy(ShapeOf(db.blocks), {}, h));
  }

  lemma TruncateStep(db: Tables, target: Hash, h: nat, done: set<Hash>, tip: Hash, batch: Tables)
    requires TruncatedBelow(db, target, h, done, batch) && tip in db.blocks && tip != target
    ensures
      var r := WithoutBlocks(db, batch, CutBy(ShapeOf(db.blocks), {tip}, h));
      TruncatedBelow(db, target, h, done + {tip}, r.(branches := (r.branches - {tip})[target := h]))
  {
    CutMore(db, h, batch, done, tip);
    BranchesMore(db.branches, done, tip, target, h);
  }

  lemma BranchesMore(branches: map<Hash, nat>, done: set<Hash>, tip: Hash, target: Hash, h: nat)
    requires tip != target
    ensures ((if done == {} then branches else (branches - done)[target := h]) - {tip})[target := h] ==
            (branches - (done + {tip}))[target := h]
  {
    if done == {} {
      assert done + {tip} == {tip};
    }
  }

  lemma TruncateEnd(db: Tables, target: Hash, h: nat, done: set<Hash>, batch: Tables)
    requires TipsKnown(db) && target in db.blocks && h == db.blocks[target].height
    requires TruncatedBelow(db, target, h, done, batch)
    requires forall b :: b in done <==> b in db.branches && b != target && db.branches[b] > h
    ensures batch.(meta := Meta(db.meta.root, target, h)) == CutBack(db, target)
  {
    assert done == TipsAbove(db.branches, h);
  }

  lemma CutMore(db: Tables, h: nat, batch: Tables, done: set<Hash>, tip: Hash)
    requires Forest(ShapeOf(db.blocks)) && done <= db.blocks.Keys && tip in db.blocks
    requires batch.blocks == WithoutBlocks(db, db, CutBy(ShapeOf(db.blocks), done, h)).blocks
    requires batch.heights == WithoutBlocks(db, db, CutBy(ShapeOf(db.blocks), done, h)).heights
    ensures
      var t := ShapeOf(db.blocks);
      var r := WithoutBlocks(db, batch, CutBy(t, {tip}, h));
      && r.blocks == WithoutBlocks(db, db, CutBy(t, done + {tip}, h)).blocks
      && r.heights == WithoutBlocks(db, db, CutBy(t, done + {tip}, h)).heights
  {
    var t := ShapeOf(db.blocks);
    CutTwice(db, db, CutBy(t, done, h), CutBy(t, {tip}, h));
    assert CutBy(t, done, h) + CutBy(t, {tip}, h) == CutBy(t, done + {tip}, h);
  }
}
