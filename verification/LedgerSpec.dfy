/** The tables of the ledger, the invariants that tie them together, and what a confirmed block does to them. */
module LedgerSpec {
  import opened Tree
  import opened Transactions

  datatype Header = Header(pre: Hash, height: nat, inTrunk: bool, next: Hash, proposer: Addr, txids: seq<Hash>)

  /** A row of the confirmed table: the transaction and the block it points to. */
  datatype TxRecord = TxRecord(tx: Tx, block: Hash)

  datatype Meta = Meta(root: Hash, tip: Hash, trunkHeight: nat)

  datatype Tables = Tables(
    blocks: map<Hash, Header>,
    heights: map<nat, Hash>,
    branches: map<Hash, nat>,
    confirmed: map<Hash, TxRecord>,
    meta: Meta)

  ghost function ShapeOf(blocks: map<Hash, Header>): (t: Shape)
    ensures t.Keys == blocks.Keys
  {
    map b | b in blocks :: Node(blocks[b].pre, blocks[b].height)
  }

  // ----- Invariants

  /** Single root, a tip of maximal height. */
  ghost predicate TreeInv(db: Tables) {
    var t := ShapeOf(db.blocks);
    && Rooted(t, db.meta.root)
    && db.meta.tip in t
    && t[db.meta.tip].height == db.meta.trunkHeight
    && forall b :: b in t ==> t[b].height <= db.meta.trunkHeight
  }

  /** The flag and the forward link a block must carry when the trunk ends in tip. */
  ghost predicate Marked(t: Shape, tip: Hash, b: Hash, hd: Header)
    requires Forest(t) && tip in t && b in t
  {
    && (hd.inTrunk <==> OnPath(t, tip, b))
    && (OnPath(t, tip, b) && t[b].height < t[tip].height ==> hd.next == Anc(t, tip, t[b].height + 1))
    && (!OnPath(t, tip, b) ==> hd.next == Empty)
  }

  /** The trunk, listed by height. */
  ghost function TrunkIndex(t: Shape, tip: Hash): (r: map<nat, Hash>)
    requires Forest(t) && tip in t
  {
    map h: nat | h <= t[tip].height :: Anc(t, tip, h)
  }

  /** Every transaction a header lists is in the confirmed table. */
  ghost predicate BodiesStored(db: Tables) {
    forall b, i :: b in db.blocks && 0 <= i < |db.blocks[b].txids| ==>
      db.blocks[b].txids[i] in db.confirmed && db.confirmed[db.blocks[b].txids[i]].tx.txid == db.blocks[b].txids[i]
  }

  ghost predicate EmptyLedger(db: Tables) {
    db == Tables(map[], map[], map[], map[], Meta(Empty, Empty, 0))
  }

  ghost predicate TrunkInv(db: Tables) {
    && TreeInv(db)
    && (forall b {:trigger Marked(ShapeOf(db.blocks), db.meta.tip, b, db.blocks[b])} :: b in db.blocks ==>
        Marked(ShapeOf(db.blocks), db.meta.tip, b, db.blocks[b]))
    && db.heights == TrunkIndex(ShapeOf(db.blocks), db.meta.tip)
  }

  ghost predicate Inv(db: Tables) {
    EmptyLedger(db) || (TrunkInv(db) && BodiesStored(db))
  }

  // ----- What confirming a block does

  /** A confirm is placed at the root, on the trunk (growing it, perhaps by switching branch), or on a side branch. */
  ghost predicate CanPlace(db: Tables, block: Block, isRoot: bool) {
    if isRoot then block.pre == Empty && db.meta.root == Empty else block.pre in db.blocks
  }

  ghost predicate JoinsTrunk(db: Tables, block: Block)
    requires block.pre in db.blocks
  {
    block.pre == db.meta.tip || db.blocks[block.pre].height + 1 > db.meta.trunkHeight
  }

  /** Block ids are new and arrive without a forward link. */
  ghost predicate Fresh(db: Tables, block: Block) {
    block.id != Empty && block.id !in db.blocks && block.next == Empty
  }

  /** A txid stands for one transaction only. */
  ghost predicate TxidsIdentify(db: Tables, txs: seq<Tx>) {
    && (forall i :: 0 <= i < |txs| && txs[i].txid in db.confirmed ==> db.confirmed[txs[i].txid].tx == txs[i])
    && forall i, j :: 0 <= i < j < |txs| && txs[i].txid == txs[j].txid ==> txs[i] == txs[j]
  }

  function HeaderOf(block: Block, height: nat, inTrunk: bool): Header {
    Header(block.pre, height, inTrunk, block.next, block.proposer, Txids(block.txs))
  }

  /** The height at which the path to pre leaves the trunk. */
  ghost function SplitHeight(db: Tables, pre: Hash): (f: nat)
    requires TreeInv(db) && pre in db.blocks
    ensures IsFork(ShapeOf(db.blocks), db.meta.tip, pre, f)
  {
    Fork(ShapeOf(db.blocks), db.meta.root, db.meta.tip, pre)
  }

  /** Headers after the blocks of the old trunk above height cut are cleared, and the blocks
      leading to pre from height mark up are flagged and linked towards next. */
  ghost function Relink(blocks: map<Hash, Header>, tip: Hash, pre: Hash, next: Hash, cut: nat,
        mark: nat): (r: map<Hash, Header>)
    requires Forest(ShapeOf(blocks)) && tip in blocks && pre in blocks
    ensures r.Keys == blocks.Keys && ShapeOf(r) == ShapeOf(blocks)
  {
    var t := ShapeOf(blocks);
    map b | b in blocks :: RelinkOne(t, blocks[b], tip, pre, next, cut, mark, b)
  }

  ghost function RelinkOne(t: Shape, hd: Header, tip: Hash, pre: Hash, next: Hash, cut: nat, mark: nat,
        b: Hash): (r: Header)
    requires Forest(t) && tip in t && pre in t && b in t
    ensures r.pre == hd.pre && r.height == hd.height && r.proposer == hd.proposer && r.txids == hd.txids
  {
    if OnPath(t, tip, b) && t[b].height > cut then Cleared(hd)
    else if OnPath(t, pre, b) && t[b].height >= mark then
      Joined(hd, if t[b].height == t[pre].height then next else Anc(t, pre, t[b].height + 1))
    else hd
  }

  /** Off the trunk: no flag and no forward link. */
  function Cleared(hd: Header): Header {
    hd.(inTrunk := false, next := Empty)
  }

  /** On the trunk, followed by next. */
  function Joined(hd: Header, next: Hash): Header {
    hd.(inTrunk := true, next := next)
  }

  ghost function Reindex(t: Shape, heights: map<nat, Hash>, pre: Hash, mark: nat): (r: map<nat, Hash>)
    requires Forest(t) && pre in t
  {
    map h | h in heights :: if mark <= h <= t[pre].height then Anc(t, pre, h) else heights[h]
  }

  /** Point the listed transactions at block q; rows that already point there are not rewritten. */
  function RepointBlock(stored: map<Hash, TxRecord>, staged: map<Hash, TxRecord>, q: Hash,
        ids: seq<Hash>): (r: map<Hash, TxRecord>)
    requires forall i :: 0 <= i < |ids| ==> ids[i] in stored
  {
    if ids == [] then staged else
    var rest := RepointBlock(stored, staged, q, ids[..|ids| - 1]);
    var id := ids[|ids| - 1];
    if stored[id].block != q then rest[id := stored[id].(block := q)] else rest
  }

  /** Point the transactions of the blocks leading to pre, above height f, at those blocks, from the top down. */
  ghost function RepointPath(db: Tables, pre: Hash, f: nat): (r: map<Hash, TxRecord>)
    requires Forest(ShapeOf(db.blocks)) && BodiesStored(db) && pre in db.blocks && f <= db.blocks[pre].height
    decreases db.blocks[pre].height - f
  {
    if f == db.blocks[pre].height then db.confirmed else
    var q := Anc(ShapeOf(db.blocks), pre, f + 1);
    RepointBlock(db.confirmed, RepointPath(db, pre, f + 1), q, db.blocks[q].txids)
  }

  lemma {:induction false} RepointPathStep(db: Tables, pre: Hash, below: nat, h: nat)
    requires Forest(ShapeOf(db.blocks)) && BodiesStored(db) && pre in db.blocks
    requires below + 1 == h <= db.blocks[pre].height
    ensures
      var q := Anc(ShapeOf(db.blocks), pre, h);
      RepointPath(db, pre, below) == RepointBlock(db.confirmed, RepointPath(db, pre, h), q, db.blocks[q].txids)
  {
  }

  /** The row of a transaction is (re)written: it is new, its block is gone, or the block joins the trunk. */
  predicate Rewrites(db: Tables, txid: Hash, inTrunk: bool) {
    txid !in db.confirmed || db.confirmed[txid].block !in db.blocks || inTrunk
  }

  function RecordTxs(db: Tables, staged: map<Hash, TxRecord>, id: Hash, inTrunk: bool, txs: seq<Tx>): (r: map<Hash,
        TxRecord>) {
    if txs == [] then staged else
    var rest := RecordTxs(db, staged, id, inTrunk, txs[..|txs| - 1]);
    var tx := txs[|txs| - 1];
    if Rewrites(db, tx.txid, inTrunk) then rest[tx.txid := TxRecord(tx, id)] else rest
  }

  /** The height of a block placed on pre. */
  function HeightOn(db: Tables, pre: Hash): nat
    requires pre in db.blocks
  {
    db.blocks[pre].height + 1
  }

  /** The genesis block goes into an empty ledger. */
  ghost function AfterRoot(db: Tables, block: Block): (r: Tables) {
    Tables(db.blocks[block.id := HeaderOf(block, 0, true)], db.heights[0 := block.id],
           (db.branches - {block.pre})[block.id := 0],
           RecordTxs(db, db.confirmed, block.id, true, block.txs),
           Meta(block.id, block.id, 0))
  }

  /** The block becomes the tip; f is where its path leaves the old trunk. */
  ghost function AfterTrunk(db: Tables, block: Block, f: nat): (r: Tables)
    requires Forest(ShapeOf(db.blocks)) && BodiesStored(db)
    requires db.meta.tip in db.blocks && block.pre in db.blocks && f <= db.blocks[block.pre].height
  {
    var height := HeightOn(db, block.pre);
    Tables(Relink(db.blocks, db.meta.tip, block.pre, block.id, f, f)[block.id := HeaderOf(block, height, true)],
           Reindex(ShapeOf(db.blocks), db.heights, block.pre, f)[height := block.id],
           (db.branches - {block.pre})[block.id := height],
           RecordTxs(db, RepointPath(db, block.pre, f), block.id, true, block.txs),
           Meta(db.meta.root, block.id, height))
  }

  /** The block goes on a side branch; the trunk is untouched. */
  ghost function AfterSide(db: Tables, block: Block): (r: Tables)
    requires block.pre in db.blocks
  {
    var height := HeightOn(db, block.pre);
    Tables(db.blocks[block.id := HeaderOf(block, height, false)], db.heights,
           (db.branches - {block.pre})[block.id := height],
           RecordTxs(db, db.confirmed, block.id, false, block.txs), db.meta)
  }

  ghost function AfterConfirm(db: Tables, block: Block, isRoot: bool): (r: Tables)
    requires Inv(db) && CanPlace(db, block, isRoot)
  {
    if isRoot then AfterRoot(db, block)
    else if JoinsTrunk(db, block) then AfterTrunk(db, block, SplitHeight(db, block.pre))
    else AfterSide(db, block)
  }

  // ----- The trunk invariant is kept

  /** The tree with one more block below pre. */
  ghost function Grown(t: Shape, pre: Hash, id: Hash): Shape
    requires pre in t
  {
    t[id := Node(pre, t[pre].height + 1)]
  }

  lemma GrowShape(t: Shape, root: Hash, pre: Hash, id: Hash)
    requires Rooted(t, root) && pre in t && id !in t && id != Empty
    ensures
      var u := Grown(t, pre, id);
      && Rooted(u, root)
      && (forall b, h :: b in t && 0 <= h <= t[b].height ==> Anc(u, b, h) == Anc(t, b, h))
      && (forall h :: 0 <= h <= t[pre].height ==> Anc(u, id, h) == Anc(t, pre, h))
      && Anc(u, id, t[pre].height + 1) == id
  {
    var u := Grown(t, pre, id);
    forall b | b in u ensures Linked(u, b) {
      if b != id { assert Linked(t, b); }
    }
    forall b, h | b in t && 0 <= h <= t[b].height ensures Anc(u, b, h) == Anc(t, b, h) {
      AncExtend(t, u, b, h);
    }
  }

  lemma ShapeOfUpdate(blocks: map<Hash, Header>, id: Hash, hd: Header)
    requires hd.pre in blocks && hd.height == blocks[hd.pre].height + 1
    ensures ShapeOf(blocks[id := hd]) == Grown(ShapeOf(blocks), hd.pre, id)
  {
  }

  /** Relinking turns the marking for the old tip into the marking for the path to pre. */
  lemma {:induction false} RelinkMarks(t: Shape, hd: Header, tip: Hash, pre: Hash, id: Hash, f: nat, b: Hash)
    requires Forest(t) && tip in t && pre in t && b in t && t[pre].height == t[tip].height
    requires IsFork(t, tip, pre, f) && Marked(t, tip, b, hd)
    ensures
      var r := RelinkOne(t, hd, tip, pre, id, f, f, b);
      && (r.inTrunk <==> OnPath(t, pre, b))
      && (OnPath(t, pre, b) ==> r.next == if t[b].height == t[pre].height then id else Anc(t, pre, t[b].height + 1))
      && (!OnPath(t, pre, b) ==> r.next == Empty)
  {
    if t[b].height <= t[pre].height {
      ForkSplits(t, tip, pre, f, t[b].height);
      if t[b].height < t[pre].height {
        ForkSplits(t, tip, pre, f, t[b].height + 1);
      }
    }
  }

  /** A trunk switch at fork height f rewrites exactly the headers it has to: those above f on one of the two branches,
      and their common ancestor, which gets a new child. */
  lemma {:induction false} SwitchTouches(t: Shape, hd: Header, tip: Hash, pre: Hash, id: Hash, f: nat, b: Hash)
    requires Forest(t) && tip in t && pre in t && b in t && t[pre].height == t[tip].height
    requires IsFork(t, tip, pre, f) && f < t[tip].height && Marked(t, tip, b, hd)
    ensures RelinkOne(t, hd, tip, pre, id, f, f, b) != hd <==>
            (t[b].height > f && (OnPath(t, tip, b) || OnPath(t, pre, b))) || b == Anc(t, tip, f)
  {
    if t[b].height <= t[pre].height {
      ForkSplits(t, tip, pre, f, t[b].height);
    }
    ForkSplits(t, tip, pre, f, f + 1);
  }

  /** A block marked for the path to pre is marked for the new tip below pre. */
  lemma {:induction false} MarkedAtNewTip(t: Shape, root: Hash, pre: Hash, id: Hash, b: Hash, hd: Header)
    requires Rooted(t, root) && pre in t && id !in t && id != Empty && b in t
    requires hd.inTrunk <==> OnPath(t, pre, b)
    requires OnPath(t, pre, b) ==> hd.next == if t[b].height == t[pre].height then id else Anc(t, pre, t[b].height + 1)
    requires !OnPath(t, pre, b) ==> hd.next == Empty
    ensures Forest(Grown(t, pre, id)) && Marked(Grown(t, pre, id), id, b, hd)
  {
    GrowShape(t, root, pre, id);
  }

  /** Adding a side block below pre leaves the marking of the others right, and an unflagged block is off the trunk. */
  lemma MarkedBesideTip(t: Shape, root: Hash, tip: Hash, pre: Hash, id: Hash, b: Hash, hd: Header)
    requires Rooted(t, root) && pre in t && tip in t && id !in t && id != Empty
    requires if b == id then !hd.inTrunk && hd.next == Empty else b in t && Marked(t, tip, b, hd)
    ensures Forest(Grown(t, pre, id)) && Marked(Grown(t, pre, id), tip, b, hd)
  {
    GrowShape(t, root, pre, id);
  }

  lemma ReindexIndexes(t: Shape, tip: Hash, pre: Hash, f: nat)
    requires Forest(t) && tip in t && pre in t && t[pre].height == t[tip].height && IsFork(t, tip, pre, f)
    ensures Reindex(t, TrunkIndex(t, tip), pre, f) == TrunkIndex(t, pre)
  {
    forall h: nat | h <= t[pre].height ensures h <= f ==> Anc(t, tip, h) == Anc(t, pre, h) {
      ForkSplits(t, tip, pre, f, h);
    }
  }

  lemma IndexAtNewTip(t: Shape, root: Hash, pre: Hash, id: Hash, h: nat)
    requires Rooted(t, root) && pre in t && id !in t && id != Empty && h == t[pre].height + 1
    ensures Forest(Grown(t, pre, id)) && TrunkIndex(Grown(t, pre, id), id) == TrunkIndex(t, pre)[h := id]
  {
    GrowShape(t, root, pre, id);
  }

  lemma IndexBesideTip(t: Shape, root: Hash, tip: Hash, pre: Hash, id: Hash)
    requires Rooted(t, root) && pre in t && tip in t && id !in t && id != Empty
    ensures Forest(Grown(t, pre, id)) && TrunkIndex(Grown(t, pre, id), tip) == TrunkIndex(t, tip)
  {
    GrowShape(t, root, pre, id);
  }

  lemma TrunkBlocks(db: Tables, block: Block, f: nat)
    requires Forest(ShapeOf(db.blocks)) && BodiesStored(db)
    requires db.meta.tip in db.blocks && block.pre in db.blocks && f <= db.blocks[block.pre].height
    ensures AfterTrunk(db, block, f).blocks ==
            Relink(db.blocks, db.meta.tip, block.pre, block.id, f, f)
              [block.id := HeaderOf(block, HeightOn(db, block.pre), true)]
  {
  }

  lemma TrunkShape(db: Tables, block: Block, f: nat)
    requires Forest(ShapeOf(db.blocks)) && BodiesStored(db) && db.meta.tip in db.blocks
    requires block.pre in db.blocks && f <= db.blocks[block.pre].height
    ensures ShapeOf(AfterTrunk(db, block, f).blocks) == Grown(ShapeOf(db.blocks), block.pre, block.id)
  {
    var relinked := Relink(db.blocks, db.meta.tip, block.pre, block.id, f, f);
    var hd := HeaderOf(block, HeightOn(db, block.pre), true);
    ShapeOfUpdate(relinked, block.id, hd);
    TrunkBlocks(db, block, f);
  }

  lemma TrunkKeepsTree(db: Tables, block: Block, f: nat)
    requires TreeInv(db) && BodiesStored(db) && block.pre in db.blocks && f <= db.blocks[block.pre].height
    requires db.blocks[block.pre].height == db.meta.trunkHeight && block.id != Empty && block.id !in db.blocks
    ensures ShapeOf(AfterTrunk(db, block, f).blocks) == Grown(ShapeOf(db.blocks), block.pre, block.id)
    ensures TreeInv(AfterTrunk(db, block, f))
  {
    GrowShape(ShapeOf(db.blocks), db.meta.root, block.pre, block.id);
    TrunkShape(db, block, f);
  }

  lemma SideShape(db: Tables, block: Block)
    requires block.pre in db.blocks
    ensures ShapeOf(AfterSide(db, block).blocks) == Grown(ShapeOf(db.blocks), block.pre, block.id)
  {
    ShapeOfUpdate(db.blocks, block.id, HeaderOf(block, HeightOn(db, block.pre), false));
  }

  lemma SideKeepsTree(db: Tables, block: Block)
    requires TreeInv(db) && block.pre in db.blocks && db.blocks[block.pre].height < db.meta.trunkHeight
    requires block.id != Empty && block.id !in db.blocks
    ensures ShapeOf(AfterSide(db, block).blocks) == Grown(ShapeOf(db.blocks), block.pre, block.id)
    ensures TreeInv(AfterSide(db, block))
  {
    SideShape(db, block);
    GrowShape(ShapeOf(db.blocks), db.meta.root, block.pre, block.id);
  }

  lemma TrunkMarks(db: Tables, block: Block, f: nat, b: Hash)
    requires TrunkInv(db) && BodiesStored(db) && block.pre in db.blocks && Fresh(db, block)
    requires db.blocks[block.pre].height == db.meta.trunkHeight && b in db.blocks
    requires IsFork(ShapeOf(db.blocks), db.meta.tip, block.pre, f)
    ensures
      var u := Grown(ShapeOf(db.blocks), block.pre, block.id);
      Forest(u) && Marked(u, block.id, b, AfterTrunk(db, block, f).blocks[b])
  {
    var t := ShapeOf(db.blocks);
    assert Marked(t, db.meta.tip, b, db.blocks[b]);
    RelinkMarks(t, db.blocks[b], db.meta.tip, block.pre, block.id, f, b);
    MarkedAtNewTip(t, db.meta.root, block.pre, block.id, b, AfterTrunk(db, block, f).blocks[b]);
  }

  lemma TrunkHeights(db: Tables, block: Block, f: nat)
    requires Forest(ShapeOf(db.blocks)) && BodiesStored(db)
    requires db.meta.tip in db.blocks && block.pre in db.blocks && f <= db.blocks[block.pre].height
    ensures AfterTrunk(db, block, f).heights ==
            Reindex(ShapeOf(db.blocks), db.heights, block.pre, f)[HeightOn(db, block.pre) := block.id]
  {
  }

  lemma TrunkIndexes(db: Tables, block: Block, f: nat)
    requires TrunkInv(db) && BodiesStored(db) && block.pre in db.blocks && Fresh(db, block)
    requires db.blocks[block.pre].height == db.meta.trunkHeight
    requires IsFork(ShapeOf(db.blocks), db.meta.tip, block.pre, f)
    ensures
      var u := Grown(ShapeOf(db.blocks), block.pre, block.id);
      Forest(u) && AfterTrunk(db, block, f).heights == TrunkIndex(u, block.id)
  {
    var t := ShapeOf(db.blocks);
    ReindexIndexes(t, db.meta.tip, block.pre, f);
    IndexAtNewTip(t, db.meta.root, block.pre, block.id, HeightOn(db, block.pre));
    TrunkHeights(db, block, f);
  }

  lemma TrunkKeepsTrunk(db: Tables, block: Block, f: nat)
    requires TrunkInv(db) && BodiesStored(db) && block.pre in db.blocks && Fresh(db, block)
    requires db.blocks[block.pre].height == db.meta.trunkHeight
    requires IsFork(ShapeOf(db.blocks), db.meta.tip, block.pre, f)
    ensures TrunkInv(AfterTrunk(db, block, f))
  {
    TrunkKeepsTree(db, block, f);
    TrunkIndexes(db, block, f);
    var r := AfterTrunk(db, block, f);
    forall b | b in r.blocks ensures Marked(ShapeOf(r.blocks), r.meta.tip, b, r.blocks[b]) {
      if b != block.id {
        TrunkMarks(db, block, f, b);
      }
    }
  }

  lemma SideKeepsTrunk(db: Tables, block: Block)
    requires TrunkInv(db) && block.pre in db.blocks && Fresh(db, block)
    requires db.blocks[block.pre].height < db.meta.trunkHeight
    ensures TrunkInv(AfterSide(db, block))
  {
    SideKeepsTree(db, block);
    var t, r := ShapeOf(db.blocks), AfterSide(db, block);
    forall b | b in r.blocks ensures Marked(ShapeOf(r.blocks), r.meta.tip, b, r.blocks[b]) {
      if b != block.id { assert Marked(t, db.meta.tip, b, db.blocks[b]); }
      MarkedBesideTip(t, db.meta.root, db.meta.tip, block.pre, block.id, b, r.blocks[b]);
    }
    IndexBesideTip(t, db.meta.root, db.meta.tip, block.pre, block.id);
  }

  lemma RootKeepsTrunk(db: Tables, block: Block)
    requires EmptyLedger(db) && block.pre == Empty && Fresh(db, block)
    ensures TrunkInv(AfterRoot(db, block))
  {
    assert Linked(ShapeOf(AfterRoot(db, block).blocks), block.id);
  }

  /** Root, tip extension, side branch or trunk switch: the trunk invariant holds afterwards. */
  lemma ConfirmKeepsTrunk(db: Tables, block: Block, isRoot: bool)
    requires Inv(db) && CanPlace(db, block, isRoot) && Fresh(db, block)
    ensures TrunkInv(AfterConfirm(db, block, isRoot))
  {
    if isRoot {
      RootKeepsTrunk(db, block);
    } else if JoinsTrunk(db, block) {
      TrunkKeepsTrunk(db, block, SplitHeight(db, block.pre));
    } else {
      SideKeepsTrunk(db, block);
    }
  }
}
