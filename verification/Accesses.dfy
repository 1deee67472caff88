/** What confirms and truncates do to block headers, in order: which they fetch, save and remove. */
module Accesses {
  import opened Tree
  import opened Transactions
  import opened LedgerSpec

  type Headers = map<Hash, Header>

  datatype Access = Fetch(id: Hash) | Save(id: Hash, header: Header) | Remove(id: Hash)

  // ----- Confirming

  /** One turn of the lockstep walk: two blocks are fetched, then both are saved. */
  function Turn(p: Hash, q: Hash, v: Header, w: Header): seq<Access> {
    [Fetch(p), Fetch(q), Save(p, v), Save(q, w)]
  }

  /** Two tips of the same height, the old one and the parent of the new one. */
  ghost predicate Level(blocks: Headers, tip: Hash, pre: Hash, top: nat) {
    && Forest(ShapeOf(blocks)) && tip in blocks && pre in blocks
    && ShapeOf(blocks)[tip].height == ShapeOf(blocks)[pre].height == top
  }

  /** The block at height h below b. */
  ghost function At(blocks: Headers, b: Hash, h: nat): (a: Hash)
    requires Forest(ShapeOf(blocks)) && b in blocks && h <= ShapeOf(blocks)[b].height
    ensures a in blocks && blocks[a].height == h
  {
    Anc(ShapeOf(blocks), b, h)
  }

  /** The block that follows the one at height h on the way to the new tip. */
  ghost function LinkAt(blocks: Headers, tip: Hash, pre: Hash, id: Hash, top: nat, h: nat): Hash
    requires Level(blocks, tip, pre, top) && h <= top
  {
    if h == top then id else At(blocks, pre, h + 1)
  }

  /** The turn at height h. */
  ghost function TurnAt(blocks: Headers, tip: Hash, pre: Hash, id: Hash, top: nat, h: nat): seq<Access>
    requires Level(blocks, tip, pre, top) && h <= top
  {
    var p, q := At(blocks, tip, h), At(blocks, pre, h);
    Turn(p, q, Cleared(blocks[p]), Joined(blocks[q], LinkAt(blocks, tip, pre, id, top, h)))
  }

  /** The walk from the tips down to height h. */
  ghost function Turns(blocks: Headers, tip: Hash, pre: Hash, id: Hash, top: nat, h: nat): seq<Access>
    requires Level(blocks, tip, pre, top) && h <= top
    decreases top - h
  {
    if h == top then [] else Turns(blocks, tip, pre, id, top, h + 1) + TurnAt(blocks, tip, pre, id, top, h + 1)
  }

  /** The walk down to the fork at height f, and the block there. */
  ghost function SwitchAccesses(blocks: Headers, tip: Hash, pre: Hash, id: Hash, top: nat, f: nat): seq<Access>
    requires Level(blocks, tip, pre, top) && f <= top
  {
    var split := At(blocks, pre, f);
    Turns(blocks, tip, pre, id, top, f)
    + [Fetch(split), Save(split, Joined(blocks[split], LinkAt(blocks, tip, pre, id, top, f)))]
  }

  /** What a confirm does to headers: it fetches the parent, links the tip forward or walks to the fork, and saves the
      block. */
  ghost function ConfirmAccesses(db: Tables, block: Block, isRoot: bool): seq<Access>
    requires Inv(db) && CanPlace(db, block, isRoot)
  {
    if isRoot then [Save(block.id, HeaderOf(block, 0, true))] else
    [Fetch(block.pre)] + Relinking(db, block)
    + [Save(block.id, HeaderOf(block, HeightOn(db, block.pre), JoinsTrunk(db, block)))]
  }

  /** The headers saved before the block's own. */
  ghost function Relinking(db: Tables, block: Block): seq<Access>
    requires Inv(db) && CanPlace(db, block, false)
  {
    if block.pre == db.meta.tip then [Save(block.pre, db.blocks[block.pre].(next := block.id))]
    else if JoinsTrunk(db, block) then
      SwitchAccesses(db.blocks, db.meta.tip, block.pre, block.id, db.meta.trunkHeight, SplitHeight(db, block.pre))
    else []
  }

  // ----- Truncating

  /** From b down to height h: each block is removed and its parent fetched. */
  ghost function Descent(blocks: Headers, b: Hash, h: nat): seq<Access>
    requires Forest(ShapeOf(blocks)) && b in blocks
    decreases ShapeOf(blocks)[b].height
  {
    assert Linked(ShapeOf(blocks), b);
    if blocks[b].height <= h then [] else [Remove(b), Fetch(blocks[b].pre)] + Descent(blocks, blocks[b].pre, h)
  }

  /** The chain below a tip, down to the target's height. */
  ghost function RemovalAccesses(blocks: Headers, tip: Hash, target: Hash): seq<Access>
    requires Forest(ShapeOf(blocks)) && tip in blocks && target in blocks
  {
    [Fetch(tip), Fetch(target)] + Descent(blocks, tip, blocks[target].height)
  }

  ghost function Elements(tips: seq<Hash>): set<Hash> {
    set b | b in tips
  }

  /** One removal after the other. */
  ghost function CutAccesses(blocks: Headers, target: Hash, tips: seq<Hash>): seq<Access>
    requires Forest(ShapeOf(blocks)) && target in blocks && forall i :: 0 <= i < |tips| ==> tips[i] in blocks
  {
    if tips == [] then [Fetch(target)]
    else CutAccesses(blocks, target, tips[..|tips| - 1]) + RemovalAccesses(blocks, tips[|tips| - 1], target)
  }

  lemma {:induction false} DescentStep(blocks: Headers, trace: seq<Access>, b: Hash, h: nat)
    requires Forest(ShapeOf(blocks)) && b in blocks && blocks[b].height > h
    ensures blocks[b].pre in blocks
    ensures trace + Descent(blocks, b, h) ==
            trace + [Remove(b), Fetch(blocks[b].pre)] + Descent(blocks, blocks[b].pre, h)
  {
    assert Linked(ShapeOf(blocks), b);
  }

  lemma {:induction false} TurnsMore(blocks: Headers, tip: Hash, pre: Hash, id: Hash, top: nat, h: nat, below: nat,
        p: Hash, q: Hash, next: Hash)
    requires Level(blocks, tip, pre, top) && below + 1 == h <= top
    requires p == At(blocks, tip, h) && q == At(blocks, pre, h) && next == LinkAt(blocks, tip, pre, id, top, h)
    ensures Turns(blocks, tip, pre, id, top, below) ==
            Turns(blocks, tip, pre, id, top, h) + Turn(p, q, Cleared(blocks[p]), Joined(blocks[q], next))
  {
  }

  lemma {:induction false} CutMore(blocks: Headers, target: Hash, tips: seq<Hash>, i: nat)
    requires Forest(ShapeOf(blocks)) && target in blocks && (forall k :: 0 <= k < |tips| ==> tips[k] in blocks)
    requires i < |tips|
    ensures CutAccesses(blocks, target, tips[..i + 1]) ==
            CutAccesses(blocks, target, tips[..i]) + RemovalAccesses(blocks, tips[i], target)
  {
    assert tips[..i + 1][..i] == tips[..i];
  }
}
