/** Confirming and truncating as they go through the header cache: the order in which they fetch, save and remove. */
module CachedLedger {
  import opened Tree
  import opened Transactions
  import opened LedgerSpec
  import opened LedgerPrune
  import opened LedgerRuns
  import opened Lru
  import opened Accesses
  import opened HeaderCache
  import L = Ledger

  // ----- Confirming

  lemma {:induction false} TurnStaged(table: Headers, before: seq<Access>, p: Hash, q: Hash, v: Header, w: Header)
    ensures StagedAll(table, before + Turn(p, q, v, w)) == StagedAll(table, before)[p := v][q := w]
  {
    var one := before + [Fetch(p)];
    var two := one + [Fetch(q)];
    var three := two + [Save(p, v)];
    OneStaged(table, before, Fetch(p));
    OneStaged(table, one, Fetch(q));
    OneStaged(table, two, Save(p, v));
    OneStaged(table, three, Save(q, w));
    assert before + Turn(p, q, v, w) == three + [Save(q, w)];
  }

  lemma {:induction false} PairStaged(table: Headers, before: seq<Access>, id: Hash, hd: Header)
    ensures StagedAll(table, before + [Fetch(id), Save(id, hd)]) == StagedAll(table, before)[id := hd]
  {
    var fetched := before + [Fetch(id)];
    OneStaged(table, before, Fetch(id));
    OneStaged(table, fetched, Save(id, hd));
    assert before + [Fetch(id), Save(id, hd)] == fetched + [Save(id, hd)];
  }

  lemma {:induction false} TurnsStep(blocks: Headers, tip: Hash, pre: Hash, id: Hash, top: nat, f: nat, h: nat,
        mark: nat, next: nat)
    requires Level(blocks, tip, pre, top) && IsFork(ShapeOf(blocks), tip, pre, f)
    requires f <= h < top && mark == h + 1 && next == mark + 1
    ensures
      var p, q := At(blocks, tip, mark), At(blocks, pre, mark);
      Relink(blocks, tip, pre, id, mark, next)[p := Cleared(blocks[p])]
        [q := Joined(blocks[q], LinkAt(blocks, tip, pre, id, top, mark))]
      == Relink(blocks, tip, pre, id, h, mark)
  {
    L.RelinkStep(blocks, tip, pre, id, f, mark, h, next, At(blocks, tip, mark), At(blocks, pre, mark),
                 LinkAt(blocks, tip, pre, id, top, mark));
  }

  lemma {:induction false} TurnsStaged(blocks: Headers, tip: Hash, pre: Hash, id: Hash, top: nat, f: nat, h: nat,
        mark: nat)
    requires Level(blocks, tip, pre, top) && IsFork(ShapeOf(blocks), tip, pre, f) && f <= h <= top && mark == h + 1
    ensures StagedAll(blocks, Turns(blocks, tip, pre, id, top, h)) == Relink(blocks, tip, pre, id, h, mark)
    decreases top - h
  {
    if h == top {
      L.NothingToRelink(blocks, map[], tip, pre, id, mark);
    } else {
      var next := mark + 1;
      TurnsStaged(blocks, tip, pre, id, top, f, mark, next);
      TurnsStep(blocks, tip, pre, id, top, f, h, mark, next);
      var p, q := At(blocks, tip, mark), At(blocks, pre, mark);
      TurnStaged(blocks, Turns(blocks, tip, pre, id, top, mark), p, q, Cleared(blocks[p]),
                 Joined(blocks[q], LinkAt(blocks, tip, pre, id, top, mark)));
    }
  }

  lemma {:induction false} SplitStep(blocks: Headers, tip: Hash, pre: Hash, id: Hash, top: nat, f: nat, mark: nat)
    requires Level(blocks, tip, pre, top) && f <= top && mark == f + 1
    ensures
      var split := At(blocks, pre, f);
      Relink(blocks, tip, pre, id, f, mark)[split := Joined(blocks[split], LinkAt(blocks, tip, pre, id, top, f))]
      == Relink(blocks, tip, pre, id, f, f)
  {
    L.RelinkLast(blocks, tip, pre, id, f, mark, At(blocks, pre, f), LinkAt(blocks, tip, pre, id, top, f));
  }

  lemma {:induction false} SwitchStaged(blocks: Headers, tip: Hash, pre: Hash, id: Hash, top: nat, f: nat)
    requires Level(blocks, tip, pre, top) && IsFork(ShapeOf(blocks), tip, pre, f)
    ensures StagedAll(blocks, SwitchAccesses(blocks, tip, pre, id, top, f)) == Relink(blocks, tip, pre, id, f, f)
  {
    var mark, split := f + 1, At(blocks, pre, f);
    TurnsStaged(blocks, tip, pre, id, top, f, f, mark);
    SplitStep(blocks, tip, pre, id, top, f, mark);
    PairStaged(blocks, Turns(blocks, tip, pre, id, top, f), split,
               Joined(blocks[split], LinkAt(blocks, tip, pre, id, top, f)));
  }

  lemma {:induction false} OneStaged(table: Headers, before: seq<Access>, a: Access)
    ensures StagedAll(table, before + [a]) == Staged(StagedAll(table, before), a)
  {
    assert (before + [a])[..|before|] == before;
  }

  // ----- No block is fetched after it was saved

  /** Accesses without removals, none of which fetches a block saved before. */
  ghost predicate FetchFirst(accesses: seq<Access>) {
    forall i :: 0 <= i < |accesses| ==>
        !accesses[i].Remove? && (accesses[i].Fetch? ==> !Saves(accesses[..i], accesses[i].id))
  }

  lemma {:induction false} FetchFirstIsOrderly(accesses: seq<Access>)
    requires FetchFirst(accesses)
    ensures Orderly(accesses)
  {
    forall i | 0 <= i < |accesses| ensures OrderlyAt(accesses, i) {
      assert forall k :: 0 <= k < i ==> !accesses[k].Remove?;
    }
  }

  lemma {:induction false} FetchFirstMore(xs: seq<Access>, a: Access)
    requires FetchFirst(xs) && !a.Remove? && (a.Fetch? ==> !Saves(xs, a.id))
    ensures FetchFirst(xs + [a])
  {
    var ys := xs + [a];
    forall i | 0 <= i < |ys|
      ensures !ys[i].Remove? && (ys[i].Fetch? ==> !Saves(ys[..i], ys[i].id))
    {
      assert i < |xs| ==> ys[..i] == xs[..i];
      assert i == |xs| ==> ys[..i] == xs;
    }
  }

  /** Everything saved so far lies above height h. */
  ghost predicate SavedAbove(blocks: Headers, accesses: seq<Access>, h: nat) {
    forall i :: 0 <= i < |accesses| && accesses[i].Save? ==>
        accesses[i].id in blocks && blocks[accesses[i].id].height > h
  }

  lemma {:induction false} TurnFetchFirst(blocks: Headers, xs: seq<Access>, p: Hash, q: Hash, v: Header, w: Header,
        h: nat, below: nat)
    requires FetchFirst(xs) && SavedAbove(blocks, xs, h) && p in blocks && q in blocks
    requires blocks[p].height == blocks[q].height == h && below + 1 == h
    ensures FetchFirst(xs + Turn(p, q, v, w)) && SavedAbove(blocks, xs + Turn(p, q, v, w), below)
  {
    FetchFirstMore(xs, Fetch(p));
    FetchFirstMore(xs + [Fetch(p)], Fetch(q));
    FetchFirstMore(xs + [Fetch(p)] + [Fetch(q)], Save(p, v));
    FetchFirstMore(xs + [Fetch(p)] + [Fetch(q)] + [Save(p, v)], Save(q, w));
    assert xs + Turn(p, q, v, w) == xs + [Fetch(p)] + [Fetch(q)] + [Save(p, v)] + [Save(q, w)];
  }

  /** After the accesses in before, which save nothing, the walk fetches first. */
  lemma {:induction false} TurnsFetchFirst(before: seq<Access>, blocks: Headers, tip: Hash, pre: Hash, id: Hash,
        top: nat, h: nat)
    requires Level(blocks, tip, pre, top) && h <= top && forall i :: 0 <= i < |before| ==> before[i].Fetch?
    ensures
      var xs := before + Turns(blocks, tip, pre, id, top, h);
      FetchFirst(xs) && SavedAbove(blocks, xs, h)
    decreases top - h
  {
    if h == top {
      assert before + Turns(blocks, tip, pre, id, top, h) == before;
    } else {
      var mark := h + 1;
      TurnsFetchFirst(before, blocks, tip, pre, id, top, mark);
      var p, q, xs := At(blocks, tip, mark), At(blocks, pre, mark), before + Turns(blocks, tip, pre, id, top, mark);
      TurnFetchFirst(blocks, xs, p, q, Cleared(blocks[p]), Joined(blocks[q], LinkAt(blocks, tip, pre, id, top, mark)),
                     mark, h);
      assert before + Turns(blocks, tip, pre, id, top, h) == xs + TurnAt(blocks, tip, pre, id, top, mark);
    }
  }

  lemma {:induction false} SwitchFetchFirst(before: seq<Access>, blocks: Headers, tip: Hash, pre: Hash, id: Hash,
        top: nat, f: nat)
    requires Level(blocks, tip, pre, top) && f <= top && forall i :: 0 <= i < |before| ==> before[i].Fetch?
    ensures FetchFirst(before + SwitchAccesses(blocks, tip, pre, id, top, f))
  {
    TurnsFetchFirst(before, blocks, tip, pre, id, top, f);
    var xs, split := before + Turns(blocks, tip, pre, id, top, f), At(blocks, pre, f);
    var save := Save(split, Joined(blocks[split], LinkAt(blocks, tip, pre, id, top, f)));
    FetchFirstMore(xs, Fetch(split));
    FetchFirstMore(xs + [Fetch(split)], save);
    assert before + SwitchAccesses(blocks, tip, pre, id, top, f) == xs + [Fetch(split)] + [save];
  }

  lemma {:induction false} RelinkingOrder(db: Tables, block: Block, before: seq<Access>)
    requires Inv(db) && CanPlace(db, block, false) && forall i :: 0 <= i < |before| ==> before[i].Fetch?
    ensures FetchFirst(before + Relinking(db, block))
  {
    if block.pre == db.meta.tip {
      FetchFirstMore(before, Save(block.pre, db.blocks[block.pre].(next := block.id)));
    } else if JoinsTrunk(db, block) {
      SwitchFetchFirst(before, db.blocks, db.meta.tip, block.pre, block.id, db.meta.trunkHeight,
                       SplitHeight(db, block.pre));
    } else {
      assert before + Relinking(db, block) == before;
    }
  }

  /** Every fetch of a confirm, and of the queries made before it, comes before the block is saved. */
  lemma {:induction false} ConfirmOrderly(db: Tables, block: Block, isRoot: bool, queries: seq<Access>)
    requires Inv(db) && CanPlace(db, block, isRoot) && forall i :: 0 <= i < |queries| ==> queries[i].Fetch?
    ensures Orderly(queries + ConfirmAccesses(db, block, isRoot))
  {
    var xs := queries + ConfirmAccesses(db, block, isRoot);
    if isRoot {
      FetchFirstMore(queries, Save(block.id, HeaderOf(block, 0, true)));
    } else {
      var before := queries + [Fetch(block.pre)];
      var save := Save(block.id, HeaderOf(block, HeightOn(db, block.pre), JoinsTrunk(db, block)));
      RelinkingOrder(db, block, before);
      FetchFirstMore(before + Relinking(db, block), save);
      assert xs == before + Relinking(db, block) + [save];
    }
    FetchFirstIsOrderly(xs);
  }

  /** Extending the tip links it forward and nothing else. */
  lemma {:induction false} ExtendIsRelink(db: Tables, block: Block)
    requires TrunkInv(db) && BodiesStored(db) && CanPlace(db, block, false) && block.pre == db.meta.tip
    ensures
      var f := SplitHeight(db, block.pre);
      db.blocks[block.pre := db.blocks[block.pre].(next := block.id)] ==
      Relink(db.blocks, db.meta.tip, block.pre, block.id, f, f)
  {
    var height, hd := HeightOn(db, block.pre), db.blocks[block.pre].(next := block.id);
    L.PreparedExtend(db, block, height, L.SaveBlock(db, block.pre, hd));
  }

  lemma {:induction false} RelinkingStaged(db: Tables, block: Block)
    requires Inv(db) && CanPlace(db, block, false)
    ensures StagedAll(db.blocks, Relinking(db, block)) ==
            if JoinsTrunk(db, block) then
              Relink(db.blocks, db.meta.tip, block.pre, block.id, SplitHeight(db, block.pre),
                     SplitHeight(db, block.pre))
            else db.blocks
  {
    if block.pre == db.meta.tip {
      ExtendIsRelink(db, block);
      OneStaged(db.blocks, [], Save(block.pre, db.blocks[block.pre].(next := block.id)));
    } else if JoinsTrunk(db, block) {
      SwitchStaged(db.blocks, db.meta.tip, block.pre, block.id, db.meta.trunkHeight, SplitHeight(db, block.pre));
    }
  }

  lemma {:induction false} FetchesStage(table: Headers, queries: seq<Access>)
    requires forall i :: 0 <= i < |queries| ==> queries[i].Fetch?
    ensures StagedAll(table, queries) == table
  {
    if queries != [] {
      FetchesStage(table, queries[..|queries| - 1]);
    }
  }

  lemma {:induction false} AroundStaged(table: Headers, queries: seq<Access>, fetch: Access, middle: seq<Access>,
        save: Access)
    requires fetch.Fetch? && forall i :: 0 <= i < |queries| ==> queries[i].Fetch?
    ensures StagedAll(table, queries + ([fetch] + middle + [save])) == Staged(StagedAll(table, middle), save)
  {
    var before := queries + [fetch];
    FetchesStage(table, before);
    StagedConcat(table, before, middle);
    OneStaged(table, before + middle, save);
    assert queries + ([fetch] + middle + [save]) == before + middle + [save];
  }

  lemma {:induction false} RootStaged(table: Headers, queries: seq<Access>, save: Access)
    requires forall i :: 0 <= i < |queries| ==> queries[i].Fetch?
    ensures StagedAll(table, queries + [save]) == Staged(table, save)
  {
    FetchesStage(table, queries);
    OneStaged(table, queries, save);
  }

  /** The headers a confirm leaves in its batch are those of the confirmed ledger. */
  lemma {:induction false} ConfirmStaged(db: Tables, block: Block, isRoot: bool, queries: seq<Access>)
    requires Inv(db) && CanPlace(db, block, isRoot) && forall i :: 0 <= i < |queries| ==> queries[i].Fetch?
    ensures StagedAll(db.blocks, queries + ConfirmAccesses(db, block, isRoot)) == AfterConfirm(db, block, isRoot).blocks
  {
    if isRoot {
      RootStaged(db.blocks, queries, Save(block.id, HeaderOf(block, 0, true)));
    } else {
      var save := Save(block.id, HeaderOf(block, HeightOn(db, block.pre), JoinsTrunk(db, block)));
      AroundStaged(db.blocks, queries, Fetch(block.pre), Relinking(db, block), save);
      RelinkingStaged(db, block);
      AfterConfirmBlocks(db, block);
    }
  }

  lemma {:induction false} AfterConfirmBlocks(db: Tables, block: Block)
    requires Inv(db) && CanPlace(db, block, false)
    ensures
      var f, header := SplitHeight(db, block.pre), HeaderOf(block, HeightOn(db, block.pre), JoinsTrunk(db, block));
      AfterConfirm(db, block, false).blocks ==
      (if JoinsTrunk(db, block) then Relink(db.blocks, db.meta.tip, block.pre, block.id, f, f)
       else db.blocks)[block.id := header]
  {
    if JoinsTrunk(db, block) {
      TrunkBlocks(db, block, SplitHeight(db, block.pre));
    }
  }

  // ----- Truncating

  /** Nothing is saved; only blocks above h are removed, and a fetched block above h is removed later. */
  ghost predicate RemovedLater(blocks: Headers, accesses: seq<Access>, h: nat) {
    forall i :: 0 <= i < |accesses| ==>
      && !accesses[i].Save? && accesses[i].id in blocks
      && (accesses[i].Remove? ==> blocks[accesses[i].id].height > h)
      && (accesses[i].Fetch? && blocks[accesses[i].id].height > h ==> Removes(accesses[i + 1..], accesses[i].id))
  }

  lemma {:induction false} RemovedLaterIsOrderly(blocks: Headers, accesses: seq<Access>, h: nat)
    requires RemovedLater(blocks, accesses, h)
    ensures Orderly(accesses)
  {
    forall i | 0 <= i < |accesses| ensures OrderlyAt(accesses, i) {
      assert forall k :: 0 <= k < i ==> accesses[..i][k] == accesses[k];
    }
  }

  lemma {:induction false} RemovedLaterJoin(blocks: Headers, xs: seq<Access>, ys: seq<Access>, h: nat)
    requires RemovedLater(blocks, xs, h) && RemovedLater(blocks, ys, h)
    ensures RemovedLater(blocks, xs + ys, h)
  {
    var zs := xs + ys;
    forall i | 0 <= i < |zs| && zs[i].Fetch? && blocks[zs[i].id].height > h ensures Removes(zs[i + 1..], zs[i].id) {
      if i < |xs| {
        assert zs[i + 1..] == xs[i + 1..] + ys;
      } else {
        assert zs[i + 1..] == ys[i - |xs| + 1..];
      }
    }
  }

  lemma {:induction false} RemovedLaterFront(blocks: Headers, a: Access, ys: seq<Access>, h: nat)
    requires RemovedLater(blocks, ys, h) && !a.Save? && a.id in blocks && (a.Remove? ==> blocks[a.id].height > h)
    requires a.Fetch? && blocks[a.id].height > h ==> Removes(ys, a.id)
    ensures RemovedLater(blocks, [a] + ys, h)
  {
    var zs := [a] + ys;
    forall i | 0 <= i < |zs| && zs[i].Fetch? && blocks[zs[i].id].height > h ensures Removes(zs[i + 1..], zs[i].id) {
      assert zs[i + 1..] == ys[i..];
    }
  }

  lemma {:induction false} DescentLater(blocks: Headers, b: Hash, h: nat)
    requires Forest(ShapeOf(blocks)) && b in blocks
    ensures RemovedLater(blocks, Descent(blocks, b, h), h)
    ensures blocks[b].height > h ==> Removes(Descent(blocks, b, h), b)
    decreases ShapeOf(blocks)[b].height
  {
    assert Linked(ShapeOf(blocks), b);
    if blocks[b].height > h {
      var pre := blocks[b].pre;
      var rest := Descent(blocks, pre, h);
      DescentLater(blocks, pre, h);
      RemovedLaterFront(blocks, Fetch(pre), rest, h);
      RemovedLaterFront(blocks, Remove(b), [Fetch(pre)] + rest, h);
      assert Descent(blocks, b, h) == [Remove(b)] + ([Fetch(pre)] + rest);
      assert Descent(blocks, b, h)[0] == Remove(b);
    }
  }

  lemma {:induction false} RemovalLater(blocks: Headers, tip: Hash, target: Hash)
    requires Forest(ShapeOf(blocks)) && tip in blocks && target in blocks
    ensures RemovedLater(blocks, RemovalAccesses(blocks, tip, target), blocks[target].height)
  {
    var h := blocks[target].height;
    var rest := Descent(blocks, tip, h);
    DescentLater(blocks, tip, h);
    RemovedLaterFront(blocks, Fetch(target), rest, h);
    assert ([Fetch(target)] + rest)[1..] == rest;
    RemovedLaterFront(blocks, Fetch(tip), [Fetch(target)] + rest, h);
    assert RemovalAccesses(blocks, tip, target) == [Fetch(tip)] + ([Fetch(target)] + rest);
  }

  lemma {:induction false} CutLater(blocks: Headers, target: Hash, tips: seq<Hash>)
    requires Forest(ShapeOf(blocks)) && target in blocks && forall i :: 0 <= i < |tips| ==> tips[i] in blocks
    ensures RemovedLater(blocks, CutAccesses(blocks, target, tips), blocks[target].height)
  {
    if tips != [] {
      var n := |tips| - 1;
      CutLater(blocks, target, tips[..n]);
      RemovalLater(blocks, tips[n], target);
      RemovedLaterJoin(blocks, CutAccesses(blocks, target, tips[..n]), RemovalAccesses(blocks, tips[n], target),
                       blocks[target].height);
    }
  }

  /** The path below b is b and the path below its parent. */
  lemma {:induction false} CutOneMore(t: Shape, b: Hash, h: nat)
    requires Forest(t) && b in t && t[b].height > h && t[b].pre in t && t[t[b].pre].height + 1 == t[b].height
    ensures CutBy(t, {b}, h) == {b} + CutBy(t, {t[b].pre}, h)
  {
    var pre := t[b].pre;
    forall x | x in t && t[x].height > h ensures OnPath(t, b, x) <==> x == b || OnPath(t, pre, x) {
    }
  }

  lemma {:induction false} DescentStaged(blocks: Headers, batch: Headers, b: Hash, h: nat)
    requires Forest(ShapeOf(blocks)) && b in blocks
    ensures StagedAll(batch, Descent(blocks, b, h)) == batch - CutBy(ShapeOf(blocks), {b}, h)
    decreases ShapeOf(blocks)[b].height
  {
    var t := ShapeOf(blocks);
    assert Linked(t, b);
    if blocks[b].height > h {
      var pre := blocks[b].pre;
      CutOneMore(t, b, h);
      DescentStaged(blocks, batch - {b}, pre, h);
      FrontStaged(batch, Remove(b), Fetch(pre), Descent(blocks, pre, h));
      assert (batch - {b}) - CutBy(t, {pre}, h) == batch - ({b} + CutBy(t, {pre}, h));
    } else {
      assert CutBy(t, {b}, h) == {};
      assert batch - {} == batch;
    }
  }

  lemma {:induction false} FrontStaged(batch: Headers, a: Access, b: Access, rest: seq<Access>)
    ensures StagedAll(batch, [a, b] + rest) == StagedAll(Staged(Staged(batch, a), b), rest)
  {
    StagedConcat(batch, [a, b], rest);
    assert [a, b] == [] + [a] + [b];
    OneStaged(batch, [], a);
    OneStaged(batch, [] + [a], b);
  }

  lemma {:induction false} RemovalStaged(blocks: Headers, batch: Headers, tip: Hash, target: Hash)
    requires Forest(ShapeOf(blocks)) && tip in blocks && target in blocks
    ensures StagedAll(batch, RemovalAccesses(blocks, tip, target)) ==
            batch - CutBy(ShapeOf(blocks), {tip}, blocks[target].height)
  {
    FrontStaged(batch, Fetch(tip), Fetch(target), Descent(blocks, tip, blocks[target].height));
    DescentStaged(blocks, batch, tip, blocks[target].height);
  }

  lemma {:induction false} CutStaged(blocks: Headers, target: Hash, tips: seq<Hash>)
    requires Forest(ShapeOf(blocks)) && target in blocks && forall i :: 0 <= i < |tips| ==> tips[i] in blocks
    ensures Elements(tips) <= blocks.Keys
    ensures StagedAll(blocks, CutAccesses(blocks, target, tips)) ==
            blocks - CutBy(ShapeOf(blocks), Elements(tips), blocks[target].height)
  {
    var t, h := ShapeOf(blocks), blocks[target].height;
    if tips == [] {
      CutNone(t, h);
      OneStaged(blocks, [], Fetch(target));
      assert Elements(tips) == {} && blocks - {} == blocks;
    } else {
      var n := |tips| - 1;
      var init, tip := tips[..n], tips[n];
      CutStaged(blocks, target, init);
      StagedConcat(blocks, CutAccesses(blocks, target, init), RemovalAccesses(blocks, tip, target));
      RemovalStaged(blocks, blocks - CutBy(t, Elements(init), h), tip, target);
      assert tips == init + [tip];
      assert Elements(tips) == Elements(init) + {tip};
      CutJoin(t, blocks, Elements(init), tip, h);
    }
  }

  lemma {:induction false} CutJoin(t: Shape, blocks: Headers, tips: set<Hash>, tip: Hash, h: nat)
    requires Forest(t) && tips <= t.Keys && tip in t
    ensures (blocks - CutBy(t, tips, h)) - CutBy(t, {tip}, h) == blocks - CutBy(t, tips + {tip}, h)
  {
    assert CutBy(t, tips, h) + CutBy(t, {tip}, h) == CutBy(t, tips + {tip}, h);
  }

  // ----- Histories through the cache

  /** The headers an operation touches, after some queries: a truncate takes the tips above its target in any order. */
  ghost predicate Touches(db: Tables, op: Op, queries: seq<Access>, tips: seq<Hash>, accesses: seq<Access>) {
    && (forall i :: 0 <= i < |queries| ==> queries[i].Fetch?)
    && match op
       case Confirm(block, isRoot) =>
         && CanPlace(db, block, isRoot)
         && (Inv(db) ==> accesses == queries + ConfirmAccesses(db, block, isRoot))
       case Cut(target) =>
         && target in db.blocks && (forall i :: 0 <= i < |tips| ==> tips[i] in db.blocks)
         && (forall b :: b in tips <==> b in TipsAbove(db.branches, db.blocks[target].height))
         && (Forest(ShapeOf(db.blocks)) ==> accesses == queries + CutAccesses(db.blocks, target, tips))
  }

  lemma {:induction false} QueriesBefore(blocks: Headers, queries: seq<Access>, accesses: seq<Access>)
    requires (forall i :: 0 <= i < |queries| ==> queries[i].Fetch?) && Orderly(accesses)
    ensures Orderly(queries + accesses) && StagedAll(blocks, queries + accesses) == StagedAll(blocks, accesses)
  {
    var xs := queries + accesses;
    forall i | 0 <= i < |xs| ensures OrderlyAt(xs, i) {
      if i < |queries| {
        assert xs[..i] == queries[..i];
      } else {
        var j := i - |queries|;
        assert OrderlyAt(accesses, j);
        assert xs[..i] == queries + accesses[..j] && xs[i + 1..] == accesses[j + 1..];
        assert forall k :: |queries| <= k < i ==> xs[..i][k] == accesses[..j][k - |queries|];
      }
    }
    FetchesStage(blocks, queries);
    StagedConcat(blocks, queries, accesses);
  }

  lemma {:induction false} CutOrderly(db: Tables, target: Hash, queries: seq<Access>, tips: seq<Hash>)
    requires target in db.blocks && (forall i :: 0 <= i < |tips| ==> tips[i] in db.blocks) && Forest(ShapeOf(db.blocks))
    requires forall i :: 0 <= i < |queries| ==> queries[i].Fetch?
    ensures
      var accesses := queries + CutAccesses(db.blocks, target, tips);
      && Orderly(accesses)
      && StagedAll(db.blocks, accesses) ==
         db.blocks - CutBy(ShapeOf(db.blocks), Elements(tips), ShapeOf(db.blocks)[target].height)
  {
    CutLater(db.blocks, target, tips);
    RemovedLaterIsOrderly(db.blocks, CutAccesses(db.blocks, target, tips), db.blocks[target].height);
    QueriesBefore(db.blocks, queries, CutAccesses(db.blocks, target, tips));
    CutStaged(db.blocks, target, tips);
  }

  lemma {:induction false} OperationOrderly(db: Tables, op: Op, r: Tables, queries: seq<Access>, tips: seq<Hash>,
        accesses: seq<Access>)
    requires Step(db, op, r) && Kept(db) && Touches(db, op, queries, tips, accesses)
    ensures Orderly(accesses) && StagedAll(db.blocks, accesses) == r.blocks
  {
    match op
    case Confirm(block, isRoot) =>
      ConfirmOrderly(db, block, isRoot, queries);
      ConfirmStaged(db, block, isRoot, queries);
    case Cut(target) =>
      CutOrderly(db, target, queries, tips);
      assert Elements(tips) == TipsAbove(db.branches, db.blocks[target].height);
  }

  /** What one operation did through the cache. */
  datatype Passage = Passage(queries: seq<Access>, tips: seq<Hash>, accesses: seq<Access>, sheets: seq<Sheet>)

  ghost predicate Passes(db: Tables, op: Op, p: Passage) {
    && Touches(db, op, p.queries, p.tips, p.accesses) && Through(p.sheets, p.accesses)
    && p.sheets[0].table == db.blocks
  }

  /** A history whose operations all go through one cache, empty at first. */
  ghost predicate CachedHistory(ops: seq<Op>, dbs: seq<Tables>, ps: seq<Passage>) {
    && History(ops, dbs) && |ps| == |ops|
    && (forall i :: 0 <= i < |ops| ==> Passes(dbs[i], ops[i], ps[i]))
    && (forall i :: 0 <= i < |ops| ==> ps[i].sheets[0].cache == if i == 0 then map[] else Left(ps, i - 1))
  }

  /** The cache an operation leaves behind. */
  ghost function Left(ps: seq<Passage>, i: nat): Headers
    requires i < |ps|
  {
    if |ps[i].sheets| == 0 then map[] else ps[i].sheets[|ps[i].sheets| - 1].cache
  }

  lemma {:induction false} CacheMirrors(ops: seq<Op>, dbs: seq<Tables>, ps: seq<Passage>, n: nat)
    requires CachedHistory(ops, dbs, ps) && n < |ops| && forall i :: 0 <= i < n ==> CutCovered(dbs[i], ops[i])
    ensures Mirrors(ps[n].sheets[0].cache, dbs[n].blocks)
  {
    if n > 0 {
      var m := n - 1;
      CacheMirrors(ops, dbs, ps, m);
      assert Passes(dbs[m], ops[m], ps[m]) && Step(dbs[m], ops[m], dbs[n]) && Passes(dbs[n], ops[n], ps[n]);
      HistoryKeeps(ops, dbs, m);
      OperationOrderly(dbs[m], ops[m], dbs[n], ps[m].queries, ps[m].tips, ps[m].accesses);
      OrderlyReads(ps[m].sheets, ps[m].accesses);
    }
  }

  /** Along every history of confirms and covered truncates, with queries in between: whatever is fetched through the
      cache is what the table of headers holds at that moment. */
  lemma {:induction false} FetchIsRead(ops: seq<Op>, dbs: seq<Tables>, ps: seq<Passage>, n: nat, i: nat)
    requires CachedHistory(ops, dbs, ps) && n < |ops| && i < |ps[n].accesses| && ps[n].accesses[i].Fetch?
    requires forall k :: 0 <= k < n ==> CutCovered(dbs[k], ops[k])
    ensures |ps[n].sheets| == |ps[n].accesses| + 1
    ensures Answer(ps[n].sheets[i], ps[n].accesses[i].id) == Read(dbs[n].blocks, ps[n].accesses[i].id)
  {
    assert Passes(dbs[n], ops[n], ps[n]) && Step(dbs[n], ops[n], dbs[n + 1]);
    CacheMirrors(ops, dbs, ps, n);
    HistoryKeeps(ops, dbs, n);
    OperationOrderly(dbs[n], ops[n], dbs[n + 1], ps[n].queries, ps[n].tips, ps[n].accesses);
    OrderlyReads(ps[n].sheets, ps[n].accesses);
  }

  // ----- A batch that is given up

  /** The sheet once the confirm is over: the batch is written if the block is accepted, and otherwise given up. What
      was cached stays cached. */
  ghost function Settled(db: Tables, block: Block, isRoot: bool, s: Sheet): Sheet
    requires Inv(db)
  {
    if L.Accepts(db, block, isRoot) then s.(table := s.batch) else s
  }

  lemma {:induction false} ConfirmEndsWithSave(db: Tables, block: Block, isRoot: bool, queries: seq<Access>)
    requires Inv(db) && CanPlace(db, block, isRoot)
    ensures
      var accesses := queries + ConfirmAccesses(db, block, isRoot);
      && accesses != [] && accesses[|accesses| - 1].Save? && accesses[|accesses| - 1].id == block.id
  {
  }

  /** After a confirm, fetches through the cache are reads of the table if and only if the block was accepted, or the
      cache has no room at all. */
  lemma {:induction false} ConfirmReadsIff(db: Tables, block: Block, isRoot: bool, queries: seq<Access>,
        sheets: seq<Sheet>)
    requires Inv(db) && CanPlace(db, block, isRoot) && Fresh(db, block)
    requires forall i :: 0 <= i < |queries| ==> queries[i].Fetch?
    requires Through(sheets, queries + ConfirmAccesses(db, block, isRoot))
    requires sheets[0].table == db.blocks && Mirrors(sheets[0].cache, db.blocks)
    ensures
      var s := Settled(db, block, isRoot, sheets[|sheets| - 1]);
      && s.table == (if L.Accepts(db, block, isRoot) then AfterConfirm(db, block, isRoot).blocks else db.blocks)
      && ((forall id :: Answer(s, id) == Read(s.table, id)) <==> L.Accepts(db, block, isRoot) || s.capacity == 0)
  {
    var accesses := queries + ConfirmAccesses(db, block, isRoot);
    var n := |accesses|;
    ConfirmOrderly(db, block, isRoot, queries);
    ConfirmStaged(db, block, isRoot, queries);
    OrderlyReads(sheets, accesses);
    BatchIsStaged(sheets, accesses, n);
    assert accesses[..n] == accesses;
    ConfirmEndsWithSave(db, block, isRoot, queries);
    assert Acts(sheets[n - 1], accesses[n - 1], sheets[n]);
    var s := Settled(db, block, isRoot, sheets[n]);
    if !L.Accepts(db, block, isRoot) && s.capacity > 0 {
      assert Answer(s, block.id) != Read(s.table, block.id);
    }
  }

  /** Two coinbases: the ledger has a place for the block and refuses it, and then finds its header in the cache though
      it has stored none. */
  lemma {:induction false} RefusedStaysCached(tx: Tx)
    requires tx.coinbase
    ensures
      var db := Tables(map[], map[], map[], map[], Meta(Empty, Empty, 0));
      var block := Block(Digest(1), Empty, Empty, "p", [tx, tx]);
      var hd := HeaderOf(block, 0, true);
      var sheets := [Sheet(1, map[], map[], map[]), Sheet(1, map[block.id := hd], map[], map[block.id := hd])];
      && Inv(db) && CanPlace(db, block, true) && !L.Accepts(db, block, true)
      && Through(sheets, ConfirmAccesses(db, block, true))
      && Answer(sheets[1], block.id) == Hit(hd) && Read(sheets[1].table, block.id) == Miss
  {
    var block := Block(Digest(1), Empty, Empty, "p", [tx, tx]);
    var hd := HeaderOf(block, 0, true);
    var sheets := [Sheet(1, map[], map[], map[]), Sheet(1, map[block.id := hd], map[], map[block.id := hd])];
    assert [tx, tx][..1] == [tx] && [tx][..0] == [];
    assert L.CoinbaseCount([tx]) == 1;
    assert Acts(sheets[0], Save(block.id, hd), sheets[1]);
  }
}
