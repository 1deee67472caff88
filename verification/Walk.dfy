/** Moving the state machine from one block of the tree to another: undo down to the common ancestor, redo up from
    it. */
module Walk {
  import opened Tree
  import opened Transactions
  import opened Utxo
  import opened Chain
  import opened Effects
  import opened Touch
  import opened Reversal
  import opened Machine

  /** The irreversible height after applying a block, for a slide window that is not negative: it never falls,
      and never rises above the block. */
  function NextIrreversible(height: nat, irreversible: nat, window: nat): (next: nat)
    ensures irreversible <= next && (next == irreversible || next < height)
  {
    if window == 0 || height - window <= irreversible then irreversible else height - window
  }

  function Forget(m: Machine): Machine {
    m.(cash := m.cash.(balances := map[]))
  }

  /** Undo the listed blocks, first to last. */
  function UndoAll(v: View, m: Machine, list: seq<Hash>, undone: set<Hash>): Machine
    requires forall i :: 0 <= i < |list| ==> list[i] in v
  {
    if list == [] then m else
    UndoBlock(UndoAll(v, m, list[..|list| - 1], undone), v[list[|list| - 1]], undone)
  }

  /** Do the listed blocks, last to first. */
  function TodoAll(v: View, m: Machine, list: seq<Hash>, window: nat): Machine
    requires forall i :: 0 <= i < |list| ==> list[i] in v
    decreases |list|
  {
    if list == [] then m else
    var b := list[|list| - 1];
    TodoAll(v, DoBlock(m, b, v[b], NextIrreversible(v[b].height, m.irreversible, window)), list[..|list| - 1], window)
  }

  /** A whole walk: roll back the pool, drop the cached balances, undo, redo. */
  function WalkTo(v: View, m: Machine, order: seq<Tx>, undo: seq<Hash>, todo: seq<Hash>, window: nat): Machine
    requires forall i :: 0 <= i < |undo| ==> undo[i] in v
    requires forall i :: 0 <= i < |todo| ==> todo[i] in v
  {
    TodoAll(v, UndoAll(v, Forget(Rollback(m, order)), undo, m.pool.Keys), todo, window)
  }

  // ----- Chains of the tree

  lemma {:induction false} UndoneElsewhere(c: Cash, txs: seq<Tx>, proposer: Addr, undone: set<Hash>)
    requires forall i :: 0 <= i < |txs| ==> txs[i].txid !in undone
    ensures UndoTxs(c, txs, proposer, undone) == UndoTxs(c, txs, proposer, {})
    decreases |txs|
  {
    if txs != [] {
      var n := |txs| - 1;
      UndoneElsewhere(UndoFee(UndoTx(c, txs[n]), txs[n], proposer), txs[..n], proposer, undone);
    }
  }

  // ----- The way down and up

  /** A chain down to height f is a falling list that stands on the block at f. */
  lemma {:induction false} ChainFalls(v: View, b: Hash, f: nat)
    requires At(v, b) && b in v && f <= v[b].height
    ensures
      var list := ChainDown(Nodes(v), b, f);
      && Falling(v, list)
      && if list == [] then Anc(Nodes(v), b, f) == b else list[0] == b && Foot(v, list) == Anc(Nodes(v), b, f)
  {
    var list := ChainDown(Nodes(v), b, f);
    forall i | 0 < i < |list| ensures v[list[i - 1]].pre == list[i] {
      AncStep(Nodes(v), b, v[b].height - i);
    }
    if list != [] {
      AncStep(Nodes(v), b, f);
    }
  }

  /** The blocks to undo and to redo on the way from the machine's block to dest. */
  ghost predicate Route(v: View, root: Hash, m: Machine, dest: Hash, undo: seq<Hash>, todo: seq<Hash>) {
    && Rooted(Nodes(v), root) && m.latest in v && dest in v
    && var f := Fork(Nodes(v), root, m.latest, dest);
       undo == ChainDown(Nodes(v), m.latest, f) && todo == ChainDown(Nodes(v), dest, f)
  }

  /** The lowest common ancestor of the machine's block and dest. */
  ghost function Meet(v: View, root: Hash, m: Machine, dest: Hash): (b: Hash)
    requires Rooted(Nodes(v), root) && m.latest in v && dest in v
    ensures At(v, b)
  {
    Anc(Nodes(v), dest, Fork(Nodes(v), root, m.latest, dest))
  }

  lemma {:induction false} RouteFalls(v: View, root: Hash, m: Machine, dest: Hash, undo: seq<Hash>, todo: seq<Hash>)
    requires Route(v, root, m, dest, undo, todo)
    ensures Falling(v, undo) && Falling(v, todo)
    ensures if undo == [] then m.latest == Meet(v, root, m, dest)
            else undo[0] == m.latest && Foot(v, undo) == Meet(v, root, m, dest)
    ensures if todo == [] then dest == Meet(v, root, m, dest)
            else todo[0] == dest && Foot(v, todo) == Meet(v, root, m, dest)
  {
    var f := Fork(Nodes(v), root, m.latest, dest);
    ChainFalls(v, m.latest, f);
    ChainFalls(v, dest, f);
  }

  // ----- What becomes of table and total

  lemma {:induction false} UndoAllBack(v: View, m: Machine, list: seq<Hash>, undone: set<Hash>)
    requires forall i :: 0 <= i < |list| ==> list[i] in v && (forall x :: x in Txids(v[list[i]].txs) ==> x !in undone)
    ensures UndoAll(v, m, list, undone).cash.table == Back(m.cash.table, EffectsDown(v, list))
    ensures UndoAll(v, m, list, undone).cash.total == m.cash.total - Issued(v, list)
    ensures UndoAll(v, m, list, undone).pool == m.pool
  {
    if list != [] {
      var n := |list| - 1;
      var b, u := list[n], UndoAll(v, m, list[..n], undone);
      UndoAllBack(v, m, list[..n], undone);
      forall i | 0 <= i < |v[b].txs| ensures v[b].txs[i].txid !in undone {
        assert Txids(v[b].txs)[i] == v[b].txs[i].txid;
      }
      UndoneElsewhere(u.cash, v[b].txs, v[b].proposer, undone);
      UndoGoesBack(u.cash, v[b].txs, v[b].proposer);
      EffectsStep(v, m.cash.table, list);
    }
  }

  lemma {:induction false} TodoAllThrough(v: View, m: Machine, list: seq<Hash>, window: nat)
    requires forall i :: 0 <= i < |list| ==> list[i] in v
    ensures TodoAll(v, m, list, window).cash.table == Through(m.cash.table, EffectsDown(v, list))
    ensures TodoAll(v, m, list, window).cash.total == m.cash.total + Issued(v, list)
    ensures TodoAll(v, m, list, window).pool == m.pool
    ensures TodoAll(v, m, list, window).latest == if list == [] then m.latest else list[0]
    decreases |list|
  {
    if list != [] {
      var n := |list| - 1;
      var b := list[n];
      var d := DoBlock(m, b, v[b], NextIrreversible(v[b].height, m.irreversible, window));
      PlayTable(m.cash, v[b].txs, v[b].proposer);
      TodoAllThrough(v, d, list[..n], window);
      EffectsStep(v, m.cash.table, list);
    }
  }

  /** The txids of a chain's blocks are on its path. */
  lemma {:induction false} OnThePath(v: View, list: seq<Hash>, i: nat, x: Hash)
    requires Falling(v, list) && i < |list| && x in Txids(v[list[i]].txs)
    ensures At(v, list[0]) && x in PathTxids(v, list[0])
  {
    OnThePathBelow(v, list, i, 0, x);
  }

  lemma {:induction false} OnThePathBelow(v: View, list: seq<Hash>, i: nat, j: nat, x: Hash)
    requires Falling(v, list) && j <= i < |list| && x in Txids(v[list[i]].txs)
    ensures At(v, list[j]) && x in PathTxids(v, list[j])
    decreases i - j
  {
    ParentAt(v, list[j]);
    if j < i {
      OnThePathBelow(v, list, i, j + 1, x);
    }
  }

  lemma {:induction false} DetourTables(v: View, r: Machine, undo: seq<Hash>, todo: seq<Hash>, undone: set<Hash>,
        window: nat, base: Table)
    requires forall i :: 0 <= i < |undo| ==> undo[i] in v && (forall x :: x in Txids(v[undo[i]].txs) ==> x !in undone)
    requires forall i :: 0 <= i < |todo| ==> todo[i] in v
    requires r.cash.table == Through(base, EffectsDown(v, undo))
    ensures
      var w := TodoAll(v, UndoAll(v, r, undo, undone), todo, window);
      && (w.cash.table == Through(base, EffectsDown(v, todo)) <==>
            forall k :: RecoveredAt(base, EffectsDown(v, undo), EffectsDown(v, todo), k))
      && w.cash.total == r.cash.total - Issued(v, undo) + Issued(v, todo)
  {
    UndoAllBack(v, r, undo, undone);
    TodoAllThrough(v, UndoAll(v, r, undo, undone), todo, window);
    DetourIff(base, EffectsDown(v, undo), EffectsDown(v, todo));
  }

  lemma {:induction false} ReplayOver(v: View, list: seq<Hash>, top: Hash, base: Hash)
    requires Falling(v, list) && At(v, base)
    requires if list == [] then top == base else list[0] == top && Foot(v, list) == base
    ensures At(v, top) && TableAt(v, top) == Through(TableAt(v, base), EffectsDown(v, list))
    ensures TotalAt(v, top) == TotalAt(v, base) + Issued(v, list)
  {
    if list != [] {
      ReplayAbove(v, list);
    }
  }

  /** Rolling back leaves the replay of the applied chain, none of whose txids were in the pool. */
  lemma {:induction false} RolledBackReplayed(v: View, m: Machine, order: seq<Tx>)
    requires Replayed(v, m) && DependencyOrder(m.pool, order)
    ensures
      var r := Forget(Rollback(m, order));
      r.cash.table == TableAt(v, m.latest) && r.cash.total == TotalAt(v, m.latest) && r.pool == map[]
  {
    RollbackReplayed(v, m, order);
    ReplayAlone(v, Rollback(m, order));
  }

  lemma {:induction false} NoneUndone(v: View, m: Machine, undo: seq<Hash>)
    requires Replayed(v, m) && Falling(v, undo) && (undo != [] ==> undo[0] == m.latest)
    ensures forall i :: 0 <= i < |undo| ==>
              undo[i] in v && (forall x :: x in Txids(v[undo[i]].txs) ==> x !in m.pool.Keys)
  {
    forall i, x | 0 <= i < |undo| && x in Txids(v[undo[i]].txs) ensures x !in m.pool.Keys {
      OnThePath(v, undo, i, x);
    }
  }

  /** Wherever the machine was and whatever its pool held, a completed walk leaves the total of the destination's chain;
      and it leaves that chain's table if and only if every key the redone blocks do not touch was first touched by the
      undone ones as it was recorded. Whether any block is valid does not matter. */
  lemma {:induction false} WalkReplaysIff(v: View, root: Hash, m: Machine, order: seq<Tx>, dest: Hash, undo: seq<Hash>,
        todo: seq<Hash>, window: nat)
    requires Replayed(v, m) && DependencyOrder(m.pool, order) && Route(v, root, m, dest, undo, todo)
    ensures
      var w := WalkTo(v, m, order, undo, todo, window);
      && w.latest == dest && w.pool == map[] && w.cash.total == TotalAt(v, dest)
      && (w.cash.table == TableAt(v, dest) <==>
            forall k :: RecoveredAt(TableAt(v, Meet(v, root, m, dest)), EffectsDown(v, undo), EffectsDown(v, todo), k))
  {
    var r, base := Forget(Rollback(m, order)), Meet(v, root, m, dest);
    RouteFalls(v, root, m, dest, undo, todo);
    NoneUndone(v, m, undo);
    RolledBackReplayed(v, m, order);
    ReplayOver(v, undo, m.latest, base);
    ReplayOver(v, todo, dest, base);
    DetourTables(v, r, undo, todo, m.pool.Keys, window, TableAt(v, base));
    WalkEnds(v, r, undo, todo, m.pool.Keys, window);
  }

  lemma {:induction false} WalkEnds(v: View, r: Machine, undo: seq<Hash>, todo: seq<Hash>, undone: set<Hash>,
        window: nat)
    requires Falling(v, undo) && Falling(v, todo) && (undo != [] ==> undo[0] == r.latest)
    ensures
      var w := TodoAll(v, UndoAll(v, r, undo, undone), todo, window);
      && w.pool == r.pool
      && w.latest == if todo != [] then todo[0] else if undo != [] then Foot(v, undo) else r.latest
  {
    UndoAllPool(v, r, undo, undone);
    TodoAllThrough(v, UndoAll(v, r, undo, undone), todo, window);
  }

  lemma {:induction false} UndoAllPool(v: View, m: Machine, list: seq<Hash>, undone: set<Hash>)
    requires Falling(v, list)
    ensures UndoAll(v, m, list, undone).pool == m.pool
    ensures UndoAll(v, m, list, undone).latest == if list == [] then m.latest else Foot(v, list)
  {
    if list != [] {
      UndoAllPool(v, m, list[..|list| - 1], undone);
    }
  }

  // ----- Cached balances

  lemma {:induction false} PlayCache(c: Cash, txs: seq<Tx>, proposer: Addr, applied: set<Hash>)
    ensures PlayTxs(c, txs, proposer, applied).balances.Keys == c.balances.Keys
  {
    if txs != [] {
      var n := |txs| - 1;
      var d := PlayTxs(c, txs[..n], proposer, applied);
      PlayCache(c, txs[..n], proposer, applied);
      TxCache(d, txs[n], proposer);
      TxCache(DoTx(d, txs[n]), txs[n], proposer);
    }
  }

  lemma {:induction false} UndoCache(c: Cash, txs: seq<Tx>, proposer: Addr, undone: set<Hash>)
    ensures UndoTxs(c, txs, proposer, undone).balances.Keys == c.balances.Keys
    decreases |txs|
  {
    if txs != [] {
      var n := |txs| - 1;
      var d := if txs[n].txid in undone then c else UndoTx(c, txs[n]);
      TxCache(c, txs[n], proposer);
      TxCache(d, txs[n], proposer);
      UndoCache(UndoFee(d, txs[n], proposer), txs[..n], proposer, undone);
    }
  }

  lemma {:induction false} UndoAllCache(v: View, m: Machine, list: seq<Hash>, undone: set<Hash>)
    requires forall i :: 0 <= i < |list| ==> list[i] in v
    ensures UndoAll(v, m, list, undone).cash.balances.Keys == m.cash.balances.Keys
  {
    if list != [] {
      var n := |list| - 1;
      UndoAllCache(v, m, list[..n], undone);
      UndoCache(UndoAll(v, m, list[..n], undone).cash, v[list[n]].txs, v[list[n]].proposer, undone);
    }
  }

  lemma {:induction false} TodoAllCache(v: View, m: Machine, list: seq<Hash>, window: nat)
    requires forall i :: 0 <= i < |list| ==> list[i] in v
    ensures TodoAll(v, m, list, window).cash.balances.Keys == m.cash.balances.Keys
    decreases |list|
  {
    if list != [] {
      var n := |list| - 1;
      var b := list[n];
      PlayCache(m.cash, v[b].txs, v[b].proposer, {});
      TodoAllCache(v, DoBlock(m, b, v[b], NextIrreversible(v[b].height, m.irreversible, window)), list[..n], window);
    }
  }

  /** A walk leaves no balance cached, so that the next query of any address sums its entries, however wrong the cached
      balances were before. */
  lemma {:induction false} WalkForgets(v: View, m: Machine, order: seq<Tx>, undo: seq<Hash>, todo: seq<Hash>,
        window: nat)
    requires forall i :: 0 <= i < |undo| ==> undo[i] in v
    requires forall i :: 0 <= i < |todo| ==> todo[i] in v
    ensures WalkTo(v, m, order, undo, todo, window).cash.balances == map[]
  {
    var r := Forget(Rollback(m, order));
    UndoAllCache(v, r, undo, m.pool.Keys);
    TodoAllCache(v, UndoAll(v, r, undo, m.pool.Keys), todo, window);
  }

  // ----- Block by block

  /** Undoing the block restores the table of its parent's chain. */
  ghost predicate RestoresBlock(v: View, b: Hash) {
    b in v && At(v, v[b].pre) && Restores(TableAt(v, v[b].pre), v[b].txs, v[b].proposer)
  }

  /** Undoing the applied block leaves the replay of its parent's chain if and only if the block restores its table. */
  lemma {:induction false} UndoneReplaysIff(v: View, m: Machine, skip: set<Hash>)
    requires Replayed(v, m) && m.pool == map[] && m.latest in v && skip !! PathTxids(v, m.latest)
    ensures Replayed(v, UndoBlock(m, v[m.latest], skip)) <==> RestoresBlock(v, m.latest)
  {
    var blk := v[m.latest];
    ParentAt(v, m.latest);
    ReplayAlone(v, m);
    forall i | 0 <= i < |blk.txs| ensures blk.txs[i].txid !in skip {
      assert Txids(blk.txs)[i] == blk.txs[i].txid;
      assert blk.txs[i].txid in PathTxids(v, m.latest);
    }
    UndoneElsewhere(m.cash, blk.txs, blk.proposer, skip);
    UndoRestoresIff(m.cash, TableAt(v, blk.pre), blk.txs, blk.proposer);
    var u := UndoBlock(m, blk, skip);
    if Replayed(v, u) {
      ReplayAlone(v, u);
    } else if RestoresBlock(v, m.latest) {
      ReplayReplayed(v, u);
    }
  }

  /** Doing a child block leaves the replay of the longer chain, whatever the block holds. */
  lemma {:induction false} DoneReplays(v: View, m: Machine, id: Hash, irreversible: nat)
    requires Replayed(v, m) && m.pool == map[] && id in v && v[id].pre == m.latest
    ensures Replayed(v, DoBlock(m, id, v[id], irreversible))
  {
    ParentAt(v, id);
    ReplayAlone(v, m);
    PlayTable(m.cash, v[id].txs, v[id].proposer);
    ReplayReplayed(v, DoBlock(m, id, v[id], irreversible));
  }

  lemma {:induction false} PathShrinks(v: View, list: seq<Hash>, undone: set<Hash>)
    requires Falling(v, list) && list != [] && At(v, list[0]) && undone !! PathTxids(v, list[0])
    ensures undone !! PathTxids(v, Foot(v, list))
  {
    if |list| > 1 {
      PathShrinks(v, list[..|list| - 1], undone);
    }
    ParentAt(v, list[|list| - 1]);
  }

  lemma {:induction false} UndoAllReplayed(v: View, m: Machine, list: seq<Hash>, undone: set<Hash>)
    requires Falling(v, list) && list != [] && m.latest == list[0] && Replayed(v, m) && m.pool == map[]
    requires undone !! PathTxids(v, m.latest) && forall b :: b in list ==> RestoresBlock(v, b)
    ensures Replayed(v, UndoAll(v, m, list, undone))
    ensures UndoAll(v, m, list, undone).pool == map[] && UndoAll(v, m, list, undone).latest == Foot(v, list)
  {
    var n := |list| - 1;
    UndoAllPool(v, m, list, undone);
    UndoAllPool(v, m, list[..n], undone);
    if n > 0 {
      UndoAllReplayed(v, m, list[..n], undone);
      PathShrinks(v, list[..n], undone);
      assert Foot(v, list[..n]) == list[n];
    }
    UndoneReplaysIff(v, UndoAll(v, m, list[..n], undone), undone);
  }

  lemma {:induction false} TodoAllReplayed(v: View, m: Machine, list: seq<Hash>, window: nat)
    requires Falling(v, list) && list != [] && m.latest == Foot(v, list) && Replayed(v, m) && m.pool == map[]
    ensures Replayed(v, TodoAll(v, m, list, window))
    decreases |list|
  {
    var n := |list| - 1;
    var b := list[n];
    var d := DoBlock(m, b, v[b], NextIrreversible(v[b].height, m.irreversible, window));
    DoneReplays(v, m, b, NextIrreversible(v[b].height, m.irreversible, window));
    if n > 0 {
      TodoAllReplayed(v, d, list[..n], window);
    }
  }

  lemma {:induction false} RollbackStands(v: View, m: Machine, order: seq<Tx>)
    requires Replayed(v, m) && DependencyOrder(m.pool, order)
    ensures Replayed(v, Forget(Rollback(m, order)))
  {
    RolledBackReplayed(v, m, order);
    ReplayReplayed(v, Forget(Rollback(m, order)));
  }

  /** A walk whose undone blocks restore their tables leaves the replay of its destination, valid or not. */
  lemma {:induction false} WalkReplays(v: View, root: Hash, m: Machine, order: seq<Tx>, dest: Hash, undo: seq<Hash>,
        todo: seq<Hash>, window: nat)
    requires Replayed(v, m) && DependencyOrder(m.pool, order) && Route(v, root, m, dest, undo, todo)
    requires forall b :: b in undo ==> RestoresBlock(v, b)
    ensures Replayed(v, WalkTo(v, m, order, undo, todo, window))
    ensures WalkTo(v, m, order, undo, todo, window).latest == dest
  {
    var r := Forget(Rollback(m, order));
    RouteFalls(v, root, m, dest, undo, todo);
    RollbackStands(v, m, order);
    if undo != [] {
      UndoAllReplayed(v, r, undo, m.pool.Keys);
    }
    var u := UndoAll(v, r, undo, m.pool.Keys);
    if todo != [] {
      TodoAllReplayed(v, u, todo, window);
      TodoAllThrough(v, u, todo, window);
    }
  }

  // ----- Valid chains

  /** The machine holds exactly the chain of b, with nothing pending; none of the chain counts as undone. */
  ghost predicate Standing(v: View, m: Machine, b: Hash, undone: set<Hash>) {
    Faithful(v, m) && m.pool == map[] && m.latest == b && undone !! PathTxids(v, b)
  }

  /** Undoing the applied block leaves its parent's chain, also when the rolled back pool is to be skipped. */
  lemma {:induction false} UndoOne(v: View, m: Machine, b: Hash, undone: set<Hash>)
    requires Standing(v, m, b, undone) && b in v
    ensures Standing(v, UndoBlock(m, v[b], undone), v[b].pre, undone)
  {
    var blk := v[b];
    ParentAt(v, b);
    forall i | 0 <= i < |blk.txs| ensures blk.txs[i].txid !in undone {
      assert Txids(blk.txs)[i] == blk.txs[i].txid;
      assert blk.txs[i].txid in PathTxids(v, b);
    }
    UndoneElsewhere(m.cash, blk.txs, blk.proposer, undone);
    UndoBlockValid(v, m);
  }

  lemma {:induction false} UndoAllStanding(v: View, m: Machine, list: seq<Hash>, undone: set<Hash>)
    requires Falling(v, list) && list != [] && Standing(v, m, list[0], undone)
    ensures Standing(v, UndoAll(v, m, list, undone), Foot(v, list), undone)
  {
    var n := |list| - 1;
    if n > 0 {
      UndoAllStanding(v, m, list[..n], undone);
      assert Foot(v, list[..n]) == list[n];
    }
    UndoOne(v, UndoAll(v, m, list[..n], undone), list[n], undone);
  }

  /** Every block of a valid chain is valid, and restores its table. */
  lemma {:induction false} FitsBelow(v: View, list: seq<Hash>, i: nat)
    requires Falling(v, list) && i < |list| && At(v, list[0]) && ChainFits(v, list[0])
    ensures At(v, list[i]) && ChainFits(v, list[i]) && RestoresBlock(v, list[i])
  {
    if i > 0 {
      FitsBelow(v, list, i - 1);
      ParentAt(v, list[i - 1]);
    }
    ParentAt(v, list[i]);
    FitsRestores(TableAt(v, v[list[i]].pre), v[list[i]].txs, v[list[i]].proposer);
  }

  lemma {:induction false} TodoAllStanding(v: View, m: Machine, list: seq<Hash>, window: nat)
    requires Falling(v, list) && list != [] && At(v, list[0]) && ChainFits(v, list[0])
    requires Standing(v, m, Foot(v, list), {})
    ensures Standing(v, TodoAll(v, m, list, window), list[0], {})
    decreases |list|
  {
    var n := |list| - 1;
    var b := list[n];
    var next := NextIrreversible(v[b].height, m.irreversible, window);
    FitsBelow(v, list, n);
    DoOne(v, m, b, next);
    if n > 0 {
      TodoAllStanding(v, DoBlock(m, b, v[b], next), list[..n], window);
    }
  }

  /** Doing a child block that is valid moves the machine to it. */
  lemma {:induction false} DoOne(v: View, m: Machine, b: Hash, irreversible: nat)
    requires b in v && Standing(v, m, v[b].pre, {}) && ChainFits(v, b)
    ensures Standing(v, DoBlock(m, b, v[b], irreversible), b, {})
  {
    ParentAt(v, b);
    DoValidIff(v, m, b, irreversible);
  }

  lemma {:induction false} RollbackStanding(v: View, m: Machine, order: seq<Tx>)
    requires Faithful(v, m) && DependencyOrder(m.pool, order)
    ensures Standing(v, Forget(Rollback(m, order)), m.latest, m.pool.Keys)
  {
    RollbackStands(v, m, order);
  }

  /** A walk of a valid machine leaves the replay of any destination, valid or not, and a valid machine if the
      destination's chain is valid. */
  lemma {:induction false} ValidWalkReplays(v: View, root: Hash, m: Machine, order: seq<Tx>, dest: Hash,
        undo: seq<Hash>,
        todo: seq<Hash>, window: nat)
    requires Faithful(v, m) && DependencyOrder(m.pool, order) && Route(v, root, m, dest, undo, todo)
    ensures
      var w := WalkTo(v, m, order, undo, todo, window);
      && w.latest == dest && w.pool == map[]
      && w.cash.table == TableAt(v, dest) && w.cash.total == TotalAt(v, dest)
      && (ChainFits(v, dest) ==> Faithful(v, w))
  {
    var r := Forget(Rollback(m, order));
    RouteFalls(v, root, m, dest, undo, todo);
    forall b | b in undo ensures RestoresBlock(v, b) {
      var i :| 0 <= i < |undo| && undo[i] == b;
      FitsBelow(v, undo, i);
    }
    WalkReplays(v, root, m, order, dest, undo, todo, window);
    WalkReplaysIff(v, root, m, order, dest, undo, todo, window);
    ReplayAlone(v, WalkTo(v, m, order, undo, todo, window));
    if ChainFits(v, dest) {
      WalkStanding(v, root, m, order, dest, undo, todo, window);
    }
  }

  lemma {:induction false} WalkStanding(v: View, root: Hash, m: Machine, order: seq<Tx>, dest: Hash, undo: seq<Hash>,
        todo: seq<Hash>, window: nat)
    requires Faithful(v, m) && DependencyOrder(m.pool, order) && Route(v, root, m, dest, undo, todo)
    requires ChainFits(v, dest)
    ensures Faithful(v, WalkTo(v, m, order, undo, todo, window))
  {
    var r := Forget(Rollback(m, order));
    RouteFalls(v, root, m, dest, undo, todo);
    RollbackStanding(v, m, order);
    if undo != [] {
      UndoAllStanding(v, r, undo, m.pool.Keys);
    }
    if todo != [] {
      TodoAllStanding(v, UndoAll(v, r, undo, m.pool.Keys), todo, window);
    }
  }
}
