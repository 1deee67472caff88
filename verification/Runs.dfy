/** Whole runs of the ledger and the state machine together, one atomic step at a time. A walk, complete or cut short
    by an error, is a run: the rollback of the pool, some blocks undone, some blocks done. */
module Runs {
  import opened Tree
  import opened Transactions
  import opened Effects
  import opened Utxo
  import opened Worth
  import opened Chain
  import opened Machine
  import opened Play
  import opened Walk
  import opened Check
  import opened Checked
  import opened Overlay

  datatype World = World(view: View, machine: Machine)

  datatype Event =
    | Extended(view: View)
    | Submitted(tx: Tx)
    | RolledBack(order: seq<Tx>)
    | Undone(skip: set<Hash>)
    | Done(id: Hash, window: nat)
    | Played(id: Hash, conflicts: seq<Tx>, window: nat)
    | Mined(id: Hash, window: nat)
    | Queried(addr: Addr)
    | Forgotten

  /** What the program itself makes sure of before a step: new blocks only add to the tree, a block is done on its
      parent, undone only above the irreversible height, and both in a walk only once the pool is rolled back. */
  ghost predicate Enabled(w: World, e: Event) {
    var v, m := w.view, w.machine;
    match e
    case Extended(u) => Forest(Nodes(u)) && forall x :: x in v ==> x in u && u[x] == v[x]
    case Submitted(_) => true
    case RolledBack(_) => true
    case Undone(_) => m.latest in v && v[m.latest].height > m.irreversible
    case Done(id, _) => id in v && v[id].pre == m.latest
    case Played(id, _, _) => id in v && v[id].pre == m.latest
    case Mined(id, _) => id in v && v[id].pre == m.latest
    case Queried(_) => true
    case Forgotten => true
  }

  ghost function After(w: World, e: Event): World
    requires Enabled(w, e)
  {
    var v, m := w.view, w.machine;
    match e
    case Extended(u) => World(u, m)
    case Submitted(tx) => World(v, Submit(m, tx))
    case RolledBack(order) => World(v, Rollback(m, order))
    case Undone(skip) => World(v, UndoBlock(m, v[m.latest], skip))
    case Done(id, window) => World(v, DoBlock(m, id, v[id], NextIrreversible(v[id].height, m.irreversible, window)))
    case Played(id, conflicts, window) =>
      World(v, PlayOver(m, id, v[id], conflicts, NextIrreversible(v[id].height, m.irreversible, window)))
    case Mined(id, window) =>
      World(v, PlayMined(m, id, v[id], NextIrreversible(v[id].height, m.irreversible, window)))
    case Queried(addr) =>
      World(v, m.(cash := m.cash.(balances := m.cash.balances[addr := BalanceOf(m.cash.table, addr)])))
    case Forgotten => World(v, Forget(m))
  }

  /** What holds of a step the program has let through: the checks passed, and the contracts of the pool. */
  ghost predicate Accepted(w: World, e: Event)
    requires At(w.view, w.machine.latest)
  {
    var v, m := w.view, w.machine;
    match e
    case Extended(_) => true
    case Submitted(tx) => !tx.coinbase && tx.txid !in m.pool && Seen(m.cash.table, m.cash.table, tx)
    case RolledBack(order) => DependencyOrder(m.pool, order)
    case Undone(skip) => m.pool == map[] && skip !! PathTxids(v, m.latest)
    case Done(id, _) =>
      m.pool == map[] &&
      (OnTop(w, id) && DistinctIds(v[id].txs) ==> AllSeen(m.cash.table, v[id].txs, v[id].proposer))
    case Played(id, conflicts, _) =>
      OnTop(w, id) ==> PassedOver(m.pool, m.cash, v[id].txs, v[id].proposer, conflicts)
    case Mined(id, _) => OnTop(w, id) ==> PassedHere(m.pool, m.cash, v[id].txs, v[id].proposer)
    case Queried(_) => true
    case Forgotten => true
  }

  /** The block is a child of the latest one. */
  ghost predicate OnTop(w: World, id: Hash) {
    id in w.view && w.view[id].pre == w.machine.latest
  }

  /** What no check makes sure of: the txids of the step's block are new to its chain. */
  ghost predicate NewTxids(w: World, e: Event)
    requires At(w.view, w.machine.latest)
  {
    match e
    case Done(id, _) => OnTop(w, id) ==> NewOnPath(w.view, id)
    case Played(id, _, _) => OnTop(w, id) ==> NewOnPath(w.view, id)
    case Mined(id, _) => OnTop(w, id) ==> NewOnPath(w.view, id)
    case _ => true
  }

  /** What decides whether the replay is left, with the pool on top: a submitted txid is new to the chain and its frozen
      heights as recorded; an undone block restores its parent's table; a played block rests on nothing that stays in
      the pool. A block that is redone always leaves it. */
  ghost predicate Keeps(w: World, e: Event)
    requires At(w.view, w.machine.latest)
  {
    var v, m := w.view, w.machine;
    match e
    case Submitted(tx) => tx.txid !in PathTxids(v, m.latest) && AsRecorded(m.cash.table, tx)
    case Undone(_) => RestoresBlock(v, m.latest)
    case Played(id, conflicts, _) => OnTop(w, id) ==>
        AllGrounded(TableAt(v, m.latest), m.pool, Left(m.pool, conflicts, |conflicts|), v[id].txs)
    case Mined(id, _) => OnTop(w, id) ==> AllGrounded(TableAt(v, m.latest), m.pool, m.pool, v[id].txs)
    case _ => true
  }

  /** What decides whether the machine stays valid: new txids and frozen heights as recorded; in blocks no key spent
      twice, and inputs that come from the chain or the block itself and not from the pool. */
  ghost predicate Proper(w: World, e: Event)
    requires At(w.view, w.machine.latest)
  {
    var v, m := w.view, w.machine;
    var t := TableAt(v, m.latest);
    match e
    case Submitted(tx) => tx.txid !in PathTxids(v, m.latest) && AsRecorded(m.cash.table, tx)
    case Done(id, _) => OnTop(w, id) ==> Clean(v, id)
    case Played(id, _, _) => OnTop(w, id) ==>
        AllKnown(t, v[id].txs, v[id].proposer) && Honest(t, v[id].txs, v[id].proposer)
    case Mined(id, _) => OnTop(w, id) ==> AllKnown(t, v[id].txs, v[id].proposer) && Clean(v, id)
    case _ => true
  }

  /** A run: the worlds passed through, and the events between them. */
  datatype Trace = Trace(worlds: seq<World>, events: seq<Event>)

  ghost predicate StepAt(t: Trace, i: nat) {
    && i < |t.events| && |t.worlds| == |t.events| + 1
    && Enabled(t.worlds[i], t.events[i]) && t.worlds[i + 1] == After(t.worlds[i], t.events[i])
  }

  ghost predicate Run(t: Trace) {
    |t.worlds| == |t.events| + 1 && forall i {:trigger StepAt(t, i)} :: 0 <= i < |t.events| ==> StepAt(t, i)
  }

  ghost predicate AcceptedAt(t: Trace, i: nat) {
    && i < |t.events| && i < |t.worlds|
    && (At(t.worlds[i].view, t.worlds[i].machine.latest) ==> Accepted(t.worlds[i], t.events[i]))
  }

  ghost predicate NewTxidsAt(t: Trace, i: nat) {
    && i < |t.events| && i < |t.worlds|
    && (At(t.worlds[i].view, t.worlds[i].machine.latest) ==> NewTxids(t.worlds[i], t.events[i]))
  }

  ghost predicate KeepsAt(t: Trace, i: nat) {
    && i < |t.events| && i < |t.worlds|
    && At(t.worlds[i].view, t.worlds[i].machine.latest) && Keeps(t.worlds[i], t.events[i])
  }

  ghost predicate ProperAt(t: Trace, i: nat) {
    && i < |t.events| && i < |t.worlds|
    && At(t.worlds[i].view, t.worlds[i].machine.latest) && Proper(t.worlds[i], t.events[i])
  }

  /** A run of steps the program has let through. */
  ghost predicate AcceptedRun(t: Trace) {
    Run(t) && forall i {:trigger AcceptedAt(t, i)} :: 0 <= i < |t.events| ==> AcceptedAt(t, i)
  }

  /** The blocks played over a pool have new txids. */
  ghost predicate NewPlays(t: Trace) {
    forall i {:trigger NewTxidsAt(t, i)} :: 0 <= i < |t.events| && !t.events[i].Done? ==> NewTxidsAt(t, i)
  }

  /** All blocks done or played have new txids. */
  ghost predicate NewBlocks(t: Trace) {
    forall i {:trigger NewTxidsAt(t, i)} :: 0 <= i < |t.events| ==> NewTxidsAt(t, i)
  }

  ghost predicate KeepingRun(t: Trace) {
    forall i {:trigger KeepsAt(t, i)} :: 0 <= i < |t.events| ==> KeepsAt(t, i)
  }

  ghost predicate ProperRun(t: Trace) {
    forall i {:trigger ProperAt(t, i)} :: 0 <= i < |t.events| ==> ProperAt(t, i)
  }

  function First(t: Trace): World
    requires t.worlds != []
  {
    t.worlds[0]
  }

  function Last(t: Trace): World
    requires t.worlds != []
  {
    t.worlds[|t.worlds| - 1]
  }

  // ----- Path independence

  lemma {:induction false} QueryKeeps(v: View, m: Machine, addr: Addr)
    requires Replayed(v, m)
    ensures
      var q := m.(cash := m.cash.(balances := m.cash.balances[addr := BalanceOf(m.cash.table, addr)]));
      && Replayed(v, q) && Replayed(v, Forget(m))
      && (Faithful(v, m) ==> Faithful(v, q) && Faithful(v, Forget(m)))
  {
  }

  lemma {:induction false} ExtendKeeps(v: View, m: Machine, u: View)
    requires Replayed(v, m) && Forest(Nodes(u)) && forall x :: x in v ==> x in u && u[x] == v[x]
    ensures Replayed(u, m) && (Faithful(v, m) ==> Faithful(u, m))
  {
    ChainExtends(v, u, m.latest);
  }

  /** An accepted step leaves the replay of the applied chain with the pool on top if and only if it keeps it. */
  lemma {:induction false} StepReplaysIff(w: World, e: Event)
    requires Replayed(w.view, w.machine) && Enabled(w, e) && Accepted(w, e) && (e.Done? || NewTxids(w, e))
    ensures Replayed(After(w, e).view, After(w, e).machine) <==> Keeps(w, e)
  {
    var v, m := w.view, w.machine;
    match e
    case Extended(u) => ExtendKeeps(v, m, u);
    case Submitted(tx) => SubmitReplaysIff(v, m, tx);
    case RolledBack(order) => RollbackReplayed(v, m, order);
    case Undone(skip) => UndoneReplaysIff(v, m, skip);
    case Done(id, window) => DoneReplays(v, m, id, NextIrreversible(v[id].height, m.irreversible, window));
    case Played(id, conflicts, window) =>
      PlayedReplaysIff(v, m, id, conflicts, NextIrreversible(v[id].height, m.irreversible, window));
    case Mined(id, window) => MinedReplaysIff(v, m, id, NextIrreversible(v[id].height, m.irreversible, window));
    case Queried(addr) => QueryKeeps(v, m, addr);
    case Forgotten => QueryKeeps(v, m, "");
  }

  /** A new machine on an empty tree, where every run can begin. */
  lemma {:induction false} BeginsFaithful()
    ensures
      var w := World(map[], Machine(Cash(map[], 0, map[]), Empty, map[], 0));
      Faithful(w.view, w.machine) && Ordered(w.machine.pool)
  {
    var v, m: Machine := map[], Machine(Cash(map[], 0, map[]), Empty, map[], 0);
    assert Nodes(v) == map[];
    ReplayFaithful(v, m);
    assert DependencyOrder(m.pool, []);
  }

  ghost predicate ReplayedAt(t: Trace, n: nat) {
    n < |t.worlds| && Replayed(t.worlds[n].view, t.worlds[n].machine)
  }

  /** Over every run of such steps, the machine holds the replay of the applied chain with the pool on top. */
  lemma {:induction false} RunReplays(t: Trace, n: nat)
    requires AcceptedRun(t) && NewPlays(t) && KeepingRun(t) && n < |t.worlds| && ReplayedAt(t, 0)
    ensures ReplayedAt(t, n)
  {
    if n > 0 {
      RunReplays(t, n - 1);
      assert StepAt(t, n - 1) && AcceptedAt(t, n - 1) && KeepsAt(t, n - 1);
      assert !t.events[n - 1].Done? ==> NewTxidsAt(t, n - 1);
      StepReplaysIff(t.worlds[n - 1], t.events[n - 1]);
    }
  }

  /** An accepted run holds the replay of the applied chain with the pool on top all along, if and only if each of its
      steps keeps it. */
  lemma {:induction false} RunReplaysIff(t: Trace)
    requires AcceptedRun(t) && NewPlays(t) && ReplayedAt(t, 0)
    ensures (forall n :: 0 <= n < |t.worlds| ==> ReplayedAt(t, n)) <==> KeepingRun(t)
  {
    if KeepingRun(t) {
      forall n | 0 <= n < |t.worlds| ensures ReplayedAt(t, n) {
        RunReplays(t, n);
      }
    }
    if forall n :: 0 <= n < |t.worlds| ==> ReplayedAt(t, n) {
      forall i | 0 <= i < |t.events| ensures KeepsAt(t, i) {
        assert StepAt(t, i) && AcceptedAt(t, i) && ReplayedAt(t, i) && ReplayedAt(t, i + 1);
        assert !t.events[i].Done? ==> NewTxidsAt(t, i);
        StepReplaysIff(t.worlds[i], t.events[i]);
      }
    }
  }

  /** Two runs, from whatever beginnings and through whatever branches, that end at the same block with nothing
      pending end with the same table and the same total, whether or not the blocks are valid. */
  lemma {:induction false} PathIndependence(t: Trace, u: Trace)
    requires AcceptedRun(t) && NewPlays(t) && KeepingRun(t) && ReplayedAt(t, 0)
    requires AcceptedRun(u) && NewPlays(u) && KeepingRun(u) && ReplayedAt(u, 0)
    requires Last(t).machine.pool == map[] && Last(u).machine.pool == map[]
    requires Last(t).view == Last(u).view && Last(t).machine.latest == Last(u).machine.latest
    ensures Last(t).machine.cash.table == Last(u).machine.cash.table
    ensures Last(t).machine.cash.total == Last(u).machine.cash.total
  {
    RunReplays(t, |t.worlds| - 1);
    RunReplays(u, |u.worlds| - 1);
    ReplayAlone(Last(t).view, Last(t).machine);
    ReplayAlone(Last(u).view, Last(u).machine);
  }

  // ----- Valid machines

  /** An accepted step leaves a valid machine valid if and only if it is proper. */
  lemma {:induction false} StepValidIff(w: World, e: Event)
    requires Faithful(w.view, w.machine) && Enabled(w, e) && Accepted(w, e) && NewTxids(w, e)
    ensures Faithful(After(w, e).view, After(w, e).machine) <==> Proper(w, e)
  {
    var v, m := w.view, w.machine;
    match e
    case Extended(u) => ExtendKeeps(v, m, u);
    case Submitted(tx) => SubmitValidIff(v, m, tx);
    case RolledBack(order) => RollbackFaithful(v, m, order);
    case Undone(skip) => UndoOne(v, m, m.latest, skip);
    case Done(id, window) => DoneValidIff(v, m, id, NextIrreversible(v[id].height, m.irreversible, window));
    case Played(id, conflicts, window) =>
      PlayedValidIff(v, m, id, conflicts, NextIrreversible(v[id].height, m.irreversible, window));
    case Mined(id, window) => MinedValidIff(v, m, id, NextIrreversible(v[id].height, m.irreversible, window));
    case Queried(addr) => QueryKeeps(v, m, addr);
    case Forgotten => QueryKeeps(v, m, "");
  }

  ghost predicate FaithfulAt(t: Trace, n: nat) {
    n < |t.worlds| && Faithful(t.worlds[n].view, t.worlds[n].machine)
  }

  lemma {:induction false} RunValid(t: Trace, n: nat)
    requires AcceptedRun(t) && NewBlocks(t) && ProperRun(t) && n < |t.worlds| && FaithfulAt(t, 0)
    ensures FaithfulAt(t, n)
  {
    if n > 0 {
      RunValid(t, n - 1);
      assert StepAt(t, n - 1) && AcceptedAt(t, n - 1) && NewTxidsAt(t, n - 1) && ProperAt(t, n - 1);
      StepValidIff(t.worlds[n - 1], t.events[n - 1]);
    }
  }

  /** An accepted run keeps the machine valid all along, if and only if every step is proper. */
  lemma {:induction false} RunValidIff(t: Trace)
    requires AcceptedRun(t) && NewBlocks(t) && FaithfulAt(t, 0)
    ensures (forall n :: 0 <= n < |t.worlds| ==> FaithfulAt(t, n)) <==> ProperRun(t)
  {
    if ProperRun(t) {
      forall n | 0 <= n < |t.worlds| ensures FaithfulAt(t, n) {
        RunValid(t, n);
      }
    }
    if forall n :: 0 <= n < |t.worlds| ==> FaithfulAt(t, n) {
      forall i | 0 <= i < |t.events| ensures ProperAt(t, i) {
        assert StepAt(t, i) && AcceptedAt(t, i) && NewTxidsAt(t, i) && FaithfulAt(t, i) && FaithfulAt(t, i + 1);
        StepValidIff(t.worlds[i], t.events[i]);
      }
    }
  }

  // ----- The pool can always be rolled back

  /** The pool can be listed with parents before children. */
  ghost predicate Ordered(pool: map<Hash, Tx>) {
    exists order :: DependencyOrder(pool, order)
  }

  /** Nothing in the pool depends on a transaction that comes after it. */
  lemma {:induction false} LastToCome(t: Table, pool: map<Hash, Tx>, r: Table, tx: Tx, id: Hash)
    requires IsNet(t, PoolWeb(pool), r) && tx.txid !in pool && Outs(tx).Keys !! t.Keys && id in pool
    ensures !DependsOn(pool[id], tx)
  {
    SettledTagged(tx, "");
    assert Placed(t, PoolWeb(pool), id);
    forall k | k in Spent(pool[id]) ensures k !in Outs(tx) {
      assert Supplied(t, PoolWeb(pool), id, k);
    }
  }

  lemma {:induction false} MoreOrdered(pool: map<Hash, Tx>, order: seq<Tx>, tx: Tx)
    requires DependencyOrder(pool, order) && tx.txid !in pool && forall id :: id in pool ==> !DependsOn(pool[id], tx)
    ensures DependencyOrder(pool[tx.txid := tx], order + [tx])
  {
    var longer := pool[tx.txid := tx];
    assert (order + [tx])[..|order|] == order && longer - {tx.txid} == pool;
  }

  lemma {:induction false} SubmitOrdered(v: View, m: Machine, tx: Tx)
    requires Replayed(v, m) && Ordered(m.pool) && tx.txid !in m.pool && tx.txid !in PathTxids(v, m.latest)
    ensures Ordered(Submit(m, tx).pool)
  {
    var order :| DependencyOrder(m.pool, order);
    OutsAreNew(v, m.latest, tx);
    forall id | id in m.pool ensures !DependsOn(m.pool[id], tx) {
      LastToCome(TableAt(v, m.latest), m.pool, m.cash.table, tx, id);
    }
    MoreOrdered(m.pool, order, tx);
  }

  /** Leaving transactions out of a pool leaves an order. */
  lemma {:induction false} LessOrdered(pool: map<Hash, Tx>, order: seq<Tx>, gone: set<Hash>) returns (left: seq<Tx>)
    requires DependencyOrder(pool, order)
    ensures DependencyOrder(pool - gone, left)
    decreases |order|
  {
    if order == [] {
      left := [];
    } else {
      var n := |order| - 1;
      var tx := order[n];
      left := LessOrdered(pool - {tx.txid}, order[..n], gone);
      if tx.txid in gone {
        assert (pool - {tx.txid}) - gone == pool - gone;
      } else {
        assert (pool - gone) - {tx.txid} == (pool - {tx.txid}) - gone;
        assert (left + [tx])[..|left|] == left;
        left := left + [tx];
      }
    }
  }

  lemma {:induction false} LessIsOrdered(pool: map<Hash, Tx>, gone: set<Hash>)
    requires Ordered(pool)
    ensures Ordered(pool - gone)
  {
    var order :| DependencyOrder(pool, order);
    var left := LessOrdered(pool, order, gone);
  }

  lemma {:induction false} StepOrdered(w: World, e: Event)
    requires Replayed(w.view, w.machine) && Enabled(w, e) && Accepted(w, e) && Keeps(w, e) && Ordered(w.machine.pool)
    ensures Ordered(After(w, e).machine.pool)
  {
    var v, m := w.view, w.machine;
    match e
    case Extended(_) =>
    case Submitted(tx) => SubmitOrdered(v, m, tx);
    case RolledBack(_) => assert DependencyOrder(map[], []);
    case Undone(_) =>
    case Done(_, _) =>
    case Played(id, conflicts, _) =>
      LessIsOrdered(m.pool, IdSet(conflicts[..|conflicts|]));
      LessIsOrdered(Left(m.pool, conflicts, |conflicts|), IdSet(v[id].txs));
    case Mined(id, _) => LessIsOrdered(m.pool, IdSet(v[id].txs));
    case Queried(_) =>
    case Forgotten =>
  }

  /** Over every such run the pool has a dependency order, so that it can be rolled back. */
  lemma {:induction false} RunOrdered(t: Trace, n: nat)
    requires AcceptedRun(t) && NewPlays(t) && KeepingRun(t) && n < |t.worlds| && ReplayedAt(t, 0)
    requires Ordered(First(t).machine.pool)
    ensures Ordered(t.worlds[n].machine.pool)
  {
    if n > 0 {
      RunOrdered(t, n - 1);
      RunReplays(t, n - 1);
      assert StepAt(t, n - 1) && AcceptedAt(t, n - 1) && KeepsAt(t, n - 1);
      StepOrdered(t.worlds[n - 1], t.events[n - 1]);
    }
  }

  // ----- Building runs

  /** The run that stays in one world. */
  function Stay(w: World): Trace {
    Trace([w], [])
  }

  /** The run with one more event. */
  ghost function Then(t: Trace, e: Event): Trace
    requires t.worlds != [] && Enabled(Last(t), e)
  {
    Trace(t.worlds + [After(Last(t), e)], t.events + [e])
  }

  lemma {:induction false} ThenRuns(t: Trace, e: Event)
    requires Run(t) && Enabled(Last(t), e)
    ensures Run(Then(t, e)) && First(Then(t, e)) == First(t) && Last(Then(t, e)) == After(Last(t), e)
  {
    var u := Then(t, e);
    forall i | 0 <= i < |u.events| ensures StepAt(u, i) {
      assert i < |t.events| ==> StepAt(t, i);
    }
  }
}
