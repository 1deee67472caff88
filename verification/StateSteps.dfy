/** Single steps of the state machine's loops, and walks told as runs. */
module StateSteps {
  import opened Tree
  import opened Transactions
  import opened Effects
  import opened Utxo
  import opened Chain
  import opened Touch
  import opened Reversal
  import opened Machine
  import opened Play
  import opened Walk
  import opened Runs
  import opened Finality
  import opened Check
  import opened Checked
  import opened Overlay
  import opened Passing

  /** A batch: the table as it will be once written, and the cache of entries made in it. */
  datatype Batch = Batch(table: Table, made: Table)

  /** What is stored, leaving out the total and the cached balances, which live in memory. */
  datatype Disk = Disk(table: Table, latest: Hash, pool: map<Hash, Tx>, irreversible: nat)

  function OnDisk(m: Machine): Disk {
    Disk(m.cash.table, m.latest, m.pool, m.irreversible)
  }

  lemma {:induction false} MadeStep(txs: seq<Tx>, applied: set<Hash>, n: nat)
    requires n < |txs|
    ensures
      var made := MadeOver(txs[..n], applied);
      MadeOver(txs[..n + 1], applied) == if txs[n].txid in applied then made else Apply(made, Pending(txs[n]))
  {
    assert txs[..n + 1][..n] == txs[..n];
  }

  /** What a block made here has passed, told by the flags of its transactions. */
  lemma {:induction false} MinedPassed(pool: map<Hash, Tx>, c: Cash, txs: seq<Tx>, proposer: Addr)
    requires SameTxs(pool, txs) && PooledByFlags(pool, txs)
    ensures SeenOver(c.table, c, txs, proposer, Ordinary(txs)) ==> PassedHere(pool, c, txs, proposer)
  {
    OrdinaryIsPooled(pool, txs);
    if SeenOver(c.table, c, txs, proposer, Ordinary(txs)) {
      SeenOverSame(c.table, c, txs, proposer, Ordinary(txs), pool.Keys);
    }
  }

  /** Every key was made by one of the first n transactions. */
  ghost predicate MadeFrom(made: Table, txs: seq<Tx>, n: nat) {
    n <= |txs| && forall k :: k in made ==> k.txid in Txids(txs[..n])
  }

  lemma {:induction false} PlayTxsStep(c: Cash, txs: seq<Tx>, n: nat, proposer: Addr, applied: set<Hash>)
    requires n < |txs|
    ensures
      var d := PlayTxs(c, txs[..n], proposer, applied);
      PlayTxs(c, txs[..n + 1], proposer, applied)
        == Utxo.PayFee(if txs[n].txid in applied then d else DoTx(d, txs[n]), txs[n], proposer)
  {
    assert txs[..n + 1][..n] == txs[..n];
  }

  lemma {:induction false} SeenOverStep(stored: Table, c: Cash, now: Table, txs: seq<Tx>, n: nat, proposer: Addr,
        applied: set<Hash>)
    requires n < |txs| && SeenOver(stored, c, txs[..n], proposer, applied)
    requires now == PlayTxs(c, txs[..n], proposer, applied).table
    requires txs[n].txid in applied || Seen(stored, now, txs[n])
    ensures SeenOver(stored, c, txs[..n + 1], proposer, applied)
  {
    assert txs[..n + 1][..n] == txs[..n];
  }

  /** Paying fees overwrites nothing made in the batch, if txids are new. */
  lemma {:induction false} MadeStays(c: Cash, txs: seq<Tx>, n: nat, proposer: Addr, earlier: Table, made: Table)
    requires n < |txs| && DistinctIds(txs)
    requires MadeFrom(earlier, txs, n) && made.Keys <= earlier.Keys + Outs(txs[n]).Keys && Within(made, c.table)
    ensures Within(made, Utxo.PayFee(c, txs[n], proposer).table) && MadeFrom(made, txs, n + 1)
  {
    var tx := txs[n];
    SettledTagged(tx, proposer);
    DoTxTable(c, tx, proposer);
    assert Txids(txs[..n + 1]) == Txids(txs[..n]) + [tx.txid];
    assert tx.txid !in Txids(txs[..n]);
  }

  /** Part way through a block: n transactions have gone through, with the caches as they were. */
  ghost predicate Midway(stored: Table, start: Table, txs: seq<Tx>, n: nat, proposer: Addr, applied: set<Hash>,
        invalid: set<Hash>, height: nat, hots: seq<Table>, clean: bool) {
    && |hots| == n <= |txs| && ErrorTo(stored, txs, applied, invalid, hots, height, n) == None
    && (clean ==> CachesTo(start, txs, proposer, applied, hots))
  }

  /** Transaction n goes through, or the block stops there. */
  lemma {:induction false} Turn(stored: Table, start: Table, txs: seq<Tx>, n: nat, proposer: Addr, applied: set<Hash>,
        invalid: set<Hash>, height: nat, hots: seq<Table>, clean: bool, hot: Table)
    requires Midway(stored, start, txs, n, proposer, applied, invalid, height, hots, clean) && n < |txs|
    requires clean ==> Within(hot, Before(start, txs, proposer, applied, n))
    ensures
      var error, all := TurnError(stored, txs, applied, invalid, hot, height, n), Padded(hots + [hot], |txs|);
      if error == None then Midway(stored, start, txs, n + 1, proposer, applied, invalid, height, hots + [hot], clean)
      else
        && error == BlockError(stored, txs, applied, invalid, all, height)
        && (clean ==> Caches(start, txs, proposer, applied, all))
  {
    ErrorNext(stored, txs, applied, invalid, hots, hot, height, n);
    if clean {
      CachesMore(start, txs, proposer, applied, hots, hot, n);
    }
  }

  lemma {:induction false} ApplyWithin(a: Table, b: Table, e: Effect)
    requires Within(a, b)
    ensures Within(Apply(a, e), Apply(b, e))
  {
  }

  /** What the first n transactions have made is in the batch, and each of them has passed its check. */
  ghost predicate SeenTo(stored: Table, c: Cash, txs: seq<Tx>, n: nat, proposer: Addr, applied: set<Hash>,
        batch: Batch) {
    && n <= |txs| && Within(batch.made, batch.table) && MadeFrom(batch.made, txs, n)
    && SeenOver(stored, c, txs[..n], proposer, applied)
  }

  lemma {:induction false} SeenTurn(stored: Table, c: Cash, txs: seq<Tx>, n: nat, proposer: Addr, applied: set<Hash>,
        batch: Batch, hot: Table, height: nat, d: Cash, after: Batch)
    requires n < |txs| && DistinctIds(txs) && SeenTo(stored, c, txs, n, proposer, applied, batch)
    requires d == PlayTxs(c, txs[..n], proposer, applied) && batch.table == d.table && Within(hot, batch.table)
    requires txs[n].txid in applied || TxVerdict(Sight(hot, batch.made, stored), txs[n], height) == Passed
    requires after.made == (if txs[n].txid in applied then batch.made else Apply(batch.made, Pending(txs[n])))
    requires after.table ==
            Utxo.PayFee(if txs[n].txid in applied then d else Utxo.DoTx(d, txs[n]), txs[n], proposer).table
    ensures SeenTo(stored, c, txs, n + 1, proposer, applied, after)
  {
    var done := if txs[n].txid in applied then d else Utxo.DoTx(d, txs[n]);
    DoTxTable(d, txs[n], proposer);
    ApplyWithin(batch.made, batch.table, Pending(txs[n]));
    MadeStays(done, txs, n, proposer, batch.made, after.made);
    if txs[n].txid !in applied {
      PassedIsSeen(Sight(hot, batch.made, stored), batch.table, txs[n], height);
    }
    SeenOverStep(stored, c, batch.table, txs, n, proposer, applied);
  }

  /** The cash before and after transaction n. */
  lemma {:induction false} TurnTables(c: Cash, txs: seq<Tx>, n: nat, proposer: Addr, applied: set<Hash>, d: Cash)
    requires n < |txs| && d == PlayTxs(c, txs[..n], proposer, applied)
    ensures d.table == Before(c.table, txs, proposer, applied, n)
    ensures Utxo.PayFee(if txs[n].txid in applied then d else Utxo.DoTx(d, txs[n]), txs[n], proposer) ==
            PlayTxs(c, txs[..n + 1], proposer, applied)
  {
    PlayThrough(c, txs[..n], proposer, applied);
    PlayTxsStep(c, txs, n, proposer, applied);
  }

  lemma {:induction false} OrderListsPool(pool: map<Hash, Tx>, order: seq<Tx>)
    requires DependencyOrder(pool, order)
    ensures IdSet(order) == pool.Keys
    decreases |order|
  {
    if order != [] {
      OrderListsPool(pool - {order[|order| - 1].txid}, order[..|order| - 1]);
      IdSetMore(order);
    }
  }

  // ----- Walks as runs

  /** The run starts in m and ends in now, or at least in what of it is stored. */
  ghost predicate Traced(v: View, m: Machine, run: Trace, now: Machine, exactly: bool) {
    && Run(run) && First(run) == World(v, m) && Last(run).view == v
    && OnDisk(now) == OnDisk(Last(run).machine)
    && (exactly ==> now == Last(run).machine)
  }

  /** The first n blocks of the chain of m are undone. */
  ghost predicate UndoneTo(v: View, m: Machine, undo: seq<Hash>, skip: set<Hash>, f: nat, n: nat, run: Trace,
        now: Machine) {
    && Forest(Nodes(v)) && m.latest in v && f + |undo| == v[m.latest].height && n <= |undo|
    && undo == ChainDown(Nodes(v), m.latest, f)
    && now.latest == Anc(Nodes(v), m.latest, v[m.latest].height - n)
    && now == UndoAll(v, m, undo[..n], skip)
    && Traced(v, m, run, now, true)
  }

  lemma {:induction false} ChainAt(v: View, b: Hash, f: nat, n: nat, h: nat)
    requires Forest(Nodes(v)) && b in v && f <= h < v[b].height && n + h + 1 == v[b].height
    ensures
      var c := ChainDown(Nodes(v), b, f)[n];
      c == Anc(Nodes(v), b, h + 1) && c in v && v[c].pre == Anc(Nodes(v), b, h) && v[c].pre in v
  {
    AncStep(Nodes(v), b, h);
  }

  lemma {:induction false} TraceMore(v: View, m: Machine, run: Trace, now: Machine, e: Event)
    requires Traced(v, m, run, now, true) && Enabled(World(v, now), e) && !e.Extended?
    ensures Traced(v, m, Then(run, e), After(World(v, now), e).machine, true)
  {
    assert Last(run) == World(v, now);
    ThenRuns(run, e);
  }

  lemma {:induction false} UndoneStep(v: View, m: Machine, undo: seq<Hash>, skip: set<Hash>, f: nat, n: nat,
        run: Trace, now: Machine)
    requires UndoneTo(v, m, undo, skip, f, n, run, now) && n < |undo|
    ensures undo[n] == now.latest && undo[n] in v && v[undo[n]].pre in v
    ensures v[undo[n]].height > now.irreversible ==>
              UndoneTo(v, m, undo, skip, f, n + 1, Then(run, Undone(skip)), UndoBlock(now, v[undo[n]], skip))
  {
    ChainAt(v, m.latest, f, n, v[m.latest].height - n - 1);
    assert undo[..n + 1][..n] == undo[..n];
    if v[undo[n]].height > now.irreversible {
      TraceMore(v, m, run, now, Undone(skip));
    }
  }

  lemma {:induction false} UndoneStart(v: View, m: Machine, undo: seq<Hash>, skip: set<Hash>, f: nat)
    requires Forest(Nodes(v)) && m.latest in v && f <= v[m.latest].height && undo == ChainDown(Nodes(v), m.latest, f)
    ensures UndoneTo(v, m, undo, skip, f, 0, Stay(World(v, m)), m)
  {
  }

  lemma {:induction false} UndoneEnd(v: View, m: Machine, undo: seq<Hash>, skip: set<Hash>, f: nat, run: Trace,
        now: Machine)
    requires UndoneTo(v, m, undo, skip, f, |undo|, run, now)
    ensures now == UndoAll(v, m, undo, skip) && now.latest == Anc(Nodes(v), m.latest, f) && Traced(v, m, run, now, true)
  {
    assert undo[..|undo|] == undo;
  }

  /** If the blocks still to be done pass their checks, all of them do. */
  ghost predicate SeenSoFar(v: View, start: Machine, todo: seq<Hash>, n: nat, now: Machine, window: nat) {
    && n <= |todo| && (forall i :: 0 <= i < |todo| ==> todo[i] in v)
    && (TodoSeen(v, now, todo[..n], window) ==> TodoSeen(v, start, todo, window))
  }

  lemma {:induction false} SeenSoFarStep(v: View, start: Machine, todo: seq<Hash>, i: nat, n: nat, now: Machine,
        window: nat, b: Hash)
    requires i + 1 == n && SeenSoFar(v, start, todo, n, now, window) && b == todo[i]
    requires DistinctIds(v[b].txs) ==> AllSeen(now.cash.table, v[b].txs, v[b].proposer)
    ensures SeenSoFar(v, start, todo, i,
                      DoBlock(now, b, v[b], NextIrreversible(v[b].height, now.irreversible, window)), window)
  {
    assert todo[..n][..i] == todo[..i];
  }

  /** The chain of dest is done but for its first n blocks; if seen, those done passed their checks. */
  ghost predicate DoneTo(v: View, m: Machine, start: Machine, dest: Hash, todo: seq<Hash>, f: nat, n: nat, run: Trace,
        now: Machine, window: nat, seen: bool) {
    && Forest(Nodes(v)) && dest in v && f + |todo| == v[dest].height && n <= |todo|
    && todo == ChainDown(Nodes(v), dest, f)
    && now.latest == Anc(Nodes(v), dest, v[dest].height - n)
    && TodoAll(v, now, todo[..n], window) == TodoAll(v, start, todo, window)
    && (seen ==> SeenSoFar(v, start, todo, n, now, window))
    && Traced(v, m, run, now, true)
  }

  lemma {:induction false} DoneStart(v: View, m: Machine, start: Machine, dest: Hash, todo: seq<Hash>, f: nat,
        run: Trace, window: nat)
    requires Forest(Nodes(v)) && dest in v && f <= v[dest].height && todo == ChainDown(Nodes(v), dest, f)
    requires start.latest == Anc(Nodes(v), dest, f) && Traced(v, m, run, start, true)
    ensures DoneTo(v, m, start, dest, todo, f, |todo|, run, start, window, true)
  {
    assert todo[..|todo|] == todo;
  }

  lemma {:induction false} DoneNext(v: View, m: Machine, start: Machine, dest: Hash, todo: seq<Hash>, f: nat, n: nat,
        run: Trace, now: Machine, window: nat, seen: bool)
    requires DoneTo(v, m, start, dest, todo, f, n, run, now, window, seen) && 0 < n
    ensures todo[n - 1] in v && v[todo[n - 1]].pre == now.latest
  {
    ChainAt(v, dest, f, n - 1, v[dest].height - n);
  }

  lemma {:induction false} DoneStep(v: View, m: Machine, start: Machine, dest: Hash, todo: seq<Hash>, f: nat, i: nat,
        n: nat, run: Trace, now: Machine, window: nat, seen: bool, b: Hash)
    requires DoneTo(v, m, start, dest, todo, f, n, run, now, window, seen) && i + 1 == n && b == todo[i] && b in v
    requires seen && DistinctIds(v[b].txs) ==> AllSeen(now.cash.table, v[b].txs, v[b].proposer)
    ensures v[b].pre == now.latest
    ensures DoneTo(v, m, start, dest, todo, f, i, Then(run, Done(b, window)),
                   DoBlock(now, b, v[b], NextIrreversible(v[b].height, now.irreversible, window)), window, seen)
  {
    ChainAt(v, dest, f, i, v[dest].height - n);
    assert todo[..n][..i] == todo[..i];
    TraceMore(v, m, run, now, Done(b, window));
    if seen {
      SeenSoFarStep(v, start, todo, i, n, now, window, b);
    }
  }

  lemma {:induction false} DoneEnd(v: View, m: Machine, start: Machine, dest: Hash, todo: seq<Hash>, f: nat,
        run: Trace, now: Machine, window: nat, seen: bool)
    requires DoneTo(v, m, start, dest, todo, f, 0, run, now, window, seen)
    ensures now == TodoAll(v, start, todo, window) && now.latest == dest
    ensures seen ==> TodoSeen(v, start, todo, window)
  {
  }

  /** A route is ready to be walked. */
  lemma {:induction false} RouteReady(v: View, root: Hash, r: Machine, dest: Hash, undo: seq<Hash>, todo: seq<Hash>,
        skip: set<Hash>, f: nat)
    requires Route(v, root, r, dest, undo, todo) && f == Fork(Nodes(v), root, r.latest, dest)
    ensures UndoneTo(v, r, undo, skip, f, 0, Stay(World(v, r)), r)
    ensures f <= v[dest].height && todo == ChainDown(Nodes(v), dest, f)
    ensures Anc(Nodes(v), r.latest, f) == Anc(Nodes(v), dest, f)
    ensures (forall i :: 0 <= i < |undo| ==> undo[i] in v) && (forall i :: 0 <= i < |todo| ==> todo[i] in v)
  {
    RouteFalls(v, root, r, dest, undo, todo);
    UndoneStart(v, r, undo, skip, f);
  }

  /** The run of a rollback. */
  ghost function RollbackRun(v: View, m: Machine, order: seq<Tx>): Trace {
    Then(Then(Stay(World(v, m)), RolledBack(order)), Forgotten)
  }

  lemma {:induction false} RollbackTraced(v: View, m: Machine, order: seq<Tx>)
    ensures Traced(v, m, RollbackRun(v, m, order), Forget(Rollback(m, order)), true)
  {
    var stay := Stay(World(v, m));
    ThenRuns(stay, RolledBack(order));
    ThenRuns(Then(stay, RolledBack(order)), Forgotten);
  }

  /** One run after another. */
  function Spliced(t: Trace, u: Trace): Trace
    requires u.worlds != []
  {
    Trace(t.worlds + u.worlds[1..], t.events + u.events)
  }

  lemma {:induction false} TracedThen(v: View, m: Machine, run: Trace, between: Machine, more: Trace, now: Machine,
        exactly: bool)
    requires Traced(v, m, run, between, true) && Traced(v, between, more, now, exactly)
    ensures Traced(v, m, Spliced(run, more), now, exactly)
  {
    var t, n := Spliced(run, more), |run.events|;
    assert Last(run) == First(more);
    forall i | 0 <= i < |t.events| ensures StepAt(t, i) {
      if i < n {
        assert StepAt(run, i);
      } else {
        assert StepAt(more, i - n);
        assert t.worlds[i] == more.worlds[i - n] && t.worlds[i + 1] == more.worlds[i - n + 1];
      }
    }
  }

  /** The machine is where a complete walk to dest ends, and every block redone on the way passed its check. */
  ghost predicate WalkedTo(v: View, root: Hash, m: Machine, order: seq<Tx>, dest: Hash, window: nat, undo: seq<Hash>,
        todo: seq<Hash>, now: Machine) {
    Route(v, root, m, dest, undo, todo) && now == WalkTo(v, m, order, undo, todo, window)
  }

  /** The same, with the checks the redone blocks passed. */
  ghost predicate CheckedTo(v: View, root: Hash, m: Machine, order: seq<Tx>, dest: Hash, window: nat, undo: seq<Hash>,
        todo: seq<Hash>) {
    Route(v, root, m, dest, undo, todo) && TodoSeen(v, Descended(v, m, order, undo), todo, window)
  }

  ghost function Among(t: Table, keys: set<Key>): Table {
    map k | k in t && k in keys :: t[k]
  }

  // ----- When a walk gets through

  /** Block i of the list goes through in its turn, where hots has the cache at each transaction. */
  ghost predicate GoesAt(v: View, start: Machine, todo: seq<Hash>, window: nat, invalid: set<Hash>, height: nat,
        hots: seq<Table>, i: nat)
    requires forall j :: 0 <= j < |todo| ==> todo[j] in v
  {
    && i < |todo| && |hots| == |v[todo[i]].txs|
    && var t := TodoAll(v, start, todo[i + 1..], window).cash.table;
       BlockError(t, v[todo[i]].txs, {}, invalid, hots, height) == None
  }

  /** The cache shows nothing but what is there in the turns of block i. */
  ghost predicate CachedAt(v: View, start: Machine, todo: seq<Hash>, window: nat, hots: seq<Table>, i: nat)
    requires forall j :: 0 <= j < |todo| ==> todo[j] in v
  {
    && i < |todo|
    && Caches(TodoAll(v, start, todo[i + 1..], window).cash.table, v[todo[i]].txs, v[todo[i]].proposer, {}, hots)
  }

  /** The caches of all blocks, as far as they are recorded. */
  ghost predicate Recorded(v: View, start: Machine, todo: seq<Hash>, window: nat, hots: seq<seq<Table>>, seen: bool) {
    && |hots| == |todo| && (forall i :: 0 <= i < |todo| ==> todo[i] in v && |hots[i]| == |v[todo[i]].txs|)
    && (seen ==> forall i :: 0 <= i < |todo| ==> CachedAt(v, start, todo, window, hots[i], i))
  }

  /** All blocks to be redone go through. */
  ghost predicate AllGo(v: View, start: Machine, todo: seq<Hash>, window: nat, invalid: set<Hash>, height: nat,
        hots: seq<seq<Table>>) {
    && |hots| == |todo| && (forall i :: 0 <= i < |todo| ==> todo[i] in v)
    && forall i :: 0 <= i < |todo| ==> GoesAt(v, start, todo, window, invalid, height, hots[i], i)
  }

  /** No caches recorded yet. */
  ghost function Blank(v: View, todo: seq<Hash>): seq<seq<Table>> {
    seq(|todo|, i requires 0 <= i < |todo| => if todo[i] in v then NoCache(v[todo[i]].txs) else [])
  }

  lemma {:induction false} BlankRecorded(v: View, start: Machine, todo: seq<Hash>, window: nat, seen: bool)
    requires forall i :: 0 <= i < |todo| ==> todo[i] in v
    ensures Recorded(v, start, todo, window, Blank(v, todo), seen)
  {
  }

  lemma {:induction false} TodoAllFront(v: View, m: Machine, list: seq<Hash>, window: nat)
    requires list != [] && forall i :: 0 <= i < |list| ==> list[i] in v
    ensures
      var d, b := TodoAll(v, m, list[1..], window), list[0];
      TodoAll(v, m, list, window) == DoBlock(d, b, v[b], NextIrreversible(v[b].height, d.irreversible, window))
    decreases |list|
  {
    var n := |list| - 1;
    var b := list[n];
    if n > 0 {
      TodoAllFront(v, DoBlock(m, b, v[b], NextIrreversible(v[b].height, m.irreversible, window)), list[..n], window);
      assert list[..n][1..] == list[1..][..n - 1] && list[1..][n - 1] == b;
    }
  }

  /** All but the first n blocks have gone through. */
  ghost predicate GoneTo(v: View, start: Machine, todo: seq<Hash>, n: nat, now: Machine, window: nat,
        invalid: set<Hash>, height: nat, hots: seq<seq<Table>>, seen: bool) {
    && n <= |todo| && Recorded(v, start, todo, window, hots, seen) && now == TodoAll(v, start, todo[n..], window)
    && forall i :: n <= i < |todo| ==> GoesAt(v, start, todo, window, invalid, height, hots[i], i)
  }

  lemma {:induction false} GoneStart(v: View, start: Machine, todo: seq<Hash>, window: nat, invalid: set<Hash>,
        height: nat, seen: bool)
    requires forall i :: 0 <= i < |todo| ==> todo[i] in v
    ensures GoneTo(v, start, todo, |todo|, start, window, invalid, height, Blank(v, todo), seen)
  {
    BlankRecorded(v, start, todo, window, seen);
    assert todo[|todo|..] == [];
  }

  lemma {:induction false} RecordMore(v: View, start: Machine, todo: seq<Hash>, n: nat, window: nat,
        hots: seq<seq<Table>>, seen: bool, hot: seq<Table>)
    requires Recorded(v, start, todo, window, hots, seen) && n < |todo| && |hot| == |v[todo[n]].txs|
    requires seen ==> CachedAt(v, start, todo, window, hot, n)
    ensures Recorded(v, start, todo, window, hots[n := hot], seen)
  {
  }

  /** One more block: it goes through and the walk goes on, or the walk stops here. */
  lemma {:induction false} GoneStep(v: View, start: Machine, todo: seq<Hash>, n: nat, left: nat, now: Machine,
        window: nat, invalid: set<Hash>, height: nat, hots: seq<seq<Table>>, seen: bool, b: Hash, hot: seq<Table>)
    requires GoneTo(v, start, todo, left, now, window, invalid, height, hots, seen) && n + 1 == left && b == todo[n]
    requires |hot| == |v[b].txs| && (seen ==> Caches(now.cash.table, v[b].txs, v[b].proposer, {}, hot))
    ensures Recorded(v, start, todo, window, hots[n := hot], seen)
    ensures
      var gone := BlockError(now.cash.table, v[b].txs, {}, invalid, hot, height) == None;
      if gone then
        GoneTo(v, start, todo, n, DoBlock(now, b, v[b], NextIrreversible(v[b].height, now.irreversible, window)),
               window, invalid, height, hots[n := hot], seen)
      else !AllGo(v, start, todo, window, invalid, height, hots[n := hot])
  {
    RecordMore(v, start, todo, n, window, hots, seen, hot);
    TodoAllFront(v, start, todo[n..], window);
    assert todo[n..][1..] == todo[n + 1..];
    var next := hots[n := hot];
    assert GoesAt(v, start, todo, window, invalid, height, hot, n) <==>
        BlockError(now.cash.table, v[b].txs, {}, invalid, hot, height) == None;
    if !GoesAt(v, start, todo, window, invalid, height, hot, n) {
      assert next[n] == hot;
    }
  }

  lemma {:induction false} GoneEnd(v: View, start: Machine, todo: seq<Hash>, now: Machine, window: nat,
        invalid: set<Hash>, height: nat, hots: seq<seq<Table>>, seen: bool)
    requires GoneTo(v, start, todo, 0, now, window, invalid, height, hots, seen)
    ensures AllGo(v, start, todo, window, invalid, height, hots)
  {
  }

  /** Where the redoing of blocks began and leads to, and what it depends on. */
  datatype Way = Way(origin: Machine, start: Machine, dest: Hash, base: nat, window: nat, invalid: set<Hash>,
                     height: nat, seen: bool)

  /** All but the first n blocks have been redone. */
  ghost predicate OnTheWay(v: View, todo: seq<Hash>, n: nat, w: Way, run: Trace, now: Machine, hots: seq<seq<Table>>) {
    && DoneTo(v, w.origin, w.start, w.dest, todo, w.base, n, run, now, w.window, w.seen)
    && GoneTo(v, w.start, todo, n, now, w.window, w.invalid, w.height, hots, w.seen)
  }

  lemma {:induction false} StartOnTheWay(v: View, todo: seq<Hash>, w: Way, run: Trace)
    requires DoneTo(v, w.origin, w.start, w.dest, todo, w.base, |todo|, run, w.start, w.window, true)
    requires forall i :: 0 <= i < |todo| ==> todo[i] in v
    ensures OnTheWay(v, todo, |todo|, w, run, w.start, Blank(v, todo))
  {
    GoneStart(v, w.start, todo, w.window, w.invalid, w.height, w.seen);
  }

  lemma {:induction false} NextOnTheWay(v: View, todo: seq<Hash>, n: nat, left: nat, w: Way, run: Trace, now: Machine,
        hots: seq<seq<Table>>)
    requires n + 1 == left <= |todo| && OnTheWay(v, todo, left, w, run, now, hots)
    ensures todo[n] in v && v[todo[n]].pre == now.latest && |hots| == |todo|
  {
    DoneNext(v, w.origin, w.start, w.dest, todo, w.base, left, run, now, w.window, w.seen);
  }

  lemma {:induction false} StepOnTheWay(v: View, todo: seq<Hash>, n: nat, left: nat, w: Way, run: Trace, now: Machine,
        hots: seq<seq<Table>>, b: Hash, hot: seq<Table>)
    requires n + 1 == left <= |todo| && OnTheWay(v, todo, left, w, run, now, hots)
    requires b == todo[n] && b in v && |hots| == |todo|
    requires |hot| == |v[b].txs| && (w.seen ==> Caches(now.cash.table, v[b].txs, v[b].proposer, {}, hot))
    ensures Traced(v, w.origin, run, now, true)
    ensures Recorded(v, w.start, todo, w.window, hots[n := hot], w.seen)
    ensures
      if BlockError(now.cash.table, v[b].txs, {}, w.invalid, hot, w.height) == None then
        && v[b].pre == now.latest
        && (w.seen && DistinctIds(v[b].txs) ==> AllSeen(now.cash.table, v[b].txs, v[b].proposer)) ==>
           OnTheWay(v, todo, n, w, Then(run, Done(b, w.window)),
                    DoBlock(now, b, v[b], NextIrreversible(v[b].height, now.irreversible, w.window)), hots[n := hot])
      else !AllGo(v, w.start, todo, w.window, w.invalid, w.height, hots[n := hot])
  {
    DoneNext(v, w.origin, w.start, w.dest, todo, w.base, left, run, now, w.window, w.seen);
    GoneStep(v, w.start, todo, n, left, now, w.window, w.invalid, w.height, hots, w.seen, b, hot);
    if w.seen && DistinctIds(v[b].txs) ==> AllSeen(now.cash.table, v[b].txs, v[b].proposer) {
      DoneStep(v, w.origin, w.start, w.dest, todo, w.base, n, left, run, now, w.window, w.seen, b);
    }
  }

  lemma {:induction false} EndOnTheWay(v: View, todo: seq<Hash>, w: Way, run: Trace, now: Machine,
        hots: seq<seq<Table>>)
    requires OnTheWay(v, todo, 0, w, run, now, hots)
    ensures AllGo(v, w.start, todo, w.window, w.invalid, w.height, hots)
    ensures Recorded(v, w.start, todo, w.window, hots, w.seen) && Traced(v, w.origin, run, now, true)
    ensures DoneTo(v, w.origin, w.start, w.dest, todo, w.base, 0, run, now, w.window, w.seen)
  {
    GoneEnd(v, w.start, todo, now, w.window, w.invalid, w.height, hots, w.seen);
  }

  /** The blocks are above the irreversible height. */
  ghost predicate UndoableAll(v: View, undo: seq<Hash>, irreversible: nat) {
    forall i :: 0 <= i < |undo| ==> undo[i] in v && v[undo[i]].height > irreversible
  }

  /** Undoing and redoing get through. */
  ghost predicate BlocksGo(v: View, r: Machine, undo: seq<Hash>, todo: seq<Hash>, skip: set<Hash>, window: int,
        invalid: set<Hash>, height: nat, hots: seq<seq<Table>>) {
    && UndoableAll(v, undo, r.irreversible) && (todo != [] ==> window >= 0)
    && AllGo(v, UndoAll(v, r, undo, skip), todo, if window < 0 then 0 else window, invalid, height, hots)
  }

  /** The walk can be completed: every block on the way down is above the irreversible height, the window is not
      negative if there is anything to redo, and every block on the way up goes through. */
  ghost predicate WalkGoes(v: View, root: Hash, m: Machine, order: seq<Tx>, dest: Hash, undo: seq<Hash>,
        todo: seq<Hash>, window: int, invalid: set<Hash>, height: nat, hots: seq<seq<Table>>) {
    && Route(v, root, m, dest, undo, todo)
    && BlocksGo(v, Forget(Rollback(m, order)), undo, todo, m.pool.Keys, window, invalid, height, hots)
  }

  /** What undoing and redoing left: the caches met on the way up and, if all went through, the machine now; if the
      caches were in step before, they still are, and every redone block has passed its checks. */
  ghost predicate Walked(v: View, r: Machine, undo: seq<Hash>, todo: seq<Hash>, skip: set<Hash>, window: nat,
        hots: seq<seq<Table>>, seen: bool, ok: bool, now: Machine, still: bool) {
    && (forall i :: 0 <= i < |undo| ==> undo[i] in v)
    && Recorded(v, UndoAll(v, r, undo, skip), todo, window, hots, seen)
    && (ok ==>
          && now == TodoAll(v, UndoAll(v, r, undo, skip), todo, window)
          && (seen ==> still && TodoSeen(v, UndoAll(v, r, undo, skip), todo, window)))
  }

  /** The caches recorded on the way up show nothing but what is there. */
  ghost predicate RecordedWalk(v: View, m: Machine, order: seq<Tx>, undo: seq<Hash>, todo: seq<Hash>, window: nat,
        hots: seq<seq<Table>>, seen: bool) {
    && (forall i :: 0 <= i < |undo| ==> undo[i] in v)
    && Recorded(v, Descended(v, m, order, undo), todo, window, hots, seen)
  }

  /** The route depends only on where the machine is. */
  lemma {:induction false} SameRoute(v: View, root: Hash, r: Machine, m: Machine, dest: Hash, undo: seq<Hash>,
        todo: seq<Hash>)
    requires r.latest == m.latest && Route(v, root, r, dest, undo, todo)
    ensures Route(v, root, m, dest, undo, todo)
  {
  }

  // ----- What follows for walks

  /** Whether a walk completes or fails part way, it leaves the applied blocks at and below the irreversible height. */
  lemma {:induction false} WalkFinal(v: View, m: Machine, run: Trace, now: Machine, exactly: bool, h: nat, b: Hash)
    requires Traced(v, m, run, now, exactly) && Anchored(World(v, m))
    requires h <= m.irreversible && AppliedAt(World(v, m), h, b)
    ensures AppliedAt(World(v, now), h, b)
  {
    IrreversibleStays(run, 0, |run.worlds| - 1, h, b);
  }

  /** A completed walk ends with nothing pending, the total of its destination's chain and, if and only if what it undid
      was recorded as it was or is touched again by what it redid, that chain's table. */
  lemma {:induction false} WalkedReplaysIff(v: View, root: Hash, m: Machine, order: seq<Tx>, dest: Hash, window: nat,
        undo: seq<Hash>, todo: seq<Hash>, now: Machine)
    requires WalkedTo(v, root, m, order, dest, window, undo, todo, now) && Replayed(v, m)
    requires DependencyOrder(m.pool, order)
    ensures now.latest == dest && now.pool == map[] && now.cash.total == TotalAt(v, dest)
    ensures now.cash.table == TableAt(v, dest) <==>
            forall k :: RecoveredAt(TableAt(v, Meet(v, root, m, dest)), EffectsDown(v, undo), EffectsDown(v, todo), k)
  {
    WalkReplaysIff(v, root, m, order, dest, undo, todo, window);
  }

  /** A completed walk of a valid machine ends in the replay of its destination, valid or not. */
  lemma {:induction false} WalkedReplays(v: View, root: Hash, m: Machine, order: seq<Tx>, dest: Hash, window: nat,
        undo: seq<Hash>, todo: seq<Hash>, now: Machine)
    requires WalkedTo(v, root, m, order, dest, window, undo, todo, now) && Faithful(v, m)
    requires DependencyOrder(m.pool, order)
    ensures now.cash.table == TableAt(v, dest) && now.cash.total == TotalAt(v, dest)
    ensures ChainFits(v, dest) ==> Faithful(v, now)
  {
    ValidWalkReplays(v, root, m, order, dest, undo, todo, window);
  }

  /** A completed walk of a valid machine, with nothing shown by the caches but what is stored, leaves a valid machine
      if and only if every block it redid spends nothing twice and declares frozen heights as recorded. */
  lemma {:induction false} WalkedValidIff(v: View, root: Hash, m: Machine, order: seq<Tx>, dest: Hash, window: nat,
        undo: seq<Hash>, todo: seq<Hash>, now: Machine)
    requires WalkedTo(v, root, m, order, dest, window, undo, todo, now) && Faithful(v, m)
    requires CheckedTo(v, root, m, order, dest, window, undo, todo)
    requires DependencyOrder(m.pool, order) && forall b :: b in todo ==> NewBlock(v, b)
    ensures Faithful(v, now) <==> forall b :: b in todo ==> CleanBlock(v, b)
  {
    WalkValidIff(v, root, m, order, dest, undo, todo, window);
  }

  // ----- Which walks get through whatever the cache has dropped

  /** The table a redone block meets is the replay of its parent's chain. */
  lemma {:induction false} RedoTable(v: View, u: Machine, todo: seq<Hash>, window: nat, i: nat)
    requires Falling(v, todo) && i < |todo| && Replayed(v, u) && u.pool == map[] && u.latest == Foot(v, todo)
    ensures At(v, v[todo[i]].pre)
    ensures TodoAll(v, u, todo[i + 1..], window).cash.table == TableAt(v, v[todo[i]].pre)
  {
    var rest := todo[i + 1..];
    if rest == [] {
      ReplayAlone(v, u);
    } else {
      assert rest[0] == todo[i + 1] && rest[|rest| - 1] == todo[|todo| - 1];
      assert Falling(v, rest) && Foot(v, rest) == Foot(v, todo);
      TodoAllReplayed(v, u, rest, window);
      TodoAllThrough(v, u, rest, window);
      ReplayAlone(v, TodoAll(v, u, rest, window));
    }
  }

  /** The block goes through on its parent's table whatever the cache has dropped. */
  ghost predicate SureBlock(v: View, b: Hash, invalid: set<Hash>, height: nat) {
    && b in v && At(v, v[b].pre)
    && var t := TableAt(v, v[b].pre);
       forall n :: 0 <= n < |v[b].txs| ==> SureAt(t, t, v[b].txs, v[b].proposer, {}, invalid, height, n)
  }

  lemma {:induction false} SureBlockGoes(v: View, u: Machine, todo: seq<Hash>, window: nat, invalid: set<Hash>,
        height: nat, hot: seq<Table>, i: nat)
    requires Falling(v, todo) && i < |todo| && Replayed(v, u) && u.pool == map[] && u.latest == Foot(v, todo)
    requires CachedAt(v, u, todo, window, hot, i) && SureBlock(v, todo[i], invalid, height)
    ensures GoesAt(v, u, todo, window, invalid, height, hot, i)
  {
    var blk := v[todo[i]];
    var t := TableAt(v, blk.pre);
    RedoTable(v, u, todo, window, i);
    AlwaysGoesIff(t, t, blk.txs, blk.proposer, {}, invalid, height);
  }

  lemma {:induction false} GoingBlockIsSure(v: View, u: Machine, todo: seq<Hash>, window: nat, invalid: set<Hash>,
        height: nat, i: nat)
    requires Falling(v, todo) && i < |todo| && Replayed(v, u) && u.pool == map[] && u.latest == Foot(v, todo)
    requires forall hots :: Recorded(v, u, todo, window, hots, true) ==>
               AllGo(v, u, todo, window, invalid, height, hots)
    ensures SureBlock(v, todo[i], invalid, height)
  {
    var blk := v[todo[i]];
    RedoTable(v, u, todo, window, i);
    var t := TableAt(v, blk.pre);
    forall hot | Caches(t, blk.txs, blk.proposer, {}, hot)
      ensures BlockError(t, blk.txs, {}, invalid, hot, height) == None
    {
      BlankRecorded(v, u, todo, window, true);
      RecordMore(v, u, todo, i, window, Blank(v, todo), true, hot);
      var hots := Blank(v, todo)[i := hot];
      assert AllGo(v, u, todo, window, invalid, height, hots);
      assert GoesAt(v, u, todo, window, invalid, height, hots[i], i);
    }
    AlwaysGoesIff(t, t, blk.txs, blk.proposer, {}, invalid, height);
  }

  lemma {:induction false} RedoneGoIff(v: View, u: Machine, todo: seq<Hash>, window: nat, invalid: set<Hash>,
        height: nat)
    requires Falling(v, todo) && Replayed(v, u) && u.pool == map[] && (todo != [] ==> u.latest == Foot(v, todo))
    ensures (forall hots :: Recorded(v, u, todo, window, hots, true) ==>
               AllGo(v, u, todo, window, invalid, height, hots))
            <==> forall b :: b in todo ==> SureBlock(v, b, invalid, height)
  {
    if forall b :: b in todo ==> SureBlock(v, b, invalid, height) {
      forall hots | Recorded(v, u, todo, window, hots, true) ensures AllGo(v, u, todo, window, invalid, height, hots) {
        forall i | 0 <= i < |todo| ensures GoesAt(v, u, todo, window, invalid, height, hots[i], i) {
          assert todo[i] in todo;
          SureBlockGoes(v, u, todo, window, invalid, height, hots[i], i);
        }
      }
    }
    if forall hots :: Recorded(v, u, todo, window, hots, true) ==> AllGo(v, u, todo, window, invalid, height, hots) {
      forall b | b in todo ensures SureBlock(v, b, invalid, height) {
        var i :| 0 <= i < |todo| && todo[i] == b;
        GoingBlockIsSure(v, u, todo, window, invalid, height, i);
      }
    }
  }

  /** A walk of a valid machine is completed whatever the cache has dropped, if and only if every undone block is above
      the irreversible height, the window is not negative if there is anything to redo, and every redone block is sure
      to go through on its parent's table. */
  lemma {:induction false} WalkGoesIff(v: View, root: Hash, m: Machine, order: seq<Tx>, dest: Hash, undo: seq<Hash>,
        todo: seq<Hash>, window: int, invalid: set<Hash>, height: nat)
    requires Faithful(v, m) && DependencyOrder(m.pool, order) && Route(v, root, m, dest, undo, todo)
    ensures (forall hots :: RecordedWalk(v, m, order, undo, todo, if window < 0 then 0 else window, hots, true) ==>
               WalkGoes(v, root, m, order, dest, undo, todo, window, invalid, height, hots))
            <==>
            && UndoableAll(v, undo, m.irreversible) && (todo != [] ==> window >= 0)
            && forall b :: b in todo ==> SureBlock(v, b, invalid, height)
  {
    var w: nat := if window < 0 then 0 else window;
    RouteFalls(v, root, m, dest, undo, todo);
    DescendedStanding(v, root, m, order, dest, undo, todo);
    var u := Descended(v, m, order, undo);
    RedoneGoIff(v, u, todo, w, invalid, height);
    BlankRecorded(v, u, todo, w, true);
    assert RecordedWalk(v, m, order, undo, todo, w, Blank(v, todo), true);
    forall hots
      ensures RecordedWalk(v, m, order, undo, todo, w, hots, true) <==> Recorded(v, u, todo, w, hots, true)
      ensures WalkGoes(v, root, m, order, dest, undo, todo, window, invalid, height, hots) <==>
              && UndoableAll(v, undo, m.irreversible) && (todo != [] ==> window >= 0)
              && AllGo(v, u, todo, w, invalid, height, hots)
    {
    }
  }

  /** A valid block is sure to go through if and only if none of its transactions is refused, it spends nothing frozen,
      and it spends no fee that it pays itself. */
  lemma {:induction false} ValidBlockSureIff(v: View, b: Hash, invalid: set<Hash>, height: nat)
    requires b in v && At(v, v[b].pre) && BlockFits(TableAt(v, v[b].pre), v[b].txs, v[b].proposer)
    ensures SureBlock(v, b, invalid, height) <==>
            forall n :: 0 <= n < |v[b].txs| ==> ClearAt(v[b].txs, v[b].proposer, invalid, height, n)
  {
    forall n | 0 <= n < |v[b].txs|
      ensures SureAt(TableAt(v, v[b].pre), TableAt(v, v[b].pre), v[b].txs, v[b].proposer, {}, invalid, height, n)
              <==> ClearAt(v[b].txs, v[b].proposer, invalid, height, n)
    {
      SureIsClear(TableAt(v, v[b].pre), v[b].txs, v[b].proposer, invalid, height, n);
    }
  }
}
