/** The search of the pool for transactions in conflict with a block: from each spender of a key the block spends, depth
    first through the spenders of outputs, children before parents. */
module Mempool {
  import opened Tree
  import opened Transactions
  import opened Effects
  import opened Utxo
  import opened Worth
  import opened Chain
  import opened Machine
  import opened Play

  type Pool = map<Hash, Tx>

  /** The links of the pool: each spent key leads to the one transaction that spends it. */
  ghost predicate SpendersKnown(pool: Pool, spender: map<Key, Hash>) {
    && (forall id :: id in pool ==> pool[id].txid == id)
    && (forall k :: k in spender ==> spender[k] in pool && k in Spent(pool[spender[k]]))
    && (forall id, k :: id in pool && k in Spent(pool[id]) ==> k in spender && spender[k] == id)
  }

  /** A key of a pool transaction that the pool spends is one of its outputs. */
  ghost predicate Fed(pool: Pool) {
    forall id, k :: id in pool && k in Spent(pool[id]) && k.txid in pool ==> k in Outs(pool[k.txid])
  }

  /** No transaction depends on itself through others: ranks grow from parent to child. */
  ghost predicate Ranked(pool: Pool, rank: map<Hash, nat>, bound: nat) {
    && (forall id :: id in pool ==> id in rank && rank[id] < bound)
    && (forall a, b :: a in pool && b in pool && DependsOn(pool[a], pool[b]) ==> rank[a] > rank[b])
  }

  ghost predicate FromPool(pool: Pool, list: seq<Tx>) {
    forall i :: 0 <= i < |list| ==> list[i].txid in pool && pool[list[i].txid] == list[i]
  }

  /** Whatever depends on a listed transaction is listed before it. */
  ghost predicate ChildrenFirst(pool: Pool, list: seq<Tx>) {
    forall i {:trigger ChildrenAt(pool, list, i)} :: 0 <= i < |list| ==> ChildrenAt(pool, list, i)
  }

  ghost predicate ChildrenAt(pool: Pool, list: seq<Tx>, i: nat) {
    i < |list| && forall id :: id in pool && DependsOn(pool[id], list[i]) ==> id in Txids(list[..i])
  }

  /** The transaction depends on one listed after it. */
  ghost predicate Later(list: seq<Tx>, i: nat) {
    exists j :: i < j < |list| && DependsOn(list[i], list[j])
  }

  /** What a search has gathered so far. */
  ghost predicate Gathered(pool: Pool, ranged: set<Hash>, found: seq<Tx>) {
    FromPool(pool, found) && ChildrenFirst(pool, found) && IdSet(found) == ranged
  }

  lemma {:induction false} OutsKeyAt(tx: Tx, n: nat, k: Key)
    requires n <= |tx.outputs| && k in OutsTo(tx, n)
    ensures k.offset < n && k == Key(tx.outputs[k.offset].addr, tx.txid, k.offset)
  {
    var o := tx.outputs[n - 1];
    if !Lasting(o) || k != Key(o.addr, tx.txid, n - 1) {
      OutsKeyAt(tx, n - 1, k);
    }
  }

  /** A longer list keeps what was right about a shorter one. */
  lemma {:induction false} ChildrenStay(pool: Pool, list: seq<Tx>, more: seq<Tx>, i: nat)
    requires ChildrenAt(pool, list, i)
    ensures ChildrenAt(pool, list + more, i)
  {
    assert (list + more)[..i] == list[..i];
  }

  lemma {:induction false} LaterStays(list: seq<Tx>, more: seq<Tx>, i: nat)
    requires Later(list, i)
    ensures Later(list + more, i)
  {
    var j :| i < j < |list| && DependsOn(list[i], list[j]);
    assert (list + more)[j] == list[j];
  }

  /** With all its children gathered, a transaction can be listed. */
  lemma {:induction false} GatherOne(pool: Pool, spender: map<Key, Hash>, ranged: set<Hash>, found: seq<Tx>, node: Hash)
    requires SpendersKnown(pool, spender) && Gathered(pool, ranged, found) && node in pool
    requires VisitedTo(pool, spender, ranged, node, |pool[node].outputs|)
    ensures Gathered(pool, ranged + {node}, found + [pool[node]])
  {
    var list := found + [pool[node]];
    forall i | 0 <= i < |list| ensures ChildrenAt(pool, list, i) {
      if i < |found| {
        assert ChildrenAt(pool, found, i);
        ChildrenStay(pool, found, [pool[node]], i);
      } else {
        assert list[..i] == found;
        forall id | id in pool && DependsOn(pool[id], list[i]) ensures id in Txids(found) {
          var k :| k in Spent(pool[id]) && k in Outs(pool[node]);
          OutsKeyAt(pool[node], |pool[node].outputs|, k);
          assert Visited(pool, spender, ranged, node, k.offset);
          assert id in IdSet(found);
        }
      }
    }
    IdSetMore(list);
    assert list[..|list| - 1] == found;
  }

  /** The spender of output o of a transaction has been gathered. */
  ghost predicate Visited(pool: Pool, spender: map<Key, Hash>, ranged: set<Hash>, node: Hash, o: nat) {
    node in pool && o < |pool[node].outputs| &&
    var k := Key(pool[node].outputs[o].addr, node, o);
    k in spender ==> spender[k] in ranged
  }

  ghost predicate VisitedTo(pool: Pool, spender: map<Key, Hash>, ranged: set<Hash>, node: Hash, n: nat) {
    forall o {:trigger Visited(pool, spender, ranged, node, o)} :: 0 <= o < n ==>
        Visited(pool, spender, ranged, node, o)
  }

  lemma {:induction false} VisitOne(pool: Pool, spender: map<Key, Hash>, ranged: set<Hash>, ranged': set<Hash>,
        node: Hash, o: nat)
    requires VisitedTo(pool, spender, ranged, node, o) && ranged <= ranged' && node in pool && o < |pool[node].outputs|
    requires var k := Key(pool[node].outputs[o].addr, node, o); k in spender ==> spender[k] in ranged'
    ensures VisitedTo(pool, spender, ranged', node, o + 1)
  {
    forall p | 0 <= p < o + 1 ensures Visited(pool, spender, ranged', node, p) {
      if p < o { assert Visited(pool, spender, ranged, node, p); }
    }
  }

  lemma {:induction false} SpenderDepends(pool: Pool, spender: map<Key, Hash>, rank: map<Hash, nat>, bound: nat,
        node: Hash, k: Key)
    requires SpendersKnown(pool, spender) && Fed(pool) && Ranked(pool, rank, bound) && node in pool && k in spender
    requires k.txid == node
    ensures DependsOn(pool[spender[k]], pool[node]) && rank[spender[k]] > rank[node]
  {
    assert k in Spent(pool[spender[k]]) && k in Outs(pool[node]);
  }

  /** What a search below node has added to before: a list that goes on from it, ends with the node unless it was there,
      and in which everything else that is new has a parent further on. */
  ghost predicate Searched(pool: Pool, rank: map<Hash, nat>, node: Hash, before: seq<Tx>, ranged: set<Hash>,
        found: seq<Tx>) {
    && Gathered(pool, ranged, found) && node in ranged && before <= found && node in rank
    && (|found| > |before| ==> found[|found| - 1].txid == node)
    && (forall i :: |before| <= i < |found| - 1 ==> Later(found, i))
    && (forall i :: |before| <= i < |found| ==> found[i].txid in rank && rank[found[i].txid] >= rank[node])
  }

  /** In the middle of it: what is new has a parent further on, or is a child of the node itself. */
  ghost predicate Searching(pool: Pool, rank: map<Hash, nat>, node: Hash, before: seq<Tx>, ranged: set<Hash>,
        found: seq<Tx>) {
    && Gathered(pool, ranged, found) && node in pool && node !in ranged && before <= found && node in rank
    && (forall i :: |before| <= i < |found| ==> Later(found, i) || DependsOn(found[i], pool[node]))
    && (forall i :: |before| <= i < |found| ==> found[i].txid in rank && rank[found[i].txid] > rank[node])
  }

  lemma {:induction false} SearchChild(pool: Pool, rank: map<Hash, nat>, node: Hash, child: Hash, before: seq<Tx>,
        ranged: set<Hash>,
                                       found: seq<Tx>, ranged': set<Hash>, found': seq<Tx>)
    requires Searching(pool, rank, node, before, ranged, found) && Searched(pool, rank, child, found, ranged', found')
    requires child in pool && DependsOn(pool[child], pool[node]) && rank[child] > rank[node]
    ensures Searching(pool, rank, node, before, ranged', found')
  {
    var more := found'[|found|..];
    assert found' == found + more;
    forall i | |before| <= i < |found'| ensures Later(found', i) || DependsOn(found'[i], pool[node]) {
      if i < |found| {
        if Later(found, i) { LaterStays(found, more, i); }
      } else if i == |found'| - 1 {
        assert found'[i] == pool[child];
      }
    }
    forall i | |before| <= i < |found'| ensures found'[i].txid in rank && rank[found'[i].txid] > rank[node] {
      assert i < |found| ==> found'[i] == found[i];
    }
    forall i | 0 <= i < |found'| ensures found'[i].txid != node {
      assert i < |found| ==> found'[i] == found[i] && Txids(found)[i] == found[i].txid;
    }
  }

  lemma {:induction false} SearchEnd(pool: Pool, spender: map<Key, Hash>, rank: map<Hash, nat>, node: Hash,
        before: seq<Tx>, ranged: set<Hash>, found: seq<Tx>)
    requires SpendersKnown(pool, spender) && Searching(pool, rank, node, before, ranged, found)
    requires VisitedTo(pool, spender, ranged, node, |pool[node].outputs|)
    ensures Searched(pool, rank, node, before, ranged + {node}, found + [pool[node]])
  {
    GatherOne(pool, spender, ranged, found, node);
    var list := found + [pool[node]];
    forall i | |before| <= i < |list| - 1 ensures Later(list, i) {
      if Later(found, i) {
        LaterStays(found, [pool[node]], i);
      } else {
        assert DependsOn(list[i], list[|found|]);
      }
    }
  }

  /** Depth first from a node of the pool: its spenders, their spenders, and then itself. */
  method Dfs(pool: Pool, spender: map<Key, Hash>, node: Hash, ranged: set<Hash>, found: seq<Tx>, ghost rank: map<Hash,
        nat>, ghost bound: nat)
    returns (ranged': set<Hash>, found': seq<Tx>)
    requires SpendersKnown(pool, spender) && Fed(pool) && Ranked(pool, rank, bound) && node in pool
    requires Gathered(pool, ranged, found)
    ensures Searched(pool, rank, node, found, ranged', found') && ranged <= ranged'
    decreases bound - rank[node]
  {
    ranged', found' := ranged, found;
    if node in ranged { return; }
    var outputs := pool[node].outputs;
    for o := 0 to |outputs|
      invariant Searching(pool, rank, node, found, ranged', found') && ranged <= ranged'
      invariant VisitedTo(pool, spender, ranged', node, o)
    {
      ghost var r, f := ranged', found';
      var k := Key(outputs[o].addr, node, o);
      if k in spender {
        SpenderDepends(pool, spender, rank, bound, node, k);
        ranged', found' := Dfs(pool, spender, spender[k], ranged', found', rank, bound);
        SearchChild(pool, rank, node, spender[k], found, r, f, ranged', found');
      }
      VisitOne(pool, spender, r, ranged', node, o);
    }
    SearchEnd(pool, spender, rank, node, found, ranged', found');
    ranged', found' := ranged' + {node}, found' + [pool[node]];
  }

  /** The conflicts of one transaction: those that spend what it spends, and their descendants. */
  ghost predicate ConflictsOf(pool: Pool, tx: Tx, list: seq<Tx>) {
    && FromPool(pool, list) && ChildrenFirst(pool, list)
    && (forall i :: 0 <= i < |list| ==> Later(list, i) || Clash(tx, list[i]))
    && (forall id :: id in pool && Clash(tx, pool[id]) ==> id in Txids(list))
  }

  /** The search after the first n inputs. */
  ghost predicate FoundTo(pool: Pool, spender: map<Key, Hash>, tx: Tx, n: nat, ranged: set<Hash>, list: seq<Tx>) {
    && Gathered(pool, ranged, list) && n <= |tx.inputs|
    && (forall i :: 0 <= i < |list| ==> Later(list, i) || Clash(tx, list[i]))
    && (forall a :: 0 <= a < n && KeyOf(tx.inputs[a]) in spender ==> spender[KeyOf(tx.inputs[a])] in ranged)
  }

  method FindConflictByTx(pool: Pool, spender: map<Key, Hash>, tx: Tx, ghost rank: map<Hash, nat>,
        ghost bound: nat) returns (list: seq<Tx>)
    requires SpendersKnown(pool, spender) && Fed(pool) && Ranked(pool, rank, bound)
    ensures tx.txid in pool ==> list == []
    ensures tx.txid !in pool ==> ConflictsOf(pool, tx, list)
  {
    list := [];
    if tx.txid in pool { return; }
    var ranged: set<Hash> := {};
    for n := 0 to |tx.inputs|
      invariant FoundTo(pool, spender, tx, n, ranged, list)
    {
      ghost var r, before := ranged, list;
      var k := KeyOf(tx.inputs[n]);
      if k in spender {
        ranged, list := Dfs(pool, spender, spender[k], ranged, list, rank, bound);
        RootClashes(pool, spender, rank, tx, n, before, ranged, list);
      }
      FoundOne(pool, spender, tx, n, r, before, ranged, list);
    }
    AllClashesFound(pool, spender, tx, ranged, list);
  }

  lemma {:induction false} FoundOne(pool: Pool, spender: map<Key, Hash>, tx: Tx, n: nat, r: set<Hash>,
        before: seq<Tx>, ranged: set<Hash>, list: seq<Tx>)
    requires FoundTo(pool, spender, tx, n, r, before) && n < |tx.inputs| && r <= ranged && Gathered(pool, ranged, list)
    requires forall i :: 0 <= i < |list| ==> Later(list, i) || Clash(tx, list[i])
    requires KeyOf(tx.inputs[n]) in spender ==> spender[KeyOf(tx.inputs[n])] in ranged
    ensures FoundTo(pool, spender, tx, n + 1, ranged, list)
  {
  }

  lemma {:induction false} RootClashes(pool: Pool, spender: map<Key, Hash>, rank: map<Hash, nat>, tx: Tx, n: nat,
        before: seq<Tx>, ranged: set<Hash>, list: seq<Tx>)
    requires SpendersKnown(pool, spender) && n < |tx.inputs| && KeyOf(tx.inputs[n]) in spender
    requires Searched(pool, rank, spender[KeyOf(tx.inputs[n])], before, ranged, list)
    requires forall i :: 0 <= i < |before| ==> Later(before, i) || Clash(tx, before[i])
    ensures forall i :: 0 <= i < |list| ==> Later(list, i) || Clash(tx, list[i])
  {
    var k, more := KeyOf(tx.inputs[n]), list[|before|..];
    SpentKeysTo(tx, |tx.inputs|, k);
    assert list == before + more;
    forall i | 0 <= i < |list| ensures Later(list, i) || Clash(tx, list[i]) {
      if i < |before| {
        if Later(before, i) { LaterStays(before, more, i); }
      } else if i == |list| - 1 {
        assert list[i] == pool[spender[k]] && k in Spent(tx) && k in Spent(list[i]);
      }
    }
  }

  lemma {:induction false} AllClashesFound(pool: Pool, spender: map<Key, Hash>, tx: Tx, ranged: set<Hash>,
        list: seq<Tx>)
    requires SpendersKnown(pool, spender) && Gathered(pool, ranged, list)
    requires forall a :: 0 <= a < |tx.inputs| && KeyOf(tx.inputs[a]) in spender ==>
            spender[KeyOf(tx.inputs[a])] in ranged
    ensures forall id :: id in pool && Clash(tx, pool[id]) ==> id in Txids(list)
  {
    forall id | id in pool && Clash(tx, pool[id]) ensures id in Txids(list) {
      var k :| k in Spent(tx) && k in Spent(pool[id]);
      SpentKeysTo(tx, |tx.inputs|, k);
      assert id in IdSet(list);
    }
  }

  // ----- All conflicts of a block

  lemma {:induction false} Appended(pool: Pool, a: seq<Tx>, b: seq<Tx>)
    requires FromPool(pool, a) && FromPool(pool, b) && ChildrenFirst(pool, a) && ChildrenFirst(pool, b)
    ensures FromPool(pool, a + b) && ChildrenFirst(pool, a + b)
  {
    forall i | 0 <= i < |a + b| ensures ChildrenAt(pool, a + b, i) {
      if i < |a| {
        assert ChildrenAt(pool, a, i);
        ChildrenStay(pool, a, b, i);
      } else {
        var j := i - |a|;
        assert ChildrenAt(pool, b, j);
        assert (a + b)[..i] == a + b[..j];
        assert Txids(a + b[..j]) == Txids(a) + Txids(b[..j]);
      }
    }
  }

  /** The conflicts of the first n transactions of the block. */
  ghost predicate ConflictsTo(pool: Pool, txs: seq<Tx>, n: nat, list: seq<Tx>) {
    && n <= |txs| && FromPool(pool, list) && ChildrenFirst(pool, list)
    && AllConflicting(pool, txs, list) && ClashesListed(pool, txs, n, list)
  }

  ghost predicate AllConflicting(pool: Pool, txs: seq<Tx>, list: seq<Tx>) {
    forall i {:trigger Conflicting(pool, txs, list, i)} :: 0 <= i < |list| ==> Conflicting(pool, txs, list, i)
  }

  ghost predicate ClashesListed(pool: Pool, txs: seq<Tx>, n: nat, list: seq<Tx>)
    requires n <= |txs|
  {
    forall a, id {:trigger Clash(txs[a], pool[id])} ::
      0 <= a < n && txs[a].txid !in pool && id in pool && Clash(txs[a], pool[id]) ==> id in Txids(list)
  }

  lemma {:induction false} ConflictsMore(pool: Pool, txs: seq<Tx>, n: nat, list: seq<Tx>, more: seq<Tx>)
    requires ConflictsTo(pool, txs, n, list) && n < |txs|
    requires if txs[n].txid in pool then more == [] else ConflictsOf(pool, txs[n], more)
    ensures ConflictsTo(pool, txs, n + 1, list + more)
  {
    if txs[n].txid in pool {
      assert list + more == list;
    } else {
      Appended(pool, list, more);
      MoreConflicting(pool, txs, n, list, more);
      MoreListed(pool, txs, n, list, more);
    }
  }

  lemma {:induction false} MoreConflicting(pool: Pool, txs: seq<Tx>, n: nat, list: seq<Tx>, more: seq<Tx>)
    requires n < |txs| && txs[n].txid !in pool && AllConflicting(pool, txs, list)
    requires forall i :: 0 <= i < |more| ==> Later(more, i) || Clash(txs[n], more[i])
    ensures AllConflicting(pool, txs, list + more)
  {
    var all := list + more;
    forall i | 0 <= i < |all| ensures Conflicting(pool, txs, all, i) {
      if i < |list| { assert Conflicting(pool, txs, list, i); }
      ConflictingOn(pool, txs, n, list, more, i);
    }
  }

  lemma {:induction false} MoreListed(pool: Pool, txs: seq<Tx>, n: nat, list: seq<Tx>, more: seq<Tx>)
    requires n < |txs| && ClashesListed(pool, txs, n, list)
    requires forall id :: id in pool && Clash(txs[n], pool[id]) ==> id in Txids(more)
    ensures ClashesListed(pool, txs, n + 1, list + more)
  {
    forall a, id | 0 <= a < n + 1 && txs[a].txid !in pool && id in pool && Clash(txs[a], pool[id])
      ensures id in Txids(list + more)
    {
      ListedEither(list, more, id);
    }
  }

  lemma {:induction false} ListedEither(list: seq<Tx>, more: seq<Tx>, id: Hash)
    ensures id in Txids(list) || id in Txids(more) ==> id in Txids(list + more)
  {
    assert Txids(list + more) == Txids(list) + Txids(more);
  }

  lemma {:induction false} ConflictingOn(pool: Pool, txs: seq<Tx>, n: nat, list: seq<Tx>, more: seq<Tx>, i: nat)
    requires n < |txs| && txs[n].txid !in pool && i < |list + more|
    requires i < |list| ==> Conflicting(pool, txs, list, i)
    requires i >= |list| ==> Later(more, i - |list|) || Clash(txs[n], more[i - |list|])
    ensures Conflicting(pool, txs, list + more, i)
  {
    var all := list + more;
    if i < |list| {
      if Later(list, i) { LaterStays(list, more, i); }
    } else if Later(more, i - |list|) {
      var j :| i - |list| < j < |more| && DependsOn(more[i - |list|], more[j]);
      assert all[j + |list|] == more[j];
    }
  }

  /** All of the pool that has to go before the block can be played, children before parents. */
  method FindConflicts(pool: Pool, spender: map<Key, Hash>, txs: seq<Tx>, ghost rank: map<Hash, nat>,
        ghost bound: nat) returns (list: seq<Tx>)
    requires SpendersKnown(pool, spender) && Fed(pool) && Ranked(pool, rank, bound)
    ensures ConflictList(pool, txs, list)
  {
    list := [];
    for n := 0 to |txs|
      invariant ConflictsTo(pool, txs, n, list)
    {
      var more := FindConflictByTx(pool, spender, txs[n], rank, bound);
      ConflictsMore(pool, txs, n, list, more);
      list := list + more;
    }
    ConflictsDone(pool, txs, list);
  }

  lemma {:induction false} ConflictsDone(pool: Pool, txs: seq<Tx>, list: seq<Tx>)
    requires ConflictsTo(pool, txs, |txs|, list)
    ensures ConflictList(pool, txs, list)
  {
    forall i, id | 0 <= i < |list| && id in pool && DependsOn(pool[id], list[i]) ensures id in Txids(list[..i]) {
      assert ChildrenAt(pool, list, i);
    }
    forall i | 0 <= i < |list| ensures Conflicting(pool, txs, list, i) {
    }
  }

  // ----- A pool on top of a replay is such a pool

  /** No two transactions of the pool spend the same key, none spends its own output, and what the pool spends of itself
      are outputs. */
  lemma {:induction false} ReplayedPool(v: View, m: Machine)
    requires Replayed(v, m)
    ensures Fed(m.pool)
    ensures forall a, b, k :: a in m.pool && b in m.pool && k in Spent(m.pool[a]) && k in Spent(m.pool[b]) ==> a == b
    ensures forall id :: id in m.pool ==> m.pool[id].txid == id && !DependsOn(m.pool[id], m.pool[id])
  {
    var t, f := TableAt(v, m.latest), PoolWeb(m.pool);
    forall a, b, k | a in m.pool && b in m.pool && k in Spent(m.pool[a]) && k in Spent(m.pool[b]) ensures a == b {
      assert Placed(t, f, a) && Supplied(t, f, a, k);
      assert f[b].spent == Spent(m.pool[b]);
    }
    forall id, k | id in m.pool && k in Spent(m.pool[id]) && k.txid in m.pool
      ensures k in Outs(m.pool[k.txid]) && k.txid != id
    {
      assert Placed(t, f, id) && Supplied(t, f, id, k);
      if k in t { TableTagged(v, m.latest, k); }
    }
    forall id | id in m.pool ensures !DependsOn(m.pool[id], m.pool[id]) {
      SettledTagged(m.pool[id], "");
    }
  }

  /** The place of each transaction in a list. */
  ghost function RankOf(order: seq<Tx>): map<Hash, nat> {
    if order == [] then map[] else RankOf(order[..|order| - 1])[order[|order| - 1].txid := |order| - 1]
  }

  /** A dependency order ranks the pool. */
  lemma {:induction false} OrderRanks(pool: Pool, order: seq<Tx>)
    requires DependencyOrder(pool, order)
    requires forall id :: id in pool ==> pool[id].txid == id && !DependsOn(pool[id], pool[id])
    ensures Ranked(pool, RankOf(order), |order|)
    decreases |order|
  {
    if order != [] {
      var last := order[|order| - 1].txid;
      OrderRanks(pool - {last}, order[..|order| - 1]);
    }
  }
}
