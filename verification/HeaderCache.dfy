/** Block headers read through the LRU cache. The cache is filled while a batch is being prepared, before it is
    written. */
module HeaderCache {
  import opened Tree
  import opened LedgerSpec
  import opened Lru
  import opened Accesses

  /** The cache shows nothing that the batch, once written, would not. */
  ghost predicate Mirrors(cache: Headers, batch: Headers) {
    forall k :: k in cache ==> k in batch && cache[k] == batch[k]
  }

  /** The batch does nothing to this block. */
  ghost predicate Untouched(table: Headers, batch: Headers, id: Hash) {
    (id in table <==> id in batch) && (id in table ==> table[id] == batch[id])
  }

  function Read(table: Headers, id: Hash): Found<Header> {
    if id in table then Hit(table[id]) else Miss
  }

  /** What is in the cache now was there before, or is the given entry. */
  ghost predicate Shows(now: Headers, before: Headers, id: Hash, entry: Found<Header>) {
    forall k :: k in now ==>
        (if k == id && entry.Hit? then now[k] == entry.value else k in before && now[k] == before[k])
  }

  class HeaderStore {
    const cache: LruCache<Header>
    var table: Headers

    constructor (capacity: nat)
      ensures cache.Valid() && fresh(cache) && cache.cache == map[] && table == map[]
    {
      cache := new LruCache(capacity);
      table := map[];
    }

    /** The cache, the table and a batch in preparation. */
    ghost function Show(batch: Headers): Sheet
      reads this, cache
    {
      Sheet(cache.capacity, cache.cache, table, batch)
    }

    /** A header goes into the cache, if it has room at all. */
    method Put(id: Hash, header: Header)
      requires cache.Valid()
      modifies cache
      ensures cache.Valid() && cache.capacity == old(cache.capacity)
      ensures Shows(cache.cache, old(cache.cache), id, Hit(header))
      ensures if cache.capacity == 0 then cache.cache == map[] else id in cache.cache
    {
      var evicted, gone := cache.Add(id, header);
      cache.NoneWithoutRoom();
    }

    /** The header of a block, from the cache or else from the table, and then cached. A direct read of the table gives
        the same, as long as the batch in preparation has not touched the block. */
    method FetchBlock(id: Hash, ghost batch: Headers) returns (found: Found<Header>)
      requires cache.Valid()
      modifies cache
      ensures cache.Valid() && found == Answer(old(Show(batch)), id) && Acts(old(Show(batch)), Fetch(id), Show(batch))
      ensures old(Mirrors(cache.cache, batch)) && Untouched(table, batch, id) ==>
                found == Read(table, id) && Mirrors(cache.cache, batch)
    {
      ghost var before := Show(batch);
      cache.NoneWithoutRoom();
      found := cache.Get(id);
      if found.Miss? && id in table {
        Put(id, table[id]);
        found := Hit(table[id]);
      }
      ghost var after := Show(batch);
      assert Acts(before, Fetch(id), after);
      FetchMirrors(before, id, after);
    }

    /** A header goes into the cache at once and into the batch. */
    method SaveBlock(id: Hash, header: Header, batch: Headers) returns (after: Headers)
      requires cache.Valid()
      modifies cache
      ensures cache.Valid() && after == batch[id := header] && Acts(old(Show(batch)), Save(id, header), Show(after))
      ensures old(Mirrors(cache.cache, batch)) ==> Mirrors(cache.cache, after)
    {
      Put(id, header);
      after := batch[id := header];
    }

    /** A removed block leaves the cache at once. */
    method RemoveBlock(id: Hash, batch: Headers) returns (after: Headers)
      requires cache.Valid()
      modifies cache
      ensures cache.Valid() && after == batch - {id} && Acts(old(Show(batch)), Remove(id), Show(after))
      ensures old(Mirrors(cache.cache, batch)) ==> Mirrors(cache.cache, after)
    {
      cache.Del(id);
      after := batch - {id};
      cache.NoneWithoutRoom();
    }
  }

  // ----- The accesses of one batch

  datatype Sheet = Sheet(capacity: nat, cache: Headers, table: Headers, batch: Headers)

  function Answer(s: Sheet, id: Hash): Found<Header> {
    if id in s.cache then Hit(s.cache[id]) else Read(s.table, id)
  }

  /** What an access does to the batch. */
  function Staged(batch: Headers, a: Access): Headers {
    match a
    case Fetch(_) => batch
    case Save(id, header) => batch[id := header]
    case Remove(id) => batch - {id}
  }

  function StagedAll(batch: Headers, accesses: seq<Access>): Headers {
    if accesses == [] then batch
    else Staged(StagedAll(batch, accesses[..|accesses| - 1]), accesses[|accesses| - 1])
  }

  /** One access, with whatever the cache evicts on the way: never what was just found or saved, if it has room at all.
      */
  ghost predicate Acts(s: Sheet, a: Access, r: Sheet) {
    && r.table == s.table && r.batch == Staged(s.batch, a) && r.capacity == s.capacity
    && (r.capacity == 0 ==> r.cache == map[])
    && match a
       case Fetch(id) =>
         Shows(r.cache, s.cache, id, Answer(s, id)) && (r.capacity > 0 && Answer(s, id).Hit? ==> id in r.cache)
       case Save(id, header) => Shows(r.cache, s.cache, id, Hit(header)) && (r.capacity > 0 ==> id in r.cache)
       case Remove(id) => id !in r.cache && Shows(r.cache, s.cache, id, Miss)
  }

  /** The accesses made while one batch is prepared. */
  ghost predicate Through(sheets: seq<Sheet>, accesses: seq<Access>) {
    && |sheets| == |accesses| + 1 && sheets[0].batch == sheets[0].table
    && forall i :: 0 <= i < |accesses| ==> Acts(sheets[i], accesses[i], sheets[i + 1])
  }

  /** A fetch of what the batch has not touched reads the table, and caches nothing but what the batch will store. */
  lemma {:induction false} FetchMirrors(s: Sheet, id: Hash, r: Sheet)
    requires Acts(s, Fetch(id), r)
    ensures Mirrors(s.cache, s.batch) && Untouched(s.table, s.batch, id) ==>
              Answer(s, id) == Read(s.table, id) && Mirrors(r.cache, s.batch)
  {
  }

  ghost predicate Saves(accesses: seq<Access>, id: Hash) {
    exists i :: 0 <= i < |accesses| && accesses[i].Save? && accesses[i].id == id
  }

  ghost predicate Removes(accesses: seq<Access>, id: Hash) {
    Remove(id) in accesses
  }

  /** A fetched block has not been saved before, and is removed again if it has been removed before. */
  ghost predicate OrderlyAt(accesses: seq<Access>, i: nat)
    requires i < |accesses|
  {
    accesses[i].Fetch? ==>
      var id := accesses[i].id;
      !Saves(accesses[..i], id) && (Removes(accesses[..i], id) ==> Removes(accesses[i + 1..], id))
  }

  ghost predicate Orderly(accesses: seq<Access>) {
    forall i :: 0 <= i < |accesses| ==> OrderlyAt(accesses, i)
  }

  lemma {:induction false} StagedConcat(batch: Headers, xs: seq<Access>, ys: seq<Access>)
    ensures StagedAll(batch, xs + ys) == StagedAll(StagedAll(batch, xs), ys)
  {
    if ys == [] {
      assert xs + ys == xs;
    } else {
      var n := |ys| - 1;
      assert (xs + ys)[..|xs + ys| - 1] == xs + ys[..n];
      StagedConcat(batch, xs, ys[..n]);
    }
  }

  /** The batch of the sheets is the staged one. */
  lemma {:induction false} BatchIsStaged(sheets: seq<Sheet>, accesses: seq<Access>, n: nat)
    requires Through(sheets, accesses) && n <= |accesses|
    ensures sheets[n].table == sheets[0].table && sheets[n].batch == StagedAll(sheets[0].table, accesses[..n])
  {
    if n > 0 {
      BatchIsStaged(sheets, accesses, n - 1);
      assert Acts(sheets[n - 1], accesses[n - 1], sheets[n]);
      assert accesses[..n][..n - 1] == accesses[..n - 1];
    }
  }

  /** A block that was never saved is in the batch as in the table, or was removed. */
  lemma {:induction false} UnsavedIsRead(table: Headers, accesses: seq<Access>, id: Hash)
    requires !Saves(accesses, id)
    ensures
      var batch := StagedAll(table, accesses);
      Untouched(table, batch, id) || (id !in batch && Removes(accesses, id))
  {
    if accesses != [] {
      var n := |accesses| - 1;
      var init, a := accesses[..n], accesses[n];
      assert forall i :: 0 <= i < |init| ==> accesses[i] == init[i];
      UnsavedIsRead(table, init, id);
      assert a.Save? ==> a.id != id;
      assert a in accesses && forall x :: x in init ==> x in accesses;
    }
  }

  /** The cache shows the batch, or a removed block about to be removed again as the table has it. */
  ghost predicate ShowsRight(s: Sheet, rest: seq<Access>, k: Hash) {
    k in s.cache ==>
      || (k in s.batch && s.cache[k] == s.batch[k])
      || (k !in s.batch && k in s.table && s.cache[k] == s.table[k] && Removes(rest, k))
  }

  lemma {:induction false} FetchReads(s: Sheet, before: seq<Access>, rest: seq<Access>, id: Hash)
    requires s.batch == StagedAll(s.table, before) && !Saves(before, id) && ShowsRight(s, rest, id)
    ensures Answer(s, id) == Read(s.table, id)
  {
    UnsavedIsRead(s.table, before, id);
  }

  lemma {:induction false} ShowsRightStep(s: Sheet, accesses: seq<Access>, n: nat, r: Sheet, k: Hash)
    requires n < |accesses| && Acts(s, accesses[n], r) && OrderlyAt(accesses, n)
    requires s.batch == StagedAll(s.table, accesses[..n])
    requires ShowsRight(s, accesses[n..], k) && ShowsRight(s, accesses[n..], accesses[n].id)
    ensures ShowsRight(r, accesses[n + 1..], k)
  {
    var a, rest := accesses[n], accesses[n + 1..];
    assert accesses[n..] == [a] + rest;
    if a.Fetch? && k == a.id {
      FetchReads(s, accesses[..n], accesses[n..], k);
      UnsavedIsRead(s.table, accesses[..n], k);
    }
  }

  lemma {:induction false} ShowsRightAlong(sheets: seq<Sheet>, accesses: seq<Access>, n: nat, k: Hash)
    requires Through(sheets, accesses) && Orderly(accesses) && Mirrors(sheets[0].cache, sheets[0].table)
    requires n <= |accesses|
    ensures ShowsRight(sheets[n], accesses[n..], k)
  {
    if n > 0 {
      var m := n - 1;
      ShowsRightAlong(sheets, accesses, m, k);
      ShowsRightAlong(sheets, accesses, m, accesses[m].id);
      BatchIsStaged(sheets, accesses, m);
      assert Acts(sheets[m], accesses[m], sheets[n]) && OrderlyAt(accesses, m);
      ShowsRightStep(sheets[m], accesses, m, sheets[n], k);
    }
  }

  /** Orderly accesses: each fetch through the cache is a direct read of the table, and when the batch is written the
      cache shows only what the table then holds. */
  lemma {:induction false} OrderlyReads(sheets: seq<Sheet>, accesses: seq<Access>)
    requires Through(sheets, accesses) && Orderly(accesses) && Mirrors(sheets[0].cache, sheets[0].table)
    ensures forall n :: 0 <= n < |accesses| && accesses[n].Fetch? ==>
              Answer(sheets[n], accesses[n].id) == Read(sheets[0].table, accesses[n].id)
    ensures Mirrors(sheets[|accesses|].cache, StagedAll(sheets[0].table, accesses))
  {
    forall n | 0 <= n < |accesses| && accesses[n].Fetch?
      ensures Answer(sheets[n], accesses[n].id) == Read(sheets[0].table, accesses[n].id)
    {
      ShowsRightAlong(sheets, accesses, n, accesses[n].id);
      BatchIsStaged(sheets, accesses, n);
      assert OrderlyAt(accesses, n);
      FetchReads(sheets[n], accesses[..n], accesses[n..], accesses[n].id);
    }
    var last := sheets[|accesses|];
    BatchIsStaged(sheets, accesses, |accesses|);
    assert accesses[..|accesses|] == accesses;
    forall k | k in last.cache ensures k in last.batch && last.cache[k] == last.batch[k] {
      ShowsRightAlong(sheets, accesses, |accesses|, k);
    }
  }
}
