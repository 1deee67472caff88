/** When the transactions of a block go through: the checks they meet in their turn, and what they depend on. */
module Passing {
  import opened Tree
  import opened Transactions
  import opened Effects
  import opened Utxo
  import opened Worth
  import opened Chain
  import opened Touch
  import opened Reversal
  import opened Check
  import opened Overlay

  datatype PlayError = None | NoBlock | PreMismatch | Duplicate | Invalid | Rejected(verdict: Verdict) | BadWindow

  // ----- The turns of a block

  /** The outputs made in the batch and not spent since. Fees are not among them. */
  ghost function MadeOver(txs: seq<Tx>, applied: set<Hash>): Table {
    if txs == [] then map[] else
    var init, tx := txs[..|txs| - 1], txs[|txs| - 1];
    if tx.txid in applied then MadeOver(init, applied) else Apply(MadeOver(init, applied), Pending(tx))
  }

  /** The table in the batch when the turn of transaction n comes. */
  ghost function Before(start: Table, txs: seq<Tx>, proposer: Addr, applied: set<Hash>, n: nat): Table
    requires n <= |txs|
  {
    Through(start, PlayedAll(txs[..n], proposer, applied))
  }

  /** Coinbases are not verified. */
  predicate Refused(tx: Tx, invalid: set<Hash>) {
    !tx.coinbase && tx.txid in invalid
  }

  /** What stops a transaction: it is refused, or its check does not pass. Nothing stops one that is applied already. */
  ghost function TxError(s: Sight, tx: Tx, applied: set<Hash>, invalid: set<Hash>, height: nat): PlayError {
    if tx.txid in applied then None
    else if Refused(tx, invalid) then Invalid
    else if TxVerdict(s, tx, height) == Passed then None else Rejected(TxVerdict(s, tx, height))
  }

  /** What stops the block at transaction n, with the given cache. */
  ghost function TurnError(stored: Table, txs: seq<Tx>, applied: set<Hash>, invalid: set<Hash>, hot: Table, height: nat,
        n: nat): PlayError
    requires n < |txs|
  {
    TxError(Sight(hot, MadeOver(txs[..n], applied), stored), txs[n], applied, invalid, height)
  }

  /** What stops the block first, where hots has the cache at each turn. */
  ghost function ErrorTo(stored: Table, txs: seq<Tx>, applied: set<Hash>, invalid: set<Hash>, hots: seq<Table>,
        height: nat, n: nat): PlayError
    requires n <= |txs| && n <= |hots|
  {
    if n == 0 then None else
    var error := ErrorTo(stored, txs, applied, invalid, hots, height, n - 1);
    if error != None then error else TurnError(stored, txs, applied, invalid, hots[n - 1], height, n - 1)
  }

  ghost function BlockError(stored: Table, txs: seq<Tx>, applied: set<Hash>, invalid: set<Hash>, hots: seq<Table>,
        height: nat): PlayError
    requires |hots| == |txs|
  {
    ErrorTo(stored, txs, applied, invalid, hots, height, |txs|)
  }

  /** At each turn the cache shows nothing but what is in the batch then; it may have dropped anything. */
  ghost predicate Caches(start: Table, txs: seq<Tx>, proposer: Addr, applied: set<Hash>, hots: seq<Table>) {
    |hots| == |txs| && forall n :: 0 <= n < |txs| ==> Within(hots[n], Before(start, txs, proposer, applied, n))
  }

  lemma {:induction false} ErrorIff(stored: Table, txs: seq<Tx>, applied: set<Hash>, invalid: set<Hash>,
        hots: seq<Table>, height: nat, n: nat)
    requires n <= |txs| && n <= |hots|
    ensures ErrorTo(stored, txs, applied, invalid, hots, height, n) == None <==>
            forall m :: 0 <= m < n ==> TurnError(stored, txs, applied, invalid, hots[m], height, m) == None
  {
    if n > 0 {
      ErrorIff(stored, txs, applied, invalid, hots, height, n - 1);
    }
  }

  /** An error once met stays, whatever comes after. */
  lemma {:induction false} ErrorStays(stored: Table, txs: seq<Tx>, applied: set<Hash>, invalid: set<Hash>,
        hots: seq<Table>, more: seq<Table>, height: nat, n: nat, m: nat)
    requires n <= m <= |txs| && n <= |hots| && m <= |more| && hots[..n] == more[..n]
    ensures
      var error := ErrorTo(stored, txs, applied, invalid, hots, height, n);
      && ErrorTo(stored, txs, applied, invalid, more, height, n) == error
      && (error != None ==> ErrorTo(stored, txs, applied, invalid, more, height, m) == error)
    decreases m
  {
    if n < m {
      ErrorStays(stored, txs, applied, invalid, hots, more, height, n, m - 1);
    } else if n > 0 {
      assert hots[..n - 1] == hots[..n][..n - 1] == more[..n - 1] && hots[n - 1] == hots[..n][n - 1] == more[n - 1];
      ErrorStays(stored, txs, applied, invalid, hots, more, height, n - 1, n - 1);
    }
  }

  /** The caches so far, and none for the turns to come. */
  ghost function Padded(hots: seq<Table>, size: nat): (all: seq<Table>)
    requires |hots| <= size
    ensures |all| == size && forall n :: 0 <= n < size ==> all[n] == if n < |hots| then hots[n] else map[]
  {
    hots + seq(size - |hots|, _ => map[])
  }

  ghost predicate CachesTo(start: Table, txs: seq<Tx>, proposer: Addr, applied: set<Hash>, hots: seq<Table>) {
    |hots| <= |txs| && forall n :: 0 <= n < |hots| ==> Within(hots[n], Before(start, txs, proposer, applied, n))
  }

  lemma {:induction false} PaddedCaches(start: Table, txs: seq<Tx>, proposer: Addr, applied: set<Hash>,
        hots: seq<Table>)
    requires CachesTo(start, txs, proposer, applied, hots)
    ensures Caches(start, txs, proposer, applied, Padded(hots, |txs|))
  {
  }

  lemma {:induction false} CachesMore(start: Table, txs: seq<Tx>, proposer: Addr, applied: set<Hash>, hots: seq<Table>,
        hot: Table, n: nat)
    requires CachesTo(start, txs, proposer, applied, hots) && |hots| == n < |txs|
    requires Within(hot, Before(start, txs, proposer, applied, n))
    ensures CachesTo(start, txs, proposer, applied, hots + [hot])
    ensures Caches(start, txs, proposer, applied, Padded(hots + [hot], |txs|))
  {
    var more := hots + [hot];
    forall i | 0 <= i < |more| ensures Within(more[i], Before(start, txs, proposer, applied, i)) {
      assert i == n || more[i] == hots[i];
    }
    PaddedCaches(start, txs, proposer, applied, more);
  }

  /** One more turn: either it goes on, or the block stops here. */
  lemma {:induction false} ErrorNext(stored: Table, txs: seq<Tx>, applied: set<Hash>, invalid: set<Hash>,
        hots: seq<Table>, hot: Table, height: nat, n: nat)
    requires |hots| == n < |txs| && ErrorTo(stored, txs, applied, invalid, hots, height, n) == None
    ensures
      var error := TurnError(stored, txs, applied, invalid, hot, height, n);
      && ErrorTo(stored, txs, applied, invalid, hots + [hot], height, n + 1) == error
      && (error != None ==> BlockError(stored, txs, applied, invalid, Padded(hots + [hot], |txs|), height) == error)
  {
    var more := hots + [hot];
    ErrorStays(stored, txs, applied, invalid, hots, more, height, n, n);
    assert more[..n + 1] == Padded(more, |txs|)[..n + 1];
    ErrorStays(stored, txs, applied, invalid, more, Padded(more, |txs|), height, n + 1, |txs|);
  }

  // ----- Playing a received block

  /** Verification before a received block is played: of the coinbases, only generated ones are verified. */
  predicate Unverified(tx: Tx, applied: set<Hash>, invalid: set<Hash>) {
    tx.txid !in applied && (tx.autogen || !tx.coinbase) && tx.txid in invalid
  }

  /** A key is spent twice in the block, by two transactions or by one. */
  ghost predicate SpendsTwice(txs: seq<Tx>) {
    !NoDoubleSpend(txs) || exists n :: 0 <= n < |txs| && !DistinctInputs(txs[n])
  }

  /** What stops a received block: verification, then the checks, then the window. */
  ghost function PlayResult(stored: Table, txs: seq<Tx>, applied: set<Hash>, invalid: set<Hash>, hots: seq<Table>,
        height: nat, window: int): PlayError
    requires |hots| == |txs|
  {
    if exists n :: 0 <= n < |txs| && Unverified(txs[n], applied, invalid) then Invalid else
    var error := BlockError(stored, txs, applied, {}, hots, height);
    if error != None then error else if window < 0 then BadWindow else None
  }

  lemma {:induction false} NeverInvalid(stored: Table, txs: seq<Tx>, applied: set<Hash>, hots: seq<Table>, height: nat,
        n: nat)
    requires n <= |txs| && n <= |hots|
    ensures var error := ErrorTo(stored, txs, applied, {}, hots, height, n); error == None || error.Rejected?
  {
    if n > 0 {
      NeverInvalid(stored, txs, applied, hots, height, n - 1);
    }
  }

  /** A received block that spends nothing twice is invalid exactly if a transaction from outside the pool is, coinbases
      that were not generated aside; otherwise the checks decide, and after them the window. */
  lemma {:induction false} PlayResultIff(stored: Table, txs: seq<Tx>, applied: set<Hash>, invalid: set<Hash>,
        hots: seq<Table>, height: nat, window: int)
    requires |hots| == |txs|
    ensures
      var error, checked := PlayResult(stored, txs, applied, invalid, hots, height, window),
                            BlockError(stored, txs, applied, {}, hots, height);
      var verified := forall n :: 0 <= n < |txs| && txs[n].txid in invalid ==>
          txs[n].txid in applied || (txs[n].coinbase && !txs[n].autogen);
      && (error == Invalid <==> !verified) && (error.Rejected? <==> verified && checked != None)
      && (error.Rejected? ==> error == checked)
      && (error == BadWindow <==> verified && checked == None && window < 0)
      && (error == None <==> verified && checked == None && window >= 0)
  {
    NeverInvalid(stored, txs, applied, hots, height, |txs|);
    assert forall n :: 0 <= n < |txs| ==>
        (Unverified(txs[n], applied, invalid) <==>
         txs[n].txid in invalid && !(txs[n].txid in applied || (txs[n].coinbase && !txs[n].autogen)));
  }

  // ----- What the cache can change

  /** The input matches the entry that is there now, if there is one; and with nothing cached it matches what the batch
      or else the stored table has. */
  ghost predicate Sure(stored: Table, made: Table, now: Table, i: TxInput, height: nat) {
    var k := KeyOf(i);
    && (k in now ==> Matches(now[k], i, height))
    && if k in made then Matches(made[k], i, height) else k in stored && Matches(stored[k], i, height)
  }

  ghost predicate SureAt(stored: Table, start: Table, txs: seq<Tx>, proposer: Addr, applied: set<Hash>,
        invalid: set<Hash>, height: nat, n: nat)
    requires n < |txs|
  {
    txs[n].txid in applied || (
      && (txs[n].coinbase || txs[n].txid !in invalid) && DistinctInputs(txs[n]) && Balanced(txs[n])
      && forall i :: 0 <= i < |txs[n].inputs| ==>
           Sure(stored, MadeOver(txs[..n], applied), Before(start, txs, proposer, applied, n), txs[n].inputs[i],
                height))
  }

  lemma {:induction false} SureGoes(stored: Table, start: Table, txs: seq<Tx>, proposer: Addr, applied: set<Hash>,
        invalid: set<Hash>, hot: Table, height: nat, n: nat)
    requires n < |txs| && Within(hot, Before(start, txs, proposer, applied, n))
    requires SureAt(stored, start, txs, proposer, applied, invalid, height, n)
    ensures TurnError(stored, txs, applied, invalid, hot, height, n) == None
  {
    var made, now := MadeOver(txs[..n], applied), Before(start, txs, proposer, applied, n);
    var s := Sight(hot, made, stored);
    PassedIff(s, txs[n], height);
    if txs[n].txid !in applied {
      forall i | 0 <= i < |txs[n].inputs| ensures Shown(s, txs[n].inputs[i], height) {
        assert Sure(stored, made, now, txs[n].inputs[i], height);
      }
    }
  }

  lemma {:induction false} GoesIsSure(stored: Table, start: Table, txs: seq<Tx>, proposer: Addr, applied: set<Hash>,
        invalid: set<Hash>, height: nat, n: nat)
    requires n < |txs|
    requires TurnError(stored, txs, applied, invalid, map[], height, n) == None
    requires TurnError(stored, txs, applied, invalid, Before(start, txs, proposer, applied, n), height, n) == None
    ensures SureAt(stored, start, txs, proposer, applied, invalid, height, n)
  {
    var made, now := MadeOver(txs[..n], applied), Before(start, txs, proposer, applied, n);
    var empty: Table := map[];
    PassedIff(Sight(empty, made, stored), txs[n], height);
    PassedIff(Sight(now, made, stored), txs[n], height);
    if txs[n].txid !in applied {
      forall i | 0 <= i < |txs[n].inputs| ensures Sure(stored, made, now, txs[n].inputs[i], height) {
        assert Shown(Sight(empty, made, stored), txs[n].inputs[i], height);
        assert Shown(Sight(now, made, stored), txs[n].inputs[i], height);
      }
    }
  }

  ghost function NoCache(txs: seq<Tx>): seq<Table> {
    seq(|txs|, _ => map[])
  }

  ghost function FullCache(start: Table, txs: seq<Tx>, proposer: Addr, applied: set<Hash>): seq<Table> {
    seq(|txs|, n requires 0 <= n < |txs| => Before(start, txs, proposer, applied, n))
  }

  /** A block goes through whatever the cache has dropped, if and only if each transaction that is not applied yet is
      not refused, balances, and has distinct inputs that match what is there now and, with nothing cached, what the
      batch or else the stored table has. */
  lemma {:induction false} AlwaysGoesIff(stored: Table, start: Table, txs: seq<Tx>, proposer: Addr, applied: set<Hash>,
        invalid: set<Hash>, height: nat)
    ensures (forall hots :: Caches(start, txs, proposer, applied, hots) ==>
               BlockError(stored, txs, applied, invalid, hots, height) == None)
            <==> forall n :: 0 <= n < |txs| ==> SureAt(stored, start, txs, proposer, applied, invalid, height, n)
  {
    if forall n :: 0 <= n < |txs| ==> SureAt(stored, start, txs, proposer, applied, invalid, height, n) {
      forall hots | Caches(start, txs, proposer, applied, hots)
        ensures BlockError(stored, txs, applied, invalid, hots, height) == None
      {
        forall n | 0 <= n < |txs| ensures TurnError(stored, txs, applied, invalid, hots[n], height, n) == None {
          SureGoes(stored, start, txs, proposer, applied, invalid, hots[n], height, n);
        }
        ErrorIff(stored, txs, applied, invalid, hots, height, |txs|);
      }
    }
    if forall hots :: Caches(start, txs, proposer, applied, hots) ==>
          BlockError(stored, txs, applied, invalid, hots, height) == None
    {
      var none, full := NoCache(txs), FullCache(start, txs, proposer, applied);
      assert Caches(start, txs, proposer, applied, none) && Caches(start, txs, proposer, applied, full);
      ErrorIff(stored, txs, applied, invalid, none, height, |txs|);
      ErrorIff(stored, txs, applied, invalid, full, height, |txs|);
      forall n | 0 <= n < |txs| ensures SureAt(stored, start, txs, proposer, applied, invalid, height, n) {
        assert none[n] == map[] && full[n] == Before(start, txs, proposer, applied, n);
        GoesIsSure(stored, start, txs, proposer, applied, invalid, height, n);
      }
    }
  }

  // ----- When it can change nothing

  /** What the batch has under a key that is no fee: outputs made in it, and otherwise what was there at the start. */
  lemma {:induction false} MadeAt(start: Table, txs: seq<Tx>, proposer: Addr, applied: set<Hash>, k: Key)
    requires forall a :: 0 <= a < |txs| ==> k !in Fees(txs[a], proposer)
    ensures
      var made, now := MadeOver(txs, applied), Through(start, PlayedAll(txs, proposer, applied));
      && (k in made ==> k in now && made[k] == now[k])
      && (k in now && k !in made ==> k in start && start[k] == now[k])
  {
    if txs != [] {
      var n := |txs| - 1;
      MadeAt(start, txs[..n], proposer, applied, k);
      assert k !in Fees(txs[n], proposer);
      assert PlayedAll(txs, proposer, applied)[..n] == PlayedAll(txs[..n], proposer, applied);
    }
  }

  /** The input names no fee paid earlier in the block, and nothing that undoing conflicts has brought back. */
  ghost predicate PlainKey(stored: Table, start: Table, txs: seq<Tx>, proposer: Addr, n: nat, k: Key)
    requires n <= |txs|
  {
    && (forall a :: 0 <= a < n ==> k !in Fees(txs[a], proposer))
    && (k in start ==> k in stored && stored[k] == start[k])
  }

  ghost predicate PlainAt(stored: Table, start: Table, txs: seq<Tx>, proposer: Addr, n: nat)
    requires n < |txs|
  {
    forall i :: 0 <= i < |txs[n].inputs| ==> PlainKey(stored, start, txs, proposer, n, KeyOf(txs[n].inputs[i]))
  }

  ghost predicate Plain(stored: Table, start: Table, txs: seq<Tx>, proposer: Addr, applied: set<Hash>) {
    forall n :: 0 <= n < |txs| && txs[n].txid !in applied ==> PlainAt(stored, start, txs, proposer, n)
  }

  lemma {:induction false} PlainTells(stored: Table, start: Table, txs: seq<Tx>, proposer: Addr, applied: set<Hash>,
        hot: Table, n: nat, k: Key)
    requires n < |txs| && PlainKey(stored, start, txs, proposer, n, k)
    requires Within(hot, Before(start, txs, proposer, applied, n))
    ensures Tells(Sight(hot, MadeOver(txs[..n], applied), stored), Before(start, txs, proposer, applied, n), k)
  {
    assert forall a :: 0 <= a < n ==> txs[..n][a] == txs[a];
    MadeAt(start, txs[..n], proposer, applied, k);
  }

  /** Transaction n is applied already, or not refused and passable in its turn. */
  ghost predicate PassableAt(stored: Table, start: Table, txs: seq<Tx>, proposer: Addr, applied: set<Hash>,
        invalid: set<Hash>, height: nat, n: nat)
    requires n < |txs|
  {
    txs[n].txid in applied || (
      && (txs[n].coinbase || txs[n].txid !in invalid)
      && Passable(stored, Before(start, txs, proposer, applied, n), txs[n], height))
  }

  lemma {:induction false} TurnIff(stored: Table, start: Table, txs: seq<Tx>, proposer: Addr, applied: set<Hash>,
        invalid: set<Hash>, hot: Table, height: nat, n: nat)
    requires n < |txs| && (txs[n].txid in applied || PlainAt(stored, start, txs, proposer, n))
    requires Within(hot, Before(start, txs, proposer, applied, n))
    ensures TurnError(stored, txs, applied, invalid, hot, height, n) == None <==>
            PassableAt(stored, start, txs, proposer, applied, invalid, height, n)
  {
    var s, now := Sight(hot, MadeOver(txs[..n], applied), stored), Before(start, txs, proposer, applied, n);
    if txs[n].txid !in applied {
      forall i | 0 <= i < |txs[n].inputs| ensures Tells(s, now, KeyOf(txs[n].inputs[i])) {
        assert PlainKey(stored, start, txs, proposer, n, KeyOf(txs[n].inputs[i]));
        PlainTells(stored, start, txs, proposer, applied, hot, n, KeyOf(txs[n].inputs[i]));
      }
      PassesIff(s, now, txs[n], height);
    }
  }

  /** A block none of whose inputs names a fee paid in the block or an entry that undoing conflicts has brought back
      goes through, with any cache, if and only if each transaction that is not applied yet is not refused and is
      passable: it balances and its distinct inputs match what is there in its turn, or was stored and is spent by now.
      */
  lemma {:induction false} GoesThroughIff(stored: Table, start: Table, txs: seq<Tx>, proposer: Addr,
        applied: set<Hash>, invalid: set<Hash>, hots: seq<Table>, height: nat)
    requires Caches(start, txs, proposer, applied, hots) && Plain(stored, start, txs, proposer, applied)
    ensures BlockError(stored, txs, applied, invalid, hots, height) == None <==>
            forall n :: 0 <= n < |txs| ==> PassableAt(stored, start, txs, proposer, applied, invalid, height, n)
  {
    ErrorIff(stored, txs, applied, invalid, hots, height, |txs|);
    forall n | 0 <= n < |txs|
      ensures TurnError(stored, txs, applied, invalid, hots[n], height, n) == None <==>
              PassableAt(stored, start, txs, proposer, applied, invalid, height, n)
    {
      TurnIff(stored, start, txs, proposer, applied, invalid, hots[n], height, n);
    }
  }

  lemma {:induction false} SameTurn(stored: Table, start: Table, txs: seq<Tx>, proposer: Addr, applied: set<Hash>,
        invalid: set<Hash>, hot: Table, other: Table, height: nat, n: nat)
    requires n < |txs| && (txs[n].txid in applied || PlainAt(stored, start, txs, proposer, n))
    requires Within(hot, Before(start, txs, proposer, applied, n))
    requires Within(other, Before(start, txs, proposer, applied, n))
    ensures TurnError(stored, txs, applied, invalid, hot, height, n) ==
            TurnError(stored, txs, applied, invalid, other, height, n)
  {
    var made, now := MadeOver(txs[..n], applied), Before(start, txs, proposer, applied, n);
    if txs[n].txid !in applied {
      forall i | 0 <= i < |txs[n].inputs|
        ensures Tells(Sight(hot, made, stored), now, KeyOf(txs[n].inputs[i]))
        ensures Tells(Sight(other, made, stored), now, KeyOf(txs[n].inputs[i]))
      {
        assert PlainKey(stored, start, txs, proposer, n, KeyOf(txs[n].inputs[i]));
        PlainTells(stored, start, txs, proposer, applied, hot, n, KeyOf(txs[n].inputs[i]));
        PlainTells(stored, start, txs, proposer, applied, other, n, KeyOf(txs[n].inputs[i]));
      }
      VerdictTold(Sight(hot, made, stored), Sight(other, made, stored), now, txs[n], height, |txs[n].inputs|);
    }
  }

  /** And which error it meets does not depend on the cache either. */
  lemma {:induction false} CacheDoesNotMatter(stored: Table, start: Table, txs: seq<Tx>, proposer: Addr,
        applied: set<Hash>, invalid: set<Hash>, hots: seq<Table>, others: seq<Table>, height: nat, n: nat)
    requires Caches(start, txs, proposer, applied, hots) && Caches(start, txs, proposer, applied, others)
    requires Plain(stored, start, txs, proposer, applied) && n <= |txs|
    ensures ErrorTo(stored, txs, applied, invalid, hots, height, n) ==
            ErrorTo(stored, txs, applied, invalid, others, height, n)
  {
    if n > 0 {
      CacheDoesNotMatter(stored, start, txs, proposer, applied, invalid, hots, others, height, n - 1);
      SameTurn(stored, start, txs, proposer, applied, invalid, hots[n - 1], others[n - 1], height, n - 1);
    }
  }

  // ----- Valid blocks

  /** Nothing stands in the way of the transaction: it is not refused, none of its inputs is frozen, and none names a
      fee paid earlier in the block. */
  ghost predicate ClearAt(txs: seq<Tx>, proposer: Addr, invalid: set<Hash>, height: nat, n: nat)
    requires n < |txs|
  {
    && (txs[n].coinbase || txs[n].txid !in invalid)
    && forall i :: 0 <= i < |txs[n].inputs| ==>
         && txs[n].inputs[i].frozen <= height && txs[n].inputs[i].frozen != -1
         && forall a :: 0 <= a < n ==> KeyOf(txs[n].inputs[i]) !in Fees(txs[a], proposer)
  }

  lemma {:induction false} MadeByOuts(txs: seq<Tx>, applied: set<Hash>, k: Key)
    requires k in MadeOver(txs, applied)
    ensures exists b :: 0 <= b < |txs| && k in Outs(txs[b])
  {
    var n := |txs| - 1;
    if txs[n].txid in applied || k !in Outs(txs[n]) {
      MadeByOuts(txs[..n], applied, k);
      var b :| 0 <= b < n && k in Outs(txs[..n][b]);
      assert txs[..n][b] == txs[b];
    }
  }

  /** A fee paid in a valid block is neither in the table nor among the outputs made. */
  lemma {:induction false} FeeOnlyCached(t: Table, txs: seq<Tx>, proposer: Addr, n: nat, a: nat, k: Key)
    requires n <= |txs| && DistinctIds(txs) && a < n && k in Fees(txs[a], proposer)
    requires Settled(txs[a], proposer).made.Keys !! t.Keys
    ensures k !in t && k !in MadeOver(txs[..n], {})
  {
    SettledTagged(txs[a], proposer);
    if k in MadeOver(txs[..n], {}) {
      MadeByOuts(txs[..n], {}, k);
      var b :| 0 <= b < n && k in Outs(txs[..n][b]);
      assert txs[..n][b] == txs[b];
      SettledTagged(txs[b], proposer);
    }
  }

  lemma {:induction false} FitsAt(t: Table, txs: seq<Tx>, proposer: Addr, n: nat)
    requires BlockFits(t, txs, proposer) && n < |txs|
    ensures TxFits(t, BlockTable(t, txs[..n], proposer), txs[n], proposer)
    decreases |txs|
  {
    var last := |txs| - 1;
    if n < last {
      FitsAt(t, txs[..last], proposer, n);
      assert txs[..last][..n] == txs[..n];
    }
  }

  lemma {:induction false} BeforeIsBlock(t: Table, txs: seq<Tx>, proposer: Addr, n: nat)
    requires n <= |txs|
    ensures Before(t, txs, proposer, {}, n) == BlockTable(t, txs[..n], proposer)
  {
    assert PlayedAll(txs[..n], proposer, {}) == SettledAll(txs[..n], proposer);
    BlockThrough(t, txs[..n], proposer);
  }

  /** In a valid block, an input that names no fee of the block finds its entry with or without the cache. */
  lemma {:induction false} FoundAnyway(t: Table, txs: seq<Tx>, proposer: Addr, n: nat, i: nat)
    requires BlockFits(t, txs, proposer) && n < |txs| && i < |txs[n].inputs|
    requires forall a :: 0 <= a < n ==> KeyOf(txs[n].inputs[i]) !in Fees(txs[a], proposer)
    ensures
      var k, made, now := KeyOf(txs[n].inputs[i]), MadeOver(txs[..n], {}), Before(t, txs, proposer, {}, n);
      && k in now && now[k] == Item(txs[n].inputs[i].amount, txs[n].inputs[i].frozen)
      && if k in made then made[k] == now[k] else k in t && t[k] == now[k]
  {
    var k := KeyOf(txs[n].inputs[i]);
    FitsAt(t, txs, proposer, n);
    BeforeIsBlock(t, txs, proposer, n);
    SpentAt(txs[n], |txs[n].inputs|, i);
    assert forall a :: 0 <= a < n ==> txs[..n][a] == txs[a];
    MadeAt(t, txs[..n], proposer, {}, k);
  }

  lemma {:induction false} FeeNotSure(t: Table, txs: seq<Tx>, proposer: Addr, n: nat, a: nat, i: TxInput, now: Table,
        height: nat)
    requires BlockFits(t, txs, proposer) && a < n < |txs| && KeyOf(i) in Fees(txs[a], proposer)
    ensures !Sure(t, MadeOver(txs[..n], {}), now, i, height)
  {
    ReplaysIff(t, txs, proposer);
    FitsAt(t, txs, proposer, a);
    FeeOnlyCached(t, txs, proposer, n, a, KeyOf(i));
  }

  lemma {:induction false} InputSureIff(t: Table, txs: seq<Tx>, proposer: Addr, height: nat, n: nat, i: nat)
    requires BlockFits(t, txs, proposer) && n < |txs| && i < |txs[n].inputs|
    ensures Sure(t, MadeOver(txs[..n], {}), Before(t, txs, proposer, {}, n), txs[n].inputs[i], height) <==>
            && txs[n].inputs[i].frozen <= height && txs[n].inputs[i].frozen != -1
            && forall a :: 0 <= a < n ==> KeyOf(txs[n].inputs[i]) !in Fees(txs[a], proposer)
  {
    var now := Before(t, txs, proposer, {}, n);
    if a :| 0 <= a < n && KeyOf(txs[n].inputs[i]) in Fees(txs[a], proposer) {
      FeeNotSure(t, txs, proposer, n, a, txs[n].inputs[i], now, height);
    } else {
      FoundAnyway(t, txs, proposer, n, i);
    }
  }

  lemma {:induction false} SureIsClear(t: Table, txs: seq<Tx>, proposer: Addr, invalid: set<Hash>, height: nat, n: nat)
    requires BlockFits(t, txs, proposer) && n < |txs|
    ensures SureAt(t, t, txs, proposer, {}, invalid, height, n) <==> ClearAt(txs, proposer, invalid, height, n)
  {
    FitsAt(t, txs, proposer, n);
    forall i | 0 <= i < |txs[n].inputs|
      ensures Sure(t, MadeOver(txs[..n], {}), Before(t, txs, proposer, {}, n), txs[n].inputs[i], height) <==>
              && txs[n].inputs[i].frozen <= height && txs[n].inputs[i].frozen != -1
              && forall a :: 0 <= a < n ==> KeyOf(txs[n].inputs[i]) !in Fees(txs[a], proposer)
    {
      InputSureIff(t, txs, proposer, height, n, i);
    }
  }

  /** A valid block goes through whatever the cache has dropped, if and only if none of its transactions is refused, it
      spends nothing frozen, and it spends no fee that it pays itself. */
  lemma {:induction false} ValidGoesIff(t: Table, txs: seq<Tx>, proposer: Addr, invalid: set<Hash>, height: nat)
    requires BlockFits(t, txs, proposer)
    ensures (forall hots :: Caches(t, txs, proposer, {}, hots) ==>
               BlockError(t, txs, {}, invalid, hots, height) == None)
            <==> forall n :: 0 <= n < |txs| ==> ClearAt(txs, proposer, invalid, height, n)
  {
    AlwaysGoesIff(t, t, txs, proposer, {}, invalid, height);
    forall n | 0 <= n < |txs|
      ensures SureAt(t, t, txs, proposer, {}, invalid, height, n) <==> ClearAt(txs, proposer, invalid, height, n)
    {
      SureIsClear(t, txs, proposer, invalid, height, n);
    }
  }
}
