/** UTXO tables and the effects of transactions on them, free of order. */
module Effects {
  import opened Tree
  import opened Transactions

  datatype Key = Key(addr: Addr, txid: Hash, offset: nat)

  datatype Item = Item(amount: nat, frozen: int)

  type Table = map<Key, Item>

  /** What a transaction takes from the table and what it puts there. */
  datatype Effect = Effect(spent: Table, made: Table)

  function Apply(t: Table, e: Effect): Table {
    (t - e.spent.Keys) + e.made
  }

  function Revert(t: Table, e: Effect): Table {
    (t + e.spent) - e.made.Keys
  }

  /** Every entry of a is in b, with the same item. */
  ghost predicate Within(a: Table, b: Table) {
    forall k :: k in a ==> k in b && b[k] == a[k]
  }

  ghost predicate Fits(t: Table, e: Effect) {
    Within(e.spent, t) && e.made.Keys !! t.Keys
  }

  /** Undoing undoes doing exactly when the effect puts no key that is already there, and declares every spent key
      it does not itself put as the table records it. */
  lemma RevertApplyIff(t: Table, e: Effect)
    ensures Revert(Apply(t, e), e) == t <==>
            e.made.Keys !! t.Keys && forall k :: k in e.spent && k !in e.made ==> k in t && t[k] == e.spent[k]
  {
    var r := Revert(Apply(t, e), e);
    if r == t {
      forall k | k in e.made ensures k !in t {
        assert k !in r;
      }
      forall k | k in e.spent && k !in e.made ensures k in t && t[k] == e.spent[k] {
        assert k in r && r[k] == e.spent[k];
      }
    } else if e.made.Keys !! t.Keys && forall k :: k in e.spent && k !in e.made ==> k in t && t[k] == e.spent[k] {
      assert r.Keys == t.Keys;
    }
  }

  lemma RevertApply(t: Table, e: Effect)
    requires Fits(t, e)
    ensures Revert(Apply(t, e), e) == t
  {
    RevertApplyIff(t, e);
  }

  // ----- Webs: effects by txid

  type Web = map<Hash, Effect>

  /** Keys carry the txid that makes them. */
  ghost predicate Tagged(id: Hash, e: Effect) {
    forall k :: k in e.made ==> k.txid == id
  }

  ghost predicate MadeIn(f: Web, k: Key) {
    k.txid in f && k in f[k.txid].made
  }

  ghost predicate SpentIn(f: Web, k: Key) {
    exists id :: id in f && k in f[id].spent
  }

  /** A spent key comes from the table or from another effect of the web, as declared, and nobody else spends it. */
  ghost predicate Supplied(t: Table, f: Web, id: Hash, k: Key)
    requires id in f && k in f[id].spent
  {
    && (forall j :: j in f && k in f[j].spent ==> j == id)
    && if k in t then t[k] == f[id].spent[k]
       else k.txid != id && MadeIn(f, k) && f[k.txid].made[k] == f[id].spent[k]
  }

  /** The effect puts only its own keys, none of them over an entry of the table, and spends supplied keys. */
  ghost predicate Placed(t: Table, f: Web, id: Hash)
    requires id in f
  {
    && Tagged(id, f[id]) && f[id].made.Keys !! t.Keys
    && forall k {:trigger Supplied(t, f, id, k)} :: k in f[id].spent ==> Supplied(t, f, id, k)
  }

  /** No key is spent twice or made over an existing one, and every spent key is supplied. */
  ghost predicate Consistent(t: Table, f: Web) {
    forall id {:trigger Placed(t, f, id)} :: id in f ==> Placed(t, f, id)
  }

  /** r is the table once all effects of the web have happened, in whatever order:
      what was there and what was made, less what was spent. */
  ghost predicate IsNet(t: Table, f: Web, r: Table) {
    && Consistent(t, f)
    && forall k {:trigger NetAt(t, f, r, k)} :: NetAt(t, f, r, k)
  }

  ghost predicate NetAt(t: Table, f: Web, r: Table, k: Key) {
    && (k in r <==> !SpentIn(f, k) && (k in t || MadeIn(f, k)))
    && (k in r ==> r[k] == if k in t then t[k] else if MadeIn(f, k) then f[k.txid].made[k] else r[k])
  }

  lemma NetUnique(t: Table, f: Web, r: Table, s: Table)
    requires IsNet(t, f, r) && IsNet(t, f, s)
    ensures r == s
  {
    forall k ensures k in r <==> k in s {
      assert NetAt(t, f, r, k) && NetAt(t, f, s, k);
    }
    forall k | k in r ensures r[k] == s[k] {
      assert NetAt(t, f, r, k) && NetAt(t, f, s, k);
    }
  }

  lemma EmptyNet(t: Table)
    ensures IsNet(t, map[], t)
  {
  }

  lemma SpentInAdded(f: Web, id: Hash, e: Effect, k: Key)
    requires id !in f
    ensures SpentIn(f[id := e], k) <==> SpentIn(f, k) || k in e.spent
  {
    var g := f[id := e];
    if j :| j in f && k in f[j].spent {
      assert g[j] == f[j];
    }
    if k in e.spent {
      assert g[id] == e;
    }
  }

  /** What is spent was in the table or made by the web. */
  lemma SpentWasThere(t: Table, f: Web, k: Key)
    requires Consistent(t, f) && SpentIn(f, k)
    ensures k in t || MadeIn(f, k)
  {
    var id :| id in f && k in f[id].spent;
    assert Placed(t, f, id);
    assert Supplied(t, f, id, k);
  }

  /** One more effect that fits: the web stays consistent and its table is the effect applied. */
  lemma AddEffect(t: Table, f: Web, r: Table, id: Hash, e: Effect)
    requires IsNet(t, f, r) && id !in f && Tagged(id, e) && e.made.Keys !! t.Keys && Within(e.spent, r)
    ensures IsNet(t, f[id := e], Apply(r, e))
  {
    var g := f[id := e];
    AddConsistent(t, f, r, id, e);
    forall k ensures NetAt(t, g, Apply(r, e), k) {
      assert NetAt(t, f, r, k);
      SpentInAdded(f, id, e, k);
      if k in e.made && SpentIn(f, k) {
        SpentWasThere(t, f, k);
      }
    }
  }

  lemma AddConsistent(t: Table, f: Web, r: Table, id: Hash, e: Effect)
    requires IsNet(t, f, r) && id !in f && Tagged(id, e) && e.made.Keys !! t.Keys && Within(e.spent, r)
    ensures Consistent(t, f[id := e])
  {
    var g := f[id := e];
    forall j | j in g ensures Placed(t, g, j) {
      if j != id { assert Placed(t, f, j); }
      forall k | k in g[j].spent ensures Supplied(t, g, j, k) {
        assert NetAt(t, f, r, k);
        if j != id { assert Supplied(t, f, j, k); }
      }
    }
  }

  lemma SpentInRemoved(f: Web, id: Hash, k: Key)
    requires id in f
    ensures SpentIn(f, k) <==> SpentIn(f - {id}, k) || k in f[id].spent
  {
    var g := f - {id};
    if j :| j in g && k in g[j].spent {
      assert f[j] == g[j];
    }
    if j :| j in f && k in f[j].spent {
      if j != id { assert g[j] == f[j]; }
    }
  }

  /** No other effect of the web spends what this one made. */
  ghost predicate Unused(f: Web, id: Hash)
    requires id in f
  {
    forall j, k :: j in f && j != id && k in f[id].made ==> k !in f[j].spent
  }

  lemma UnusedIsUnspent(t: Table, f: Web, id: Hash, k: Key)
    requires Consistent(t, f) && id in f && Unused(f, id) && k in f[id].made
    ensures !SpentIn(f, k)
  {
    assert Placed(t, f, id);
    assert k in f[id].spent ==> Supplied(t, f, id, k);
  }

  /** Removing an effect nobody depends on is undoing it. */
  lemma RemoveEffect(t: Table, f: Web, r: Table, id: Hash)
    requires IsNet(t, f, r) && id in f && Unused(f, id)
    ensures IsNet(t, f - {id}, Revert(r, f[id]))
  {
    var g := f - {id};
    assert Placed(t, f, id);
    forall j | j in g ensures Placed(t, g, j) {
      assert Placed(t, f, j);
      forall k | k in g[j].spent ensures Supplied(t, g, j, k) {
        assert Supplied(t, f, j, k);
      }
    }
    forall k ensures NetAt(t, g, Revert(r, f[id]), k) {
      RemovedAt(t, f, r, id, k);
    }
  }

  lemma RemovedAt(t: Table, f: Web, r: Table, id: Hash, k: Key)
    requires IsNet(t, f, r) && id in f && Unused(f, id) && Consistent(t, f - {id})
    ensures NetAt(t, f - {id}, Revert(r, f[id]), k)
  {
    var g := f - {id};
    assert NetAt(t, f, r, k);
    assert Placed(t, f, id);
    SpentInRemoved(f, id, k);
    assert forall j :: j in g ==> f[j] == g[j];
    if k in f[id].spent {
      assert Supplied(t, f, id, k);
    }
    if k in f[id].made && SpentIn(g, k) {
      SpentWasThere(t, g, k);
    }
  }

  /** Paying fees: an effect makes further keys of its own that were nowhere before. */
  lemma SettleEffect(t: Table, f: Web, r: Table, id: Hash, fees: Table)
    requires IsNet(t, f, r) && id in f
    requires forall k :: k in fees ==> k.txid == id && k !in t && k !in f[id].made
    ensures IsNet(t, f[id := Effect(f[id].spent, f[id].made + fees)], r + fees)
  {
    var e := Effect(f[id].spent, f[id].made + fees);
    var g := f[id := e];
    assert Placed(t, f, id);
    forall j | j in g ensures Placed(t, g, j) {
      assert Placed(t, f, j);
      forall k | k in g[j].spent ensures Supplied(t, g, j, k) {
        assert Supplied(t, f, j, k);
      }
    }
    forall k ensures NetAt(t, g, r + fees, k) {
      SettledAt(t, f, r, id, fees, e, k);
    }
  }

  lemma SettledAt(t: Table, f: Web, r: Table, id: Hash, fees: Table, e: Effect, k: Key)
    requires IsNet(t, f, r) && id in f && e == Effect(f[id].spent, f[id].made + fees)
    requires forall k :: k in fees ==> k.txid == id && k !in t && k !in f[id].made
    ensures NetAt(t, f[id := e], r + fees, k)
  {
    var g := f[id := e];
    assert NetAt(t, f, r, k);
    assert forall j :: j in f ==> g[j].spent == f[j].spent;
    assert SpentIn(g, k) <==> SpentIn(f, k);
    if k in fees && SpentIn(f, k) {
      SpentWasThere(t, f, k);
    }
  }

  /** Webs with different txids can be run one after the other, if the first does not wait for the second. */
  lemma NetAfterNet(t: Table, f: Web, r: Table, g: Web, s: Table)
    requires IsNet(t, f, r) && f.Keys !! g.Keys && IsNet(t, f + g, s)
    ensures IsNet(r, g, s)
  {
    var h := f + g;
    forall id | id in g ensures Placed(r, g, id) {
      assert Placed(t, h, id) && h[id] == g[id];
      forall k | k in g[id].made ensures k !in r {
        assert NetAt(t, f, r, k);
      }
      forall k | k in g[id].spent ensures Supplied(r, g, id, k) {
        SuppliedAfter(t, f, r, g, id, k);
      }
    }
    forall k ensures NetAt(r, g, s, k) {
      assert NetAt(t, f, r, k) && NetAt(t, h, s, k);
      SpentInBoth(f, g, k);
      if MadeIn(g, k) {
        assert Placed(t, h, k.txid);
        if SpentIn(f, k) { SpentWasThere(t, f, k); }
      }
    }
  }

  lemma SpentInBoth(f: Web, g: Web, k: Key)
    requires f.Keys !! g.Keys
    ensures SpentIn(f + g, k) <==> SpentIn(f, k) || SpentIn(g, k)
  {
    var h := f + g;
    if j :| j in f && k in f[j].spent { assert h[j] == f[j]; }
    if j :| j in g && k in g[j].spent { assert h[j] == g[j]; }
  }

  lemma SuppliedAfter(t: Table, f: Web, r: Table, g: Web, id: Hash, k: Key)
    requires IsNet(t, f, r) && f.Keys !! g.Keys && Consistent(t, f + g) && id in g && k in g[id].spent
    ensures Supplied(r, g, id, k)
  {
    var h := f + g;
    assert h[id] == g[id] && Placed(t, h, id);
    assert Supplied(t, h, id, k);
    assert NetAt(t, f, r, k);
    assert forall j :: j in f ==> h[j] == f[j];
  }
}
