/** Sequences of effects, done in order and undone in reverse, told key by key: what is left of a key after doing them
    is up to the last effect that touches it, and what is left after undoing them is up to the first. */
module Touch {
  import opened Effects

  function Through(t: Table, es: seq<Effect>): Table {
    if es == [] then t else Apply(Through(t, es[..|es| - 1]), es[|es| - 1])
  }

  function Back(t: Table, es: seq<Effect>): Table
    decreases |es|
  {
    if es == [] then t else Back(Revert(t, es[|es| - 1]), es[..|es| - 1])
  }

  ghost predicate Touches(e: Effect, k: Key) {
    k in e.spent || k in e.made
  }

  ghost predicate Untouched(es: seq<Effect>, k: Key) {
    forall i :: 0 <= i < |es| ==> !Touches(es[i], k)
  }

  ghost predicate FirstTouch(es: seq<Effect>, k: Key, i: nat) {
    i < |es| && Touches(es[i], k) && forall j :: 0 <= j < i ==> !Touches(es[j], k)
  }

  /** The tables have the same under the key. */
  ghost predicate Same(a: Table, b: Table, k: Key) {
    (k in a <==> k in b) && (k in a ==> a[k] == b[k])
  }

  lemma {:induction false} ThroughConcat(t: Table, es: seq<Effect>, fs: seq<Effect>)
    ensures Through(t, es + fs) == Through(Through(t, es), fs)
  {
    if fs == [] {
      assert es + fs == es;
    } else {
      var n := |fs| - 1;
      assert (es + fs)[..|es + fs| - 1] == es + fs[..n];
      ThroughConcat(t, es, fs[..n]);
    }
  }

  lemma {:induction false} BackConcat(t: Table, es: seq<Effect>, fs: seq<Effect>)
    ensures Back(t, es + fs) == Back(Back(t, fs), es)
    decreases |fs|
  {
    if fs == [] {
      assert es + fs == es;
    } else {
      var n := |fs| - 1;
      assert (es + fs)[..|es + fs| - 1] == es + fs[..n];
      BackConcat(Revert(t, fs[n]), es, fs[..n]);
    }
  }

  lemma {:induction false} BackUntouched(t: Table, es: seq<Effect>, k: Key)
    requires Untouched(es, k)
    ensures Same(Back(t, es), t, k)
    decreases |es|
  {
    if es != [] {
      var n := |es| - 1;
      assert !Touches(es[n], k);
      BackUntouched(Revert(t, es[n]), es[..n], k);
    }
  }

  /** Undoing leaves of a key what the first effect that touches it says: nothing if it made it, and otherwise what it
      declared to spend. */
  lemma {:induction false} BackFirst(t: Table, es: seq<Effect>, k: Key, i: nat)
    requires FirstTouch(es, k, i)
    ensures k in Back(t, es) <==> k !in es[i].made
    ensures k in Back(t, es) ==> Back(t, es)[k] == es[i].spent[k]
    decreases |es|
  {
    var n := |es| - 1;
    if i == n {
      BackUntouched(Revert(t, es[n]), es[..n], k);
    } else {
      BackFirst(Revert(t, es[n]), es[..n], k, i);
    }
  }

  lemma {:induction false} FirstOrNone(es: seq<Effect>, k: Key) returns (i: nat)
    ensures if Untouched(es, k) then i == |es| else FirstTouch(es, k, i)
  {
    i := 0;
    while i < |es| && !Touches(es[i], k)
      invariant i <= |es| && forall j :: 0 <= j < i ==> !Touches(es[j], k)
    {
      i := i + 1;
    }
  }

  /** Starting from two tables, doing leaves the same under a key if it is touched, or if it was the same before. */
  lemma {:induction false} ThroughSame(t: Table, u: Table, es: seq<Effect>, k: Key)
    ensures Untouched(es, k) ==> Same(Through(t, es), t, k)
    ensures !Untouched(es, k) || Same(t, u, k) ==> Same(Through(t, es), Through(u, es), k)
  {
    if es != [] {
      var n := |es| - 1;
      ThroughSame(t, u, es[..n], k);
      assert Untouched(es, k) <==> Untouched(es[..n], k) && !Touches(es[n], k);
    }
  }

  /** The first effect that touches the key makes it and it was not there, or spends it as it was there. */
  ghost predicate RestoredAt(t: Table, es: seq<Effect>, k: Key) {
    forall i: nat :: FirstTouch(es, k, i) ==> if k in es[i].made then k !in t else k in t && t[k] == es[i].spent[k]
  }

  /** Undoing from a table that has, of the untouched keys, what t has. */
  lemma {:induction false} RestoredIff(t: Table, u: Table, es: seq<Effect>, k: Key)
    requires Untouched(es, k) ==> Same(u, t, k)
    ensures Same(Back(u, es), t, k) <==> RestoredAt(t, es, k)
  {
    var i := FirstOrNone(es, k);
    if Untouched(es, k) {
      BackUntouched(u, es, k);
    } else {
      BackFirst(u, es, k, i);
      assert forall j: nat :: FirstTouch(es, k, j) ==> j == i;
    }
  }

  lemma {:induction false} SameEverywhere(a: Table, b: Table)
    ensures a == b <==> forall k :: Same(a, b, k)
  {
    if forall k :: Same(a, b, k) {
      assert forall k :: k in a ==> Same(a, b, k);
      assert forall k :: k in b ==> Same(a, b, k);
      assert a == b;
    }
  }

  /** Undoing undoes doing if and only if of every key the first effect that touches it makes it anew, or spends it as
      the table has it. What is spent twice, or declared wrongly later, does not matter. */
  lemma {:induction false} BackInvertsIff(t: Table, es: seq<Effect>)
    ensures Back(Through(t, es), es) == t <==> forall k :: RestoredAt(t, es, k)
  {
    var u := Through(t, es);
    forall k ensures Same(Back(u, es), t, k) <==> RestoredAt(t, es, k) {
      ThroughSame(t, t, es, k);
      RestoredIff(t, u, es, k);
    }
    SameEverywhere(Back(u, es), t);
  }

  /** The other effects touch the key, or the first of these that does is right about it. */
  ghost predicate RecoveredAt(t: Table, es: seq<Effect>, others: seq<Effect>, k: Key) {
    Untouched(others, k) ==> RestoredAt(t, es, k)
  }

  /** Going back over some effects and on over others leaves what the others alone would leave, if and only if of every
      key the others do not touch the first effect gone back over is right. */
  lemma {:induction false} DetourIff(t: Table, es: seq<Effect>, fs: seq<Effect>)
    ensures Through(Back(Through(t, es), es), fs) == Through(t, fs) <==> forall k :: RecoveredAt(t, es, fs, k)
  {
    var u := Back(Through(t, es), es);
    forall k ensures Same(Through(u, fs), Through(t, fs), k) <==> RecoveredAt(t, es, fs, k) {
      ThroughSame(t, t, es, k);
      RestoredIff(t, Through(t, es), es, k);
      ThroughSame(u, t, fs, k);
      ThroughSame(t, t, fs, k);
    }
    SameEverywhere(Through(u, fs), Through(t, fs));
  }

  // ----- Keys with at most one maker

  lemma {:induction false} NeverMade(t: Table, es: seq<Effect>, k: Key)
    requires forall i :: 0 <= i < |es| ==> k !in es[i].made
    ensures k in Through(t, es) <==> k in t && forall i :: 0 <= i < |es| ==> k !in es[i].spent
    ensures k in Through(t, es) ==> Through(t, es)[k] == t[k]
  {
    if es != [] {
      var n := |es| - 1;
      NeverMade(t, es[..n], k);
      assert forall i :: 0 <= i < n ==> es[..n][i] == es[i];
    }
  }

  lemma {:induction false} MadeIfThere(t: Table, es: seq<Effect>, k: Key) returns (a: nat)
    requires k !in t && k in Through(t, es)
    ensures a < |es| && k in es[a].made
  {
    if forall i :: 0 <= i < |es| ==> k !in es[i].made {
      NeverMade(t, es, k);
    }
    a :| a < |es| && k in es[a].made;
  }

  lemma {:induction false} MadeOnce(t: Table, es: seq<Effect>, k: Key, a: nat)
    requires a < |es| && k in es[a].made && forall i :: 0 <= i < |es| && i != a ==> k !in es[i].made
    ensures k in Through(t, es) <==> forall b :: a < b < |es| ==> k !in es[b].spent
    ensures k in Through(t, es) ==> Through(t, es)[k] == es[a].made[k]
  {
    var n := |es| - 1;
    if a < n {
      MadeOnce(t, es[..n], k, a);
      assert forall i :: 0 <= i < n ==> es[..n][i] == es[i];
    }
  }

  lemma {:induction false} MadeOnceAlike(t: Table, u: Table, es: seq<Effect>, fs: seq<Effect>, k: Key, a: nat)
    requires |es| == |fs| && a < |es| && k in es[a].made && k in fs[a].made && es[a].made[k] == fs[a].made[k]
    requires forall i :: 0 <= i < |es| && i != a ==> k !in es[i].made && k !in fs[i].made
    requires forall i :: 0 <= i < |es| ==> (k in es[i].spent <==> k in fs[i].spent)
    ensures Same(Through(t, es), Through(u, fs), k)
  {
    MadeOnce(t, es, k, a);
    MadeOnce(u, fs, k, a);
  }
}
