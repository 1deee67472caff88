/** Key ranges for a prefix, and the iterator that starts in the middle of one and wraps around. */
module Ranges {

  newtype Byte = b: int | 0 <= b < 256

  type Key = seq<Byte>

  /** No limit means the range is open at the top. */
  datatype Limit = Open | Upto(key: Key)

  // ----- Order of keys

  predicate Less(a: Key, b: Key) {
    b != [] && (a == [] || a[0] < b[0] || (a[0] == b[0] && Less(a[1..], b[1..])))
  }

  lemma {:induction false} LessTrans(a: Key, b: Key, c: Key)
    requires Less(a, b) && !Less(c, b)
    ensures Less(a, c)
  {
    if a != [] && a[0] == b[0] && b[0] == c[0] {
      LessTrans(a[1..], b[1..], c[1..]);
    }
  }

  predicate InRange(k: Key, start: Key, limit: Limit) {
    !Less(k, start) && (limit.Upto? ==> Less(k, limit.key))
  }

  // ----- Prefixes

  /** The least key above all keys with the prefix. */
  function LimitOf(prefix: Key): Limit {
    if prefix == [] then Open else
    match LimitOf(prefix[1..])
    case Upto(l) => Upto([prefix[0]] + l)
    case Open => if prefix[0] < 255 then Upto([prefix[0] + 1]) else Open
  }

  lemma {:induction false} PrefixStep(prefix: Key, k: Key)
    requires prefix != [] && k != []
    ensures prefix <= k <==> prefix[0] == k[0] && prefix[1..] <= k[1..]
  {
    if prefix <= k {
      assert k[1..][..|prefix| - 1] == prefix[1..];
    }
    if prefix[0] == k[0] && prefix[1..] <= k[1..] {
      assert k[..|prefix|] == [k[0]] + k[1..][..|prefix| - 1] == prefix;
    }
  }

  /** A key has the prefix exactly when it lies in the range. */
  lemma {:induction false} PrefixIff(prefix: Key, k: Key)
    ensures prefix <= k <==> InRange(k, prefix, LimitOf(prefix))
  {
    if prefix != [] && k != [] {
      PrefixStep(prefix, k);
      PrefixIff(prefix[1..], k[1..]);
      match LimitOf(prefix[1..])
      case Upto(l) => assert ([prefix[0]] + l)[1..] == l;
      case Open =>
        if prefix[0] < 255 {
          assert [prefix[0] + 1][1..] == [];
          assert Less(k, [prefix[0] + 1]) <==> k[0] <= prefix[0];
        } else {
          assert k[0] <= prefix[0];
        }
    }
  }

  lemma {:induction false} LimitAt(prefix: Key, i: nat)
    requires i < |prefix| && prefix[i] < 255 && forall j :: i < j < |prefix| ==> prefix[j] == 255
    ensures LimitOf(prefix) == Upto(prefix[..i] + [prefix[i] + 1])
  {
    if i > 0 {
      LimitAt(prefix[1..], i - 1);
      assert prefix[..i] == [prefix[0]] + prefix[1..][..i - 1];
    } else {
      LimitOpen(prefix[1..]);
    }
  }

  lemma {:induction false} LimitOpen(prefix: Key)
    requires forall j :: 0 <= j < |prefix| ==> prefix[j] == 255
    ensures LimitOf(prefix) == Open
  {
    if prefix != [] {
      LimitOpen(prefix[1..]);
    }
  }

  /** From the back, the first byte that can be raised is, and what is behind it is cut off. */
  method BytesPrefix(prefix: Key) returns (start: Key, limit: Limit)
    ensures start == prefix && limit == LimitOf(prefix)
  {
    start, limit := prefix, Open;
    var i := |prefix| - 1;
    while i >= 0
      invariant -1 <= i < |prefix| && forall j :: i < j < |prefix| ==> prefix[j] == 255
    {
      var c := prefix[i];
      if c < 255 {
        var edited := new Byte[i + 1](k requires 0 <= k < i + 1 => prefix[k]);
        edited[i] := c + 1;
        LimitAt(prefix, i);
        assert edited[..] == prefix[..i] + [c + 1];
        return prefix, Upto(edited[..]);
      }
      i := i - 1;
    }
    LimitOpen(prefix);
  }

  // ----- Iterators

  ghost predicate Sorted(db: seq<Key>) {
    forall i, j :: 0 <= i < j < |db| ==> Less(db[i], db[j])
  }

  /** The keys of the range, in the order of the database. */
  function Keys(db: seq<Key>, start: Key, limit: Limit): seq<Key> {
    if db == [] then [] else
    (if InRange(db[0], start, limit) then [db[0]] else []) + Keys(db[1..], start, limit)
  }

  function Prefixed(db: seq<Key>, prefix: Key): seq<Key> {
    if db == [] then [] else (if prefix <= db[0] then [db[0]] else []) + Prefixed(db[1..], prefix)
  }

  lemma {:induction false} RangeIsPrefixed(db: seq<Key>, prefix: Key)
    ensures Keys(db, prefix, LimitOf(prefix)) == Prefixed(db, prefix)
  {
    if db != [] {
      PrefixIff(prefix, db[0]);
      RangeIsPrefixed(db[1..], prefix);
    }
  }

  lemma {:induction false} NoneBelow(db: seq<Key>, start: Key, middle: Key)
    requires forall i :: 0 <= i < |db| ==> !Less(db[i], middle)
    ensures Keys(db, start, Upto(middle)) == []
  {
    if db != [] {
      NoneBelow(db[1..], start, middle);
    }
  }

  lemma {:induction false} LessOneWay(a: Key, b: Key)
    requires Less(a, b)
    ensures !Less(b, a)
  {
    if a != [] && a[0] == b[0] {
      LessOneWay(a[1..], b[1..]);
    }
  }

  /** Where one key of the range lies, seen from a middle key. */
  lemma {:induction false} Side(k: Key, start: Key, limit: Limit, middle: Key)
    requires InRange(middle, start, limit)
    ensures Less(k, middle) ==>
            (InRange(k, start, limit) <==> InRange(k, start, Upto(middle))) && !InRange(k, middle, limit)
    ensures !Less(k, middle) ==> (InRange(k, start, limit) <==> InRange(k, middle, limit))
  {
    if Less(k, middle) {
      if limit.Upto? {
        LessOneWay(middle, limit.key);
        LessTrans(k, middle, limit.key);
      }
    } else if Less(k, start) {
      LessTrans(k, start, middle);
    }
  }

  lemma {:induction false} KeysStep(db: seq<Key>, start: Key, limit: Limit)
    requires db != []
    ensures Keys(db, start, limit) ==
            (if InRange(db[0], start, limit) then [db[0]] else []) + Keys(db[1..], start, limit)
  {
  }

  /** Above a middle key nothing of the range is below it. */
  lemma {:induction false} NoneBelowFirst(db: seq<Key>, start: Key, middle: Key)
    requires Sorted(db) && db != [] && !Less(db[0], middle)
    ensures Keys(db, start, Upto(middle)) == []
  {
    forall i | 0 <= i < |db| ensures !Less(db[i], middle) {
      if i > 0 && Less(db[i], middle) {
        LessOneWay(db[i], middle);
        LessTrans(db[0], db[i], middle);
      }
    }
    NoneBelow(db, start, middle);
  }

  lemma {:induction false} NothingFirst(k: Key, below: seq<Key>, above: seq<Key>)
    requires below == []
    ensures [k] + above == below + ([k] + above) && below + above == above && [] + above == above
  {
  }

  /** A range is what lies below a middle key of it and then what does not. */
  lemma {:induction false} Split(db: seq<Key>, start: Key, limit: Limit, middle: Key)
    requires Sorted(db) && InRange(middle, start, limit)
    ensures Keys(db, start, limit) == Keys(db, start, Upto(middle)) + Keys(db, middle, limit)
  {
    if db != [] {
      var k, below, above := db[0], Keys(db[1..], start, Upto(middle)), Keys(db[1..], middle, limit);
      Split(db[1..], start, limit, middle);
      Side(k, start, limit, middle);
      KeysStep(db, start, limit);
      KeysStep(db, start, Upto(middle));
      KeysStep(db, middle, limit);
      if Less(k, middle) {
        assert [k] + (below + above) == ([k] + below) + above;
      } else {
        NoneBelowFirst(db, start, middle);
        assert below == [];
        NothingFirst(k, below, above);
      }
    }
  }

  /** The keys with the prefix: exactly those of the database, each once and in order. */
  lemma {:induction false} PrefixedExact(db: seq<Key>, prefix: Key)
    requires Sorted(db)
    ensures forall k :: k in Prefixed(db, prefix) <==> k in db && prefix <= k
    ensures Sorted(Prefixed(db, prefix))
  {
    if db != [] {
      PrefixedExact(db[1..], prefix);
      var rest := Prefixed(db[1..], prefix);
      assert db == [db[0]] + db[1..];
      forall i | 0 <= i < |rest| ensures Less(db[0], rest[i]) {
        assert rest[i] in rest;
        var j :| 0 <= j < |db[1..]| && db[1..][j] == rest[i];
        assert db[j + 1] == rest[i];
      }
    }
  }

  lemma {:induction false} Rotated(all: seq<Key>, below: seq<Key>, above: seq<Key>)
    requires all == below + above
    ensures |below| <= |all| && above + below == all[|below|..] + all[..|below|]
  {
    assert all[..|below|] == below && all[|below|..] == above;
  }

  /** Iterators one after the other: each delivers its keys in turn. */
  class QuickIterator {
    const lists: seq<seq<Key>>
    var cur: nat
    var pos: nat

    ghost predicate Valid()
      reads this
    {
      1 <= |lists| <= 2 && cur < |lists| && pos <= |lists[cur]|
    }

    ghost function All(): seq<Key>
      requires 1 <= |lists| <= 2
    {
      if |lists| == 1 then lists[0] else lists[0] + lists[1]
    }

    /** How many keys have been delivered. */
    ghost function Count(): nat
      requires Valid()
      reads this
    {
      if cur == 0 then pos else |lists[0]| + pos
    }

    /** With a middle key, the keys from there to the end of the prefix range and then those from its start to the
        middle key: when that key has the prefix, a rotation of the sorted keys with the prefix. */
    constructor (db: seq<Key>, prefix: Key, middle: Key)
      requires Sorted(db)
      ensures Valid() && Count() == 0
      ensures All() == Keys(db, middle, LimitOf(prefix)) + Keys(db, prefix, Upto(middle))
      ensures prefix <= middle ==>
                exists n :: 0 <= n <= |Prefixed(db, prefix)|
                    && All() == Prefixed(db, prefix)[n..] + Prefixed(db, prefix)[..n]
    {
      var start, limit := BytesPrefix(prefix);
      lists := [Keys(db, middle, limit), Keys(db, start, Upto(middle))];
      cur, pos := 0, 0;
      if prefix <= middle {
        PrefixIff(prefix, middle);
        Split(db, prefix, limit, middle);
        RangeIsPrefixed(db, prefix);
        Rotated(Prefixed(db, prefix), Keys(db, prefix, Upto(middle)), Keys(db, middle, limit));
      }
    }

    /** Without a middle key, the keys with the prefix in order. */
    constructor FromStart(db: seq<Key>, prefix: Key)
      ensures Valid() && Count() == 0 && All() == Prefixed(db, prefix)
    {
      lists, cur, pos := [Prefixed(db, prefix)], 0, 0;
    }

    /** Advance; every key is delivered exactly once, in order. */
    method Next() returns (ok: bool)
      requires Valid()
      modifies this
      ensures Valid() && (ok <==> old(Count()) < |All()|) && Count() == old(Count()) + if ok then 1 else 0
      ensures ok ==> pos > 0 && lists[cur][pos - 1] == All()[old(Count())]
    {
      if cur == 0 {
        if pos < |lists[0]| {
          pos := pos + 1;
          return true;
        }
        if |lists| == 1 { return false; }
        cur, pos := 1, 0;
      }
      ok := pos < |lists[cur]|;
      if ok {
        pos := pos + 1;
      }
    }

    /** The key delivered last. */
    method Key() returns (k: Key)
      requires Valid() && pos > 0
      ensures k == All()[Count() - 1]
    {
      k := lists[cur][pos - 1];
    }
  }
}
