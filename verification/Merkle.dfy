/** The Merkle tree of a block, built in place in one array, against plain level-by-level pairing. */
module Merkle {
  import opened Powers
  import opened Tree

  datatype Cell = Nil | Sum(hash: Hash)

  function Log2(n: nat): (e: nat)
    requires n > 0
    ensures Pow2(e) <= n < 2 * Pow2(e)
  {
    if n == 1 then 0 else Log2(n / 2) + 1
  }

  /** The number of leaf slots: the least power of two that holds them all. */
  function GetLeafSize(n: nat): (size: nat)
    requires n > 0
    ensures n <= size < 2 * n && exists e: nat :: size == Pow2(e)
  {
    var e := Log2(n);
    if n == Pow2(e) then n else assert Pow2(e + 1) == 2 * Pow2(e); Pow2(e + 1)
  }

  // ----- Level by level

  /** The level above: neighbours paired, an odd last one paired with itself. */
  function Above(pair: (Hash, Hash) -> Hash, s: seq<Hash>): (r: seq<Hash>)
    ensures |r| == (|s| + 1) / 2
  {
    seq((|s| + 1) / 2, i requires 0 <= i < (|s| + 1) / 2 =>
      if 2 * i + 1 < |s| then pair(s[2 * i], s[2 * i + 1]) else pair(s[2 * i], s[2 * i]))
  }

  function Root(pair: (Hash, Hash) -> Hash, s: seq<Hash>): Hash
    requires s != []
    decreases |s|
  {
    if |s| == 1 then s[0] else Root(pair, Above(pair, s))
  }

  // ----- In the array

  function Join(pair: (Hash, Hash) -> Hash, left: Cell, right: Cell): Cell {
    if left == Nil then Nil
    else if right == Nil then Sum(pair(left.hash, left.hash))
    else Sum(pair(left.hash, right.hash))
  }

  /** A level as it lies in the array: its hashes, then empty cells up to size m. */
  ghost predicate Lies(a: seq<Cell>, start: nat, m: nat, s: seq<Hash>) {
    && start + m <= |a| && |s| <= m < 2 * |s|
    && forall i {:trigger LiesAt(a, start, s, i)} :: 0 <= i < m ==> LiesAt(a, start, s, i)
  }

  ghost predicate LiesAt(a: seq<Cell>, start: nat, s: seq<Hash>, i: nat) {
    start + i < |a| && a[start + i] == if i < |s| then Sum(s[i]) else Nil
  }

  /** The first n cells from position size on join the two cells they stand for. */
  ghost predicate Joined(pair: (Hash, Hash) -> Hash, a: seq<Cell>, size: nat, n: nat) {
    forall k {:trigger JoinedAt(pair, a, size, k)} :: 0 <= k < n ==> JoinedAt(pair, a, size, k)
  }

  ghost predicate JoinedAt(pair: (Hash, Hash) -> Hash, a: seq<Cell>, size: nat, k: nat) {
    && size + k < |a| && 2 * k + 1 < |a|
    && a[size + k] == Join(pair, a[2 * k], a[2 * k + 1])
  }

  lemma {:induction false} JoinOne(pair: (Hash, Hash) -> Hash, a: seq<Cell>, size: nat, n: nat)
    requires |a| == 2 * size - 1 && n < size - 1 && Joined(pair, a, size, n)
    ensures Joined(pair, a[size + n := Join(pair, a[2 * n], a[2 * n + 1])], size, n + 1)
  {
    var b := a[size + n := Join(pair, a[2 * n], a[2 * n + 1])];
    forall k | 0 <= k < n + 1 ensures JoinedAt(pair, b, size, k) {
      if k < n { assert JoinedAt(pair, a, size, k); }
    }
  }

  lemma {:induction false} LevelAbove(pair: (Hash, Hash) -> Hash, a: seq<Cell>, size: nat, m: nat, half: nat,
        s: seq<Hash>)
    requires |a| == 2 * size - 1 && Joined(pair, a, size, size - 1)
    requires m == 2 * half && 0 < half && m <= size && Lies(a, 2 * (size - m), m, s)
    ensures Lies(a, 2 * (size - half), half, Above(pair, s))
  {
    var start, above := 2 * (size - m), 2 * (size - half);
    forall i | 0 <= i < half ensures LiesAt(a, above, Above(pair, s), i) {
      assert JoinedAt(pair, a, size, size - m + i);
      assert LiesAt(a, start, s, 2 * i) && LiesAt(a, start, s, 2 * i + 1);
    }
  }

  /** The last cell of the array is the root of any level that lies in it. */
  lemma {:induction false} LastIsRoot(pair: (Hash, Hash) -> Hash, a: seq<Cell>, size: nat, e: nat, s: seq<Hash>)
    requires |a| == 2 * size - 1 && Joined(pair, a, size, size - 1)
    requires Pow2(e) <= size && Lies(a, 2 * (size - Pow2(e)), Pow2(e), s)
    ensures a[|a| - 1] == Sum(Root(pair, s))
    decreases e
  {
    if e == 0 {
      assert LiesAt(a, 2 * (size - 1), s, 0);
    } else {
      LevelAbove(pair, a, size, Pow2(e), Pow2(e - 1), s);
      LastIsRoot(pair, a, size, e - 1, Above(pair, s));
    }
  }

  /** The tree as stored: the leaves first, the root last. A block without transactions has none. */
  method MakeMerkleTree(pair: (Hash, Hash) -> Hash, ids: seq<Hash>) returns (tree: array<Cell>)
    ensures fresh(tree)
    ensures ids == [] ==> tree.Length == 0
    ensures ids != [] ==>
              && tree.Length == 2 * GetLeafSize(|ids|) - 1
              && (forall i :: 0 <= i < |ids| ==> tree[i] == Sum(ids[i]))
              && tree[tree.Length - 1] == Sum(Root(pair, ids))
  {
    if ids == [] {
      return new Cell[0];
    }
    var n, size := |ids|, GetLeafSize(|ids|);
    var treeSize := size * 2 - 1;
    tree := new Cell[treeSize](i => Nil);
    var used := 0;
    for i := 0 to n
      invariant used == i
      invariant forall k :: 0 <= k < treeSize ==> tree[k] == if k < i then Sum(ids[k]) else Nil
    {
      used := Alloc(used, treeSize);
      tree[i] := Sum(ids[i]);
    }
    JoinInto(pair, tree, size, ids, used);
    ghost var e: nat :| size == Pow2(e);
    forall k | 0 <= k < size ensures LiesAt(tree[..], 0, ids, k) {
      assert tree[..][k] == tree[k];
    }
    LastIsRoot(pair, tree[..], size, e, ids);
  }

  /** Fill the cells behind the leaves, two by two. */
  method JoinInto(pair: (Hash, Hash) -> Hash, tree: array<Cell>, size: nat, ids: seq<Hash>, slots: nat)
    requires 0 < size && tree.Length == 2 * size - 1 && slots == |ids| <= size
    modifies tree
    ensures Joined(pair, tree[..], size, size - 1)
    ensures forall k :: 0 <= k < size ==> tree[k] == old(tree[k])
  {
    var i, offset, used := 0, size, slots;
    while i < tree.Length - 1
      invariant i == 2 * (offset - size) && size <= offset <= tree.Length
      invariant 0 <= used <= slots + (offset - size)
      invariant forall k :: 0 <= k < size ==> tree[k] == old(tree[k])
      invariant Joined(pair, tree[..], size, offset - size)
    {
      JoinOne(pair, tree[..], size, offset - size);
      if tree[i] == Nil {
        tree[offset] := Nil;
      } else if tree[i + 1] == Nil {
        used := Alloc(used, tree.Length);
        tree[offset] := Sum(pair(tree[i].hash, tree[i].hash));
      } else {
        used := Alloc(used, tree.Length);
        tree[offset] := Sum(pair(tree[i].hash, tree[i + 1].hash));
      }
      i, offset := i + 2, offset + 1;
    }
  }

  /** The arena hands out the next slot; it has one left whenever it is asked. */
  method Alloc(used: nat, slots: nat) returns (more: nat)
    requires used < slots
    ensures more == used + 1
  {
    more := used + 1;
  }

  method VerifyMerkle(pair: (Hash, Hash) -> Hash, ids: seq<Hash>, claimed: Hash) returns (ok: bool)
    ensures ok <==> ids != [] && claimed == Root(pair, ids)
  {
    var tree := MakeMerkleTree(pair, ids);
    if tree.Length == 0 { return false; }
    return tree[tree.Length - 1] == Sum(claimed);
  }
}
