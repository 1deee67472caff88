/** The block tree: parent links and heights, ancestors addressed by height, and the fork height of two blocks. */
module Tree {

  /** A block id, transaction id or empty hash; the program only ever compares these byte strings for equality. */
  datatype Hash = Empty | Digest(code: nat)

  datatype Node = Node(pre: Hash, height: nat)

  type Shape = map<Hash, Node>

  /** Parent links stay inside the table and heights count the distance to a block without a parent. */
  ghost predicate Forest(t: Shape) {
    && Empty !in t
    && forall b {:trigger Linked(t, b)} :: b in t ==> Linked(t, b)
  }

  ghost predicate Linked(t: Shape, b: Hash)
    requires b in t
  {
    if t[b].pre == Empty then t[b].height == 0
    else t[b].pre in t && t[b].height == t[t[b].pre].height + 1
  }

  ghost predicate Rooted(t: Shape, root: Hash) {
    && Forest(t)
    && root in t
    && forall b :: b in t ==> (t[b].pre == Empty <==> b == root)
  }

  /** The ancestor of b (or b itself) at height h. */
  ghost function Anc(t: Shape, b: Hash, h: nat): (a: Hash)
    requires Forest(t) && b in t && h <= t[b].height
    ensures a in t && t[a].height == h
    decreases t[b].height
  {
    if t[b].height == h then b else assert Linked(t, b); Anc(t, t[b].pre, h)
  }

  ghost predicate OnPath(t: Shape, tip: Hash, b: Hash)
    requires Forest(t) && tip in t && b in t
  {
    t[b].height <= t[tip].height && Anc(t, tip, t[b].height) == b
  }

  lemma {:induction false} AncTrans(t: Shape, b: Hash, h: nat, k: nat)
    requires Forest(t) && b in t && k <= h <= t[b].height
    ensures Anc(t, Anc(t, b, h), k) == Anc(t, b, k)
    decreases t[b].height
  {
    if t[b].height != h {
      assert Linked(t, b);
      AncTrans(t, t[b].pre, h, k);
    }
  }

  /** One step down an ancestor path is the parent link. */
  lemma AncStep(t: Shape, b: Hash, h: nat)
    requires Forest(t) && b in t && h < t[b].height
    ensures t[Anc(t, b, h + 1)].pre == Anc(t, b, h)
  {
    AncTrans(t, b, h + 1, h);
    assert Linked(t, Anc(t, b, h + 1));
  }

  /** Adding blocks leaves the ancestors of the blocks already there unchanged. */
  lemma {:induction false} AncExtend(t: Shape, u: Shape, b: Hash, h: nat)
    requires Forest(t) && Forest(u) && b in t && h <= t[b].height
    requires forall x :: x in t ==> x in u && u[x] == t[x]
    ensures Anc(u, b, h) == Anc(t, b, h)
    decreases t[b].height
  {
    if t[b].height != h {
      assert Linked(t, b);
      AncExtend(t, u, t[b].pre, h);
    }
  }

  lemma AncRoot(t: Shape, root: Hash, b: Hash)
    requires Rooted(t, root) && b in t
    ensures Anc(t, b, 0) == root
  {
    assert Linked(t, Anc(t, b, 0));
  }

  /** Two paths that meet at some height agree below it. */
  lemma MeetDown(t: Shape, a: Hash, b: Hash, h: nat, k: nat)
    requires Forest(t) && a in t && b in t && k <= h <= t[a].height && h <= t[b].height
    requires Anc(t, a, h) == Anc(t, b, h)
    ensures Anc(t, a, k) == Anc(t, b, k)
  {
    AncTrans(t, a, h, k);
    AncTrans(t, b, h, k);
  }

  /** f is the height of the lowest common ancestor of a and b. */
  ghost predicate IsFork(t: Shape, a: Hash, b: Hash, f: nat)
    requires Forest(t) && a in t && b in t
  {
    && f <= t[a].height && f <= t[b].height
    && Anc(t, a, f) == Anc(t, b, f)
    && forall h :: f < h <= t[a].height && h <= t[b].height ==> Anc(t, a, h) != Anc(t, b, h)
  }

  ghost function Fork(t: Shape, root: Hash, a: Hash, b: Hash): (f: nat)
    requires Rooted(t, root) && a in t && b in t
    ensures IsFork(t, a, b, f)
  {
    AncRoot(t, root, a);
    AncRoot(t, root, b);
    ForkFrom(t, a, b, if t[a].height < t[b].height then t[a].height else t[b].height)
  }

  ghost function ForkFrom(t: Shape, a: Hash, b: Hash, h: nat): (f: nat)
    requires Forest(t) && a in t && b in t && h <= t[a].height && h <= t[b].height
    requires Anc(t, a, 0) == Anc(t, b, 0)
    ensures f <= h && Anc(t, a, f) == Anc(t, b, f)
    ensures forall k :: f < k <= h ==> Anc(t, a, k) != Anc(t, b, k)
  {
    if Anc(t, a, h) == Anc(t, b, h) then h else ForkFrom(t, a, b, h - 1)
  }

  /** Above the fork the paths are apart, at and below it they are the same. */
  lemma ForkSplits(t: Shape, a: Hash, b: Hash, f: nat, h: nat)
    requires Forest(t) && a in t && b in t && IsFork(t, a, b, f)
    requires h <= t[a].height && h <= t[b].height
    ensures Anc(t, a, h) == Anc(t, b, h) <==> h <= f
  {
    if h <= f {
      MeetDown(t, a, b, f, h);
    }
  }

  lemma ForkUnique(t: Shape, a: Hash, b: Hash, f: nat, g: nat)
    requires Forest(t) && a in t && b in t && IsFork(t, a, b, f) && IsFork(t, a, b, g)
    ensures f == g
  {
  }

  /** The lowest common ancestor is above every other common ancestor, and every ancestor of it is common. */
  lemma ForkIsLowestCommonAncestor(t: Shape, a: Hash, b: Hash, f: nat, c: Hash)
    requires Forest(t) && a in t && b in t && c in t && IsFork(t, a, b, f)
    ensures OnPath(t, a, c) && OnPath(t, b, c) <==> OnPath(t, Anc(t, a, f), c)
  {
    var lca := Anc(t, a, f);
    if OnPath(t, lca, c) {
      AncTrans(t, a, f, t[c].height);
      AncTrans(t, b, f, t[c].height);
    }
    if OnPath(t, a, c) && OnPath(t, b, c) {
      ForkSplits(t, a, b, f, t[c].height);
      AncTrans(t, a, f, t[c].height);
    }
  }

  /** The chain of blocks from b down to, but excluding, its ancestor at height f. */
  ghost function ChainDown(t: Shape, b: Hash, f: nat): (c: seq<Hash>)
    requires Forest(t) && b in t && f <= t[b].height
    ensures |c| == t[b].height - f
    ensures forall i :: 0 <= i < |c| ==> c[i] == Anc(t, b, t[b].height - i)
  {
    seq(t[b].height - f, i requires 0 <= i < t[b].height - f => Anc(t, b, t[b].height - i))
  }

  /** The chain of blocks from b down to and including its ancestor at height lo. */
  ghost function ChainTo(t: Shape, b: Hash, lo: nat): (c: seq<Hash>)
    requires Forest(t) && b in t && lo <= t[b].height
    ensures |c| == t[b].height - lo + 1
    ensures forall i :: 0 <= i < |c| ==> c[i] == Anc(t, b, t[b].height - i)
  {
    seq(t[b].height - lo + 1, i requires 0 <= i < t[b].height - lo + 1 => Anc(t, b, t[b].height - i))
  }

  lemma {:induction false} ChainToStep(t: Shape, b: Hash, lo: nat, below: nat)
    requires Forest(t) && b in t && lo <= t[b].height && below + 1 == lo
    ensures ChainTo(t, b, below) == ChainTo(t, b, lo) + [Anc(t, b, below)]
    ensures ChainDown(t, b, below) == ChainTo(t, b, lo)
    ensures ChainTo(t, b, below)[..|ChainTo(t, b, below)| - 1] == ChainDown(t, b, below)
  {
  }

  lemma ChainToMember(t: Shape, b: Hash, lo: nat, x: Hash)
    requires Forest(t) && b in t && lo <= t[b].height && x in t
    ensures x in ChainTo(t, b, lo) <==> lo <= t[x].height && OnPath(t, b, x)
  {
    if lo <= t[x].height && OnPath(t, b, x) {
      assert ChainTo(t, b, lo)[t[b].height - t[x].height] == x;
    }
  }
}
