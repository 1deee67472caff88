/** The two-sided walk that finds the chains between two blocks and their lowest common ancestor. */
module TreeWalk {
  import opened Tree

  /** Both sides have walked down their own parent chain and have not met. */
  ghost predicate Apart(t: Shape, cur: Hash, dest: Hash, f: nat, o: Hash, n: Hash, undo: seq<Hash>, todo: seq<Hash>,
        visited: set<Hash>) {
    && Forest(t) && cur in t && dest in t && o in t && n in t && IsFork(t, cur, dest, f)
    && OnPath(t, cur, o) && OnPath(t, dest, n)
    && f <= t[o].height && f <= t[n].height && (f < t[o].height || f < t[n].height)
    && undo == ChainTo(t, cur, t[o].height) && todo == ChainTo(t, dest, t[n].height)
    && forall x :: x in visited <==> x in undo || x in todo
  }

  /** Drop the meeting point from the end of a chain. */
  function Trim(c: seq<Hash>, s: Hash): seq<Hash>
    requires c != []
  {
    if c[|c| - 1] == s then c[..|c| - 1] else c
  }

  ghost predicate MetAt(t: Shape, cur: Hash, dest: Hash, f: nat, s: Hash, undo: seq<Hash>, todo: seq<Hash>) {
    && Forest(t) && cur in t && dest in t && IsFork(t, cur, dest, f)
    && s == Anc(t, cur, f) && undo != [] && todo != []
    && Trim(undo, s) == ChainDown(t, cur, f) && Trim(todo, s) == ChainDown(t, dest, f)
  }

  lemma WalkApart(t: Shape, cur: Hash, dest: Hash, f: nat)
    requires Forest(t) && cur in t && dest in t && IsFork(t, cur, dest, f) && cur != dest
    ensures Apart(t, cur, dest, f, cur, dest, [cur], [dest], {cur, dest})
  {
  }

  /** A chain down to the fork, or to just above it, is the excluded chain once the fork is trimmed. */
  lemma TrimChain(t: Shape, b: Hash, f: nat, lo: nat)
    requires Forest(t) && b in t && f <= lo <= f + 1 && lo <= t[b].height
    ensures Trim(ChainTo(t, b, lo), Anc(t, b, f)) == ChainDown(t, b, f)
  {
    if lo == f + 1 {
      ChainToStep(t, b, lo, f);
      assert ChainTo(t, b, lo)[t[b].height - lo] == Anc(t, b, lo);
    } else {
      assert ChainTo(t, b, f)[t[b].height - f] == Anc(t, b, f);
      assert ChainTo(t, b, f)[..t[b].height - f] == ChainDown(t, b, f);
    }
  }

  /** One step on the higher (or level) side either lands on the fork or stays apart. */
  lemma OldStep(t: Shape, cur: Hash, dest: Hash, f: nat, o: Hash, n: Hash, undo: seq<Hash>, todo: seq<Hash>,
        visited: set<Hash>)
    requires Apart(t, cur, dest, f, o, n, undo, todo, visited)
    requires t[o].pre != Empty && t[o].height >= t[n].height
    ensures t[o].pre in t && t[t[o].pre].height + 1 == t[o].height
    ensures t[o].pre in visited ==> MetAt(t, cur, dest, f, t[o].pre, undo, todo)
    ensures t[o].pre !in visited ==> Apart(t, cur, dest, f, t[o].pre, n, undo + [t[o].pre], todo, visited + {t[o].pre})
  {
    assert Linked(t, o);
    var p, h := t[o].pre, t[o].height;
    var below := t[p].height;
    AncStep(t, cur, below);
    ChainToMember(t, cur, h, p);
    ChainToMember(t, dest, t[n].height, p);
    ChainToStep(t, cur, h, below);
    if below <= t[dest].height {
      ForkSplits(t, cur, dest, f, below);
    }
    if p in visited {
      TrimChain(t, cur, f, h);
      TrimChain(t, dest, f, t[n].height);
    }
  }

  lemma ApartSwap(t: Shape, cur: Hash, dest: Hash, f: nat, o: Hash, n: Hash, undo: seq<Hash>, todo: seq<Hash>,
        visited: set<Hash>)
    requires Apart(t, cur, dest, f, o, n, undo, todo, visited)
    ensures Apart(t, dest, cur, f, n, o, todo, undo, visited)
  {
  }

  lemma NewStep(t: Shape, cur: Hash, dest: Hash, f: nat, o: Hash, n: Hash, undo: seq<Hash>, todo: seq<Hash>,
        visited: set<Hash>)
    requires Apart(t, cur, dest, f, o, n, undo, todo, visited)
    requires t[n].pre != Empty && t[n].height >= t[o].height
    ensures t[n].pre in t && t[t[n].pre].height + 1 == t[n].height
    ensures t[n].pre in visited ==> MetAt(t, cur, dest, f, t[n].pre, undo, todo)
    ensures t[n].pre !in visited ==> Apart(t, cur, dest, f, o, t[n].pre, undo, todo + [t[n].pre], visited + {t[n].pre})
  {
    ApartSwap(t, cur, dest, f, o, n, undo, todo, visited);
    OldStep(t, dest, cur, f, n, o, todo, undo, visited);
    if t[n].pre !in visited {
      ApartSwap(t, dest, cur, f, t[n].pre, o, todo + [t[n].pre], undo, visited + {t[n].pre});
    }
  }

  /** While the sides are apart at least one of them can still step down. */
  lemma ApartCanStep(t: Shape, cur: Hash, dest: Hash, f: nat, o: Hash, n: Hash, undo: seq<Hash>, todo: seq<Hash>,
        visited: set<Hash>)
    requires Apart(t, cur, dest, f, o, n, undo, todo, visited)
    ensures t[o].pre == Empty <==> t[o].height == 0
    ensures t[n].pre == Empty <==> t[n].height == 0
    ensures t[o].height != 0 || t[n].height != 0
  {
    assert Linked(t, o);
    assert Linked(t, n);
  }
}
