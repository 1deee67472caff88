/** Finality: what is applied at or below the irreversible height stays. */
module Finality {
  import opened Tree
  import opened Chain
  import opened Machine
  import opened Runs

  /** The applied chain reaches at least to the irreversible height. */
  ghost predicate Anchored(w: World) {
    && At(w.view, w.machine.latest)
    && (if w.machine.latest == Empty then w.machine.irreversible == 0
        else w.machine.irreversible <= w.view[w.machine.latest].height)
  }

  /** Block b is the applied block at height h. */
  ghost predicate AppliedAt(w: World, h: nat, b: Hash) {
    && At(w.view, w.machine.latest) && w.machine.latest in w.view && h <= w.view[w.machine.latest].height
    && Anc(Nodes(w.view), w.machine.latest, h) == b
  }

  lemma {:induction false} StepAnchored(w: World, e: Event)
    requires Anchored(w) && Enabled(w, e)
    ensures Anchored(After(w, e)) && After(w, e).machine.irreversible >= w.machine.irreversible
  {
    var v, m := w.view, w.machine;
    if e.Undone? {
      ParentAt(v, m.latest);
      assert Linked(Nodes(v), m.latest);
    } else if e.Done? || e.Played? || e.Mined? {
      assert Linked(Nodes(v), e.id);
    }
  }

  lemma {:induction false} StepFinal(w: World, e: Event, h: nat, b: Hash)
    requires Anchored(w) && Enabled(w, e) && h <= w.machine.irreversible && AppliedAt(w, h, b)
    ensures AppliedAt(After(w, e), h, b)
  {
    var v, m := w.view, w.machine;
    if e.Undone? {
      assert Linked(Nodes(v), m.latest);
    } else if e.Done? || e.Played? || e.Mined? {
      assert Linked(Nodes(v), e.id);
    } else if e.Extended? {
      AncExtend(Nodes(v), Nodes(e.view), m.latest, h);
    }
  }

  lemma {:induction false} RunAnchored(t: Trace, n: nat)
    requires Run(t) && n < |t.worlds| && Anchored(First(t))
    ensures Anchored(t.worlds[n])
  {
    if n > 0 {
      RunAnchored(t, n - 1);
      assert StepAt(t, n - 1);
      StepAnchored(t.worlds[n - 1], t.events[n - 1]);
    }
  }

  /** Over every run without pruning, whatever fails on the way and whether or not blocks replay, the applied block
      at a height at or below the irreversible height stays from then on. */
  lemma {:induction false} IrreversibleStays(t: Trace, i: nat, j: nat, h: nat, b: Hash)
    requires Run(t) && i <= j < |t.worlds| && Anchored(First(t))
    requires h <= t.worlds[i].machine.irreversible && AppliedAt(t.worlds[i], h, b)
    ensures AppliedAt(t.worlds[j], h, b) && h <= t.worlds[j].machine.irreversible
  {
    if i < j {
      IrreversibleStays(t, i, j - 1, h, b);
      RunAnchored(t, j - 1);
      assert StepAt(t, j - 1);
      StepAnchored(t.worlds[j - 1], t.events[j - 1]);
      StepFinal(t.worlds[j - 1], t.events[j - 1], h, b);
    }
  }

  /** A new machine on an empty tree is anchored, so every run from there has this. */
  lemma {:induction false} BeginsAnchored(m: Machine)
    requires m.latest == Empty && m.irreversible == 0
    ensures Anchored(World(map[], m))
  {
    assert Nodes(map[]) == map[];
  }

  // ----- What the slide window guarantees

  ghost predicate Applies(e: Event) {
    e.Done? || e.Played? || e.Mined?
  }

  /** Every block of the run is applied with this window. */
  ghost predicate FixedWindow(t: Trace, window: nat) {
    forall i :: 0 <= i < |t.events| && Applies(t.events[i]) ==> t.events[i].window == window
  }

  /** Step i applies a block at least the window above height h. */
  ghost predicate Buries(t: Trace, window: nat, i: nat, h: nat) {
    && StepAt(t, i) && Applies(t.events[i])
    && t.worlds[i].view[t.events[i].id].height >= h + window
  }

  lemma {:induction false} StepIrreversible(t: Trace, window: nat, i: nat, h: nat)
    requires StepAt(t, i) && FixedWindow(t, window)
    ensures
      var before, after := t.worlds[i].machine.irreversible, t.worlds[i + 1].machine.irreversible;
      && (window == 0 ==> after == before)
      && (window > 0 ==> (h <= after <==> h <= before || Buries(t, window, i, h)))
  {
  }

  /** A height is irreversible if and only if it was when the run began, or a block at least the window above it has
      been done, played or mined since; that it may have been undone again makes no difference. */
  lemma {:induction false} IrreversibleIff(t: Trace, window: nat, n: nat, h: nat)
    requires Run(t) && FixedWindow(t, window) && window > 0 && n < |t.worlds|
    ensures h <= t.worlds[n].machine.irreversible <==>
            h <= First(t).machine.irreversible || exists i :: 0 <= i < n && Buries(t, window, i, h)
  {
    if n > 0 {
      IrreversibleIff(t, window, n - 1, h);
      assert StepAt(t, n - 1);
      StepIrreversible(t, window, n - 1, h);
    }
  }

  /** The latest block can be undone if and only if it is above where the run began to be irreversible, and no block at
      least the window above it has been applied since. */
  lemma {:induction false} UndoableIff(t: Trace, window: nat, n: nat, skip: set<Hash>)
    requires Run(t) && FixedWindow(t, window) && window > 0 && n < |t.worlds|
    requires t.worlds[n].machine.latest in t.worlds[n].view
    ensures
      var h := t.worlds[n].view[t.worlds[n].machine.latest].height;
      Enabled(t.worlds[n], Undone(skip)) <==>
        h > First(t).machine.irreversible && forall i :: 0 <= i < n ==> !Buries(t, window, i, h)
  {
    IrreversibleIff(t, window, n, t.worlds[n].view[t.worlds[n].machine.latest].height);
  }

  /** With a window of zero nothing more becomes irreversible. */
  lemma {:induction false} NoWindow(t: Trace, n: nat)
    requires Run(t) && FixedWindow(t, 0) && n < |t.worlds|
    ensures t.worlds[n].machine.irreversible == First(t).machine.irreversible
  {
    if n > 0 {
      NoWindow(t, n - 1);
      assert StepAt(t, n - 1);
      StepIrreversible(t, 0, n - 1, 0);
    }
  }
}
