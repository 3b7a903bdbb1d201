/**
 The remaining steps: goroutines at their leaves, the calling goroutine, and the
 delivery of the result keep the invariant.
 */
module BmtLeaves {
  import opened BmtReference
  import opened BmtMachine
  import opened BmtInvariant
  import opened BmtClimb

  /** A root above the leaves means a last index above zero, and the other way round. */
  lemma RootPositive(w: Plan)
    requires w.Valid()
    ensures w.root > 0 <==> w.x.Last() > 0
  {
    if w.root > 0 {
      LastPositive(w);
    }
  }

  /** A goroutine whose leaf output is pending, with the facts its next step relies on. */
  ghost predicate AtLeaf(w: Plan, init: map<Pos, Node>, s: State, ph: Phases, g: nat) {
    && w.Valid()
    && g < |w.x.segs| == |s.procs|
    && Active(w, Pos(0, g))
    && g < s.launched && ph(Pos(0, g)).Pending?
    && LeafOk(w, init, s, ph, g) && FlagsOk(w, s, Pos(0, g)) && PhaseOk(w, s, ph, Pos(0, g))
    && (g == w.x.Last() ==> s.stage.Running?)
  }

  lemma EnterLeaf(w: Plan, init: map<Pos, Node>, s: State, ph: Phases, g: nat)
    requires Inv(w, init, s, ph) && g < |s.procs| && !s.procs[g].Absent? && ph(Pos(0, g)).Pending?
    requires s.procs[g].Hashing? || (!s.procs[g].Returned? && !s.procs[g].Sending? && s.procs[g].pos.h == 0)
    ensures AtLeaf(w, init, s, ph, g)
  {
    assert Active(w, Pos(0, g));
    assert ProcOk(w, s, ph, g) && LeafOk(w, init, s, ph, g);
  }

  /** Goroutine `g` leaves its leaf with the leaf's output. */
  ghost predicate LeafOutput(w: Plan, s: State, s': State, ph: Phases, g: nat)
    requires w.Valid() && g < |w.x.segs| == |s.procs| && Active(w, Pos(0, g))
  {
    && s' == s.(procs := s'.procs)
    && |s'.procs| == |s.procs| && s'.procs == s.procs[g := s'.procs[g]]
    && PhaseOk(w, s', With(ph, Pos(0, g), Carried(g)), Pos(0, g))
    && ProcOk(w, s', With(ph, Pos(0, g), Carried(g)), g)
  }

  lemma LeafOutputPhases(w: Plan, init: map<Pos, Node>, s: State, s': State, ph: Phases, g: nat)
    requires AtLeaf(w, init, s, ph, g) && LeafOutput(w, s, s', ph, g) && AllPhases(w, s, ph)
    ensures AllPhases(w, s', With(ph, Pos(0, g), Carried(g)))
  {
    forall q | Active(w, q) && q != Pos(0, g)
      ensures PhaseOk(w, s', With(ph, Pos(0, g), Carried(g)), q)
    {
      assert PhaseOk(w, s, ph, q);
      PhaseFrame(w, s, s', ph, With(ph, Pos(0, g), Carried(g)), g, q);
    }
  }

  lemma LeafOutputNodes(w: Plan, init: map<Pos, Node>, s: State, s': State, ph: Phases, g: nat)
    requires AtLeaf(w, init, s, ph, g) && LeafOutput(w, s, s', ph, g) && AllNodes(w, init, s, ph)
    ensures AllNodes(w, init, s', With(ph, Pos(0, g), Carried(g)))
  {
    forall q | Active(w, q) && q.h > 0
      ensures NodeOk(w, init, s', With(ph, Pos(0, g), Carried(g)), q)
    {
      assert NodeOk(w, init, s, ph, q);
    }
  }

  lemma LeafOutputRest(w: Plan, init: map<Pos, Node>, s: State, s': State, ph: Phases, g: nat)
    requires AtLeaf(w, init, s, ph, g) && LeafOutput(w, s, s', ph, g)
    requires AllLeaves(w, init, s, ph) && AllProcs(w, s, ph) && AllFlags(w, s)
    ensures AllLeaves(w, init, s', With(ph, Pos(0, g), Carried(g)))
    ensures AllProcs(w, s', With(ph, Pos(0, g), Carried(g)))
    ensures AllFlags(w, s')
  {
    var ph' := With(ph, Pos(0, g), Carried(g));
    forall k | 0 <= k < |w.x.segs| ensures LeafOk(w, init, s', ph', k) {
      assert LeafOk(w, init, s, ph, k);
    }
    forall j | 0 <= j < |w.x.segs| && j != g ensures ProcOk(w, s', ph', j) {
      assert ProcOk(w, s, ph, j);
      ProcFrame(w, s, s', ph, ph', j);
    }
    forall q | Active(w, q) ensures FlagsOk(w, s', q) {
      assert FlagsOk(w, s, q);
    }
  }

  lemma LeafOutputKeeps(w: Plan, init: map<Pos, Node>, s: State, s': State, ph: Phases, g: nat)
    requires Inv(w, init, s, ph) && AtLeaf(w, init, s, ph, g) && LeafOutput(w, s, s', ph, g)
    ensures Inv(w, init, s', With(ph, Pos(0, g), Carried(g)))
  {
    LeafOutputPhases(w, init, s, s', ph, g);
    LeafOutputNodes(w, init, s, s', ph, g);
    LeafOutputRest(w, init, s, s', ph, g);
  }

  /** A double segment is hashed without visiting its leaf. */
  lemma HashLocal(w: Plan, init: map<Pos, Node>, s: State, ph: Phases, g: nat)
    requires AtLeaf(w, init, s, ph, g) && GoroutineEnabled(w.x, s, g) && s.procs[g].Hashing?
    requires w.root > 0 <==> w.x.Last() > 0
    ensures LeafOutput(w, s, GoroutineStep(w.x, s, g), ph, g)
  {
    var s' := GoroutineStep(w.x, s, g);
    assert s.nodes[Pos(0, g)].root == (w.root == 0);
    assert PhaseOk(w, s', With(ph, Pos(0, g), Carried(g)), Pos(0, g));
    assert ProcOk(w, s', With(ph, Pos(0, g), Carried(g)), g);
  }

  /** The leaf of a lone last segment is unbalanced and hands the segment on, or hashes it if it is the root. */
  lemma LeafCombineLocal(w: Plan, init: map<Pos, Node>, s: State, ph: Phases, g: nat)
    requires AtLeaf(w, init, s, ph, g) && GoroutineEnabled(w.x, s, g) && s.procs[g].Combining?
    requires w.root > 0 <==> w.x.Last() > 0
    ensures LeafOutput(w, s, GoroutineStep(w.x, s, g), ph, g)
  {
    var s' := GoroutineStep(w.x, s, g);
    var n := s.nodes[Pos(0, g)];
    assert n.unbalanced && n.right == [] && n.root == (w.root == 0);
    assert n.left + n.right == w.x.segs[g];
    assert PhaseOk(w, s', With(ph, Pos(0, g), Carried(g)), Pos(0, g));
    assert ProcOk(w, s', With(ph, Pos(0, g), Carried(g)), g);
  }

  /** Goroutine `g` stores into its own leaf or passes its toggle: only the leaf's left slot may change. */
  ghost predicate LeafInner(w: Plan, init: map<Pos, Node>, s: State, s': State, ph: Phases, g: nat)
    requires w.Valid() && g < |w.x.segs| == |s.procs|
  {
    && s' == s.(nodes := s'.nodes, procs := s'.procs)
    && |s'.procs| == |s.procs| && s'.procs == s.procs[g := s'.procs[g]]
    && Pos(0, g) in s.nodes && Pos(0, g) in s'.nodes
    && s'.nodes == s.nodes[Pos(0, g) := s'.nodes[Pos(0, g)]]
    && s'.nodes[Pos(0, g)] == s.nodes[Pos(0, g)].(left := s'.nodes[Pos(0, g)].left)
    && ProcOk(w, s', ph, g)
    && LeafOk(w, init, s', ph, g)
  }

  lemma LeafInnerLocal(w: Plan, init: map<Pos, Node>, s: State, ph: Phases, g: nat)
    requires AtLeaf(w, init, s, ph, g) && GoroutineEnabled(w.x, s, g)
    requires s.procs[g].Storing? || s.procs[g].Toggling?
    ensures LeafInner(w, init, s, GoroutineStep(w.x, s, g), ph, g)
  {
    var s' := GoroutineStep(w.x, s, g);
    assert s.nodes[Pos(0, g)].unbalanced;
    assert s' == s.(nodes := s'.nodes, procs := s'.procs);
    assert s'.nodes == s.nodes[Pos(0, g) := s'.nodes[Pos(0, g)]];
    assert LeafOk(w, init, s', ph, g);
  }

  lemma LeafInnerNodes(w: Plan, init: map<Pos, Node>, s: State, s': State, ph: Phases, g: nat)
    requires AtLeaf(w, init, s, ph, g) && LeafInner(w, init, s, s', ph, g)
    requires AllNodes(w, init, s, ph) && AllFlags(w, s)
    ensures AllNodes(w, init, s', ph) && AllFlags(w, s')
  {
    forall q | Active(w, q) && q.h > 0 ensures NodeOk(w, init, s', ph, q) {
      assert NodeOk(w, init, s, ph, q);
    }
    forall q | Active(w, q) ensures FlagsOk(w, s', q) {
      assert FlagsOk(w, s, q);
    }
  }

  lemma LeafInnerPhases(w: Plan, init: map<Pos, Node>, s: State, s': State, ph: Phases, g: nat)
    requires AtLeaf(w, init, s, ph, g) && LeafInner(w, init, s, s', ph, g) && AllPhases(w, s, ph)
    ensures AllPhases(w, s', ph)
  {
    forall q | Active(w, q) ensures PhaseOk(w, s', ph, q) {
      assert PhaseOk(w, s, ph, q);
      PhaseFrame(w, s, s', ph, ph, g, q);
    }
  }

  lemma LeafInnerProcs(w: Plan, init: map<Pos, Node>, s: State, s': State, ph: Phases, g: nat)
    requires AtLeaf(w, init, s, ph, g) && LeafInner(w, init, s, s', ph, g)
    requires AllLeaves(w, init, s, ph) && AllProcs(w, s, ph)
    ensures AllLeaves(w, init, s', ph) && AllProcs(w, s', ph)
  {
    forall j | 0 <= j < |w.x.segs| && j != g ensures ProcOk(w, s', ph, j) && LeafOk(w, init, s', ph, j) {
      assert ProcOk(w, s, ph, j) && LeafOk(w, init, s, ph, j);
      ProcFrame(w, s, s', ph, ph, j);
      LeafFrame(w, init, s, s', ph, ph, j);
    }
  }

  lemma LeafInnerKeeps(w: Plan, init: map<Pos, Node>, s: State, s': State, ph: Phases, g: nat)
    requires Inv(w, init, s, ph) && AtLeaf(w, init, s, ph, g) && LeafInner(w, init, s, s', ph, g)
    ensures Inv(w, init, s', ph)
  {
    LeafInnerNodes(w, init, s, s', ph, g);
    LeafInnerPhases(w, init, s, s', ph, g);
    LeafInnerProcs(w, init, s, s', ph, g);
  }

  /** Every goroutine step keeps the invariant. */
  lemma GoroutineKeeps(w: Plan, init: map<Pos, Node>, s: State, ph: Phases, g: nat) returns (ph': Phases)
    requires Inv(w, init, s, ph) && GoroutineEnabled(w.x, s, g)
    ensures Inv(w, init, GoroutineStep(w.x, s, g), ph')
  {
    var f := s.procs[g];
    var s' := GoroutineStep(w.x, s, g);
    assert ProcOk(w, s, ph, g);
    RootPositive(w);
    if f.Hashing? {
      EnterLeaf(w, init, s, ph, g);
      HashLocal(w, init, s, ph, g);
      ph' := With(ph, Pos(0, g), Carried(g));
      LeafOutputKeeps(w, init, s, s', ph, g);
    } else if f.pos.h == 0 {
      EnterLeaf(w, init, s, ph, g);
      if f.Combining? {
        LeafCombineLocal(w, init, s, ph, g);
        ph' := With(ph, Pos(0, g), Carried(g));
        LeafOutputKeeps(w, init, s, s', ph, g);
      } else {
        ph' := ph;
        LeafInnerLocal(w, init, s, ph, g);
        LeafInnerKeeps(w, init, s, s', ph, g);
      }
    } else if f.Storing? {
      ph' := StoreStep(w, init, s, ph, g);
    } else if f.Toggling? {
      ph' := ToggleStep(w, init, s, ph, g);
    } else {
      ph' := CombineKeeps(w, init, s, ph, g);
    }
  }
}
